/** The records of lib/types.ts and the style tag lookups shared by the pages. */
module Types {
  import opened Wrappers

  /** The seven response styles. */
  datatype ArgumentStyle = Fire | Sarcastic | Logical | Cute | Dumb | Reasonable | Meme

  /** The tag spelling used on the wire and in storage. */
  function StyleName(style: ArgumentStyle): string {
    match style
    case Fire => "fire"
    case Sarcastic => "sarcastic"
    case Logical => "logical"
    case Cute => "cute"
    case Dumb => "dumb"
    case Reasonable => "reasonable"
    case Meme => "meme"
  }

  /** The display label of each style. */
  function LabelOf(style: ArgumentStyle): string {
    match style
    case Fire => "火力全开"
    case Sarcastic => "阴阳怪气"
    case Logical => "逻辑鬼才"
    case Cute => "撒娇卖萌"
    case Dumb => "装傻充愣"
    case Reasonable => "讲个道理"
    case Meme => "表情包斗法"
  }

  /** The style a tag names, if any. */
  function StyleOf(name: string): (r: Option<ArgumentStyle>)
    ensures r.Some? ==> StyleName(r.value) == name
  {
    if name == "fire" then Some(Fire)
    else if name == "sarcastic" then Some(Sarcastic)
    else if name == "logical" then Some(Logical)
    else if name == "cute" then Some(Cute)
    else if name == "dumb" then Some(Dumb)
    else if name == "reasonable" then Some(Reasonable)
    else if name == "meme" then Some(Meme)
    else None
  }

  /** Every style's tag reads back as that style, so no two styles share a tag. */
  lemma StyleOfName(st: ArgumentStyle)
    ensures StyleOf(StyleName(st)) == Some(st)
  {
  }

  lemma StyleOfNames()
    ensures forall st :: StyleOf(StyleName(st)) == Some(st)
  {
    forall st { StyleOfName(st); }
  }

  /** `getStyleLabel`: the label of a known tag, any other string unchanged. */
  function StyleLabel(style: string): (shown: string)
    ensures forall st :: style == StyleName(st) ==> shown == LabelOf(st)
    ensures (forall st :: style != StyleName(st)) ==> shown == style
  {
    StyleOfNames();
    match StyleOf(style)
    case Some(st) => LabelOf(st)
    case None => style
  }

  /** One generated reply. The optional `translation` field is never set by the core. */
  datatype ResponseType = ResponseType(text: string)

  datatype HistoryEntry = HistoryEntry(
    opponentWords: string,
    style: ArgumentStyle,
    responses: seq<ResponseType>,
    timestamp: string)

  datatype FavoriteEntry = FavoriteEntry(
    text: string,
    opponentWords: string,
    style: ArgumentStyle,
    timestamp: string,
    id: string)

  datatype FollowUpRequest = FollowUpRequest(
    originalOpponentWords: string,
    originalResponse: string,
    style: ArgumentStyle)

  /** Which page wrote a restore payload (`fromFavorites` / `fromHistory`). */
  datatype RestoreOrigin = FromFavorites | FromHistory | Unmarked

  /** The conversation state handed to the home page through the restore slot. */
  datatype ConversationState = ConversationState(
    opponentWords: string,
    style: ArgumentStyle,
    responses: seq<ResponseType>,
    timestamp: string,
    origin: RestoreOrigin)

  /** How a promise settles: with a value, or rejected with a reason. */
  datatype Settled<+T> = Resolved(value: T) | Rejected(reason: string)
}
