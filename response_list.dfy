/** components/response-list.tsx: the replies under the opponent's words, each with a
    favourite toggle and a follow-up button. React state becomes the fields of a class. */
module ResponseList {
  import opened Wrappers
  import opened Text
  import opened Types
  import opened BrowserStorage
  import opened FavoriteList
  import Api

  /** `${opponentWords}-${response}-${Date.now()}`; `nowMs` is the clock reading. */
  function FavoriteId(opponentWords: string, response: string, nowMs: nat): string {
    opponentWords + "-" + response + "-" + NatToString(nowMs)
  }

  /** The last progress report, or `''` when there was none. */
  function LastReport(updates: seq<string>): string {
    if updates == [] then "" else updates[|updates| - 1]
  }

  class ResponseListView {
    const opponentWords: string
    const style: ArgumentStyle
    const responses: seq<ResponseType>
    const local: WebStorage
    var favorites: seq<FavoriteEntry>
    /** The response whose follow-up is being generated (`followUpLoading`). */
    var followUpLoading: Option<string>
    var followUpResults: map<string, string>
    var streamingFollowUp: map<string, string>

    /** The `useState` initialiser: read the favourites key, migrating the old format and
        writing the migrated list back. */
    constructor (opponentWords: string, responses: seq<ResponseType>, style: ArgumentStyle,
                 local: WebStorage, now: string)
      modifies local
      ensures this.opponentWords == opponentWords && this.style == style && this.responses == responses
      ensures this.local == local
      ensures favorites == Load(old(local.Get(FavoritesKey)), now).favorites
      ensures Load(old(local.Get(FavoritesKey)), now).rewrite ==>
        local.items == old(local.items)[FavoritesKey := Parsed(FavoriteArray(favorites))]
      ensures !Load(old(local.Get(FavoritesKey)), now).rewrite ==> local.items == old(local.items)
      ensures followUpLoading == None && followUpResults == map[] && streamingFollowUp == map[]
    {
      var loaded := Load(local.Get(FavoritesKey), now);
      this.opponentWords := opponentWords;
      this.style := style;
      this.responses := responses;
      this.local := local;
      favorites := loaded.favorites;
      followUpLoading := None;
      followUpResults := map[];
      streamingFollowUp := map[];
      new;
      if loaded.rewrite {
        local.SetItem(FavoritesKey, FavoriteArray(loaded.favorites));
      }
    }

    /** `isFavorited`. */
    function IsFavorited(text: string): (b: bool)
      reads this
      ensures b <==> exists k :: 0 <= k < |favorites| && Matching(favorites[k], text, opponentWords)
    {
      FavoriteList.IsFavorited(favorites, text, opponentWords)
    }

    /** `followUpResults[text]` is truthy. */
    predicate HasFollowUp(text: string)
      reads this
    {
      text in followUpResults && followUpResults[text] != ""
    }

    /** The follow-up button is enabled: not loading for this response, and no result yet. */
    predicate FollowUpEnabled(text: string)
      reads this
    {
      followUpLoading != Some(text) && !HasFollowUp(text)
    }

    /** The follow-up button's caption. */
    function FollowUpLabel(text: string): (caption: string)
      reads this
      ensures caption == "追问" <==> FollowUpEnabled(text)
      ensures followUpLoading == Some(text) ==> caption == "生成中..."
    {
      if followUpLoading == Some(text) then "生成中..." else if HasFollowUp(text) then "已追问" else "追问"
    }

    /** `toggleFavorite`: the state and the stored list both become the toggled list. */
    method ToggleFavorite(response: string, nowMs: nat, now: string)
      modifies this, local
      ensures favorites ==
        Toggle(old(favorites), response, opponentWords, style, FavoriteId(opponentWords, response, nowMs), now)
      ensures local.items == old(local.items)[FavoritesKey := Parsed(FavoriteArray(favorites))]
      ensures followUpLoading == old(followUpLoading) && followUpResults == old(followUpResults)
      ensures streamingFollowUp == old(streamingFollowUp)
      ensures old(Unique(favorites)) ==> Unique(favorites) && IsFavorited(response) == !old(IsFavorited(response))
    {
      ghost var before := favorites;
      var newFavorites := Toggle(favorites, response, opponentWords, style, FavoriteId(opponentWords, response, nowMs), now);
      if Unique(before) {
        ToggleFlips(before, response, opponentWords, style, FavoriteId(opponentWords, response, nowMs), now);
      }
      favorites := newFavorites;
      local.SetItem(FavoritesKey, FavoriteArray(newFavorites));
    }

    /** What `handleFollowUp` does before its `await`: mark the response as loading and
        clear its streamed text. */
    method BeginFollowUp(text: string)
      modifies this
      ensures followUpLoading == Some(text) && !FollowUpEnabled(text)
      ensures streamingFollowUp == old(streamingFollowUp)[text := ""]
      ensures favorites == old(favorites) && followUpResults == old(followUpResults)
    {
      followUpLoading := Some(text);
      streamingFollowUp := streamingFollowUp[text := ""];
    }

    /** What happens after the `await`: each progress report replaces the streamed text;
        a result is stored and the streamed text cleared; a rejection keeps the last
        streamed text; loading ends either way. */
    method FinishFollowUp(text: string, result: Settled<string>, updates: seq<string>)
      modifies this
      ensures followUpLoading == None && favorites == old(favorites)
      ensures result.Resolved? ==>
        followUpResults == old(followUpResults)[text := result.value] &&
        streamingFollowUp == old(streamingFollowUp)[text := ""]
      ensures result.Rejected? ==>
        followUpResults == old(followUpResults) &&
        streamingFollowUp == if updates == [] then old(streamingFollowUp) else old(streamingFollowUp)[text := LastReport(updates)]
    {
      if updates != [] {
        streamingFollowUp := streamingFollowUp[text := updates[|updates| - 1]];
      }
      if result.Resolved? {
        followUpResults := followUpResults[text := result.value];
        streamingFollowUp := streamingFollowUp[text := ""];
      }
      followUpLoading := None;
    }

    /** `handleFollowUp` with the fetch outcome given; `pick` is the random fallback index.
        Once a follow-up arrives, that response's button stays disabled. */
    method HandleFollowUp(text: string, outcome: Api.FetchOutcome, pick: nat)
      returns (result: Settled<string>, updates: seq<string>)
      requires pick < 3
      modifies this
      ensures followUpLoading == None && favorites == old(favorites)
      ensures result.Rejected? <==> Api.StreamRejects(outcome)
      ensures Api.FailsEarly(outcome) ==> result == Resolved(Api.FallbackFollowUps(style)[pick])
      ensures result.Resolved? ==>
        followUpResults == old(followUpResults)[text := result.value] &&
        streamingFollowUp == old(streamingFollowUp)[text := ""] &&
        !FollowUpEnabled(text)
      ensures result.Rejected? ==>
        followUpResults == old(followUpResults) &&
        streamingFollowUp == old(streamingFollowUp)[text := LastReport(updates)]
    {
      BeginFollowUp(text);
      result, updates := Api.GenerateFollowUp(FollowUpRequest(opponentWords, text, style), outcome, pick);
      FinishFollowUp(text, result, updates);
    }
  }
}
