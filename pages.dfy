/** app/favorites/page.tsx: the favourites page's list, its load effect and its buttons. */
module FavoritesPage {
  import opened Wrappers
  import opened Types
  import opened BrowserStorage
  import opened FavoriteList

  /** The conversation `restoreConversation` hands to the home page for a favourite:
      its one reply, marked as coming from the favourites page. */
  function RestoreState(f: FavoriteEntry): ConversationState {
    ConversationState(f.opponentWords, f.style, [ResponseType(f.text)], f.timestamp, FromFavorites)
  }

  class Page {
    const local: WebStorage
    const session: WebStorage
    var favorites: seq<FavoriteEntry>

    constructor (local: WebStorage, session: WebStorage)
      ensures this.local == local && this.session == session && favorites == []
    {
      this.local := local;
      this.session := session;
      favorites := [];
    }

    /** The mount effect: nothing happens when the key is missing or blank; otherwise
        the list is read as the response list reads it, migrated text included. */
    method LoadEffect(now: string)
      modifies this, local
      ensures old(local.Get(FavoritesKey)) in {None, Some(Blank)} ==>
        favorites == old(favorites) && local.items == old(local.items)
      ensures old(local.Get(FavoritesKey)) !in {None, Some(Blank)} ==>
        favorites == Load(old(local.Get(FavoritesKey)), now).favorites
      ensures Load(old(local.Get(FavoritesKey)), now).rewrite ==>
        local.items == old(local.items)[FavoritesKey := Parsed(FavoriteArray(favorites))]
      ensures !Load(old(local.Get(FavoritesKey)), now).rewrite ==> local.items == old(local.items)
    {
      var stored := local.Get(FavoritesKey);
      if stored != None && stored != Some(Blank) {
        var loaded := Load(stored, now);
        favorites := loaded.favorites;
        if loaded.rewrite {
          local.SetItem(FavoritesKey, FavoriteArray(loaded.favorites));
        }
      }
    }

    /** `clearFavorites`: the key is deleted and the list emptied. */
    method ClearFavorites()
      modifies this, local
      ensures favorites == [] && local.items == old(local.items) - {FavoritesKey}
    {
      local.RemoveItem(FavoritesKey);
      favorites := [];
    }

    /** `removeFavorite`: exactly the entries with another id stay; the state and the key agree. */
    method RemoveFavorite(id: string)
      modifies this, local
      ensures favorites == WithoutId(old(favorites), id)
      ensures forall f :: f in favorites <==> f in old(favorites) && f.id != id
      ensures local.items == old(local.items)[FavoritesKey := Parsed(FavoriteArray(favorites))]
    {
      favorites := WithoutId(favorites, id);
      local.SetItem(FavoritesKey, FavoriteArray(favorites));
    }

    /** `restoreConversation`: the restore slot gets the favourite's conversation. */
    method RestoreConversation(f: FavoriteEntry)
      modifies session
      ensures session.items == old(session.items)[RestoreKey := Parsed(RestorePayload(RestoreState(f)))]
      ensures var st := RestoreState(f);
        st.responses == [ResponseType(f.text)] && st.origin == FromFavorites &&
        st.opponentWords == f.opponentWords && st.style == f.style && st.timestamp == f.timestamp
    {
      session.SetItem(RestoreKey, RestorePayload(RestoreState(f)));
    }
  }
}

/** app/history/page.tsx: the history page's list, its load effect and the per-record texts. */
module HistoryPage {
  import opened Wrappers
  import opened Text
  import opened Types
  import opened BrowserStorage

  /** The conversation `restoreConversation` hands over for a history record. */
  function RestoreState(e: HistoryEntry): ConversationState {
    ConversationState(e.opponentWords, e.style, e.responses, e.timestamp, FromHistory)
  }

  const MoreOpen: string := " （还有"
  const MoreClose: string := "条...）"

  /** The preview line: the first reply's text (nothing when there is none), then
      ` （还有N条...）` with N the number of further replies, only when there are any. */
  function Preview(e: HistoryEntry): (text: string)
    ensures e.responses == [] ==> text == ""
    ensures |e.responses| == 1 ==> text == e.responses[0].text
    ensures |e.responses| > 1 ==> |text| > |e.responses[0].text| && text[..|e.responses[0].text|] == e.responses[0].text
  {
    var first := if e.responses == [] then "" else e.responses[0].text;
    if |e.responses| > 1 then first + MoreOpen + NatToString(|e.responses| - 1) + MoreClose else first
  }

  /** The number in a preview's suffix reads back as the count of hidden replies. */
  lemma PreviewCount(e: HistoryEntry)
    requires |e.responses| > 1
    ensures var t := Preview(e);
      var from := |e.responses[0].text| + |MoreOpen|;
      var to := |t| - |MoreClose|;
      from <= to && t[from..to] == NatToString(|e.responses| - 1) &&
      DigitsValue(t[from..to]) == |e.responses| - 1
  {
    var first := e.responses[0].text;
    var digits := NatToString(|e.responses| - 1);
    var t := Preview(e);
    assert t == first + MoreOpen + digits + MoreClose;
    assert t[|first| + |MoreOpen|..|t| - |MoreClose|] == digits;
    NatToStringValue(|e.responses| - 1);
  }

  const CountOpen: string := "我的回击（"
  const CountClose: string := "条）："

  /** `我的回击（N条）：` with N the number of replies. */
  function CountLabel(e: HistoryEntry): string {
    CountOpen + NatToString(|e.responses|) + CountClose
  }

  /** The count label's number reads back as the number of replies, so records with
      different counts get different labels. */
  lemma CountLabelValue(e: HistoryEntry)
    ensures var t := CountLabel(e);
      |CountOpen| <= |t| - |CountClose| &&
      DigitsValue(t[|CountOpen|..|t| - |CountClose|]) == |e.responses|
  {
    var digits := NatToString(|e.responses|);
    var t := CountLabel(e);
    assert t[|CountOpen|..|t| - |CountClose|] == digits;
    NatToStringValue(|e.responses|);
  }

  class Page {
    const local: WebStorage
    const session: WebStorage
    var history: seq<HistoryEntry>

    constructor (local: WebStorage, session: WebStorage)
      ensures this.local == local && this.session == session && history == []
    {
      this.local := local;
      this.session := session;
      history := [];
    }

    /** The mount effect: a missing or blank key leaves the list empty as it was; stored
        records are used as they are; text that does not parse makes the effect throw
        (there is no `try` around `JSON.parse`), which `threw` reports. */
    method LoadEffect() returns (threw: bool)
      requires HoldsHistory(local.Get(HistoryKey))
      modifies this
      ensures threw <==> old(local.Get(HistoryKey)) == Some(Unparsable)
      ensures old(local.Get(HistoryKey)) in {None, Some(Blank), Some(Unparsable)} ==> history == old(history)
      ensures old(local.Get(HistoryKey)).Some? && old(local.Get(HistoryKey)).value.Parsed? ==>
        history == old(local.Get(HistoryKey)).value.value.entries
    {
      var stored := local.Get(HistoryKey);
      threw := false;
      match stored
      case Some(Parsed(value)) => history := value.entries;
      case Some(Unparsable) => threw := true;
      case _ =>
    }

    /** `clearHistory`: the key is deleted and the list emptied. */
    method ClearHistory()
      modifies this, local
      ensures history == [] && local.items == old(local.items) - {HistoryKey}
    {
      local.RemoveItem(HistoryKey);
      history := [];
    }

    /** `restoreConversation`: the restore slot gets the record's conversation, every reply included. */
    method RestoreConversation(e: HistoryEntry)
      modifies session
      ensures session.items == old(session.items)[RestoreKey := Parsed(RestorePayload(RestoreState(e)))]
      ensures var st := RestoreState(e);
        st.responses == e.responses && st.origin == FromHistory &&
        st.opponentWords == e.opponentWords && st.style == e.style && st.timestamp == e.timestamp
    {
      session.SetItem(RestoreKey, RestorePayload(RestoreState(e)));
    }
  }
}
