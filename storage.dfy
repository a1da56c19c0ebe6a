/** `localStorage` and `sessionStorage`: a map from key to stored text, where the text is
    kept as what `JSON.parse` makes of it. */
module BrowserStorage {
  import opened Wrappers
  import opened Types

  const FavoritesKey: string := "favorites"
  const HistoryKey: string := "argumentHistory"
  const RestoreKey: string := "restoreConversation"

  /** The JSON values the app writes or meets under its keys. */
  datatype JsonValue =
    | FavoriteArray(favorites: seq<FavoriteEntry>)
      /** The old favourites format: an array whose first element is a string. */
    | StringArray(texts: seq<string>)
    | HistoryArray(entries: seq<HistoryEntry>)
    | RestorePayload(state: ConversationState)
      /** Any other JSON value: not an array, or an array of something else. */
    | OtherValue

  /** A stored text: the empty string (falsy to `if (stored)`), text that `JSON.parse`
      rejects, or the value it parses to. */
  datatype Stored = Blank | Unparsable | Parsed(value: JsonValue)

  class WebStorage {
    var items: map<string, Stored>

    constructor (initial: map<string, Stored>)
      ensures items == initial
    {
      items := initial;
    }

    /** `getItem`: `None` for `null`. */
    function Get(key: string): (r: Option<Stored>)
      reads this
      ensures r.Some? <==> key in items
      ensures r.Some? ==> r.value == items[key]
    {
      if key in items then Some(items[key]) else None
    }

    /** `setItem(key, JSON.stringify(value))`. */
    method SetItem(key: string, value: JsonValue)
      modifies this
      ensures items == old(items)[key := Parsed(value)]
    {
      items := items[key := Parsed(value)];
    }

    method RemoveItem(key: string)
      modifies this
      ensures items == old(items) - {key}
    {
      items := items - {key};
    }
  }

  /** What the history key can hold: nothing, a blank or unparsable text, or a list of records. */
  predicate HoldsHistory(v: Option<Stored>) {
    v.None? || !v.value.Parsed? || v.value.value.HistoryArray?
  }

  /** A restore slot with nothing to give: missing, or a blank text, which no later
      read turns into a conversation. */
  predicate SlotSpent(v: Option<Stored>) {
    v.None? || v == Some(Blank)
  }

  /** What the restore slot can hold: nothing, a blank or unparsable text, or a conversation. */
  predicate HoldsRestore(v: Option<Stored>) {
    v.None? || !v.value.Parsed? || v.value.value.RestorePayload?
  }
}

/** `FavoriteStorage` in lib/storage.ts. Its methods are typed on a list of favourites;
    a key holding the old format or another value is outside what they handle. */
module FavoriteStorage {
  import opened Wrappers
  import opened Types
  import opened BrowserStorage
  import opened FavoriteList

  predicate HoldsFavorites(v: Option<Stored>) {
    v.None? || !v.value.Parsed? || v.value.value.FavoriteArray?
  }

  /** The list `getAll` reads from a stored value: `[]` when there is none, when the text is
      blank, or when it does not parse. */
  function Read(v: Option<Stored>): (favorites: seq<FavoriteEntry>)
    requires HoldsFavorites(v)
    ensures v.Some? && v.value.Parsed? ==> favorites == v.value.value.favorites
    ensures v.None? || !v.value.Parsed? ==> favorites == []
  {
    match v
    case Some(Parsed(FavoriteArray(fs))) => fs
    case _ => []
  }

  method GetAll(local: WebStorage) returns (favorites: seq<FavoriteEntry>)
    requires HoldsFavorites(local.Get(FavoritesKey))
    ensures favorites == Read(local.Get(FavoritesKey))
  {
    var stored := local.Get(FavoritesKey);
    match stored
    case Some(Parsed(value)) => favorites := value.favorites;
    case _ => favorites := [];
  }

  /** `add`: the new favourite, then the old list unchanged. */
  method Add(local: WebStorage, favorite: FavoriteEntry)
    requires HoldsFavorites(local.Get(FavoritesKey))
    modifies local
    ensures local.items == old(local.items)[FavoritesKey := Parsed(FavoriteArray([favorite] + Read(old(local.Get(FavoritesKey)))))]
    ensures Read(local.Get(FavoritesKey)) == [favorite] + Read(old(local.Get(FavoritesKey)))
  {
    var favorites := GetAll(local);
    local.SetItem(FavoritesKey, FavoriteArray([favorite] + favorites));
  }

  /** `remove`: the old list without the entries of that id. */
  method Remove(local: WebStorage, id: string)
    requires HoldsFavorites(local.Get(FavoritesKey))
    modifies local
    ensures local.items == old(local.items)[FavoritesKey := Parsed(FavoriteArray(WithoutId(Read(old(local.Get(FavoritesKey))), id)))]
    ensures Read(local.Get(FavoritesKey)) == WithoutId(Read(old(local.Get(FavoritesKey))), id)
  {
    var favorites := GetAll(local);
    local.SetItem(FavoritesKey, FavoriteArray(WithoutId(favorites, id)));
  }

  /** `exists`: some stored favourite has both that text and those opponent words. */
  method Exists(local: WebStorage, text: string, opponentWords: string) returns (found: bool)
    requires HoldsFavorites(local.Get(FavoritesKey))
    ensures found <==>
      exists k :: 0 <= k < |Read(local.Get(FavoritesKey))| && Matching(Read(local.Get(FavoritesKey))[k], text, opponentWords)
  {
    var favorites := GetAll(local);
    found := IsFavorited(favorites, text, opponentWords);
  }

  method Clear(local: WebStorage)
    modifies local
    ensures local.items == old(local.items) - {FavoritesKey}
    ensures HoldsFavorites(local.Get(FavoritesKey)) && Read(local.Get(FavoritesKey)) == []
  {
    local.RemoveItem(FavoritesKey);
  }
}

/** `HistoryStorage` in lib/storage.ts: records newest first, at most twenty. */
module HistoryStorage {
  import opened Wrappers
  import opened Types
  import opened BrowserStorage

  const Capacity: nat := 20

  /** The list `getAll` reads: `[]` when there is none, or the text is blank or unparsable. */
  function Read(v: Option<Stored>): (entries: seq<HistoryEntry>)
    requires HoldsHistory(v)
    ensures v.Some? && v.value.Parsed? ==> entries == v.value.value.entries
    ensures v.None? || !v.value.Parsed? ==> entries == []
  {
    match v
    case Some(Parsed(HistoryArray(es))) => es
    case _ => []
  }

  /** `[entry, ...history.slice(0, 19)]`. */
  function WithNewest(entry: HistoryEntry, history: seq<HistoryEntry>): (r: seq<HistoryEntry>)
    ensures |r| == if |history| < Capacity then |history| + 1 else Capacity
    ensures r[0] == entry && r[1..] == history[..|r| - 1]
    ensures |history| < Capacity ==> r == [entry] + history
  {
    [entry] + history[..if |history| < Capacity - 1 then |history| else Capacity - 1]
  }

  /** The argument form's way of writing the same record: `unshift`, then `slice(0, 20)`. */
  lemma UnshiftThenSlice(entry: HistoryEntry, history: seq<HistoryEntry>)
    ensures var h := [entry] + history;
      h[..if |h| < Capacity then |h| else Capacity] == WithNewest(entry, history)
  {
    var h := [entry] + history;
    var r := WithNewest(entry, history);
    var n := if |h| < Capacity then |h| else Capacity;
    assert |r| == n;
    forall k | 0 <= k < n ensures h[k] == r[k] {
      if k > 0 {
        assert h[k] == history[k - 1];
        assert r[k] == r[1..][k - 1];
      }
    }
  }

  method GetAll(local: WebStorage) returns (entries: seq<HistoryEntry>)
    requires HoldsHistory(local.Get(HistoryKey))
    ensures entries == Read(local.Get(HistoryKey))
  {
    var stored := local.Get(HistoryKey);
    match stored
    case Some(Parsed(value)) => entries := value.entries;
    case _ => entries := [];
  }

  method Add(local: WebStorage, entry: HistoryEntry)
    requires HoldsHistory(local.Get(HistoryKey))
    modifies local
    ensures local.items == old(local.items)[HistoryKey := Parsed(HistoryArray(WithNewest(entry, Read(old(local.Get(HistoryKey))))))]
    ensures HoldsHistory(local.Get(HistoryKey))
  {
    var history := GetAll(local);
    local.SetItem(HistoryKey, HistoryArray(WithNewest(entry, history)));
  }

  method Clear(local: WebStorage)
    modifies local
    ensures local.items == old(local.items) - {HistoryKey}
    ensures HoldsHistory(local.Get(HistoryKey)) && Read(local.Get(HistoryKey)) == []
  {
    local.RemoveItem(HistoryKey);
  }
}

/** `ConversationStorage` in lib/storage.ts: the one-shot restore slot in `sessionStorage`. */
module ConversationStorage {
  import opened Wrappers
  import opened Types
  import opened BrowserStorage

  method SaveForRestore(session: WebStorage, state: ConversationState)
    modifies session
    ensures session.items == old(session.items)[RestoreKey := Parsed(RestorePayload(state))]
  {
    session.SetItem(RestoreKey, RestorePayload(state));
  }

  /** `getAndClearRestore`: the saved state, or `None` for nothing, a blank text, or text
      that does not parse; any non-blank text is removed, so the slot is then empty. */
  method GetAndClearRestore(session: WebStorage) returns (state: Option<ConversationState>)
    requires HoldsRestore(session.Get(RestoreKey))
    modifies session
    ensures SlotSpent(session.Get(RestoreKey))
    ensures old(session.Get(RestoreKey)) == Some(Blank) ==> unchanged(session) && state.None?
    ensures old(session.Get(RestoreKey)) != Some(Blank) ==>
      session.items == old(session.items) - {RestoreKey}
    ensures old(session.Get(RestoreKey)).Some? && old(session.Get(RestoreKey)).value.Parsed? ==>
      state == Some(old(session.Get(RestoreKey)).value.value.state)
    ensures !(old(session.Get(RestoreKey)).Some? && old(session.Get(RestoreKey)).value.Parsed?) ==> state.None?
  {
    var data := session.Get(RestoreKey);
    state := None;
    match data
    case None =>
    case Some(Blank) =>
    case Some(Unparsable) =>
      session.RemoveItem(RestoreKey);
    case Some(Parsed(value)) =>
      session.RemoveItem(RestoreKey);
      state := Some(value.state);
  }
}
