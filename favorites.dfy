/** The favourites list rules shared by components/response-list.tsx and
    app/favorites/page.tsx: reading the stored list (with the old format migrated),
    looking an entry up, toggling it, and removing by id. */
module FavoriteList {
  import opened Wrappers
  import opened Text
  import opened Types
  import opened BrowserStorage

  const LegacyWords: string := "历史收藏"

  /** `legacy-${index}`. */
  function LegacyId(index: nat): string {
    "legacy-" + NatToString(index)
  }

  /** Distinct positions of the old list get distinct ids. */
  lemma LegacyIdInjective(i: nat, j: nat)
    requires LegacyId(i) == LegacyId(j)
    ensures i == j
  {
    var p := "legacy-";
    assert LegacyId(i)[|p|..] == NatToString(i);
    assert LegacyId(j)[|p|..] == NatToString(j);
    NatToStringInjective(i, j);
  }

  /** The migration of the old format: each text becomes a favourite with id
      `legacy-<index>`, opponent words `历史收藏`, style fire and the time of loading. */
  function FromLegacy(texts: seq<string>, now: string): (favorites: seq<FavoriteEntry>)
    ensures |favorites| == |texts|
    ensures forall k :: 0 <= k < |texts| ==>
      favorites[k] == FavoriteEntry(texts[k], LegacyWords, Fire, now, LegacyId(k))
  {
    seq(|texts|, k requires 0 <= k < |texts| => FavoriteEntry(texts[k], LegacyWords, Fire, now, LegacyId(k)))
  }

  /** The migrated list keeps every text in place and gives every entry its own id. */
  lemma FromLegacyIds(texts: seq<string>, now: string, i: nat, j: nat)
    requires i < |texts| && j < |texts| && i != j
    ensures FromLegacy(texts, now)[i].id != FromLegacy(texts, now)[j].id
  {
    if LegacyId(i) == LegacyId(j) {
      LegacyIdInjective(i, j);
    }
  }

  /** The favourites a page starts with, and whether the stored text is rewritten. */
  datatype Loaded = Loaded(favorites: seq<FavoriteEntry>, rewrite: bool)

  /** Reading the favourites key: a non-empty old-format array is migrated and written back,
      another non-empty array is used as it is, and anything else gives no favourites. */
  function Load(stored: Option<Stored>, now: string): (r: Loaded)
    ensures r.rewrite <==>
      stored.Some? && stored.value.Parsed? && stored.value.value.StringArray? && stored.value.value.texts != []
    ensures r.rewrite ==> r.favorites == FromLegacy(stored.value.value.texts, now)
    ensures !(stored.Some? && stored.value.Parsed? &&
              (stored.value.value.FavoriteArray? || (stored.value.value.StringArray? && stored.value.value.texts != []))) ==>
      r.favorites == []
    ensures stored.Some? && stored.value.Parsed? && stored.value.value.FavoriteArray? ==>
      r == Loaded(stored.value.value.favorites, false)
  {
    match stored
    case Some(Parsed(StringArray(texts))) =>
      if texts != [] then Loaded(FromLegacy(texts, now), true) else Loaded([], false)
    case Some(Parsed(FavoriteArray(favorites))) => Loaded(favorites, false)
    case _ => Loaded([], false)
  }

  /** Migrated once, the list loads back unchanged and is not rewritten again. */
  lemma LoadMigrated(texts: seq<string>, now: string, later: string)
    requires texts != []
    ensures var first := Load(Some(Parsed(StringArray(texts))), now);
      first.rewrite && Load(Some(Parsed(FavoriteArray(first.favorites))), later) == Loaded(first.favorites, false)
  {
  }

  /** The entry `toggleFavorite` and `isFavorited` look for. */
  predicate Matching(f: FavoriteEntry, text: string, opponentWords: string) {
    f.text == text && f.opponentWords == opponentWords
  }

  /** `findIndex`: the first matching position, if any. */
  function FirstMatch(fs: seq<FavoriteEntry>, text: string, opponentWords: string): (i: Option<nat>)
    ensures i.Some? ==> i.value < |fs| && Matching(fs[i.value], text, opponentWords)
    ensures i.Some? ==> forall k :: 0 <= k < i.value ==> !Matching(fs[k], text, opponentWords)
    ensures i.None? ==> forall k :: 0 <= k < |fs| ==> !Matching(fs[k], text, opponentWords)
  {
    if fs == [] then None
    else if Matching(fs[0], text, opponentWords) then Some(0)
    else match FirstMatch(fs[1..], text, opponentWords)
      case Some(j) => Some(j + 1)
      case None => None
  }

  /** `some`: an entry has both that text and those opponent words. */
  function IsFavorited(fs: seq<FavoriteEntry>, text: string, opponentWords: string): (b: bool)
    ensures b <==> exists k :: 0 <= k < |fs| && Matching(fs[k], text, opponentWords)
  {
    FirstMatch(fs, text, opponentWords).Some?
  }

  /** At most one entry per text and opponent words. */
  predicate Unique(fs: seq<FavoriteEntry>) {
    forall i, j :: 0 <= i < j < |fs| ==> !(fs[i].text == fs[j].text && fs[i].opponentWords == fs[j].opponentWords)
  }

  /** `toggleFavorite`: remove the first match, or put a new entry in front. */
  function Toggle(fs: seq<FavoriteEntry>, text: string, opponentWords: string, style: ArgumentStyle,
                  id: string, now: string): (r: seq<FavoriteEntry>)
    ensures IsFavorited(fs, text, opponentWords) ==> |r| == |fs| - 1
    ensures !IsFavorited(fs, text, opponentWords) ==> r == [FavoriteEntry(text, opponentWords, style, now, id)] + fs
  {
    match FirstMatch(fs, text, opponentWords)
    case Some(i) => fs[..i] + fs[i + 1..]
    case None => [FavoriteEntry(text, opponentWords, style, now, id)] + fs
  }

  /** Removing a match keeps every other entry, in order: before it the same, after it shifted by one. */
  lemma ToggleRemoves(fs: seq<FavoriteEntry>, text: string, opponentWords: string, style: ArgumentStyle,
                      id: string, now: string)
    requires IsFavorited(fs, text, opponentWords)
    ensures var i := FirstMatch(fs, text, opponentWords).value;
      var r := Toggle(fs, text, opponentWords, style, id, now);
      && (forall k :: 0 <= k < i ==> r[k] == fs[k])
      && (forall k :: i <= k < |r| ==> r[k] == fs[k + 1])
  {
  }

  /** Toggling a response that is not a favourite, then toggling it again, restores the list. */
  lemma ToggleTwice(fs: seq<FavoriteEntry>, text: string, opponentWords: string, style: ArgumentStyle,
                    id: string, now: string, id2: string, now2: string)
    requires !IsFavorited(fs, text, opponentWords)
    ensures Toggle(Toggle(fs, text, opponentWords, style, id, now), text, opponentWords, style, id2, now2) == fs
  {
    var once := Toggle(fs, text, opponentWords, style, id, now);
    assert Matching(once[0], text, opponentWords);
    assert FirstMatch(once, text, opponentWords) == Some(0);
    assert once[1..] == fs;
  }

  /** With at most one entry per pair, a toggle flips whether the response is a favourite,
      and keeps at most one entry per pair. */
  lemma ToggleFlips(fs: seq<FavoriteEntry>, text: string, opponentWords: string, style: ArgumentStyle,
                    id: string, now: string)
    requires Unique(fs)
    ensures var r := Toggle(fs, text, opponentWords, style, id, now);
      IsFavorited(r, text, opponentWords) == !IsFavorited(fs, text, opponentWords) && Unique(r)
  {
    var r := Toggle(fs, text, opponentWords, style, id, now);
    match FirstMatch(fs, text, opponentWords)
    case Some(i) =>
      ToggleRemoves(fs, text, opponentWords, style, id, now);
      forall k | 0 <= k < |r| ensures !Matching(r[k], text, opponentWords) {
        if k >= i {
          assert r[k] == fs[k + 1];
        }
      }
      forall a, b | 0 <= a < b < |r|
        ensures !(r[a].text == r[b].text && r[a].opponentWords == r[b].opponentWords)
      {
        var a' := if a < i then a else a + 1;
        var b' := if b < i then b else b + 1;
        assert r[a] == fs[a'] && r[b] == fs[b'];
      }
    case None =>
      assert Matching(r[0], text, opponentWords);
      forall a, b | 0 <= a < b < |r|
        ensures !(r[a].text == r[b].text && r[a].opponentWords == r[b].opponentWords)
      {
        if a == 0 {
          assert r[b] == fs[b - 1];
        } else {
          assert r[a] == fs[a - 1] && r[b] == fs[b - 1];
        }
      }
  }

  /** `filter(fav => fav.id !== id)`. */
  function WithoutId(fs: seq<FavoriteEntry>, id: string): (r: seq<FavoriteEntry>)
    ensures |r| <= |fs|
    ensures forall f :: f in r <==> f in fs && f.id != id
  {
    if fs == [] then []
    else if fs[0].id != id then [fs[0]] + WithoutId(fs[1..], id)
    else WithoutId(fs[1..], id)
  }

  /** Filtering keeps order: it filters each part of a list on its own. */
  lemma {:induction false} WithoutIdAppend(a: seq<FavoriteEntry>, b: seq<FavoriteEntry>, id: string)
    ensures WithoutId(a + b, id) == WithoutId(a, id) + WithoutId(b, id)
  {
    if a == [] {
      assert a + b == b;
    } else {
      assert (a + b)[0] == a[0] && (a + b)[1..] == a[1..] + b;
      WithoutIdAppend(a[1..], b, id);
      if a[0].id != id {
        AppendAssoc([a[0]], WithoutId(a[1..], id), WithoutId(b, id));
      }
    }
  }

  /** A list without that id is left as it is. */
  lemma {:induction false} WithoutAbsentId(fs: seq<FavoriteEntry>, id: string)
    requires forall k :: 0 <= k < |fs| ==> fs[k].id != id
    ensures WithoutId(fs, id) == fs
  {
    if fs != [] {
      assert forall k :: 0 <= k < |fs[1..]| ==> fs[1..][k].id != id by {
        forall k | 0 <= k < |fs[1..]| ensures fs[1..][k].id != id {
          assert fs[1..][k] == fs[k + 1];
        }
      }
      WithoutAbsentId(fs[1..], id);
      assert [fs[0]] + fs[1..] == fs;
    }
  }
}
