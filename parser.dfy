/** `parseStreamedContent` in lib/api.ts: the streamed text cut into at most three
    replies, by numbered markers, else by paragraphs, else as a whole. */
module ContentParser {
  import opened Wrappers
  import opened Text
  import opened Types

  const MarkerWord: string := "回击"
  const Placeholder: string := "生成失败，请重试"

  /** The two separators the marker allows after its number: `[:：]`. */
  predicate IsColon(c: char) {
    c == ':' || c == '：'
  }

  /** The length of the longest all-space prefix (`\s*`). */
  function LeadingSpaces(s: string): (n: nat)
    ensures n <= |s|
  {
    if s != [] && IsSpace(s[0]) then 1 + LeadingSpaces(s[1..]) else 0
  }

  /** The length of the longest all-digit prefix (`\d+` when it is at least one). */
  function LeadingDigits(s: string): (n: nat)
    ensures n <= |s|
  {
    if s != [] && IsDigit(s[0]) then 1 + LeadingDigits(s[1..]) else 0
  }

  /** The length of a marker `回击\s*\d+[:：]` at the start of `s`, if one is there.
      The three parts match disjoint characters, so the match is unique. */
  function MarkerLength(s: string): (m: Option<nat>)
    ensures m.Some? ==> 2 < m.value <= |s| && s[0] == '回'
  {
    if |s| < 2 || s[0] != '回' || s[1] != '击' then None
    else
      var k := 2 + LeadingSpaces(s[2..]);
      var d := LeadingDigits(s[k..]);
      if d >= 1 && k + d < |s| && IsColon(s[k + d]) then Some(k + d + 1) else None
  }

  /** The first position where a marker starts, or the length when none does. */
  function NextMarker(s: string): (n: nat)
    ensures n <= |s|
  {
    if s == [] || MarkerLength(s).Some? then 0 else 1 + NextMarker(s[1..])
  }

  /** Where the text of a match begins and where the match ends, for a marker of length
      `q` at the start of `s`. The text runs from after the marker to the first marker
      that starts at least one character after the spaces following it, or to the end;
      a marker with nothing at all after it does not match. */
  function MatchFrom(s: string, q: nat): (r: Option<(nat, nat)>)
    requires 0 < q <= |s|
    ensures r.Some? ==> r.value.0 == q < r.value.1 <= |s|
  {
    var j := q + LeadingSpaces(s[q..]);
    if q == |s| then None
    else if j == |s| then Some((q, |s|))
    else Some((q, j + 1 + NextMarker(s[j + 1..])))
  }

  /** The match that starts at the beginning of `s`, if one does. */
  function MatchAt(s: string): (r: Option<(nat, nat)>)
    ensures r.Some? ==> 0 < r.value.0 < r.value.1 <= |s|
  {
    match MarkerLength(s)
    case None => None
    case Some(q) => MatchFrom(s, q)
  }

  /** The texts of the successive matches of `/回击\s*\d+[:：]\s*(.+?)(?=回击\s*\d+[:：]|$)/gs`,
      each with its marker and the spaces after it removed, then trimmed. */
  function Matches(s: string): seq<string>
    decreases |s|
  {
    if s == [] then []
    else match MatchAt(s)
      case None => Matches(s[1..])
      case Some((q, e)) => [Trim(s[q..e])] + Matches(s[e..])
  }

  /** No match starts at the first character: the search moves on by one. */
  lemma MatchesSkip(s: string)
    requires s != [] && MatchAt(s).None?
    ensures Matches(s) == Matches(s[1..])
  {
  }

  /** A match starts at the first character: its text, then the search goes on after it. */
  lemma MatchesOfMatch(s: string, q: nat, e: nat)
    requires s != [] && MatchAt(s) == Some((q, e))
    ensures Matches(s) == [Trim(s[q..e])] + Matches(s[e..])
  {
  }


  /** Every match text is trimmed. */
  lemma {:induction false} MatchesTrimmed(s: string)
    ensures forall t :: t in Matches(s) ==> IsTrimmed(t)
    decreases |s|
  {
    if s == [] {
    } else if MatchAt(s).None? {
      MatchesSkip(s);
      MatchesTrimmed(s[1..]);
    } else {
      var (q, e) := MatchAt(s).value;
      MatchesOfMatch(s, q, e);
      TrimIsTrimmed(s[q..e]);
      MatchesTrimmed(s[e..]);
    }
  }

  /** The texts that are not empty, in order (`if (text) responses.push(...)`). */
  function NonEmptyTexts(ts: seq<string>): (r: seq<string>)
    ensures forall k :: 0 <= k < |r| ==> r[k] != "" && r[k] in ts
    ensures forall t :: t in r <==> t in ts && t != ""
    ensures (forall k :: 0 <= k < |ts| ==> ts[k] != "") ==> r == ts
  {
    if ts == [] then []
    else
      var rest := NonEmptyTexts(ts[1..]);
      assert ts == [ts[0]] + ts[1..];
      if ts[0] != "" then [ts[0]] + rest else rest
  }

  /** Dropping the empty texts of two lists one after the other, in order. */
  lemma {:induction false} NonEmptyTextsAppend(a: seq<string>, b: seq<string>)
    ensures NonEmptyTexts(a + b) == NonEmptyTexts(a) + NonEmptyTexts(b)
  {
    if a != [] {
      assert (a + b)[0] == a[0] && (a + b)[1..] == a[1..] + b;
      NonEmptyTextsAppend(a[1..], b);
      AppendAssoc([a[0]], NonEmptyTexts(a[1..]), NonEmptyTexts(b));
    } else {
      assert a + b == b;
    }
  }

  /** A paragraph the tier keeps: its trimmed text is longer than ten UTF-16 units. */
  predicate KeptParagraph(t: string, ps: seq<string>) {
    exists k :: 0 <= k < |ps| && t == Trim(ps[k]) && Utf16Length(t) > 10
  }

  /** The trimmed paragraphs whose trimmed length, in UTF-16 units, exceeds 10. */
  function LongParagraphs(ps: seq<string>): (r: seq<string>)
    ensures forall k :: 0 <= k < |r| ==> Utf16Length(r[k]) > 10 && IsTrimmed(r[k])
    ensures forall t :: t in r <==> KeptParagraph(t, ps)
    ensures |r| <= |ps|
  {
    if ps == [] then []
    else
      var rest := LongParagraphs(ps[1..]);
      TrimIsTrimmed(ps[0]);
      forall t ensures KeptParagraph(t, ps) <==> (t == Trim(ps[0]) && Utf16Length(t) > 10) || KeptParagraph(t, ps[1..]) {
        if KeptParagraph(t, ps) {
          var k :| 0 <= k < |ps| && t == Trim(ps[k]) && Utf16Length(t) > 10;
          if k > 0 {
            assert ps[1..][k - 1] == ps[k];
          }
        }
        if KeptParagraph(t, ps[1..]) {
          var k :| 0 <= k < |ps[1..]| && t == Trim(ps[1..][k]) && Utf16Length(t) > 10;
          assert ps[1..][k] == ps[k + 1];
        }
      }
      if Utf16Length(Trim(ps[0])) > 10 then [Trim(ps[0])] + rest else rest
  }

  /** Filtering two lists of paragraphs one after the other, in order. */
  lemma {:induction false} LongParagraphsAppend(a: seq<string>, b: seq<string>)
    ensures LongParagraphs(a + b) == LongParagraphs(a) + LongParagraphs(b)
  {
    if a != [] {
      assert (a + b)[0] == a[0] && (a + b)[1..] == a[1..] + b;
      LongParagraphsAppend(a[1..], b);
      AppendAssoc([Trim(a[0])], LongParagraphs(a[1..]), LongParagraphs(b));
    } else {
      assert a + b == b;
    }
  }

  /** `slice(0, 3)`. */
  function Take3(ts: seq<string>): (r: seq<string>)
    ensures |r| <= 3 && |r| <= |ts| && r == ts[..|r|] && (|ts| <= 3 ==> r == ts)
  {
    if |ts| <= 3 then ts else ts[..3]
  }

  function AsResponses(ts: seq<string>): (r: seq<ResponseType>)
    ensures |r| == |ts| && forall k :: 0 <= k < |ts| ==> r[k].text == ts[k]
  {
    seq(|ts|, k requires 0 <= k < |ts| => ResponseType(ts[k]))
  }

  /** The marker tier: the non-empty match texts. */
  function MarkerTier(content: string): (units: seq<string>)
    ensures forall k :: 0 <= k < |units| ==> units[k] != "" && IsTrimmed(units[k])
  {
    MatchesTrimmed(content);
    NonEmptyTexts(Matches(content))
  }

  /** The paragraph tier: split on blank lines, keep the long ones, trimmed. */
  function ParagraphTier(content: string): (paras: seq<string>)
    ensures forall k :: 0 <= k < |paras| ==> paras[k] != "" && IsTrimmed(paras[k])
  {
    LongParagraphs(SplitOn(content, "\n\n"))
  }

  /** The last tier: the trimmed text, or the placeholder when that is empty. */
  function WholeText(content: string): (t: string)
    ensures t != "" && IsTrimmed(t)
  {
    TrimIsTrimmed(content);
    if Trim(content) != "" then Trim(content)
    else
      assert Placeholder[0] == '生' && Placeholder[|Placeholder| - 1] == '试';
      Placeholder
  }

  /** The first three texts of a tier, as replies. */
  function FirstThree(ts: seq<string>): (r: seq<ResponseType>)
    requires forall k :: 0 <= k < |ts| ==> ts[k] != "" && IsTrimmed(ts[k])
    ensures |r| == |Take3(ts)| && forall k :: 0 <= k < |r| ==> r[k].text == ts[k]
  {
    AsResponses(Take3(ts))
  }

  /** `parseStreamedContent`: between one and three replies, none empty, all trimmed. */
  function ParseStreamedContent(content: string): (r: seq<ResponseType>)
    ensures 1 <= |r| <= 3
    ensures forall k :: 0 <= k < |r| ==> r[k].text != "" && IsTrimmed(r[k].text)
  {
    var units := MarkerTier(content);
    if units != [] then FirstThree(units)
    else
      var paras := ParagraphTier(content);
      if paras != [] then FirstThree(paras)
      else [ResponseType(WholeText(content))]
  }

  /** Without marker units the paragraph tier decides, and without paragraphs the whole text. */
  lemma ParseWithoutMarkers(content: string)
    requires MarkerTier(content) == []
    ensures ParagraphTier(content) != [] ==> ParseStreamedContent(content) == FirstThree(ParagraphTier(content))
    ensures ParagraphTier(content) == [] ==> ParseStreamedContent(content) == [ResponseType(WholeText(content))]
  {
  }

  // ---------------------------------------------------------------------------
  // The marker tier

  /** No marker starts anywhere in `s`. */
  predicate NoMarker(s: string) {
    forall i :: 0 <= i < |s| ==> MarkerLength(s[i..]).None?
  }

  /** Dropping the first character of `p` keeps "no marker starts inside `p`". */
  lemma NoMarkerBeforeTail(p: string, s: string)
    requires p != [] && forall i :: 0 <= i < |p| ==> MarkerLength((p + s)[i..]).None?
    ensures MarkerLength(p + s).None? && (p + s)[1..] == p[1..] + s
    ensures forall i :: 0 <= i < |p[1..]| ==> MarkerLength((p[1..] + s)[i..]).None?
  {
    assert (p + s)[0..] == p + s;
    forall i | 0 <= i < |p[1..]| ensures MarkerLength((p[1..] + s)[i..]).None? {
      assert (p[1..] + s)[i..] == (p + s)[i + 1..];
    }
  }

  /** Text before the first marker is dropped: where no marker starts inside `p`, a text
      that begins with `p` has the matches of what follows `p`. */
  lemma {:induction false} LeadingTextDropped(p: string, s: string)
    requires forall i :: 0 <= i < |p| ==> MarkerLength((p + s)[i..]).None?
    ensures Matches(p + s) == Matches(s)
  {
    if p != [] {
      NoMarkerBeforeTail(p, s);
      MatchesSkip(p + s);
      LeadingTextDropped(p[1..], s);
    } else {
      assert p + s == s;
    }
  }

  /** A text in which no marker starts has no matches, so the marker tier finds nothing. */
  lemma NoMarkerNoUnits(s: string)
    requires NoMarker(s)
    ensures Matches(s) == [] && MarkerTier(s) == []
  {
    assert s + [] == s;
    LeadingTextDropped(s, []);
  }

  lemma {:induction false} NextMarkerSkip(x: string, r: string)
    requires forall i :: 0 <= i < |x| ==> MarkerLength((x + r)[i..]).None?
    ensures NextMarker(x + r) == |x| + NextMarker(r)
  {
    if x != [] {
      NoMarkerBeforeTail(x, r);
      NextMarkerSkip(x[1..], r);
    } else {
      assert x + r == r;
    }
  }

  lemma {:induction false} LeadingSpacesStop(a: string, i: nat)
    requires i < |a| && !IsSpace(a[i])
    ensures LeadingSpaces(a) <= i
  {
    if i > 0 && IsSpace(a[0]) {
      LeadingSpacesStop(a[1..], i - 1);
    }
  }

  /** The white space at the start of `a` ends inside `a`: what follows does not matter. */
  lemma {:induction false} LeadingSpacesPrefix(a: string, b: string)
    requires LeadingSpaces(a) < |a|
    ensures LeadingSpaces(a + b) == LeadingSpaces(a)
  {
    assert (a + b)[0] == a[0];
    if IsSpace(a[0]) {
      assert (a + b)[1..] == a[1..] + b;
      LeadingSpacesPrefix(a[1..], b);
    }
  }

  lemma {:induction false} LeadingDigitsPrefix(a: string, b: string)
    requires LeadingDigits(a) < |a|
    ensures LeadingDigits(a + b) == LeadingDigits(a)
  {
    assert (a + b)[0] == a[0];
    if IsDigit(a[0]) {
      assert (a + b)[1..] == a[1..] + b;
      LeadingDigitsPrefix(a[1..], b);
    }
  }

  lemma {:induction false} LeadingDigitsWhole(a: string, b: string)
    requires LeadingDigits(a) == |a| && (b == [] || !IsDigit(b[0]))
    ensures LeadingDigits(a + b) == |a|
  {
    if a != [] {
      assert (a + b)[0] == a[0];
      assert (a + b)[1..] == a[1..] + b;
      LeadingDigitsWhole(a[1..], b);
    } else {
      assert a + b == b;
    }
  }

  lemma {:induction false} LeadingSpacesOf(w: string, x: string)
    requires AllSpace(w) && (x == [] || !IsSpace(x[0]))
    ensures LeadingSpaces(w + x) == |w|
  {
    if w != [] {
      assert (w + x)[1..] == w[1..] + x;
      LeadingSpacesOf(w[1..], x);
    } else {
      assert w + x == x;
    }
  }

  lemma {:induction false} LeadingDigitsOf(d: string, x: string)
    requires AllDigits(d) && (x == [] || !IsDigit(x[0]))
    ensures LeadingDigits(d + x) == |d|
  {
    if d != [] {
      assert (d + x)[1..] == d[1..] + x;
      LeadingDigitsOf(d[1..], x);
    } else {
      assert d + x == x;
    }
  }

  /** A marker written out: `回击`, white space, digits, a colon. */
  function MarkerText(gap: string, digits: string, colon: char): string {
    MarkerWord + gap + digits + [colon]
  }

  /** What a marker may be made of. */
  predicate MarkerParts(gap: string, digits: string, colon: char) {
    AllSpace(gap) && digits != [] && AllDigits(digits) && IsColon(colon)
  }

  /** A written-out marker is recognised, whatever follows it. */
  lemma MarkerLengthOf(gap: string, digits: string, colon: char, rest: string)
    requires MarkerParts(gap, digits, colon)
    ensures MarkerLength(MarkerText(gap, digits, colon) + rest) == Some(|MarkerText(gap, digits, colon)|)
  {
    var s := MarkerText(gap, digits, colon) + rest;
    assert s[0] == '回' && s[1] == '击';
    assert s[2..] == gap + (digits + [colon] + rest);
    LeadingSpacesOf(gap, digits + [colon] + rest);
    var k := |MarkerWord| + |gap|;
    assert s[k..] == digits + ([colon] + rest);
    LeadingDigitsOf(digits, [colon] + rest);
    assert s[k + |digits|] == colon;
  }

  /** The replies as numbered markers, from `n` on, each followed by `pad` and its text. */
  function Numbered(ts: seq<string>, n: nat, gap: string, colon: char, pad: string): (items: seq<string>)
    ensures |items| == |ts|
    ensures forall k :: 0 <= k < |ts| ==> items[k] == MarkerText(gap, NatToString(n + k), colon) + pad + ts[k]
  {
    seq(|ts|, k requires 0 <= k < |ts| => MarkerText(gap, NatToString(n + k), colon) + pad + ts[k])
  }

  /** A text a reply can be: non-empty, trimmed, and with no marker starting inside it
      after its first character (a marker right at its start is taken as text, since the
      search for the next marker begins one character after the spaces). */
  predicate Reply(t: string) {
    t != "" && IsTrimmed(t) && forall i :: 0 < i < |t| ==> MarkerLength(t[i..]).None?
  }

  /** The first character after `u` is white space or `回`, or there is none. */
  predicate MarkerBoundary(w: string) {
    w == [] || IsSpace(w[0]) || w[0] == '回'
  }

  lemma MarkerBoundaryOf(sep: string, rest: string)
    requires AllSpace(sep) && (rest == [] || rest[0] == '回')
    ensures MarkerBoundary(sep + rest)
  {
    if sep != [] { assert (sep + rest)[0] == sep[0]; } else { assert sep + rest == rest; }
  }

  /** `回` or `回击` alone, then white space and a marker or the end: no marker. */
  lemma MarkerAcrossShort(u: string, sep: string, rest: string)
    requires 1 <= |u| <= 2 && AllSpace(sep) && (rest == [] || rest[0] == '回')
    ensures MarkerLength(u + (sep + rest)).None?
  {
    var w := sep + rest;
    var s := u + w;
    MarkerBoundaryOf(sep, rest);
    if |u| == 1 {
      if w != [] { assert s[1] == w[0]; }
    } else {
      assert s[2..] == sep + rest;
      LeadingSpacesOf(sep, rest);
      assert s[2 + |sep|..] == rest;
    }
  }

  /** Past the white space after `回击`, the digits either stop inside `u`, where `u`
      decides, or run to its end, where the boundary is no colon. */
  lemma MarkerDigitsAcross(u: string, w: string, k: nat)
    requires 2 <= k < |u| && MarkerBoundary(w)
    ensures var d := LeadingDigits((u + w)[k..]);
      (k + d < |u| && d == LeadingDigits(u[k..]) && (u + w)[k + d] == u[k + d])
      || (k + d == |u| && (w == [] || !IsColon(w[0])))
  {
    var b := u[k..];
    assert (u + w)[k..] == b + w;
    if LeadingDigits(b) < |b| {
      LeadingDigitsPrefix(b, w);
    } else {
      LeadingDigitsWhole(b, w);
    }
  }

  /** A longer `u` ending in a non-space: the marker test reads the same inside `u`. */
  lemma MarkerAcrossLong(u: string, w: string)
    requires |u| > 2 && !IsSpace(u[|u| - 1]) && MarkerLength(u).None? && MarkerBoundary(w)
    ensures MarkerLength(u + w).None?
  {
    var s := u + w;
    assert s[0] == u[0] && s[1] == u[1];
    var a := u[2..];
    LeadingSpacesStop(a, |a| - 1);
    assert s[2..] == a + w;
    LeadingSpacesPrefix(a, w);
    var k := 2 + LeadingSpaces(a);
    MarkerDigitsAcross(u, w, k);
    if k + LeadingDigits(s[k..]) == |u| && w != [] {
      assert s[|u|] == w[0];
    }
  }

  /** No marker starts in `u` and `u` ends in a non-space; then none starts there either
      once white space and a marker (or nothing) follow. */
  lemma MarkerAcross(u: string, sep: string, rest: string)
    requires u != [] && !IsSpace(u[|u| - 1]) && MarkerLength(u).None?
    requires AllSpace(sep) && (rest == [] || rest[0] == '回')
    ensures MarkerLength(u + (sep + rest)).None?
  {
    if |u| <= 2 {
      MarkerAcrossShort(u, sep, rest);
    } else {
      MarkerBoundaryOf(sep, rest);
      MarkerAcrossLong(u, sep + rest);
    }
  }

  /** A marker ends at `q`, white space runs from there to `j`, and the match text runs
      on to `e`, where the next marker starts after `j` (or the text ends). */
  predicate MarkerSpan(s: string, q: nat, j: nat, e: nat) {
    && q <= j < e <= |s|
    && MarkerLength(s) == Some(q)
    && LeadingSpaces(s[q..]) == j - q
    && NextMarker(s[j + 1..]) == e - j - 1
  }

  /** After a marker, text after its spaces runs to the next marker. */
  lemma MatchFromSpan(s: string, q: nat, j: nat, e: nat)
    requires 0 < q <= j < e <= |s|
    requires LeadingSpaces(s[q..]) == j - q && NextMarker(s[j + 1..]) == e - j - 1
    ensures MatchFrom(s, q) == Some((q, e))
  {
  }

  /** A match at a marker that has text after its spaces ends at the next marker. */
  lemma MatchAtMarker(s: string, q: nat, j: nat, e: nat)
    requires MarkerSpan(s, q, j, e)
    ensures MatchAt(s) == Some((q, e))
  {
    MatchFromSpan(s, q, j, e);
  }

  // The layout of one numbered reply: marker `m`, padding, the reply `t`, a separator
  // `sep` of white space, then what follows.

  lemma LayoutSpaces(m: string, pad: string, t: string, sep: string, rest: string)
    requires AllSpace(pad) && t != [] && !IsSpace(t[0])
    ensures LeadingSpaces((m + pad + t + sep + rest)[|m|..]) == |pad|
  {
    assert (m + pad + t + sep + rest)[|m|..] == pad + (t + sep + rest);
    LeadingSpacesOf(pad, t + sep + rest);
  }

  lemma LayoutNext(m: string, pad: string, t: string, sep: string, rest: string)
    requires Reply(t) && AllSpace(sep) && (rest == [] || rest[0] == '回')
    ensures NextMarker((m + pad + t + sep + rest)[|m| + |pad| + 1..]) == |t| - 1 + |sep| + NextMarker(rest)
  {
    assert (m + pad + t + sep + rest)[|m| + |pad| + 1..] == (t[1..] + sep) + rest;
    ReplyTailMarkerFree(t, sep, rest);
    NextMarkerSkip(t[1..] + sep, rest);
  }

  /** After a reply's first character, no marker starts before what follows its separator. */
  lemma ReplyTailMarkerFree(t: string, sep: string, rest: string)
    requires Reply(t) && AllSpace(sep) && (rest == [] || rest[0] == '回')
    ensures forall i :: 0 <= i < |t[1..] + sep| ==> MarkerLength(((t[1..] + sep) + rest)[i..]).None?
  {
    var x := t[1..] + sep;
    forall i | 0 <= i < |x| ensures MarkerLength((x + rest)[i..]).None? {
      if i < |t| - 1 {
        assert (x + rest)[i..] == t[i + 1..] + (sep + rest);
        MarkerAcross(t[i + 1..], sep, rest);
      } else {
        assert (x + rest)[i..][0] == sep[i - (|t| - 1)];
      }
    }
  }

  lemma LayoutText(m: string, pad: string, t: string, sep: string, rest: string)
    requires AllSpace(pad) && IsTrimmed(t) && t != [] && AllSpace(sep)
    ensures var s := m + pad + t + sep + rest; var e := |m| + |pad| + |t| + |sep|;
      Trim(s[|m|..e]) == t && s[e..] == rest
  {
    var s := m + pad + t + sep + rest;
    assert s[|m|..|m| + |pad| + |t| + |sep|] == pad + t + sep;
    TrimPadded(pad, t, sep);
  }

  /** The layout of a reply after a marker makes a marker span whose text is the reply. */
  lemma LayoutSpan(m: string, pad: string, t: string, sep: string, rest: string)
    requires MarkerLength(m + pad + t + sep + rest) == Some(|m|)
    requires AllSpace(pad) && Reply(t) && AllSpace(sep)
    requires NextMarker(rest) == 0
    ensures var s := m + pad + t + sep + rest; var e := |m| + |pad| + |t| + |sep|;
      MarkerSpan(s, |m|, |m| + |pad|, e) && Trim(s[|m|..e]) == t && s[e..] == rest
  {
    assert rest == [] || MarkerLength(rest).Some?;
    LayoutSpaces(m, pad, t, sep, rest);
    LayoutNext(m, pad, t, sep, rest);
    LayoutText(m, pad, t, sep, rest);
  }

  lemma LayoutMatch(m: string, pad: string, t: string, sep: string, rest: string)
    requires var s := m + pad + t + sep + rest; var e := |m| + |pad| + |t| + |sep|;
      MarkerSpan(s, |m|, |m| + |pad|, e)
    ensures MatchAt(m + pad + t + sep + rest) == Some((|m|, |m| + |pad| + |t| + |sep|))
  {
    MatchAtMarker(m + pad + t + sep + rest, |m|, |m| + |pad|, |m| + |pad| + |t| + |sep|);
  }

  lemma MatchesLayout(m: string, pad: string, t: string, sep: string, rest: string)
    requires var s := m + pad + t + sep + rest; var e := |m| + |pad| + |t| + |sep|;
      MatchAt(s) == Some((|m|, e)) && Trim(s[|m|..e]) == t && s[e..] == rest
    ensures Matches(m + pad + t + sep + rest) == [t] + Matches(rest)
  {
    MatchesOfMatch(m + pad + t + sep + rest, |m|, |m| + |pad| + |t| + |sep|);
  }

  /** A reply after a marker of length `|m|`, then white space, then a marker or the end. */
  lemma MatchesAfterMarker(m: string, pad: string, t: string, sep: string, rest: string)
    requires MarkerLength(m + pad + t + sep + rest) == Some(|m|)
    requires AllSpace(pad) && Reply(t) && AllSpace(sep)
    requires NextMarker(rest) == 0
    ensures Matches(m + pad + t + sep + rest) == [t] + Matches(rest)
  {
    LayoutSpan(m, pad, t, sep, rest);
    LayoutMatch(m, pad, t, sep, rest);
    MatchesLayout(m, pad, t, sep, rest);
  }

  lemma MarkerLengthAt(gap: string, digits: string, colon: char, pad: string, t: string, sep: string, rest: string)
    requires MarkerParts(gap, digits, colon)
    ensures var m := MarkerText(gap, digits, colon);
      MarkerLength(m + pad + t + sep + rest) == Some(|m|)
  {
    var m := MarkerText(gap, digits, colon);
    AppendAssoc(m, pad + t + sep, rest);
    AppendAssoc(m, pad + t, sep);
    AppendAssoc(m, pad, t);
    MarkerLengthOf(gap, digits, colon, pad + t + sep + rest);
  }

  /** The search for the next marker stops at once where a marker starts, or at the end. */
  lemma NextMarkerHere(s: string)
    requires s == [] || MarkerLength(s).Some?
    ensures NextMarker(s) == 0
  {
  }

  /** One numbered reply, then white space, then another marker or the end: the reply is
      the match text, and the search goes on at the next marker. */
  lemma MatchesUnit(gap: string, digits: string, colon: char, pad: string, t: string, sep: string, rest: string)
    requires MarkerParts(gap, digits, colon) && AllSpace(pad) && Reply(t) && AllSpace(sep)
    requires rest == [] || MarkerLength(rest).Some?
    ensures Matches(MarkerText(gap, digits, colon) + pad + t + sep + rest) == [t] + Matches(rest)
  {
    MarkerLengthAt(gap, digits, colon, pad, t, sep, rest);
    NextMarkerHere(rest);
    MatchesAfterMarker(MarkerText(gap, digits, colon), pad, t, sep, rest);
  }

  /** A numbered list starts with its first marker. */
  lemma NumberedMarked(ts: seq<string>, n: nat, gap: string, colon: char, pad: string)
    requires |ts| >= 1 && AllSpace(gap) && IsColon(colon)
    ensures MarkerLength(Join(Numbered(ts, n, gap, colon, pad), "\n\n")).Some?
  {
    var items := Numbered(ts, n, gap, colon, pad);
    var after := if |ts| == 1 then pad + ts[0] else pad + ts[0] + "\n\n" + Join(items[1..], "\n\n");
    assert Join(items, "\n\n") == MarkerText(gap, NatToString(n), colon) + after;
    MarkerLengthOf(gap, NatToString(n), colon, after);
  }

  /** A numbered list is its first item, a blank line, and the rest of the list. */
  lemma NumberedHead(ts: seq<string>, n: nat, gap: string, colon: char, pad: string)
    requires |ts| >= 2
    ensures Join(Numbered(ts, n, gap, colon, pad), "\n\n")
      == MarkerText(gap, NatToString(n), colon) + pad + ts[0] + "\n\n" + Join(Numbered(ts[1..], n + 1, gap, colon, pad), "\n\n")
  {
    var items := Numbered(ts, n, gap, colon, pad);
    assert items[1..] == Numbered(ts[1..], n + 1, gap, colon, pad);
  }

  lemma NumberedLast(ts: seq<string>, n: nat, gap: string, colon: char, pad: string)
    requires |ts| == 1
    ensures Join(Numbered(ts, n, gap, colon, pad), "\n\n") == MarkerText(gap, NatToString(n), colon) + pad + ts[0] + [] + []
  {
  }

  lemma SplitHead(ts: seq<string>)
    requires ts != []
    ensures ts == [ts[0]] + ts[1..]
  {
  }

  /** The first of several numbered replies is read, and the search goes on at the second marker. */
  lemma MatchesNumberedHead(ts: seq<string>, n: nat, gap: string, colon: char, pad: string)
    requires |ts| >= 2 && AllSpace(gap) && IsColon(colon) && AllSpace(pad) && Reply(ts[0])
    ensures Matches(Join(Numbered(ts, n, gap, colon, pad), "\n\n"))
      == [ts[0]] + Matches(Join(Numbered(ts[1..], n + 1, gap, colon, pad), "\n\n"))
  {
    NumberedHead(ts, n, gap, colon, pad);
    NumberedMarked(ts[1..], n + 1, gap, colon, pad);
    MatchesUnit(gap, NatToString(n), colon, pad, ts[0], "\n\n", Join(Numbered(ts[1..], n + 1, gap, colon, pad), "\n\n"));
  }

  /** The last numbered reply is read alone. */
  lemma MatchesNumberedLast(ts: seq<string>, n: nat, gap: string, colon: char, pad: string)
    requires |ts| == 1 && AllSpace(gap) && IsColon(colon) && AllSpace(pad) && Reply(ts[0])
    ensures Matches(Join(Numbered(ts, n, gap, colon, pad), "\n\n")) == ts
  {
    NumberedLast(ts, n, gap, colon, pad);
    MatchesUnit(gap, NatToString(n), colon, pad, ts[0], [], []);
    SplitHead(ts);
  }

  /** The marker tier reads back numbered replies separated by blank lines. */
  lemma {:induction false} MatchesNumbered(ts: seq<string>, n: nat, gap: string, colon: char, pad: string)
    requires |ts| >= 1 && AllSpace(gap) && IsColon(colon) && AllSpace(pad)
    requires forall k :: 0 <= k < |ts| ==> Reply(ts[k])
    ensures Matches(Join(Numbered(ts, n, gap, colon, pad), "\n\n")) == ts
    decreases |ts|
  {
    if |ts| == 1 {
      MatchesNumberedLast(ts, n, gap, colon, pad);
    } else {
      MatchesNumberedHead(ts, n, gap, colon, pad);
      assert forall k :: 0 <= k < |ts[1..]| ==> Reply(ts[1..][k]) by {
        forall k | 0 <= k < |ts[1..]| ensures Reply(ts[1..][k]) {
          assert ts[1..][k] == ts[k + 1];
        }
      }
      MatchesNumbered(ts[1..], n + 1, gap, colon, pad);
      SplitHead(ts);
    }
  }

  /** With marker units, they decide: the first three of them are the replies. */
  lemma ParseWithMarkers(content: string)
    requires MarkerTier(content) != []
    ensures ParseStreamedContent(content) == FirstThree(MarkerTier(content))
  {
  }

  /** Leading text in which no marker starts, then a marker with a reply after it, then
      white space and another marker or the end: the marker tier decides, the leading
      text is dropped, and the replies are that reply followed by the marker units of
      what comes after it, the first three of them. */
  lemma FirstMarkerReply(p: string, gap: string, digits: string, colon: char, pad: string,
                         t: string, sep: string, rest: string)
    requires var s := p + (MarkerText(gap, digits, colon) + pad + t + sep + rest);
      forall i :: 0 <= i < |p| ==> MarkerLength(s[i..]).None?
    requires MarkerParts(gap, digits, colon) && AllSpace(pad) && Reply(t) && AllSpace(sep)
    requires rest == [] || MarkerLength(rest).Some?
    ensures ParseStreamedContent(p + (MarkerText(gap, digits, colon) + pad + t + sep + rest))
      == AsResponses(Take3([t] + MarkerTier(rest)))
  {
    var body := MarkerText(gap, digits, colon) + pad + t + sep + rest;
    LeadingTextDropped(p, body);
    MatchesUnit(gap, digits, colon, pad, t, sep, rest);
    NonEmptyTextsAppend([t], Matches(rest));
    assert NonEmptyTexts([t]) == [t];
    ParseWithMarkers(p + body);
  }

  /** Numbered replies come back as themselves, the first three of them. */
  lemma NumberedRoundTrip(ts: seq<string>, gap: string, colon: char, pad: string)
    requires |ts| >= 1 && AllSpace(gap) && IsColon(colon) && AllSpace(pad)
    requires forall k :: 0 <= k < |ts| ==> Reply(ts[k])
    ensures ParseStreamedContent(Join(Numbered(ts, 1, gap, colon, pad), "\n\n")) == AsResponses(Take3(ts))
  {
    var content := Join(Numbered(ts, 1, gap, colon, pad), "\n\n");
    assert MarkerTier(content) == ts by {
      MatchesNumbered(ts, 1, gap, colon, pad);
      assert forall k :: 0 <= k < |ts| ==> ts[k] != "" by {
        forall k | 0 <= k < |ts| ensures ts[k] != "" {
          assert Reply(ts[k]);
        }
      }
    }
    ParseWithMarkers(content);
  }

  const PreambleText: string := "以下是回击：\n"
  const HomeReply: string := "早点回家吧"

  lemma PreambleMarkerFree(rest: string)
    ensures forall i :: 0 <= i < |PreambleText| ==> MarkerLength((PreambleText + rest)[i..]).None?
  {
    var s := PreambleText + rest;
    forall i | 0 <= i < |PreambleText| ensures MarkerLength(s[i..]).None? {
      assert s[i..][0] == PreambleText[i];
      if i == 3 {
        assert s[i..][1] == '击' && s[i..][2..][0] == '：';
      }
    }
  }

  lemma HomeReplyIsReply()
    ensures Reply(HomeReply)
  {
    forall i | 0 < i < |HomeReply| ensures MarkerLength(HomeReply[i..]).None? {
      assert HomeReply[i..][0] == HomeReply[i];
      if i == 2 {
        assert HomeReply[i..][1] == '家';
      }
    }
  }

  /** A preamble that itself says `回击`, without a number, is dropped, and a `回` inside
      a reply is kept as text. */
  lemma PreambleDropped()
    ensures ParseStreamedContent(PreambleText + "回击1：" + HomeReply) == [ResponseType(HomeReply)]
  {
    var body := MarkerText("", "1", '：') + "" + HomeReply + "" + "";
    assert body == "回击1：" + HomeReply;
    PreambleMarkerFree(body);
    HomeReplyIsReply();
    FirstMarkerReply(PreambleText, "", "1", '：', "", HomeReply, "", "");
    assert MarkerTier("") == [];
    AppendAssoc(PreambleText, "回击1：", HomeReply);
  }

  // ---------------------------------------------------------------------------
  // The paragraph tier and the last tier

  /** No blank line (two newlines in a row) inside `p`. */
  predicate NoBlankLine(p: string) {
    forall i :: 0 <= i < |p| - 1 ==> !(p[i] == '\n' && p[i + 1] == '\n')
  }

  /** A text that splitting on blank lines leaves whole. */
  predicate Block(p: string) {
    p != [] && p[|p| - 1] != '\n' && NoBlankLine(p)
  }

  lemma {:induction false} SplitBlockLast(p: string)
    requires NoBlankLine(p)
    ensures SplitOn(p, "\n\n") == [p]
    decreases |p|
  {
    if |p| >= 2 {
      assert p[..2] != "\n\n" by { assert !(p[0] == '\n' && p[1] == '\n'); }
      assert NoBlankLine(p[1..]) by {
        forall i | 0 <= i < |p[1..]| - 1 ensures !(p[1..][i] == '\n' && p[1..][i + 1] == '\n') {
          assert p[1..][i] == p[i + 1] && p[1..][i + 1] == p[i + 2];
        }
      }
      SplitBlockLast(p[1..]);
      assert [p[0]] + p[1..] == p;
    }
  }

  lemma {:induction false} SplitBlockHead(p: string, r: string)
    requires Block(p)
    ensures SplitOn(p + "\n\n" + r, "\n\n") == [p] + SplitOn(r, "\n\n")
    decreases |p|
  {
    var s := p + "\n\n" + r;
    assert s[..2] != "\n\n" by {
      if |p| == 1 {
        assert s[0] == p[0] && p[0] != '\n';
      } else {
        assert s[0] == p[0] && s[1] == p[1];
        assert !(p[0] == '\n' && p[1] == '\n');
      }
    }
    if |p| == 1 {
      assert s[1..] == "\n\n" + r;
      assert s[1..][..2] == "\n\n" && s[1..][2..] == r;
    } else {
      assert Block(p[1..]) by {
        forall i | 0 <= i < |p[1..]| - 1 ensures !(p[1..][i] == '\n' && p[1..][i + 1] == '\n') {
          assert p[1..][i] == p[i + 1] && p[1..][i + 1] == p[i + 2];
        }
      }
      assert s[1..] == p[1..] + "\n\n" + r;
      SplitBlockHead(p[1..], r);
    }
    assert [p[0]] + p[1..] == p;
  }

  /** Splitting on blank lines undoes joining blocks with blank lines. */
  lemma {:induction false} SplitJoinBlocks(ps: seq<string>)
    requires |ps| >= 1 && forall k :: 0 <= k < |ps| ==> Block(ps[k])
    ensures SplitOn(Join(ps, "\n\n"), "\n\n") == ps
    decreases |ps|
  {
    if |ps| == 1 {
      SplitBlockLast(ps[0]);
    } else {
      assert Block(ps[0]);
      SplitBlockHead(ps[0], Join(ps[1..], "\n\n"));
      SplitJoinBlocks(ps[1..]);
      SplitHead(ps);
    }
  }

  /** Each part is no longer than the joined text, in UTF-16 units. */
  lemma {:induction false} JoinPartBound(ps: seq<string>, sep: string, k: nat)
    requires k < |ps|
    ensures Utf16Length(ps[k]) <= Utf16Length(Join(ps, sep))
    decreases |ps|
  {
    if |ps| > 1 {
      Utf16LengthAppend(ps[0] + sep, Join(ps[1..], sep));
      Utf16LengthAppend(ps[0], sep);
      if k > 0 {
        JoinPartBound(ps[1..], sep, k - 1);
      }
    }
  }

  lemma TrimTrimmed(p: string)
    requires IsTrimmed(p)
    ensures Trim(p) == p
  {
    if p != [] {
      TrimPadded([], p, []);
      assert [] + p + [] == p;
    }
  }

  lemma LongParagraphsCons(p: string, ps: seq<string>)
    ensures LongParagraphs([p] + ps) ==
      (if Utf16Length(Trim(p)) > 10 then [Trim(p)] else []) + LongParagraphs(ps)
  {
    assert ([p] + ps)[1..] == ps;
  }

  /** Trimmed paragraphs longer than ten units are all kept, unchanged. */
  lemma {:induction false} LongParagraphsAll(ps: seq<string>)
    requires forall k :: 0 <= k < |ps| ==> IsTrimmed(ps[k]) && Utf16Length(ps[k]) > 10
    ensures LongParagraphs(ps) == ps
    decreases |ps|
  {
    if ps != [] {
      assert IsTrimmed(ps[0]) && Utf16Length(ps[0]) > 10;
      TrimTrimmed(ps[0]);
      assert forall k :: 0 <= k < |ps[1..]| ==> IsTrimmed(ps[1..][k]) && Utf16Length(ps[1..][k]) > 10 by {
        forall k | 0 <= k < |ps[1..]| ensures IsTrimmed(ps[1..][k]) && Utf16Length(ps[1..][k]) > 10 {
          assert ps[1..][k] == ps[k + 1];
        }
      }
      LongParagraphsAll(ps[1..]);
      SplitHead(ps);
      LongParagraphsCons(ps[0], ps[1..]);
    }
  }

  /** Paragraphs no longer than ten units once trimmed are all dropped. */
  lemma {:induction false} LongParagraphsNone(ps: seq<string>)
    requires forall k :: 0 <= k < |ps| ==> Utf16Length(Trim(ps[k])) <= 10
    ensures LongParagraphs(ps) == []
    decreases |ps|
  {
    if ps != [] {
      LongParagraphsNone(ps[1..]);
    }
  }

  /** A paragraph the paragraph tier keeps whole: trimmed, longer than ten units, with
      no blank line inside. */
  predicate LongParagraph(p: string) {
    IsTrimmed(p) && Utf16Length(p) > 10 && NoBlankLine(p)
  }

  /** Text in which no marker starts, made of long paragraphs separated by blank lines,
      comes back as its first three paragraphs. */
  lemma ParagraphRoundTrip(ps: seq<string>)
    requires |ps| >= 1 && forall k :: 0 <= k < |ps| ==> LongParagraph(ps[k])
    requires NoMarker(Join(ps, "\n\n"))
    ensures ParseStreamedContent(Join(ps, "\n\n")) == AsResponses(Take3(ps))
  {
    var content := Join(ps, "\n\n");
    NoMarkerNoUnits(content);
    ParagraphTierOfBlocks(ps);
    ParseWithoutMarkers(content);
  }

  /** Long paragraphs joined with blank lines are the paragraph tier of the text. */
  lemma ParagraphTierOfBlocks(ps: seq<string>)
    requires |ps| >= 1 && forall k :: 0 <= k < |ps| ==> LongParagraph(ps[k])
    ensures ParagraphTier(Join(ps, "\n\n")) == ps
  {
    assert forall k :: 0 <= k < |ps| ==> Block(ps[k]) by {
      forall k | 0 <= k < |ps| ensures Block(ps[k]) {
        assert LongParagraph(ps[k]);
        assert ps[k] != [];
        assert !IsSpace(ps[k][|ps[k]| - 1]);
      }
    }
    SplitJoinBlocks(ps);
    LongParagraphsAll(ps);
  }

  /** Text in which no marker starts and no longer than ten units comes back whole,
      trimmed, or as the placeholder when it is blank. */
  lemma ShortContent(content: string)
    requires Utf16Length(content) <= 10 && NoMarker(content)
    ensures ParseStreamedContent(content) ==
      [ResponseType(if Trim(content) != "" then Trim(content) else Placeholder)]
  {
    assert MarkerTier(content) == [] by {
      NoMarkerNoUnits(content);
    }
    assert ParagraphTier(content) == [] by {
      var ps := SplitOn(content, "\n\n");
      assert forall k :: 0 <= k < |ps| ==> Utf16Length(Trim(ps[k])) <= 10 by {
        forall k | 0 <= k < |ps| ensures Utf16Length(Trim(ps[k])) <= 10 {
          SplitJoin(content, "\n\n");
          JoinPartBound(ps, "\n\n", k);
          TrimUtf16Length(ps[k]);
        }
      }
      LongParagraphsNone(ps);
    }
    ParseWithoutMarkers(content);
  }

  /** Empty output from the provider still gives one reply: the placeholder. */
  lemma EmptyContent()
    ensures ParseStreamedContent("") == [ResponseType(Placeholder)]
  {
    ShortContent("");
  }
}
