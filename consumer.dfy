/** The client's event-stream reader, the line-buffer loop shared by
    `handleStreamResponse` and `handleFollowUpStreamResponse` in lib/api.ts.
    Chunks arrive already decoded to text. */
module StreamConsumer {
  import opened Wrappers
  import opened Text
  import opened Json
  import opened Relay

  /** A `data: [DONE]` line. */
  predicate IsDone(line: string) {
    StartsWith(line, DataPrefix) && line[|DataPrefix|..] == DonePayload
  }

  /** The text one complete line contributes: the non-empty `content` of a
      `data: ` line whose payload parses; nothing for any other line. */
  function LineDelta(line: string): string {
    if StartsWith(line, DataPrefix) && line[|DataPrefix|..] != DonePayload then
      match DecodeContent(line[|DataPrefix|..])
      case Some(c) => c
      case None => ""
    else ""
  }

  /** The text one batch of lines contributes: `[DONE]` ends only this batch. */
  function BatchText(lines: seq<string>): string {
    if lines == [] then ""
    else if IsDone(lines[0]) then ""
    else LineDelta(lines[0]) + BatchText(lines[1..])
  }

  /** The `onUpdate` call one line makes when `full` is the text before it: the text
      with the line's content added, when that content is not empty. */
  function LineReport(line: string, full: string): seq<string> {
    if LineDelta(line) != "" then [full + LineDelta(line)] else []
  }

  /** The `onUpdate` calls of one batch of lines, starting from the text `full`: one after
      each line that adds content, up to the batch's first `[DONE]`. */
  function BatchReports(lines: seq<string>, full: string): seq<string> {
    if lines == [] || IsDone(lines[0]) then []
    else LineReport(lines[0], full) + BatchReports(lines[1..], full + LineDelta(lines[0]))
  }

  /** The reader's state after some chunks: the unterminated fragment kept in the
      buffer, the text accumulated, the batches of complete lines processed, and the
      values passed to `onUpdate`. */
  datatype ReadState = ReadState(buffer: string, text: string, batches: seq<seq<string>>, reports: seq<string>)

  /** One chunk: split buffer + chunk on `\n`, keep the last piece, process the rest. */
  function Step(st: ReadState, chunk: string): ReadState {
    var lines := SplitOn(st.buffer + chunk, "\n");
    var batch := lines[..|lines| - 1];
    ReadState(lines[|lines| - 1], st.text + BatchText(batch), st.batches + [batch],
              st.reports + BatchReports(batch, st.text))
  }

  function Consume(chunks: seq<string>): ReadState {
    if chunks == [] then ReadState("", "", [], [])
    else Step(Consume(chunks[..|chunks| - 1]), chunks[|chunks| - 1])
  }

  /** The accumulated text once the reader reports `done`. */
  function StreamText(chunks: seq<string>): string {
    Consume(chunks).text
  }

  /** The values passed to `onUpdate` while the chunks are read, in order. */
  function StreamReports(chunks: seq<string>): seq<string> {
    Consume(chunks).reports
  }

  /** Every progress report is the whole text so far and strictly extends the one before. */
  predicate ProgressReports(updates: seq<string>, full: string) {
    && (updates == [] ==> full == "")
    && (updates != [] ==> updates[|updates| - 1] == full)
    && forall k :: 0 <= k < |updates| - 1 ==>
         |updates[k]| < |updates[k + 1]| && updates[k] == updates[k + 1][..|updates[k]|]
  }

  /** Reporting a longer text that extends the last one keeps the reports well formed. */
  lemma ReportExtension(updates: seq<string>, full: string, delta: string)
    requires ProgressReports(updates, full) && delta != ""
    ensures ProgressReports(updates + [full + delta], full + delta)
  {
    var u := updates + [full + delta];
    forall k | 0 <= k < |u| - 1
      ensures |u[k]| < |u[k + 1]| && u[k] == u[k + 1][..|u[k]|]
    {
      if k == |u| - 2 {
        assert u[k] == full && u[k + 1] == full + delta;
      }
    }
  }

  /** One step of `BatchText`: a `[DONE]` line ends the batch, any other line adds its delta. */
  lemma BatchTextCons(lines: seq<string>)
    requires lines != []
    ensures BatchText(lines) == if IsDone(lines[0]) then "" else LineDelta(lines[0]) + BatchText(lines[1..])
  {
  }

  /** The body of the inner `for` loop for one line: `stop` is the `break` on `[DONE]`. */
  method ProcessLine(line: string, full0: string, updates0: seq<string>)
    returns (full: string, updates: seq<string>, stop: bool)
    requires ProgressReports(updates0, full0)
    ensures stop == IsDone(line)
    ensures full == full0 + LineDelta(line)
    ensures updates == updates0 + LineReport(line, full0)
    ensures ProgressReports(updates, full)
  {
    full, updates, stop := full0, updates0, false;
    if StartsWith(line, DataPrefix) {
      var data := line[|DataPrefix|..];
      if data == DonePayload {
        stop := true;
        return;
      }
      var parsed := DecodeContent(data);
      if parsed.Some? && parsed.value != "" {
        ReportExtension(updates, full, parsed.value);
        full := full + parsed.value;
        updates := updates + [full];
      }
    }
  }

  /** The text still to come from a batch, one line further on. */
  lemma BatchTextAdvance(batch: seq<string>, j: nat, before: string, after: string)
    requires j < |batch| && !IsDone(batch[j]) && after == before + LineDelta(batch[j])
    ensures before + BatchText(batch[j..]) == after + BatchText(batch[j + 1..])
  {
    var rest := batch[j..];
    assert rest[0] == batch[j] && rest[1..] == batch[j + 1..];
    BatchTextCons(rest);
    AppendAssoc(before, LineDelta(batch[j]), BatchText(batch[j + 1..]));
  }

  /** The reports still to come from a batch, one line further on. */
  lemma BatchReportsAdvance(batch: seq<string>, j: nat, before: string, ub: seq<string>, ua: seq<string>)
    requires j < |batch| && !IsDone(batch[j]) && ua == ub + LineReport(batch[j], before)
    ensures ub + BatchReports(batch[j..], before) == ua + BatchReports(batch[j + 1..], before + LineDelta(batch[j]))
  {
    var rest := batch[j..];
    assert rest[0] == batch[j] && rest[1..] == batch[j + 1..];
    AppendAssoc(ub, LineReport(batch[j], before), BatchReports(batch[j + 1..], before + LineDelta(batch[j])));
  }

  /** Nothing more comes from a batch once its `[DONE]` line is reached, or at its end. */
  lemma BatchTextStops(batch: seq<string>, j: nat, full: string, updates: seq<string>)
    requires j <= |batch| && (j == |batch| || IsDone(batch[j]))
    ensures full + BatchText(batch[j..]) == full
    ensures updates + BatchReports(batch[j..], full) == updates
  {
    assert BatchText(batch[j..]) == "";
    assert full + "" == full;
    assert BatchReports(batch[j..], full) == [];
    assert updates + [] == updates;
  }

  /** The inner `for` loop over one batch of complete lines; it stops at `[DONE]`. */
  method ProcessBatch(batch: seq<string>, full0: string, updates0: seq<string>)
    returns (full: string, updates: seq<string>)
    requires ProgressReports(updates0, full0)
    ensures full == full0 + BatchText(batch)
    ensures updates == updates0 + BatchReports(batch, full0)
    ensures ProgressReports(updates, full)
  {
    full, updates := full0, updates0;
    assert batch[0..] == batch;
    var j := 0;
    while j < |batch|
      invariant 0 <= j <= |batch|
      invariant full0 + BatchText(batch) == full + BatchText(batch[j..])
      invariant updates0 + BatchReports(batch, full0) == updates + BatchReports(batch[j..], full)
      invariant ProgressReports(updates, full)
    {
      ghost var before, ub := full, updates;
      var stop;
      full, updates, stop := ProcessLine(batch[j], full, updates);
      if stop {
        BatchTextStops(batch, j, full, updates);
        return;
      }
      BatchTextAdvance(batch, j, before, full);
      BatchReportsAdvance(batch, j, before, ub, updates);
      j := j + 1;
    }
    BatchTextStops(batch, j, full, updates);
  }

  /** `Consume` on a prefix one chunk longer is one more `Step`. */
  lemma ConsumePrefix(chunks: seq<string>, i: nat)
    requires i < |chunks|
    ensures Consume(chunks[..i + 1]) == Step(Consume(chunks[..i]), chunks[i])
  {
    assert chunks[..i + 1][..i] == chunks[..i];
  }

  /** The read loop: returns the accumulated text and the values passed to `onUpdate`. */
  method ReadEvents(chunks: seq<string>) returns (full: string, updates: seq<string>)
    ensures full == StreamText(chunks)
    ensures updates == StreamReports(chunks)
    ensures ProgressReports(updates, full)
  {
    var buffer := "";
    full, updates := "", [];
    var i := 0;
    while i < |chunks|
      invariant 0 <= i <= |chunks|
      invariant Consume(chunks[..i]).buffer == buffer && Consume(chunks[..i]).text == full
      invariant Consume(chunks[..i]).reports == updates
      invariant ProgressReports(updates, full)
    {
      ConsumePrefix(chunks, i);
      var lines := SplitOn(buffer + chunks[i], "\n");
      buffer := lines[|lines| - 1];
      full, updates := ProcessBatch(lines[..|lines| - 1], full, updates);
      i := i + 1;
    }
    assert chunks[..i] == chunks;
  }

  // ---------------------------------------------------------------------------
  // What the reader has seen after some chunks

  /** Lines, each followed by the `\n` that ended it. */
  function JoinLines(lines: seq<string>): string {
    if lines == [] then "" else lines[0] + "\n" + JoinLines(lines[1..])
  }

  /** The processed lines of all batches, in order. */
  function Flatten(batches: seq<seq<string>>): seq<string> {
    if batches == [] then [] else Flatten(batches[..|batches| - 1]) + batches[|batches| - 1]
  }

  predicate NewlineFree(lines: seq<string>) {
    forall k :: 0 <= k < |lines| ==> '\n' !in lines[k]
  }

  lemma {:induction false} JoinLinesAppend(a: seq<string>, b: seq<string>)
    ensures JoinLines(a + b) == JoinLines(a) + JoinLines(b)
  {
    if a == [] {
      assert a + b == b;
    } else {
      assert (a + b)[1..] == a[1..] + b;
      JoinLinesAppend(a[1..], b);
      AppendAssoc(a[0] + "\n", JoinLines(a[1..]), JoinLines(b));
    }
  }

  /** `join('\n')` is every piece but the last followed by `\n`, then the last. */
  lemma {:induction false} JoinAsLines(parts: seq<string>)
    requires |parts| >= 1
    ensures Join(parts, "\n") == JoinLines(parts[..|parts| - 1]) + parts[|parts| - 1]
  {
    if |parts| > 1 {
      JoinAsLines(parts[1..]);
      assert parts[..|parts| - 1][1..] == parts[1..][..|parts[1..]| - 1];
      AppendAssoc(parts[0] + "\n", JoinLines(parts[1..][..|parts[1..]| - 1]), parts[|parts| - 1]);
    }
  }

  lemma ConcatSnoc(parts: seq<string>, x: string)
    ensures Concat(parts + [x]) == Concat(parts) + x
  {
    ConcatAppend(parts, [x]);
    assert Concat([x]) == x + Concat([]);
  }

  /** The shape `ConsumeLines` states, for one reader state and the text read so far. */
  predicate LinesSoFar(st: ReadState, read: string) {
    && JoinLines(Flatten(st.batches)) + st.buffer == read
    && '\n' !in st.buffer
    && NewlineFree(Flatten(st.batches))
  }

  lemma StepLines(st: ReadState, read: string, c: string)
    requires LinesSoFar(st, read)
    ensures LinesSoFar(Step(st, c), read + c)
  {
    var lines := SplitOn(st.buffer + c, "\n");
    var batch := lines[..|lines| - 1];
    SplitJoin(st.buffer + c, "\n");
    JoinAsLines(lines);
    SplitOnCharPieces(st.buffer + c, "\n");
    var bs := st.batches + [batch];
    assert bs[..|bs| - 1] == st.batches;
    var f := Flatten(st.batches);
    assert Flatten(bs) == f + batch;
    JoinLinesAppend(f, batch);
    assert JoinLines(batch) + lines[|lines| - 1] == st.buffer + c;
    AppendAssoc(JoinLines(f), JoinLines(batch), lines[|lines| - 1]);
    AppendAssoc(JoinLines(f), st.buffer, c);
    forall k | 0 <= k < |f + batch| ensures '\n' !in (f + batch)[k] {
      if k >= |f| {
        assert (f + batch)[k] == lines[k - |f|];
      }
    }
  }

  /** After each chunk the buffer holds no `\n`, the processed lines hold none, and the
      processed lines, each with its `\n`, followed by the buffer, are all text read so far. */
  lemma {:induction false} ConsumeLines(chunks: seq<string>)
    ensures LinesSoFar(Consume(chunks), Concat(chunks))
  {
    if chunks == [] {
      assert JoinLines([]) + "" == "";
    } else {
      var init, c := chunks[..|chunks| - 1], chunks[|chunks| - 1];
      ConsumeLines(init);
      StepLines(Consume(init), Concat(init), c);
      assert chunks == init + [c];
      ConcatSnoc(init, c);
    }
  }

  /** A chunk without `\n` only grows the buffer: no line of it is processed yet. */
  lemma UnterminatedFragmentWaits(chunks: seq<string>, c: string)
    requires '\n' !in c
    ensures Consume(chunks + [c]).buffer == Consume(chunks).buffer + c
    ensures StreamText(chunks + [c]) == StreamText(chunks)
  {
    ConsumeLines(chunks);
    var st := Consume(chunks);
    SplitNoSeparator(st.buffer + c);
    assert (chunks + [c])[..|chunks|] == chunks;
  }

  lemma {:induction false} SplitNoSeparator(s: string)
    requires '\n' !in s
    ensures SplitOn(s, "\n") == [s]
    decreases |s|
  {
    if |s| >= 1 {
      assert s[..1] != "\n" by { assert s[..1][0] == s[0]; }
      SplitNoSeparator(s[1..]);
      assert [s[0]] + s[1..] == s;
    }
  }

  // ---------------------------------------------------------------------------
  // The accumulated text as a function of the processed lines

  /** The deltas of all lines, ignoring `[DONE]`. */
  function LinesText(lines: seq<string>): string {
    if lines == [] then "" else LineDelta(lines[0]) + LinesText(lines[1..])
  }

  function BatchesText(batches: seq<seq<string>>): string {
    if batches == [] then "" else BatchesText(batches[..|batches| - 1]) + BatchText(batches[|batches| - 1])
  }

  /** The reader's text is the batches' texts in order. */
  lemma {:induction false} ConsumeText(chunks: seq<string>)
    ensures Consume(chunks).text == BatchesText(Consume(chunks).batches)
  {
    if chunks != [] {
      ConsumeText(chunks[..|chunks| - 1]);
      var st := Consume(chunks[..|chunks| - 1]);
      var lines := SplitOn(st.buffer + chunks[|chunks| - 1], "\n");
      var bs := st.batches + [lines[..|lines| - 1]];
      assert bs[..|bs| - 1] == st.batches;
    }
  }

  /** After a `[DONE]` line no line carries content. */
  predicate QuietAfterDone(lines: seq<string>) {
    forall i, j :: 0 <= i < j < |lines| && IsDone(lines[i]) ==> LineDelta(lines[j]) == ""
  }

  lemma {:induction false} LinesTextAppend(a: seq<string>, b: seq<string>)
    ensures LinesText(a + b) == LinesText(a) + LinesText(b)
  {
    if a == [] {
      assert a + b == b;
    } else {
      assert (a + b)[1..] == a[1..] + b;
      LinesTextAppend(a[1..], b);
      AppendAssoc(LineDelta(a[0]), LinesText(a[1..]), LinesText(b));
    }
  }

  lemma {:induction false} LinesTextSilent(lines: seq<string>)
    requires forall k :: 0 <= k < |lines| ==> LineDelta(lines[k]) == ""
    ensures LinesText(lines) == ""
  {
    if lines != [] {
      LinesTextSilent(lines[1..]);
    }
  }

  /** When nothing follows a `[DONE]`, stopping the batch there loses nothing. */
  lemma {:induction false} BatchTextQuiet(batch: seq<string>)
    requires QuietAfterDone(batch)
    ensures BatchText(batch) == LinesText(batch)
  {
    if batch != [] {
      if IsDone(batch[0]) {
        forall k | 0 <= k < |batch[1..]| ensures LineDelta(batch[1..][k]) == "" {
          assert LineDelta(batch[k + 1]) == "";
        }
        LinesTextSilent(batch[1..]);
      } else {
        assert QuietAfterDone(batch[1..]) by {
          forall i, j | 0 <= i < j < |batch[1..]| && IsDone(batch[1..][i])
            ensures LineDelta(batch[1..][j]) == ""
          {
            assert IsDone(batch[i + 1]);
          }
        }
        BatchTextQuiet(batch[1..]);
      }
    }
  }

  lemma {:induction false} BatchesTextQuiet(batches: seq<seq<string>>)
    requires QuietAfterDone(Flatten(batches))
    ensures BatchesText(batches) == LinesText(Flatten(batches))
  {
    if batches != [] {
      var init, last := batches[..|batches| - 1], batches[|batches| - 1];
      var a := Flatten(init);
      assert Flatten(batches) == a + last;
      assert QuietAfterDone(a) by {
        forall i, j | 0 <= i < j < |a| && IsDone(a[i]) ensures LineDelta(a[j]) == "" {
          assert (a + last)[i] == a[i] && (a + last)[j] == a[j];
        }
      }
      assert QuietAfterDone(last) by {
        forall i, j | 0 <= i < j < |last| && IsDone(last[i]) ensures LineDelta(last[j]) == "" {
          assert (a + last)[|a| + i] == last[i] && (a + last)[|a| + j] == last[j];
        }
      }
      BatchesTextQuiet(init);
      BatchTextQuiet(last);
      LinesTextAppend(a, last);
    }
  }

  // ---------------------------------------------------------------------------
  // The relay's frames, read as lines

  /** The lines of the content frames: each frame is one `data:` line and one empty line. */
  function ContentLines(ds: seq<string>): seq<string> {
    if ds == [] then [] else [DataPrefix + EncodeContent(ds[0]), ""] + ContentLines(ds[1..])
  }

  /** The lines of the whole relayed stream, ending with `[DONE]` and its empty line. */
  function FrameLines(ds: seq<string>): seq<string> {
    ContentLines(ds) + [DataPrefix + DonePayload, ""]
  }

  lemma ContentLineDelta(d: string)
    ensures !IsDone(DataPrefix + EncodeContent(d)) && LineDelta(DataPrefix + EncodeContent(d)) == d
  {
    var line := DataPrefix + EncodeContent(d);
    assert line[..|DataPrefix|] == DataPrefix;
    assert line[|DataPrefix|..] == EncodeContent(d);
    assert EncodeContent(d)[0] != DonePayload[0];
    DecodeEncode(d);
  }

  lemma FramesTail(ds: seq<string>)
    requires ds != []
    ensures Concat(Frames(ds)) == Frame(ds[0]) + Concat(Frames(ds[1..]))
  {
    assert Frames(ds)[1..] == Frames(ds[1..]);
  }

  /** The content lines, each with its `\n`, are the content frames. */
  lemma {:induction false} ContentLinesJoin(ds: seq<string>)
    ensures JoinLines(ContentLines(ds)) == Concat(Frames(ds))
  {
    if ds != [] {
      ContentLinesJoin(ds[1..]);
      FramesTail(ds);
      var cl := ContentLines(ds);
      var line := DataPrefix + EncodeContent(ds[0]);
      var r := Concat(Frames(ds[1..]));
      assert cl[1..][1..] == ContentLines(ds[1..]);
      assert JoinLines(cl[1..]) == "" + "\n" + r;
      assert "" + "\n" + r == "\n" + r;
      assert JoinLines(cl) == line + "\n" + ("\n" + r);
      AppendAssoc(line + "\n", "\n", r);
      AppendAssoc(line, "\n", "\n");
      assert Frame(ds[0]) == line + "\n\n";
      assert "\n" + "\n" == "\n\n";
    }
  }

  /** The content lines carry exactly the deltas. */
  lemma {:induction false} ContentLinesText(ds: seq<string>)
    ensures LinesText(ContentLines(ds)) == Concat(ds)
  {
    if ds != [] {
      ContentLinesText(ds[1..]);
      ContentLineDelta(ds[0]);
      var cl := ContentLines(ds);
      assert cl[1..][1..] == ContentLines(ds[1..]);
      assert LineDelta("") == "";
    }
  }

  /** A content frame's data line holds no `\n` and is not `[DONE]`. */
  lemma ContentLineShape(d: string)
    ensures '\n' !in DataPrefix + EncodeContent(d) && !IsDone(DataPrefix + EncodeContent(d))
  {
    ContentLineDelta(d);
    assert '\n' !in DataPrefix && '\n' !in EncodeContent(d);
  }

  lemma {:induction false} ContentLinesShape(ds: seq<string>)
    ensures forall l :: l in ContentLines(ds) ==> '\n' !in l && !IsDone(l)
  {
    if ds != [] {
      ContentLinesShape(ds[1..]);
      ContentLineShape(ds[0]);
      assert !IsDone("");
    }
  }

  /** The `[DONE]` frame, read as lines. */
  lemma DoneLines()
    ensures JoinLines([DataPrefix + DonePayload, ""]) == DoneFrame
    ensures LinesText([DataPrefix + DonePayload, ""]) == ""
    ensures IsDone(DataPrefix + DonePayload)
  {
    var tail := [DataPrefix + DonePayload, ""];
    assert tail[1..] == [""] && [""][1..] == [];
    var done := DataPrefix + DonePayload;
    assert done[..|DataPrefix|] == DataPrefix;
    assert done[|DataPrefix|..] == DonePayload;
    assert JoinLines(tail) == done + "\n" + ("" + "\n" + "");
    assert done + "\n" + ("" + "\n" + "") == DoneFrame;
    assert LineDelta(done) == "" && LineDelta("") == "";
    assert LinesText(tail) == LineDelta(done) + (LineDelta("") + "");
  }

  /** The lines of the relayed stream spell exactly the relayed text and carry exactly
      the deltas. */
  lemma FrameLinesRead(ds: seq<string>)
    ensures JoinLines(FrameLines(ds)) == WireText(ds)
    ensures LinesText(FrameLines(ds)) == Concat(ds)
  {
    ContentLinesJoin(ds);
    ContentLinesText(ds);
    DoneLines();
    JoinLinesAppend(ContentLines(ds), [DataPrefix + DonePayload, ""]);
    LinesTextAppend(ContentLines(ds), [DataPrefix + DonePayload, ""]);
  }

  /** The lines of the relayed stream hold no `\n`, and nothing follows their `[DONE]`. */
  lemma FrameLinesShape(ds: seq<string>)
    ensures NewlineFree(FrameLines(ds))
    ensures QuietAfterDone(FrameLines(ds))
  {
    ContentLinesShape(ds);
    var cl := ContentLines(ds);
    var fl := FrameLines(ds);
    assert LineDelta("") == "";
    forall k | 0 <= k < |fl| ensures '\n' !in fl[k] {
      if k < |cl| { assert fl[k] == cl[k] && cl[k] in cl; }
    }
    forall i, j | 0 <= i < j < |fl| && IsDone(fl[i]) ensures LineDelta(fl[j]) == "" {
      if i < |cl| {
        assert false;
      }
      assert fl[j] == "";
    }
  }

  /** The position of the first `\n`, or the length when there is none. */
  function NewlineIndex(s: string): (n: nat)
    ensures n <= |s|
  {
    if s == [] || s[0] == '\n' then 0 else 1 + NewlineIndex(s[1..])
  }

  lemma {:induction false} NewlineIndexAt(p: string, r: string)
    requires '\n' !in p
    ensures NewlineIndex(p + "\n" + r) == |p|
  {
    if p != [] {
      assert (p + "\n" + r)[1..] == p[1..] + "\n" + r;
      NewlineIndexAt(p[1..], r);
    }
  }

  lemma {:induction false} NewlineIndexNone(s: string)
    requires '\n' !in s
    ensures NewlineIndex(s) == |s|
  {
    if s != [] {
      NewlineIndexNone(s[1..]);
    }
  }

  /** Cutting a text at each `\n`: the complete lines and the unterminated rest. */
  function SplitLines(s: string): (seq<string>, string)
    decreases |s|
  {
    var i := NewlineIndex(s);
    if i == |s| then ([], s)
    else
      var (lines, rest) := SplitLines(s[i + 1..]);
      ([s[..i]] + lines, rest)
  }

  /** Cutting newline-free lines joined with `\n`, then a newline-free rest, gives them back. */
  lemma {:induction false} SplitLinesJoin(a: seq<string>, x: string)
    requires NewlineFree(a) && '\n' !in x
    ensures SplitLines(JoinLines(a) + x) == (a, x)
  {
    if a == [] {
      assert JoinLines(a) + x == x;
      NewlineIndexNone(x);
    } else {
      var s := JoinLines(a) + x;
      AppendAssoc(a[0] + "\n", JoinLines(a[1..]), x);
      NewlineIndexAt(a[0], JoinLines(a[1..]) + x);
      assert s[..|a[0]|] == a[0];
      assert s[|a[0]| + 1..] == JoinLines(a[1..]) + x;
      assert NewlineFree(a[1..]) by {
        forall k | 0 <= k < |a[1..]| ensures '\n' !in a[1..][k] { assert a[1..][k] == a[k + 1]; }
      }
      SplitLinesJoin(a[1..], x);
      assert [a[0]] + a[1..] == a;
    }
  }

  /** Split into lines the same way, two texts agree line for line and on the rest. */
  lemma LinesUnique(a: seq<string>, x: string, b: seq<string>, y: string)
    requires NewlineFree(a) && NewlineFree(b) && '\n' !in x && '\n' !in y
    requires JoinLines(a) + x == JoinLines(b) + y
    ensures a == b && x == y
  {
    SplitLinesJoin(a, x);
    SplitLinesJoin(b, y);
  }

  /** However the relayed text is cut into chunks, the reader ends with an empty buffer
      and exactly the concatenation of the deltas. */
  lemma WireRoundTrip(ds: seq<string>, chunks: seq<string>)
    requires Concat(chunks) == WireText(ds)
    ensures Consume(chunks).buffer == ""
    ensures StreamText(chunks) == Concat(ds)
  {
    var st := Consume(chunks);
    ConsumeLines(chunks);
    FrameLinesRead(ds);
    FrameLinesShape(ds);
    LinesUnique(Flatten(st.batches), st.buffer, FrameLines(ds), "");
    ConsumeText(chunks);
    BatchesTextQuiet(st.batches);
  }

  /** The relay then the reader: whatever the chunking of what `StartStream` enqueued on a
      normal end, the reader's text is the concatenation of the non-empty deltas. */
  lemma RelayRoundTrip(upstream: Upstream, enqueued: seq<string>, chunks: seq<string>)
    requires enqueued == Frames(NonEmptyDeltas(upstream.chunks)) + [DoneFrame]
    requires Concat(chunks) == Concat(enqueued)
    ensures StreamText(chunks) == Concat(NonEmptyDeltas(upstream.chunks))
  {
    ConcatSnoc(Frames(NonEmptyDeltas(upstream.chunks)), DoneFrame);
    WireRoundTrip(NonEmptyDeltas(upstream.chunks), chunks);
  }
}
