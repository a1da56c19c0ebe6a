/** components/argument-form.tsx: the input form on the home page. React state becomes
    the fields of a class; `onNewResponse` is counted in `notified`. */
module ArgumentForm {
  import opened Wrappers
  import opened Text
  import opened Types
  import opened BrowserStorage
  import HistoryStorage
  import opened ContentParser
  import Api

  const TagSeparator: string := "，"
  const VoiceSeparator: string := " "

  /** `prev ? `${prev}${sep}${piece}` : piece`: how a tag click and a voice transcript extend the input. */
  function Appended(prev: string, piece: string, sep: string): string {
    if prev != "" then prev + sep + piece else piece
  }

  /** The input after adding several pieces in turn. */
  function AppendedAll(prev: string, pieces: seq<string>, sep: string): string {
    if pieces == [] then prev else Appended(AppendedAll(prev, pieces[..|pieces| - 1], sep), pieces[|pieces| - 1], sep)
  }

  /** Starting from an empty input, adding pieces one by one (the first non-empty) gives
      them joined by the separator, in the order they were added. */
  lemma {:induction false} AppendedAllJoin(pieces: seq<string>, sep: string)
    requires |pieces| >= 1 && pieces[0] != ""
    ensures AppendedAll("", pieces, sep) == Join(pieces, sep)
  {
    var init := pieces[..|pieces| - 1];
    var last := pieces[|pieces| - 1];
    if |pieces| == 1 {
      assert AppendedAll("", init, sep) == "";
    } else {
      assert init[0] == pieces[0];
      AppendedAllJoin(init, sep);
      var j := Join(init, sep);
      assert |j| >= |init[0]| > 0;
      JoinSnoc(init, last, sep);
      assert init + [last] == pieces;
    }
  }

  class Form {
    var opponentWords: string
    var selectedStyle: ArgumentStyle
    var responses: seq<ResponseType>
    var isLoading: bool
    var isStreaming: bool
    var streamingContent: string
    /** How many times `onNewResponse` was called. */
    var notified: nat
    const local: WebStorage
    const session: WebStorage

    constructor (local: WebStorage, session: WebStorage)
      ensures this.local == local && this.session == session
      ensures opponentWords == "" && selectedStyle == Fire && responses == []
      ensures !isLoading && !isStreaming && streamingContent == "" && notified == 0
    {
      opponentWords := "";
      selectedStyle := Fire;
      responses := [];
      isLoading := false;
      isStreaming := false;
      streamingContent := "";
      notified := 0;
      this.local := local;
      this.session := session;
    }

    /** The mount effect: a saved conversation fills the input, the style and the replies;
        the slot is removed whether or not its text parses; a missing or blank slot is left alone. */
    method RestoreEffect()
      requires HoldsRestore(session.Get(RestoreKey))
      modifies this, session
      ensures SlotSpent(session.Get(RestoreKey))
      ensures SlotSpent(old(session.Get(RestoreKey))) ==> unchanged(this) && session.items == old(session.items)
      ensures !SlotSpent(old(session.Get(RestoreKey))) ==> session.items == old(session.items) - {RestoreKey}
      ensures old(session.Get(RestoreKey)) == Some(Unparsable) ==> unchanged(this)
      ensures old(session.Get(RestoreKey)).Some? && old(session.Get(RestoreKey)).value.Parsed? ==>
        var st := old(session.Get(RestoreKey)).value.value.state;
        opponentWords == st.opponentWords && selectedStyle == st.style && responses == st.responses &&
        isLoading == old(isLoading) && isStreaming == old(isStreaming) &&
        streamingContent == old(streamingContent) && notified == old(notified)
    {
      var restoreData := session.Get(RestoreKey);
      match restoreData
      case Some(Parsed(value)) =>
        opponentWords := value.state.opponentWords;
        selectedStyle := value.state.style;
        responses := value.state.responses;
        session.RemoveItem(RestoreKey);
      case Some(Unparsable) =>
        session.RemoveItem(RestoreKey);
      case _ =>
    }

    /** `handleTagClick`. */
    method TagClick(tag: string)
      modifies this
      ensures opponentWords == Appended(old(opponentWords), tag, TagSeparator)
      ensures selectedStyle == old(selectedStyle) && responses == old(responses) && notified == old(notified)
      ensures isLoading == old(isLoading) && isStreaming == old(isStreaming) && streamingContent == old(streamingContent)
    {
      opponentWords := Appended(opponentWords, tag, TagSeparator);
    }

    /** The speech recogniser's `onresult`: the transcript is appended after one space. */
    method VoiceResult(transcript: string)
      modifies this
      ensures opponentWords == Appended(old(opponentWords), transcript, VoiceSeparator)
      ensures selectedStyle == old(selectedStyle) && responses == old(responses) && notified == old(notified)
      ensures isLoading == old(isLoading) && isStreaming == old(isStreaming) && streamingContent == old(streamingContent)
    {
      opponentWords := Appended(opponentWords, transcript, VoiceSeparator);
    }

    /** The part `handleSubmit` and `handleRefresh` share once the input is not blank:
        clear the replies, await `generateResponses`, show what it resolves to and notify
        when that is non-empty, and in every case end loading and streaming. */
    method Attempt(outcome: Api.FetchOutcome) returns (result: Settled<seq<ResponseType>>)
      modifies this
      ensures result.Rejected? <==> Api.StreamRejects(outcome)
      ensures Api.FailsEarly(outcome) ==> result == Resolved(AsResponses(Api.FallbackTexts(selectedStyle)))
      ensures result.Resolved? ==>
        responses == result.value && notified == old(notified) + (if result.value != [] then 1 else 0)
      ensures result.Rejected? ==> responses == [] && notified == old(notified)
      ensures !isLoading && !isStreaming && streamingContent == ""
      ensures opponentWords == old(opponentWords) && selectedStyle == old(selectedStyle)
    {
      isLoading := true;
      isStreaming := true;
      streamingContent := "";
      responses := [];
      var updates;
      result, updates := Api.GenerateResponses(selectedStyle, outcome);
      if updates != [] {
        streamingContent := updates[|updates| - 1];
      }
      if result.Resolved? {
        responses := result.value;
        if result.value != [] {
          notified := notified + 1;
        }
      }
      isLoading := false;
      isStreaming := false;
      streamingContent := "";
    }

    /** `handleSubmit`: nothing for a blank input; otherwise an attempt, and for a result a
        history record in front of the stored ones, twenty at most. Text under the history
        key that does not parse makes that write throw, and the handler's `catch` swallows it. */
    method Submit(outcome: Api.FetchOutcome, now: string) returns (result: Option<Settled<seq<ResponseType>>>)
      requires HoldsHistory(local.Get(HistoryKey))
      modifies this, local
      ensures Trim(old(opponentWords)) == "" ==> result.None? && unchanged(this) && local.items == old(local.items)
      ensures Trim(old(opponentWords)) != "" ==> result.Some?
      ensures result.Some? ==>
        && (result.value.Rejected? <==> Api.StreamRejects(outcome))
        && (Api.FailsEarly(outcome) ==> result.value == Resolved(AsResponses(Api.FallbackTexts(selectedStyle))))
        && !isLoading && !isStreaming && streamingContent == ""
        && opponentWords == old(opponentWords) && selectedStyle == old(selectedStyle)
      ensures result.Some? && result.value.Resolved? ==>
        responses == result.value.value && notified == old(notified) + (if responses != [] then 1 else 0)
      ensures result.Some? && result.value.Rejected? ==> responses == [] && notified == old(notified)
      ensures result.Some? && result.value.Resolved? && old(local.Get(HistoryKey)) != Some(Unparsable) ==>
        local.items == old(local.items)[HistoryKey := Parsed(HistoryArray(
          HistoryStorage.WithNewest(HistoryEntry(opponentWords, selectedStyle, responses, now),
                                    HistoryStorage.Read(old(local.Get(HistoryKey))))))]
      ensures !(result.Some? && result.value.Resolved? && old(local.Get(HistoryKey)) != Some(Unparsable)) ==>
        local.items == old(local.items)
      ensures HoldsHistory(local.Get(HistoryKey))
    {
      if Trim(opponentWords) == "" {
        return None;
      }
      var settled := Attempt(outcome);
      result := Some(settled);
      if settled.Resolved? {
        var stored := local.Get(HistoryKey);
        if stored != Some(Unparsable) {
          var history := HistoryStorage.Read(stored);
          var entry := HistoryEntry(opponentWords, selectedStyle, settled.value, now);
          var unshifted := [entry] + history;
          HistoryStorage.UnshiftThenSlice(entry, history);
          local.SetItem(HistoryKey, HistoryArray(unshifted[..if |unshifted| < 20 then |unshifted| else 20]));
        }
      }
    }

    /** `handleRefresh`: the same guard and attempt, and never a history write. */
    method Refresh(outcome: Api.FetchOutcome) returns (result: Option<Settled<seq<ResponseType>>>)
      modifies this
      ensures Trim(old(opponentWords)) == "" ==> result.None? && unchanged(this)
      ensures Trim(old(opponentWords)) != "" ==> result.Some?
      ensures result.Some? ==>
        && (result.value.Rejected? <==> Api.StreamRejects(outcome))
        && (Api.FailsEarly(outcome) ==> result.value == Resolved(AsResponses(Api.FallbackTexts(selectedStyle))))
        && !isLoading && !isStreaming && streamingContent == ""
        && opponentWords == old(opponentWords) && selectedStyle == old(selectedStyle)
      ensures result.Some? && result.value.Resolved? ==>
        responses == result.value.value && notified == old(notified) + (if responses != [] then 1 else 0)
      ensures result.Some? && result.value.Rejected? ==> responses == [] && notified == old(notified)
    {
      if Trim(opponentWords) == "" {
        return None;
      }
      var settled := Attempt(outcome);
      result := Some(settled);
    }
  }
}
