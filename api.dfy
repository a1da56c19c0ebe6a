/** The client calls of lib/api.ts: `generateResponses` and `generateFollowUp`, with the
    network reply as a parameter, their canned fallbacks, and the stream path that hands
    the reply body to the line reader. */
module Api {
  import opened Wrappers
  import opened Text
  import opened Types
  import opened Relay
  import opened StreamConsumer
  import opened ContentParser

  const EventStreamType: string := "text/event-stream"
  const StreamUnavailable: string := "无法获取响应流"
  const FollowUpPlaceholder: string := "追问生成失败"

  /** The three canned replies of each style, used when the request fails. */
  function FallbackTexts(style: ArgumentStyle): (texts: seq<string>)
    ensures |texts| == 3
  {
    match style
    case Fire => [
      "你这种逻辑简直是侮辱智商！我不知道你是真不懂还是装不懂，但你的观点站不住脚！",
      "闭嘴吧！你有什么资格在这指手画脚？你有过一天的实际经验吗？嘴上功夫倒是一流！",
      "我真服了，这种幼儿园水平的认知也敢拿出来显摆，不怕被人笑掉大牙？"]
    case Sarcastic => [
      "哇，真是高见呢～这种天才发言我今天可是第一次听到呢，需要给您颁个诺贝尔奖吗？",
      "对对对，您说得都对。您这么厉害，要不您来主持世界和平？",
      "啊，谢谢你提醒我，我都不知道原来我这么愚蠢，幸好有你这个大师指点迷津～"]
    case Logical => [
      "首先，你的前提就是错误的。其次，即便接受你的前提，你的推论也存在明显的因果谬误。",
      "你这个结论基于的是有选择性的证据，完全忽略了与你观点相悖的数据。这不是理性分析，而是确认偏误。",
      "让我们来分析一下：你的论点自相矛盾。如果按照你的逻辑，那么结果应该是相反的。"]
    case Cute => [
      "人家真的听不懂嘛～可不可以解释得简单一点点呀？人家脑袋瓜子不够用啦～😢",
      "啊～这样说人家会伤心的啦！你就不能对人家温柔一点点吗？好不好嘛～",
      "哎呀，人家知道错啦～不要生气了好不好？给你买奶茶赔罪～"]
    case Dumb => [
      "啊？你在说什么啊？我没听明白...要不你再说一遍？",
      "哦～可能吧，我也不太清楚这些事情。你说什么就是什么吧～",
      "这个嘛...我得想想...等等，我刚才在想什么来着？你说的是关于什么的？"]
    case Reasonable => [
      "我理解你的想法，但我不太认同。让我们冷静地分析一下，也许我们可以找到共识。",
      "你的观点有一定道理，但我认为还需要考虑以下几个因素...我们能否理性地讨论这个问题？",
      "我尊重你的意见，但事实是有客观依据的。我们不妨各自列出论据，然后一起探讨。"]
    case Meme => [
      "在线等，挺急的！这种人到底是何方神圣？[狗头.jpg]",
      "你这种操作我只能给满分，而且是满分中的满分！[熊猫捂脸.gif]",
      "不愧是你，这种言论我竟无法反驳！[汤姆猫震惊.jpg]"]
  }

  /** The three canned follow-ups of each style. */
  function FallbackFollowUps(style: ArgumentStyle): (texts: seq<string>)
    ensures |texts| == 3 && forall k :: 0 <= k < 3 ==> texts[k] != ""
  {
    match style
    case Fire => [
      "你有种继续说啊！",
      "来，接着编！",
      "我看你还有什么花样！"]
    case Sarcastic => [
      "还有吗？我还想听听您的高见～",
      "继续啊，我等着被您的智慧震撼呢～",
      "哇，您还有更精彩的吗？"]
    case Logical => [
      "那么请问你如何解释这个逻辑漏洞？",
      "如果是这样，你能否提供相应的证据？",
      "按照你的逻辑，这个结论如何自圆其说？"]
    case Cute => [
      "那人家应该怎么办呀～",
      "你还要说人家吗？",
      "人家听你的还不行吗～"]
    case Dumb => [
      "咦？然后呢？",
      "额...还有吗？",
      "那我应该说什么？"]
    case Reasonable => [
      "那我们能否进一步讨论这个问题？",
      "你觉得还有其他可能性吗？",
      "我们如何达成共识？"]
    case Meme => [
      "还有续集吗？[期待.jpg]",
      "这剧情发展我给82分！[鼓掌.gif]",
      "然后呢？我等着反转！[吃瓜.jpg]"]
  }

  /** What `reader.read()` yields: the decoded chunks, then either `done` (`failure` is
      `None`) or a rejected read. */
  datatype StreamReader = StreamReader(chunks: seq<string>, failure: Option<string>)

  /** A JSON reply body: its `error`, `responses` and `text` fields, each possibly absent. */
  datatype JsonReply = JsonReply(error: Option<string>, responses: Option<seq<ResponseType>>, text: Option<string>)

  /** What `fetch` settles with: a rejection, or a response with its `ok` flag, its
      `content-type` header, its body as a reader (`None` when `response.body` is null),
      and its body read as JSON (`None` when `response.json()` rejects). */
  datatype FetchOutcome =
    | NetworkError(reason: string)
    | Reply(ok: bool, contentType: Option<string>, reader: Option<StreamReader>, json: Option<JsonReply>)

  /** A successful reply whose content type names an event stream. */
  predicate IsEventStream(outcome: FetchOutcome) {
    outcome.Reply? && outcome.ok && outcome.contentType.Some? && Contains(outcome.contentType.value, EventStreamType)
  }

  /** A failure raised inside the `try` before any `return`: a network error, a status
      that is not OK, a JSON body that does not parse, or one with a truthy `error`. */
  predicate FailsEarly(outcome: FetchOutcome) {
    || outcome.NetworkError?
    || !outcome.ok
    || (!IsEventStream(outcome) && (outcome.json.None? || Truthy(outcome.json.value.error)))
  }

  /** The stream path rejects: no reader, or a read that fails. The handler's promise is
      returned without `await`, so the `catch` around it never sees this. */
  predicate StreamRejects(outcome: FetchOutcome) {
    IsEventStream(outcome) && (outcome.reader.None? || outcome.reader.value.failure.Some?)
  }

  /** `handleStreamResponse` / `handleFollowUpStreamResponse` up to the loop's end: how the
      promise settles on the given reader, with the text read as its value, and the
      values passed to `onUpdate`. */
  method ReadStream(reader: Option<StreamReader>) returns (read: Settled<string>, updates: seq<string>)
    ensures reader.None? ==> read == Rejected(StreamUnavailable) && updates == []
    ensures reader.Some? ==> updates == StreamReports(reader.value.chunks)
    ensures reader.Some? ==> ProgressReports(updates, StreamText(reader.value.chunks))
    ensures reader.Some? && reader.value.failure.Some? ==> read == Rejected(reader.value.failure.value)
    ensures reader.Some? && reader.value.failure.None? ==> read == Resolved(StreamText(reader.value.chunks))
  {
    match reader
    case None =>
      read, updates := Rejected(StreamUnavailable), [];
    case Some(r) =>
      var full;
      full, updates := ReadEvents(r.chunks);
      match r.failure
      case Some(e) => read := Rejected(e);
      case None => read := Resolved(full);
  }

  /** `generateResponses`: the canned replies on an early failure, the parsed stream on
      the stream path, and `data.responses || []` for a JSON reply. */
  method GenerateResponses(style: ArgumentStyle, outcome: FetchOutcome)
    returns (result: Settled<seq<ResponseType>>, updates: seq<string>)
    ensures FailsEarly(outcome) ==> result == Resolved(AsResponses(FallbackTexts(style))) && updates == []
    ensures result.Rejected? <==> StreamRejects(outcome)
    ensures IsEventStream(outcome) && outcome.reader.Some? ==>
      updates == StreamReports(outcome.reader.value.chunks)
      && ProgressReports(updates, StreamText(outcome.reader.value.chunks))
    ensures IsEventStream(outcome) && outcome.reader.Some? && outcome.reader.value.failure.None? ==>
      result == Resolved(ParseStreamedContent(StreamText(outcome.reader.value.chunks)))
    ensures !FailsEarly(outcome) && !IsEventStream(outcome) ==>
      result == Resolved(if outcome.json.value.responses.Some? then outcome.json.value.responses.value else [])
      && updates == []
  {
    updates := [];
    if outcome.NetworkError? || !outcome.ok {
      result := Resolved(AsResponses(FallbackTexts(style)));
    } else if IsEventStream(outcome) {
      var read;
      read, updates := ReadStream(outcome.reader);
      match read
      case Rejected(e) => result := Rejected(e);
      case Resolved(full) => result := Resolved(ParseStreamedContent(full));
    } else if outcome.json.None? || Truthy(outcome.json.value.error) {
      result := Resolved(AsResponses(FallbackTexts(style)));
    } else {
      result := Resolved(if outcome.json.value.responses.Some? then outcome.json.value.responses.value else []);
    }
  }

  /** The follow-up stream's value: the trimmed text, or the placeholder when that is empty. */
  function FollowUpText(full: string): (text: string)
    ensures text != "" && IsTrimmed(text)
    ensures Trim(full) != "" ==> text == Trim(full)
  {
    TrimIsTrimmed(full);
    if Trim(full) != "" then Trim(full) else FollowUpPlaceholder
  }

  /** `generateFollowUp`; `pick` is `Math.floor(Math.random() * 3)`. */
  method GenerateFollowUp(request: FollowUpRequest, outcome: FetchOutcome, pick: nat)
    returns (result: Settled<string>, updates: seq<string>)
    requires pick < 3
    ensures FailsEarly(outcome) ==> result == Resolved(FallbackFollowUps(request.style)[pick]) && updates == []
    ensures result.Rejected? <==> StreamRejects(outcome)
    ensures IsEventStream(outcome) && outcome.reader.Some? ==>
      updates == StreamReports(outcome.reader.value.chunks)
      && ProgressReports(updates, StreamText(outcome.reader.value.chunks))
    ensures IsEventStream(outcome) && outcome.reader.Some? && outcome.reader.value.failure.None? ==>
      result == Resolved(FollowUpText(StreamText(outcome.reader.value.chunks)))
    ensures !FailsEarly(outcome) && !IsEventStream(outcome) ==>
      result == Resolved(if Truthy(outcome.json.value.text) then outcome.json.value.text.value else FollowUpPlaceholder)
      && updates == []
    ensures result.Resolved? ==> result.value != ""
  {
    updates := [];
    if outcome.NetworkError? || !outcome.ok {
      result := Resolved(FallbackFollowUps(request.style)[pick]);
    } else if IsEventStream(outcome) {
      var read;
      read, updates := ReadStream(outcome.reader);
      match read
      case Rejected(e) => result := Rejected(e);
      case Resolved(full) => result := Resolved(FollowUpText(full));
    } else if outcome.json.None? || Truthy(outcome.json.value.error) {
      result := Resolved(FallbackFollowUps(request.style)[pick]);
    } else {
      result := Resolved(if Truthy(outcome.json.value.text) then outcome.json.value.text.value else FollowUpPlaceholder);
    }
  }
}
