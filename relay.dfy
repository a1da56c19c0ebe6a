/** The server side of the stream: how both API routes turn the provider's chunks
    into Server-Sent Events frames (the `start` callback of their `ReadableStream`). */
module Relay {
  import opened Wrappers
  import opened Json
  import opened Text

  const DataPrefix: string := "data: "
  const DonePayload: string := "[DONE]"
  const DoneFrame: string := DataPrefix + DonePayload + "\n\n"

  /** One `data: {"content":…}` event. */
  function Frame(delta: string): string {
    DataPrefix + EncodeContent(delta) + "\n\n"
  }

  /** One chunk of the provider's stream; `delta` is `choices[0]?.delta?.content`,
      `None` when any part of that path is missing. */
  datatype Chunk = Chunk(delta: Option<string>)

  /** `chunk.choices[0]?.delta?.content || ''`. */
  function DeltaOf(chunk: Chunk): string {
    match chunk.delta
    case Some(d) => d
    case None => ""
  }

  /** The provider's stream as the relay sees it: the chunks it yields, and whether
      iterating it then ends normally (`None`) or throws (`Some(message)`). */
  datatype Upstream = Upstream(chunks: seq<Chunk>, failure: Option<string>)

  /** How the relayed stream ends: `controller.close()` or `controller.error(e)`. */
  datatype StreamEnd = Closed | Errored(reason: string)

  /** The non-empty deltas of a chunk sequence, in order. */
  function NonEmptyDeltas(chunks: seq<Chunk>): (ds: seq<string>)
    ensures forall k :: 0 <= k < |ds| ==> ds[k] != ""
    ensures |ds| <= |chunks|
  {
    if chunks == [] then []
    else
      var last := DeltaOf(chunks[|chunks| - 1]);
      NonEmptyDeltas(chunks[..|chunks| - 1]) + (if last != "" then [last] else [])
  }

  /** One frame per delta, in order. */
  function Frames(ds: seq<string>): (fs: seq<string>)
    ensures |fs| == |ds| && forall k :: 0 <= k < |ds| ==> fs[k] == Frame(ds[k])
  {
    seq(|ds|, k requires 0 <= k < |ds| => Frame(ds[k]))
  }

  function Concat(parts: seq<string>): string {
    if parts == [] then "" else parts[0] + Concat(parts[1..])
  }

  lemma {:induction false} ConcatAppend(a: seq<string>, b: seq<string>)
    ensures Concat(a + b) == Concat(a) + Concat(b)
  {
    if a != [] {
      assert (a + b)[1..] == a[1..] + b;
      ConcatAppend(a[1..], b);
      AppendAssoc(a[0], Concat(a[1..]), Concat(b));
    } else {
      assert a + b == b;
    }
  }

  /** Everything the client receives when the provider's stream ends normally. */
  function WireText(ds: seq<string>): string {
    Concat(Frames(ds)) + DoneFrame
  }

  /** The `start` callback: for each chunk, a frame if its delta is non-empty; then
      `[DONE]` and close on normal end, or an error and no `[DONE]` when iterating throws. */
  method StartStream(upstream: Upstream) returns (enqueued: seq<string>, end: StreamEnd)
    ensures upstream.failure.None? ==>
      enqueued == Frames(NonEmptyDeltas(upstream.chunks)) + [DoneFrame] && end == Closed
    ensures upstream.failure.Some? ==>
      enqueued == Frames(NonEmptyDeltas(upstream.chunks)) && end == Errored(upstream.failure.value)
  {
    enqueued := [];
    var i := 0;
    while i < |upstream.chunks|
      invariant 0 <= i <= |upstream.chunks|
      invariant enqueued == Frames(NonEmptyDeltas(upstream.chunks[..i]))
    {
      var content := DeltaOf(upstream.chunks[i]);
      assert upstream.chunks[..i + 1][..i] == upstream.chunks[..i];
      if content != "" {
        enqueued := enqueued + [Frame(content)];
      }
      i := i + 1;
    }
    assert upstream.chunks[..i] == upstream.chunks;
    match upstream.failure
    case None =>
      enqueued := enqueued + [DoneFrame];
      end := Closed;
    case Some(message) =>
      end := Errored(message);
  }

  /** Which message of a chat request. */
  datatype Role = System | User

  /** The prompt texts, kept abstract: what each is built from. */
  datatype Prompt =
    | GenerateSystemPrompt(style: string)
    | GenerateUserPrompt(opponentWords: string)
    | FollowUpSystemPrompt(style: string)
    | FollowUpUserPrompt(originalOpponentWords: string, originalResponse: string)

  datatype Message = Message(role: Role, content: Prompt)

  /** The arguments of `client.chat.completions.create`. */
  datatype ChatRequest = ChatRequest(
    model: string,
    messages: seq<Message>,
    temperature: real,
    maxTokens: nat,
    stream: bool)

  /** What a route answers: a JSON error with its status, or the event stream opened
      for the chat request it made. */
  datatype RouteResponse =
    | JsonError(status: nat, error: string, details: Option<string>)
    | EventStream(headers: seq<(string, string)>, request: ChatRequest)

  const MissingParameters: string := "缺少必要参数"
  const KeyNotConfigured: string := "API Key 未配置"

  const StreamHeaders: seq<(string, string)> := [
    ("Content-Type", "text/event-stream"),
    ("Cache-Control", "no-cache"),
    ("Connection", "keep-alive"),
    ("Access-Control-Allow-Origin", "*"),
    ("Access-Control-Allow-Methods", "GET, POST, PUT, DELETE, OPTIONS"),
    ("Access-Control-Allow-Headers", "Content-Type, Authorization")
  ]

  /** JavaScript truthiness of a string field that may be absent or null. */
  predicate Truthy(field: Option<string>) {
    field.Some? && field.value != ""
  }
}

/** app/api/generate/route.ts: validation, the chat request, and the error answers. */
module GenerateRoute {
  import opened Wrappers
  import opened Relay

  /** The request body: unreadable JSON, or its two fields. */
  datatype Body = Unreadable(message: string) | Fields(opponentWords: Option<string>, style: Option<string>)

  const GenerateFailed: string := "生成失败，请稍后再试"

  function ChatRequestFor(opponentWords: string, style: string): ChatRequest {
    ChatRequest("grok-3",
      [Message(System, GenerateSystemPrompt(style)), Message(User, GenerateUserPrompt(opponentWords))],
      0.9, 1000, true)
  }

  /** `POST`: 400 for a missing field, then 500 for a missing key, and only then the
      provider call; `createError` is what that call throws, if anything. */
  function Post(body: Body, apiKey: Option<string>, createError: Option<string>): (r: RouteResponse)
    ensures body.Unreadable? ==> r == JsonError(500, GenerateFailed, Some(body.message))
    ensures body.Fields? && !(Truthy(body.opponentWords) && Truthy(body.style)) ==>
      r == JsonError(400, MissingParameters, None)
    ensures body.Fields? && Truthy(body.opponentWords) && Truthy(body.style) && !Truthy(apiKey) ==>
      r == JsonError(500, KeyNotConfigured, None)
    ensures r.EventStream? <==>
      body.Fields? && Truthy(body.opponentWords) && Truthy(body.style) && Truthy(apiKey) && createError.None?
    ensures r.EventStream? ==>
      && r.headers == StreamHeaders
      && r.request.messages == [Message(System, GenerateSystemPrompt(body.style.value)),
                                Message(User, GenerateUserPrompt(body.opponentWords.value))]
      && r.request.temperature == 0.9 && r.request.maxTokens == 1000 && r.request.stream
    ensures body.Fields? && Truthy(body.opponentWords) && Truthy(body.style) && Truthy(apiKey) && createError.Some? ==>
      r == JsonError(500, GenerateFailed, createError)
  {
    match body
    case Unreadable(message) => JsonError(500, GenerateFailed, Some(message))
    case Fields(opponentWords, style) =>
      if !Truthy(opponentWords) || !Truthy(style) then JsonError(400, MissingParameters, None)
      else if !Truthy(apiKey) then JsonError(500, KeyNotConfigured, None)
      else match createError
        case Some(message) => JsonError(500, GenerateFailed, Some(message))
        case None => EventStream(StreamHeaders, ChatRequestFor(opponentWords.value, style.value))
  }
}

/** app/api/follow-up/route.ts: the same shape for the follow-up endpoint. */
module FollowUpRoute {
  import opened Wrappers
  import opened Relay

  datatype Body =
    | Unreadable(message: string)
    | Fields(originalOpponentWords: Option<string>, originalResponse: Option<string>, style: Option<string>)

  const FollowUpFailed: string := "追问生成失败，请稍后再试"

  predicate Complete(body: Body) {
    body.Fields? && Truthy(body.originalOpponentWords) && Truthy(body.originalResponse) && Truthy(body.style)
  }

  function ChatRequestFor(originalOpponentWords: string, originalResponse: string, style: string): ChatRequest {
    ChatRequest("grok-3",
      [Message(System, FollowUpSystemPrompt(style)),
       Message(User, FollowUpUserPrompt(originalOpponentWords, originalResponse))],
      0.8, 200, true)
  }

  /** `POST`: 400 unless all three fields are present, then 500 for a missing key,
      then the provider call. */
  function Post(body: Body, apiKey: Option<string>, createError: Option<string>): (r: RouteResponse)
    ensures body.Unreadable? ==> r == JsonError(500, FollowUpFailed, Some(body.message))
    ensures body.Fields? && !Complete(body) ==> r == JsonError(400, MissingParameters, None)
    ensures Complete(body) && !Truthy(apiKey) ==> r == JsonError(500, KeyNotConfigured, None)
    ensures r.EventStream? <==> Complete(body) && Truthy(apiKey) && createError.None?
    ensures r.EventStream? ==>
      && r.headers == StreamHeaders
      && r.request.messages ==
           [Message(System, FollowUpSystemPrompt(body.style.value)),
            Message(User, FollowUpUserPrompt(body.originalOpponentWords.value, body.originalResponse.value))]
      && r.request.temperature == 0.8 && r.request.maxTokens == 200 && r.request.stream
    ensures Complete(body) && Truthy(apiKey) && createError.Some? ==> r == JsonError(500, FollowUpFailed, createError)
  {
    match body
    case Unreadable(message) => JsonError(500, FollowUpFailed, Some(message))
    case Fields(words, response, style) =>
      if !Truthy(words) || !Truthy(response) || !Truthy(style) then JsonError(400, MissingParameters, None)
      else if !Truthy(apiKey) then JsonError(500, KeyNotConfigured, None)
      else match createError
        case Some(message) => JsonError(500, FollowUpFailed, Some(message))
        case None => EventStream(StreamHeaders, ChatRequestFor(words.value, response.value, style.value))
  }
}
