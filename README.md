# chaojia-helper, modelled in Dafny

chaojia-helper is a small Next.js app that writes comebacks ("回击") for something an
opponent said. The model covers these parts of it:

- **The two API routes.** They validate the request, ask the model provider for a
  streamed chat completion, and relay each non-empty delta as a Server-Sent Events frame
  `data: {"content":…}\n\n`, with a final `data: [DONE]\n\n`.
- **The client code in lib/api.ts.**
  - It reads those frames line by line, keeping a buffer.
  - It reports the growing text to a callback.
  - `parseStreamedContent` cuts the finished text into at most three replies: by numbered
    `回击N：` markers, else by long paragraphs, else the whole trimmed text or a placeholder.
  - Per-style canned replies are used when the request fails early.
- **The browser-storage helpers and the state rules of the pages and components.**
  - Favourites: prepended, toggled, removed by id, and migrated from an old format of
    plain strings (`legacy-i` ids).
  - History: newest first, at most twenty records.
  - A one-shot restore slot in `sessionStorage`.
  - The input form: tag and voice text appended; submit and refresh guarded on blank input.
  - The style label lookup.
- **The breathing-exercise page.**
  - A 4/2/6-second inhale/hold/exhale cycle, one `Tick` per interval firing.
  - A cycle counter, a total-time counter, and `m:ss` formatting.

How the model is written:

- Pure code becomes functions over datatypes.
- Code that updates state becomes classes with `modifies`-framed methods:
  - `WebStorage` holds a `map` from key to stored value.
  - Each React component keeps its `useState` variables as fields.
  - The calm page keeps the interval callback's captured variables as fields too;
    `State()` gathers them into a `Breath` value.
- The stream reader's `while` loop and its inner `for` loop are methods with loop
  invariants. They are proved against `StreamText`, a function over the chunks read.
- Inputs that are not code:
  - The result of `fetch` is a parameter, `Api.FetchOutcome`.
  - The upstream deltas are a parameter, `Relay.Upstream`.
  - Clock readings (`now`, `nowMs`) are parameters.
  - `Math.random` is a parameter: the index `pick`.
  - What `JSON.parse` makes of a stored text is part of the stored value
    (`Blank | Unparsable | Parsed(value)`).

One behaviour of the code is easy to miss:

- `generateResponses` and `generateFollowUp` return the stream handler's promise without
  `await` inside their `try`.
- So a body that cannot be read (`无法获取响应流`), or a read that fails mid-stream, makes
  the call reject.
- It does not fall back to the canned replies.
- `Api.StreamRejects` names exactly these outcomes, and the handlers' contracts state that
  they reject in exactly those cases.

Files:

| file | module | contents |
|---|---|---|
| text.dfy | `Wrappers`, `Text` | `Option`, trimming, `includes`, `split`/`join`, UTF-16 length, decimal digits, `padStart(2, '0')` |
| types.dfy | `Types` | the types of lib/types.ts; the style tags and `getStyleLabel` |
| json.dfy | `Json` | `JSON.stringify({content})` and its parse, as an encode/decode pair |
| relay.dfy | `Relay`, `GenerateRoute`, `FollowUpRoute` | the SSE framing loop and both `POST` handlers |
| consumer.dfy | `StreamConsumer` | the client's line-buffer reader and the relay/reader round trip |
| parser.dfy | `ContentParser` | `parseStreamedContent` |
| api.dfy | `Api` | `generateResponses`, `generateFollowUp`, the fallback tables |
| storage.dfy | `BrowserStorage`, `FavoriteStorage`, `HistoryStorage`, `ConversationStorage` | the storage object and lib/storage.ts |
| favorites.dfy | `FavoriteList` | legacy migration, loading, toggling and removal on favourite lists |
| response_list.dfy | `ResponseList` | components/response-list.tsx |
| pages.dfy | `FavoritesPage`, `HistoryPage` | app/favorites/page.tsx and app/history/page.tsx |
| argument_form.dfy | `ArgumentForm` | components/argument-form.tsx |
| calm.dfy | `Calm` | app/calm/page.tsx |

## Model

| member | source | states |
|---|---|---|
| Text.TrimIsTrimmed | lib/api.ts:282 | `trim()` leaves no white space at either end |
| Text.TrimEmpty | components/argument-form.tsx:83 | the trimmed input is empty exactly when every character is white space |
| Text.TrimPadded | lib/api.ts:266 | trimming white space around a trimmed non-empty text gives that text back |
| Text.Contains | lib/api.ts:28 | `includes` is true iff the substring occurs at some position |
| Text.SplitJoin | lib/api.ts:185-186 | joining the pieces of `split(sep)` with `sep` gives the original text, so nothing is lost or duplicated |
| Text.SplitOnCharPieces | lib/api.ts:185 | no piece of `split('\n')` contains a newline |
| Text.Utf16Length | lib/api.ts:291 | a string's JavaScript `length` counts one or two UTF-16 units per character |
| Text.TrimUtf16Length | lib/api.ts:291 | trimming never makes a text longer |
| Text.NatToStringValue | app/calm/page.tsx:106 | the decimal digits of a number read back as that number |
| Text.NatToStringInjective | components/response-list.tsx:29 | different numbers are written with different digits |
| Text.PadTwo | app/calm/page.tsx:106 | `padStart(2, '0')`: length two for short input, the input as the suffix, zeros before it |
| Types.StyleOfName | lib/types.ts:1-8 | each of the seven style tags names exactly its own style |
| Types.StyleLabel | app/favorites/page.tsx:236-247 | each of the seven tags maps to its label; any other string is returned unchanged |
| Types.StyleOfNames | app/history/page.tsx:158-169 | every one of the seven tags reads back as its own style, which the history page's copy of the lookup relies on too |
| Json.Escape | app/api/generate/route.ts:82 | the escaped string never contains a line feed, so a frame is one line |
| Json.UnescapeEscape | lib/api.ts:198 | parsing an escaped string literal gives the original string |
| Json.EncodeContent | app/api/generate/route.ts:82 | the encoded `{content}` object is one line starting with `{` |
| Json.DecodeEncode | lib/api.ts:198-199 | reading `content` from the encoded object gives the delta back |
| Relay.NonEmptyDeltas | app/api/generate/route.ts:78-80 | only non-empty deltas are kept, never more than the chunks |
| Relay.Frames | app/api/generate/route.ts:82-83 | one frame per delta, in order |
| Relay.StartStream | app/api/generate/route.ts:76-94 | a normal end enqueues exactly the non-empty deltas' frames, then one `[DONE]`, and closes; an upstream error enqueues the frames read so far, sends no `[DONE]`, and errors the stream |
| GenerateRoute.Post | app/api/generate/route.ts:17-139 | a missing field gives 400 before the key check; a missing key gives 500; only then is the provider called (two messages, temperature 0.9, 1000 tokens, streaming), and an event stream opens iff all of these hold and the call does not throw; failures give 500 with details |
| FollowUpRoute.Post | app/api/follow-up/route.ts:17-126 | the same order for three fields; temperature 0.8, 200 tokens, streaming; failures give 500 `追问生成失败，请稍后再试` with details |
| StreamConsumer.ReportExtension | lib/api.ts:200-201 | reporting a strictly longer text that extends the last report keeps every report a proper prefix of the next and the last equal to the text |
| StreamConsumer.ProcessLine | lib/api.ts:189-205 | one line: stops iff it is `data: [DONE]`; adds the line's content (nothing for other lines or unparsable JSON); the reports become the earlier ones followed by the new text exactly when that content is non-empty; the reports stay well formed |
| StreamConsumer.ProcessBatch | lib/api.ts:188-207 | the inner loop adds the batch's text, which stops at the first `[DONE]` of that batch; the reports become the earlier ones followed by `BatchReports`, the running text after each line with content up to that `[DONE]` |
| StreamConsumer.ReadEvents | lib/api.ts:177-208 | the read loop's text is `StreamText` of the chunks; the `onUpdate` values are exactly `StreamReports` of the chunks, the running text after each line with content, in order; each extends the one before and the last is the whole text |
| StreamConsumer.ConsumeLines | lib/api.ts:182-186 | after any chunks, the processed lines (each followed by `\n`) plus the buffer equal the text read, and neither the buffer nor a processed line contains `\n` |
| StreamConsumer.UnterminatedFragmentWaits | lib/api.ts:186 | a chunk without a newline only grows the buffer and adds no text |
| StreamConsumer.ConsumeText | lib/api.ts:188-208 | the text read is the texts of the batches, in order |
| StreamConsumer.BatchesTextQuiet | lib/api.ts:192-195 | when no content follows a `[DONE]`, stopping at `[DONE]` loses nothing |
| StreamConsumer.WireRoundTrip | lib/api.ts:177-208 | however the framed stream is chunked, the reader ends with an empty buffer and exactly the deltas' concatenation |
| StreamConsumer.RelayRoundTrip | app/api/generate/route.ts:78-89 | the relay's frames on a normal end, read back in any chunking, give the concatenation of the non-empty upstream deltas |
| StreamConsumer.SplitLinesJoin | lib/api.ts:185-186 | lines without newlines joined by `\n`, plus a fragment, split back into the same lines and fragment |
| ContentParser.MarkerLength | lib/api.ts:278 | a recognised `回击\s*\d+[:：]` marker starts with `回` and is longer than two characters |
| ContentParser.MarkerLengthOf | lib/api.ts:278 | any marker written as `回击`, white space, digits and a colon is recognised with exactly its length |
| ContentParser.MatchesTrimmed | lib/api.ts:282 | every marker-tier text is trimmed |
| ContentParser.LeadingTextDropped | lib/api.ts:278 | text before the first marker, that is text in which no marker starts (an unnumbered `回击` may occur), is not part of any unit |
| ContentParser.NoMarkerNoUnits | lib/api.ts:280 | text in which no marker starts gives no marker units |
| ContentParser.MatchesNumbered | lib/api.ts:278-286 | replies written as `回击1：…`, `回击2：…` separated by blank lines come back as exactly those replies, in order, whenever no marker starts inside a reply after its first character (`回` and `回击` may occur in a reply) |
| ContentParser.NonEmptyTexts | lib/api.ts:283-284 | a text is kept iff it occurs in the input and is not empty; nothing is dropped when all are non-empty |
| ContentParser.NonEmptyTextsAppend | lib/api.ts:280-285 | filtering a concatenation filters each part in turn, so the kept texts keep their order |
| ContentParser.LongParagraphs | lib/api.ts:291-293 | a text is kept iff it is the trimmed form of some paragraph and longer than ten UTF-16 units; every kept text is trimmed; no more of them than the input |
| ContentParser.LongParagraphsAppend | lib/api.ts:291-293 | filtering a concatenation filters each part in turn, so the kept paragraphs keep their order |
| ContentParser.LongParagraphsAll | lib/api.ts:291 | paragraphs that are all trimmed and long are all kept |
| ContentParser.LongParagraphsNone | lib/api.ts:291 | paragraphs that are all short after trimming give nothing |
| ContentParser.Take3 | lib/api.ts:302 | at most three, a prefix of the input, the whole input when it has at most three |
| ContentParser.AsResponses | lib/api.ts:284 | one reply per text, in order, with that text |
| ContentParser.MarkerTier | lib/api.ts:278-287 | every marker unit is non-empty and trimmed |
| ContentParser.ParagraphTier | lib/api.ts:290-295 | every paragraph unit is non-empty and trimmed |
| ContentParser.WholeText | lib/api.ts:298-300 | the last tier's unit is non-empty and trimmed: the trimmed content, or `生成失败，请重试` when that is empty |
| ContentParser.FirstThree | lib/api.ts:292-302 | the first three texts of a tier, as replies, in order |
| ContentParser.ParseStreamedContent | lib/api.ts:273-302 | between one and three replies, none empty, all trimmed |
| ContentParser.FirstMarkerReply | lib/api.ts:273-287 | leading text in which no marker starts, a marker, a reply, then white space and another marker or the end: the marker tier decides over the paragraphs, the leading text is dropped, and the replies are that reply followed by the marker units of the rest, three at most |
| ContentParser.PreambleDropped | lib/api.ts:278-287 | `以下是回击：\n回击1：早点回家吧` gives the one reply `早点回家吧`: the preamble's unnumbered `回击` and the `回` inside the reply are not markers |
| ContentParser.NumberedRoundTrip | lib/api.ts:273-302 | replies numbered from 1 and separated by blank lines parse back as the first three of them, whenever no marker starts inside a reply after its first character |
| ContentParser.SplitJoinBlocks | lib/api.ts:291 | paragraphs without blank lines, joined by blank lines, split back into the same paragraphs |
| ContentParser.ParagraphRoundTrip | lib/api.ts:290-295 | long paragraphs separated by blank lines, with no marker starting anywhere in the text, parse back as the first three of them |
| ContentParser.ShortContent | lib/api.ts:298-300 | text of at most ten units in which no marker starts gives one reply: the trimmed text, or the placeholder |
| ContentParser.EmptyContent | lib/api.ts:299 | an empty stream gives the one placeholder reply |
| Api.FallbackTexts | lib/api.ts:39-81 | three canned replies per style |
| Api.FallbackFollowUps | lib/api.ts:120-156 | three canned follow-ups per style, none empty |
| Api.ReadStream | lib/api.ts:163-216 | no reader rejects with `无法获取响应流` and reports nothing; a failed read rejects with its reason; otherwise the result is the text read; with a reader the reports are exactly `StreamReports` of the chunks, well formed |
| Api.GenerateResponses | lib/api.ts:5-83 | an early failure (network, non-OK status, unparsable JSON, JSON `error`) gives the style's three canned replies; the un-awaited stream handler rejects iff there is no reader or a read fails; a stream gives `parseStreamedContent` of its text, with `StreamReports` of its chunks as the progress values; a JSON reply gives `responses` or `[]` |
| Api.FollowUpText | lib/api.ts:266 | the follow-up is the trimmed text, or `追问生成失败` when that is empty; never empty |
| Api.GenerateFollowUp | lib/api.ts:86-161 | an early failure gives the style's canned follow-up at the random index; the stream path rejects iff there is no reader or a read fails; a stream gives its trimmed text, with `StreamReports` of its chunks as the progress values; a JSON reply gives `text` or `追问生成失败`; a result is never empty |
| BrowserStorage.WebStorage.constructor | lib/storage.ts:9 | the storage starts with the given items |
| BrowserStorage.WebStorage.Get | lib/storage.ts:9 | `getItem` gives the stored value iff the key is present |
| BrowserStorage.WebStorage.SetItem | lib/storage.ts:20 | `setItem` replaces that key only |
| BrowserStorage.WebStorage.RemoveItem | lib/storage.ts:38 | `removeItem` deletes that key only |
| FavoriteStorage.Read | lib/storage.ts:6-14 | the stored list, or `[]` when the key is missing, blank or fails to parse |
| FavoriteStorage.GetAll | lib/storage.ts:6-14 | `getAll` returns what `Read` gives for the stored value |
| FavoriteStorage.Add | lib/storage.ts:17-21 | the stored list becomes the new favourite followed by the old list unchanged |
| FavoriteStorage.Remove | lib/storage.ts:24-28 | the stored list becomes the old list without the entries of that id |
| FavoriteStorage.Exists | lib/storage.ts:31-34 | true iff some stored entry has both that text and those opponent words |
| FavoriteStorage.Clear | lib/storage.ts:37-39 | the key is deleted, and `getAll` then returns `[]` |
| HistoryStorage.Read | lib/storage.ts:45-53 | the stored records, or `[]` when the key is missing, blank or fails to parse |
| HistoryStorage.WithNewest | lib/storage.ts:58 | the new record first, then the first nineteen old ones at most, so never more than twenty |
| HistoryStorage.UnshiftThenSlice | components/argument-form.tsx:107-114 | the form's `unshift` then `slice(0, 20)` gives the same list as the helper's prepend-and-cap |
| HistoryStorage.GetAll | lib/storage.ts:45-53 | `getAll` returns what `Read` gives for the stored value |
| HistoryStorage.Add | lib/storage.ts:56-60 | the stored records become the new record followed by at most nineteen old ones |
| HistoryStorage.Clear | lib/storage.ts:63-65 | the key is deleted, and `getAll` then returns `[]` |
| ConversationStorage.SaveForRestore | lib/storage.ts:71-73 | the restore slot holds the given state |
| ConversationStorage.GetAndClearRestore | lib/storage.ts:76-87 | returns the saved state, or nothing for a missing, blank or unparsable slot; any non-blank slot is removed, so the slot has nothing to give afterwards |
| FavoriteList.LegacyIdInjective | components/response-list.tsx:29 | different positions give different `legacy-i` ids |
| FavoriteList.FromLegacy | components/response-list.tsx:28-34 | one entry per old string, in order, with its text, `历史收藏`, `fire`, the current time and id `legacy-i` |
| FavoriteList.FromLegacyIds | components/response-list.tsx:28-34 | the migrated entries have pairwise distinct ids |
| FavoriteList.Load | components/response-list.tsx:18-51 | a non-empty old-format array is migrated and rewritten, this being the only case that rewrites; a favourites array is used as it is; anything else (nothing stored, blank or unparsable text, an empty old-format array, another JSON value) gives no favourites |
| FavoriteList.LoadMigrated | components/response-list.tsx:25-41 | after one migration, loading again gives the same list and writes nothing |
| FavoriteList.FirstMatch | components/response-list.tsx:67 | `findIndex`: the first entry with that text and those opponent words, or none |
| FavoriteList.IsFavorited | components/response-list.tsx:129-131 | true iff some entry has both that text and those opponent words |
| FavoriteList.Toggle | components/response-list.tsx:65-92 | with a match, one entry fewer; without one, the new entry in front of the old list |
| FavoriteList.ToggleRemoves | components/response-list.tsx:67-71 | with a match, exactly the first match is removed and the others keep their order |
| FavoriteList.ToggleTwice | components/response-list.tsx:67-83 | toggling an unfavourited reply twice gives the original list back |
| FavoriteList.ToggleFlips | components/response-list.tsx:65-92 | without duplicate (text, opponent words) pairs, toggling flips `isFavorited` and keeps the pairs distinct |
| FavoriteList.WithoutId | app/favorites/page.tsx:92 | `filter(fav => fav.id !== id)`: exactly the entries with another id, never more entries |
| FavoriteList.WithoutIdAppend | lib/storage.ts:26 | filtering a concatenation filters each part, so the kept entries stay in order |
| FavoriteList.WithoutAbsentId | lib/storage.ts:26 | removing an id no entry has changes nothing |
| ResponseList.ResponseListView.constructor | components/response-list.tsx:18-54 | the favourites are loaded as `Load` says and the migrated list is written back; no follow-up is loading or done |
| ResponseList.ResponseListView.IsFavorited | components/response-list.tsx:129-131 | true iff some favourite has both that text and the view's opponent words |
| ResponseList.ResponseListView.FollowUpLabel | components/response-list.tsx:186-189 | the caption is `追问` exactly when the button is enabled, and `生成中...` while that reply loads |
| ResponseList.ResponseListView.ToggleFavorite | components/response-list.tsx:65-92 | the state becomes the toggled list and the stored list equals it; with distinct pairs before, `isFavorited` flips and pairs stay distinct |
| ResponseList.ResponseListView.BeginFollowUp | components/response-list.tsx:95-97 | that reply is loading, its button disabled, its streamed text cleared |
| ResponseList.ResponseListView.FinishFollowUp | components/response-list.tsx:106-126 | a result is stored and the streamed text cleared; a rejection keeps the last streamed text; loading ends either way |
| ResponseList.ResponseListView.HandleFollowUp | components/response-list.tsx:94-127 | the whole handler: the result of `generateFollowUp` is stored and the button stays disabled; a rejection stores nothing; loading ends |
| FavoritesPage.Page.constructor | app/favorites/page.tsx:24 | the page starts with no favourites |
| FavoritesPage.Page.LoadEffect | app/favorites/page.tsx:28-76 | a missing or blank key changes nothing; otherwise as `Load`, with the migrated list written back |
| FavoritesPage.Page.ClearFavorites | app/favorites/page.tsx:82-89 | the list is empty and the key deleted |
| FavoritesPage.Page.RemoveFavorite | app/favorites/page.tsx:91-98 | exactly the favourites with another id stay, and the stored list equals them |
| FavoritesPage.Page.RestoreConversation | app/favorites/page.tsx:108-126 | the restore slot holds the favourite's words, style and timestamp, its text as the one reply, marked as from favourites |
| HistoryPage.Preview | app/history/page.tsx:114-116 | the first reply's text, followed by a suffix only when there is more than one reply |
| HistoryPage.PreviewCount | app/history/page.tsx:116 | the suffix's number reads back as the number of further replies |
| HistoryPage.CountLabelValue | app/history/page.tsx:113 | the label's number reads back as the number of replies |
| HistoryPage.Page.constructor | app/history/page.tsx:24 | the page starts with no records |
| HistoryPage.Page.LoadEffect | app/history/page.tsx:28-33 | a missing or blank key leaves the list as it is; stored records are used unchanged; unparsable text makes the effect throw |
| HistoryPage.Page.ClearHistory | app/history/page.tsx:35-42 | the list is empty and the key deleted |
| HistoryPage.Page.RestoreConversation | app/history/page.tsx:44-62 | the restore slot holds the record's words, style, every reply and timestamp, marked as from history |
| ArgumentForm.AppendedAllJoin | components/argument-form.tsx:133-135 | adding tags one by one to an empty input gives them joined by `，` in the order clicked |
| ArgumentForm.Form.constructor | components/argument-form.tsx:41-48 | an empty input, style `fire`, no replies, not loading or streaming |
| ArgumentForm.Form.RestoreEffect | components/argument-form.tsx:51-79 | a saved conversation fills the input, style and replies; a parsed or unparsable slot is removed; afterwards the slot has nothing to give |
| ArgumentForm.Form.TagClick | components/argument-form.tsx:133-135 | the tag alone for an empty input, else the input, `，` and the tag |
| ArgumentForm.Form.VoiceResult | components/argument-form.tsx:195-198 | the transcript alone for an empty input, else the input, one space and the transcript |
| ArgumentForm.Form.Attempt | components/argument-form.tsx:85-126 | the replies become the result, `onNewResponse` fires only for a non-empty one, and loading, streaming and the streamed text are reset whether it resolves or rejects |
| ArgumentForm.Form.Submit | components/argument-form.tsx:81-127 | a blank input changes nothing; a result is recorded first in the history, twenty at most; a rejection writes nothing |
| ArgumentForm.Form.Refresh | components/argument-form.tsx:137-171 | the same guard and attempt, with no history write |
| Calm.TickOf | app/calm/page.tsx:73-93 | one second: the count goes down; at zero the phase advances cyclically and the count becomes its duration (4/2/6); a cycle is counted when the new phase is inhale; total time grows by one; the count stays in range |
| Calm.ResetOf | app/calm/page.tsx:43-49 | stopped, showing inhale and 4, both counters zero |
| Calm.TicksAdd | app/calm/page.tsx:73 | ticking m then n seconds is ticking m + n seconds |
| Calm.PhaseRun | app/calm/page.tsx:74-86 | a phase's remaining count of ticks ends on the next phase's full count, with the display in step and the cycle counted on inhale |
| Calm.FullCycle | app/calm/page.tsx:18-22 | from the start of an inhale, twelve ticks return to the start of an inhale with one more cycle and twelve more seconds |
| Calm.SyncedTicks | app/calm/page.tsx:56-60 | once the display agrees with the callback, every tick keeps it so |
| Calm.StartAfterReset | app/calm/page.tsx:24-49 | started after a reset, the display agrees with the callback for as long as it runs |
| Calm.StalePhaseAfterRestart | app/calm/page.tsx:24-29 | with `startBreathing` as written (`StartOf`), starting again after a pause in hold leaves the display out of step, showing hold three seconds later while the callback is in inhale |
| Calm.StartSynced | app/calm/page.tsx:24-29 | the corrected start: playing, counters zero, showing inhale in step with the callback |
| Calm.StartSyncedStaysSynced | app/calm/page.tsx:51-94 | with the corrected start, the display agrees with the callback after any number of ticks |
| Calm.FormatTimeParts | app/calm/page.tsx:103-107 | the text ends in `:` and two digits reading back as the seconds mod 60, after digits reading back as the whole minutes |
| Calm.FormatTimeRead | app/calm/page.tsx:103-107 | reading the shown time back gives the whole minutes and the remaining seconds |
| Calm.FormatTimeInjective | app/calm/page.tsx:103-107 | different times are shown differently |
| Calm.CalmPage.constructor | app/calm/page.tsx:10-14 | stopped, inhale, countdown 4, counters zero, and in step |
| Calm.CalmPage.Tick | app/calm/page.tsx:73-93 | the state becomes `TickOf` of the old state; a running display in step with the callback stays in step |
| Calm.CalmPage.Start | app/calm/page.tsx:24-29 | the state becomes `StartSynced` of the old state (the corrected start), so the running display is in step |
| Calm.CalmPage.Pause | app/calm/page.tsx:31-41 | the state becomes `PauseOf` of the old state: stopped, nothing else changed |
| Calm.CalmPage.Reset | app/calm/page.tsx:43-49 | the state becomes `ResetOf` of the old state: stopped, inhale, 4, counters zero |

## Left out

- **Rendering and browser features.** JSX, styles, animations, toasts, the router, the
  clipboard, `navigator.vibrate`, speech recognition set-up and console logging are left
  out; they do not affect state. The voice handler is modelled only from the transcript it
  receives. `handleClear` is not modelled, since it only sets the input to `''`.
- **Network, SDK and stream plumbing.**
  - `fetch`, the OpenAI SDK, `ReadableStream` and its controller, `TextEncoder` and
    `TextDecoder` are left out.
  - Chunks arrive as decoded strings.
  - Upstream deltas are a given sequence.
  - `response.ok`, the content type and the JSON body are fields of `FetchOutcome`.
  - `reader.releaseLock` has no observable effect here.
- **Prompts.** `getStylePrompt` is not part of this model. The prompt texts are opaque
  `Relay.Prompt` values recording what each is built from.
- **Clocks and randomness.** `Date.now()`, `new Date().toISOString()` and `Math.random()`
  are parameters.
- **Intermediate states.** The values shown while a request is in flight (`isLoading`,
  `streamingContent`) are not states of their own. The `onUpdate` values are returned as a
  list, and the component keeps the last one.
- **Timers.** `setInterval` becomes one `Tick` call per second. The model treats the phase
  interval and the total-time interval as firing together.
- **Floating point.** The progress ring and the particle styles are floating point and are
  not modelled.
- **JSON.**
  - JSON is modelled only as the values the app writes under its keys, plus an "other value"
    case and an unparsable case. Beyond that it is not modelled.
  - `Json.Escape` is `JSON.stringify`'s quoting of a string: `\"` and `\\`, the short escapes
    `\b \t \n \f \r`, lowercase `\u00xx` for the other control characters, and every other
    character as itself. Its escaping of lone surrogates cannot arise, since a Dafny `char`
    is never one.
- **Regular expression.** The regular expression at lib/api.ts:278 is not modelled in
  general. It becomes an explicit marker predicate (`MarkerLength`) and the match rule of
  `MatchFrom`. The lazy text takes at least one character, so a marker directly after
  another ends up inside the first one's text. The `g` and `s` flags are only modelled
  as this left-to-right scan.
- **React lifecycle.** Effects and initialisers are constructors and methods called once.
  Re-renders and the order of state updates inside one render are not modelled.
- FavoriteStorage.Read, FavoriteStorage.GetAll, FavoriteStorage.Add, FavoriteStorage.Remove, FavoriteStorage.Exists: require that the favourites key holds nothing, a blank or unparsable text, or a favourites array. Another JSON value there is outside the typed `FavoriteEntry[]` the helper expects.
- HistoryStorage.Read, HistoryStorage.GetAll, HistoryStorage.Add, ArgumentForm.Form.Submit, HistoryPage.Page.LoadEffect: require that the history key holds nothing, a blank or unparsable text, or an array of records, for the same reason.
- ConversationStorage.GetAndClearRestore, ArgumentForm.Form.RestoreEffect: require that the restore slot holds nothing, a blank or unparsable text, or a conversation.
- FavoriteList.Load: a non-empty array of something other than strings or favourites (for example history records) gives no favourites. The source would use such an array as it is; its elements have no favourite shape to model.
- Calm.CalmPage.Start: models the corrected start (see Findings); `Calm.StartOf` is the start as written. It requires that the page is stopped, because the start button is rendered only then (app/calm/page.tsx:235-237). Starting twice would leave two intervals running, and that is not modelled.
- Types.StyleLabel: an inherited property name such as `toString` makes the source's record lookup return a function. The model returns the string unchanged.
- Json.DecodeContent, StreamConsumer.ProcessLine: a `data: ` payload is read only in the compact `{"content":"…"}` form that `JSON.stringify` writes. Other valid JSON (spaces, further keys, a truthy non-string `content`) adds nothing in the model, where the source adds `parsed.content`. The relay writes only the compact form (`StreamConsumer.RelayRoundTrip`), so this concerns other producers only.
- Text.Utf16Length: counts characters above U+FFFF as two units. Dafny's `char` is a Unicode scalar value, so lone surrogates cannot occur.

## Findings

| source | as written | input that shows it | evidently intended | confidence | as-written member | corrected member |
|---|---|---|---|---|---|---|
| app/calm/page.tsx:24-29 | `startBreathing` restarts the callback at inhale with count 4, but never calls `updatePhase`; the shown phase and countdown keep their old values until the first phase change | start, four ticks (now in hold, showing 2), pause, start: the page keeps showing hold, and its countdown reads 2, then 3, 2, 1, while the callback counts down the new inhale | starting shows inhale and 4, in step with the callback | not executed | Calm.StalePhaseAfterRestart | Calm.StartSyncedStaysSynced |
