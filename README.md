# Chat client core: streamed replies, transcript and conversation lists

This project models, in Dafny, the core of a small web chat client. The
client posts the conversation to a chat endpoint and reads the reply as a
stream of `data: <json>` lines. It shows the reply growing in the last
message of the transcript and saves the conversation in a hosted store.

The model has six modules:

- `Text` gives the JavaScript string operations the client relies on:
  `indexOf`, `startsWith`, `trim` (with ECMAScript's white-space set),
  `split("\n")` and the removal of one trailing `\r`.
- `Transcript` holds the role-tagged messages and the three updates the hook
  applies to them:
  - append;
  - overwrite of the last assistant message (`UpdateLast`);
  - rollback of the last element (`DropLast`).
- `EventStream` is the stream decoder.
  - The line scan is a function, `Scan`.
  - The methods `TakeLine`, `ScanChunk`, `ReadChunks` and `FlushRest` run
    the hook's loops and are proved equal to the functions.
  - The main result is `StreamReplyIgnoresChunking`: the reply accumulated
    over a whole stream is `Replies` of the concatenated received text,
    however that text is cut into chunks. `Replies` is the in-order
    concatenation of the content of every line that parses with a content
    field.
  - Lines held back by a `[DONE]` line are read by the scan of the next
    chunk, or by the final pass when no chunk follows (`DoneStopsThisScan`).
    A malformed line is pushed back on every chunk, so it and the lines
    after it are read only by the final pass (`MalformedLineBlocks`).
  - It follows from `StreamReplyIgnoresChunking` that nothing is lost in
    total, and that `[DONE]` lines and malformed lines never contribute
    text.
  - A push-back loses no character but one stripped `\r` (`PushBack`,
    `StreamReplyIgnoresChunking`).
- `Chat` is the hook: a class `ChatSession` with the transcript, the loading
  flag and the active conversation id.
  - Its methods are `SendMessage`, `CreateOrGetConversation`,
    `LoadConversation` and `StartNewConversation`.
  - The `try` block of `sendMessage` is split into the methods `Exchange`
    and `Stream`, and its `catch` block is the method `Fail`.
  - Every outside call is an input: the signed-in user, the conversation
    insert and the endpoint's answer.
  - The store calls, the requests and the toasts are logged in fields.
  - The result of a send is given by functions (`SendTranscript`,
    `SendNotices`, `SendWrites`), and lemmas state what they mean.
- `Composer` is the message input: the send guard, the file size filter,
  the ten-file cap, removal by position and the Enter key.
- `History` is the sidebar list of conversations: load, and delete by id
  with a reset of the active conversation.

Some behaviours of the code are worth stating outright:

- **`[DONE]`** only stops the scan of the current chunk, and later lines
  are still read (`DoneStopsThisScan`, `DoneDoesNotEndReply`).
- **A malformed line** is pushed back on every chunk, so nothing after it
  is shown until the stream ends (`MalformedLineBlocks`). The final pass
  then recovers those lines (`StreamReplyIgnoresChunking`).
- **A failure to get a conversation** keeps the user message in the
  transcript (`CreationFailureKeepsMessage`).
- **A read failure after streaming has begun** drops the assistant
  placeholder, not the user message (`ReadFailureKeepsMessage`).

## Model

| member | source | states |
|---|---|---|
| Text.IndexOf | daadii-1ai-main/src/hooks/useChat.ts:163 | the result is -1 exactly when the character is absent, and otherwise the position of its first occurrence |
| Text.Split | daadii-1ai-main/src/hooks/useChat.ts:199 | `split("\n")` yields at least one piece and no piece holds a newline; a string without a newline is the single piece `[s]` (with `SplitLine`, this fixes the pieces completely) |
| Text.SplitLine | daadii-1ai-main/src/hooks/useChat.ts:199 | splitting a line, a newline and more text gives that line followed by the pieces of the rest |
| Text.TrimBlank | daadii-1ai-main/src/hooks/useChat.ts:168 | `s.trim() === ""` exactly when every character of `s` is white space |
| Text.TrimStartSpec | daadii-1ai-main/src/hooks/useChat.ts:171 | the start of a trim removes a prefix made only of white space and stops at the first other character |
| Text.TrimEndSpec | daadii-1ai-main/src/hooks/useChat.ts:171 | the end of a trim keeps a prefix of the string, removes a suffix made only of white space and stops at the last other character |
| Text.TrimStripCR | daadii-1ai-main/src/hooks/useChat.ts:167-168 | stripping a trailing `\r` never changes what `trim` returns |
| Transcript.UpdateLast | daadii-1ai-main/src/hooks/useChat.ts:180-187 | all elements but the last are kept; a last assistant message gets the new content; a transcript whose last element is not an assistant message, or is empty, is returned unchanged |
| Transcript.DropLast | daadii-1ai-main/src/hooks/useChat.ts:126 | `slice(0, -1)` keeps every element but the last, and an empty transcript stays empty |
| Transcript.DropLastUndoesAppend | daadii-1ai-main/src/hooks/useChat.ts:81-126 | dropping the last element undoes exactly one append |
| Transcript.UpdateLastTwice | daadii-1ai-main/src/hooks/useChat.ts:180-187 | two updates in a row equal the second one: only the latest reply text is visible |
| Transcript.UpdatePlaceholder | daadii-1ai-main/src/hooks/useChat.ts:154-187 | the appended assistant placeholder is the message every update writes to |
| EventStream.TakeLine | daadii-1ai-main/src/hooks/useChat.ts:163-193 | one turn of the inner loop cuts the first line, strips `\r` and classifies the line. It leaves the buffer, reply and transcript that `NextStep` gives, and stops on no newline, on `[DONE]` or on a push-back |
| EventStream.ScanChunk | daadii-1ai-main/src/hooks/useChat.ts:163-194 | the inner loop leaves `Scan`'s buffer and appends `Scan`'s text to the reply; the transcript's last assistant message shows the reply so far |
| EventStream.ReadChunks | daadii-1ai-main/src/hooks/useChat.ts:156-195 | the read loop leaves `Feed`'s buffer and reply over all chunks, with the transcript showing the reply so far |
| EventStream.FlushRest | daadii-1ai-main/src/hooks/useChat.ts:197-224 | the final pass appends `Flush` of the leftover buffer: nothing for a blank buffer, otherwise the text of its lines. `[DONE]` and malformed lines are skipped |
| EventStream.ScanReplies | daadii-1ai-main/src/hooks/useChat.ts:163-194 | what one scan appends, followed by the reply of what it leaves, is the reply of the buffer it started from, whatever text follows |
| EventStream.FeedReplies | daadii-1ai-main/src/hooks/useChat.ts:156-195 | across all chunks, the appended text followed by the reply of the leftover buffer is the reply of everything received |
| EventStream.BlankReplies | daadii-1ai-main/src/hooks/useChat.ts:198 | a blank leftover buffer carries no reply, so skipping it loses nothing |
| EventStream.FlushIsReplies | daadii-1ai-main/src/hooks/useChat.ts:197-224 | the final pass yields exactly the reply of the leftover buffer |
| EventStream.StreamReplyIgnoresChunking | daadii-1ai-main/src/hooks/useChat.ts:156-224 | the reply accumulated over a stream is the reply of the concatenated stream text, for every way of cutting it into chunks |
| EventStream.SameTextSameReply | daadii-1ai-main/src/hooks/useChat.ts:156-224 | two chunkings of the same text give the same reply |
| EventStream.StepReplies | daadii-1ai-main/src/hooks/useChat.ts:163-192 | one step loses no line: it consumes the first line with its text, or stops with that line consumed (`[DONE]`) or put back |
| EventStream.StepEmit | daadii-1ai-main/src/hooks/useChat.ts:163-192 | a step that goes on yields the first line's text and leaves what follows it; a step that stops yields nothing and leaves what follows the line, or the line put back in front of it |
| EventStream.ClassifyStripCR | daadii-1ai-main/src/hooks/useChat.ts:167-201 | a trailing `\r` never changes how a line is treated, so the final pass, which does not strip it, agrees with the scan, which does |
| EventStream.ScanWaitsForNewline | daadii-1ai-main/src/hooks/useChat.ts:163 | a buffer without a newline is left untouched and yields nothing: a frame split across chunks is read once its newline arrives |
| EventStream.IgnoredLineConsumed | daadii-1ai-main/src/hooks/useChat.ts:167-169 | a comment line, a blank line or a line without `data: ` is consumed and yields nothing |
| EventStream.PushBack | daadii-1ai-main/src/hooks/useChat.ts:189-192 | a malformed first line is put back: the buffer is unchanged but for one stripped `\r`, nothing is yielded, and the line is still first and still malformed |
| EventStream.MalformedFirstAppend | daadii-1ai-main/src/hooks/useChat.ts:160-163 | appending a chunk leaves a malformed first line first |
| EventStream.MalformedLineBlocks | daadii-1ai-main/src/hooks/useChat.ts:189-192 | once a complete line is malformed, no later chunk yields text mid-stream |
| EventStream.DoneStopsThisScan | daadii-1ai-main/src/hooks/useChat.ts:172 | a `[DONE]` line ends the scan of this chunk with nothing yielded and the rest of the buffer kept |
| EventStream.DoneDoesNotEndReply | daadii-1ai-main/src/hooks/useChat.ts:156-204 | the lines after `data: [DONE]` contribute exactly as if it were absent |
| EventStream.EmitAllSnoc | daadii-1ai-main/src/hooks/useChat.ts:199-223 | the final pass appends line by line, in order |
| EventStream.RepliesLine | daadii-1ai-main/src/hooks/useChat.ts:163-165 | a line followed by a newline puts its text in front of the reply of the rest |
| Chat.ChatSession.constructor | daadii-1ai-main/src/hooks/useChat.ts:11-13 | a new session has an empty transcript, is not loading and has no conversation |
| Chat.ChatSession.CreateOrGetConversation | daadii-1ai-main/src/hooks/useChat.ts:18-41 | the active id is reused without a store call; without a user there is none; otherwise the insert's id is returned and made active, and an insert error gives none |
| Chat.ActiveConversationReused | daadii-1ai-main/src/hooks/useChat.ts:19 | an active id is returned as it is, with no store call |
| Chat.NoUserNoConversation | daadii-1ai-main/src/hooks/useChat.ts:22-26 | with no active id and no signed-in user there is no conversation and no store call |
| Chat.ConversationSticks | daadii-1ai-main/src/hooks/useChat.ts:19-40 | once a send has a conversation, the next send uses it and inserts no other; by induction so does every send until a new conversation is started or another is loaded |
| Chat.ChatSession.SendMessage | daadii-1ai-main/src/hooks/useChat.ts:79-241 | the transcript, toasts, store calls, requests and active id after a send are `SendTranscript`, `SendNotices`, `SendWrites` and the posted transcript; loading is over on every path |
| Chat.ChatSession.SaveAndPost | daadii-1ai-main/src/hooks/useChat.ts:95-115 | the user message is saved, then the title exactly when the transcript was empty before the send, and the request carries the prior transcript followed by the user message |
| Chat.ChatSession.Exchange | daadii-1ai-main/src/hooks/useChat.ts:102-240 | the `try` block: 429 and 402 drop the last element with their own toast; other statuses, a missing body and a fetch failure go to the catch path; an ok answer is streamed |
| Chat.ChatSession.Stream | daadii-1ai-main/src/hooks/useChat.ts:149-230 | the placeholder ends up holding `StreamReply` of the chunks and is saved when non-empty; a read failure drops it with a toast and saves nothing |
| Chat.ChatSession.Fail | daadii-1ai-main/src/hooks/useChat.ts:231-240 | the catch block shows the error's message (or a generic one), drops the last element and ends loading |
| Chat.ChatSession.LoadConversation | daadii-1ai-main/src/hooks/useChat.ts:58-72 | a store error changes nothing; otherwise the stored messages (or none) replace the transcript and the id becomes active |
| Chat.ChatSession.StartNewConversation | daadii-1ai-main/src/hooks/useChat.ts:74-77 | an empty transcript and no active id |
| Chat.TitleShape | daadii-1ai-main/src/hooks/useChat.ts:54 | a message of at most 50 characters is its own title; a longer one keeps its first 50 and gains `...`; no title is longer than 53 |
| Chat.TitleFixed | daadii-1ai-main/src/hooks/useChat.ts:54 | a message is its own title exactly when it has at most 50 characters or is 50 characters followed by `...` |
| Chat.TitleIdempotent | daadii-1ai-main/src/hooks/useChat.ts:54 | titling a title changes nothing |
| Chat.TitleOnlyForFirstMessage | daadii-1ai-main/src/hooks/useChat.ts:95-98 | a title is written exactly when the transcript was empty before the send, and it is the title of the message sent |
| Chat.SendKeepsPrior | daadii-1ai-main/src/hooks/useChat.ts:79-241 | whatever happens, the transcript before the send is kept as it was, followed by at most two messages |
| Chat.CreationFailureKeepsMessage | daadii-1ai-main/src/hooks/useChat.ts:84-93 | without a conversation, the user message stays in the transcript |
| Chat.RejectedRollsBack | daadii-1ai-main/src/hooks/useChat.ts:117-147 | a fetch failure, 429, 402, another error status or a missing body rolls the transcript back to exactly its value before the send |
| Chat.ReadFailureKeepsMessage | daadii-1ai-main/src/hooks/useChat.ts:154-238 | a failure once streaming has begun drops the assistant placeholder and keeps the user message |
| Chat.CompletedSend | daadii-1ai-main/src/hooks/useChat.ts:154-230 | a completed stream leaves the user message followed by one assistant message holding the reply of the whole received text |
| Chat.SilentIffCompleted | daadii-1ai-main/src/hooks/useChat.ts:84-240 | a send shows no toast exactly when it has a conversation and its stream completes |
| Chat.ReplySavedIffNonEmpty | daadii-1ai-main/src/hooks/useChat.ts:226-228 | the reply is saved exactly when the stream completed with a non-empty reply, and the whole reply is what is saved |
| Composer.ChatInput.constructor | daadii-1ai-main/src/components/ChatInput.tsx:15-16 | an empty input and no files |
| Composer.ChatInput.SetInput | daadii-1ai-main/src/components/ChatInput.tsx:104 | typing replaces the input text |
| Composer.ChatInput.HandleSend | daadii-1ai-main/src/components/ChatInput.tsx:20-26 | when the input has non-white-space text or files are attached, and the composer is enabled, `onSend` gets the trimmed text and the files and both are cleared; otherwise nothing changes |
| Composer.ChatInput.HandleFileSelect | daadii-1ai-main/src/components/ChatInput.tsx:28-43 | each file over 20 MiB gets a toast, in order; the list becomes the first ten of the old files followed by the kept ones |
| Composer.ChatInput.RemoveFile | daadii-1ai-main/src/components/ChatInput.tsx:45-47 | the list becomes `RemoveAt` of the old list |
| Composer.ChatInput.HandleKeyDown | daadii-1ai-main/src/components/ChatInput.tsx:53-58 | Enter without Shift is prevented and sends under the send guard; any other key changes nothing |
| Composer.ButtonMatchesGuard | daadii-1ai-main/src/components/ChatInput.tsx:113 | the send button is disabled exactly when the send guard would reject |
| Composer.Accepted | daadii-1ai-main/src/components/ChatInput.tsx:30-40 | the kept files are no more than the selected ones and all are at most 20 MiB |
| Composer.Rejected | daadii-1ai-main/src/components/ChatInput.tsx:30-40 | the refused files are no more than the selected ones and all are over 20 MiB |
| Composer.FilterAppend | daadii-1ai-main/src/components/ChatInput.tsx:30-40 | both filters work file by file, so the kept and refused files keep their selection order |
| Composer.FilterSnoc | daadii-1ai-main/src/components/ChatInput.tsx:30-40 | one more selected file is kept or refused after the others |
| Composer.FilterPartition | daadii-1ai-main/src/components/ChatInput.tsx:30-40 | every selected file is kept or refused, never both and never neither |
| Composer.FilterKeepsIffFits | daadii-1ai-main/src/components/ChatInput.tsx:31 | a file is kept exactly when its size is at most 20 MiB (inclusive), and refused exactly when it is larger |
| Composer.CappedShape | daadii-1ai-main/src/components/ChatInput.tsx:42 | the new list has min(10, old + kept) files, is a prefix of old files then kept ones, keeps the old files in front and drops nothing while the total is at most ten |
| Composer.KeepOthersSlices | daadii-1ai-main/src/components/ChatInput.tsx:46 | the position filter deletes exactly the element at the given position and keeps the others in order |
| Composer.RemoveAtSlices | daadii-1ai-main/src/components/ChatInput.tsx:46 | `removeFile(i)` deletes exactly element `i` (one fewer file); an out-of-range `i` changes nothing |
| History.RemoveId | daadii-1ai-main/src/components/ChatHistory.tsx:60 | no entry left has the deleted id, and the list does not grow |
| History.ConversationList.constructor | daadii-1ai-main/src/components/ChatHistory.tsx:25 | the list starts empty |
| History.ConversationList.LoadConversations | daadii-1ai-main/src/components/ChatHistory.tsx:32-45 | a store error leaves the list; otherwise the rows, or an empty list for none, replace it |
| History.ConversationList.DeleteConversation | daadii-1ai-main/src/components/ChatHistory.tsx:47-64 | a failure shows a toast and changes nothing; otherwise the entries with the id are removed, and the active conversation is reset exactly when it is the deleted one |
| History.RemoveIdAppend | daadii-1ai-main/src/components/ChatHistory.tsx:60 | the filter works entry by entry, so the remaining entries keep their relative order |
| History.RemoveIdKeeps | daadii-1ai-main/src/components/ChatHistory.tsx:60 | an entry survives exactly when it was listed and has another id |
| History.RemoveIdAbsent | daadii-1ai-main/src/components/ChatHistory.tsx:60 | a list without the id is unchanged |
| History.RemoveIdTwice | daadii-1ai-main/src/components/ChatHistory.tsx:60 | deleting the same id twice is deleting it once |

## Left out

- Network and store calls (`fetch`, `supabase.auth.*`, `supabase.from(...)`) are not modelled. Each outcome is an input: the signed-in user, the insert's id or error, the endpoint's status, error field, body and chunks, and a query's rows or error. The store calls and requests the hook makes are logged as values.
- Store-side ordering and the 20-row limit of the conversation list are left to the store.
- Session tokens, request headers and the endpoint URL are not modelled.
- Errors that the store calls throw are not modelled. A save error is only logged by the source, so every save is logged as issued.
- `TextDecoder` is not modelled: chunks are already-decoded text. The source never flushes the decoder after the last chunk, so a multi-byte character split at the very end of the stream is lost; the model does not show this.
- `JSON.parse` and the read of `choices[0].delta.content` are a finite table from payload to outcome. A content value that is not a string is not modelled.
- Strings are sequences of Unicode characters. JavaScript's `length`, `slice(0, 50)` and `indexOf` count UTF-16 code units, so `Title` differs from the source for text outside the Basic Multilingual Plane.
- React scheduling is not modelled. A send is one sequential run in which `messages` (used for the title rule and the request body) is the transcript before the send. Overlapping sends are not modelled.
- Whether the sidebar reset fires is returned by `DeleteConversation`. What the page does with it (start a new conversation) is `StartNewConversation`.
- Toast styling, console logging, `stopPropagation`, the voice recorder, the file-picker DOM, the page component and the message view are not modelled.
- A read failure is modelled after the last delivered chunk; the chunks delivered before it are the input `chunks`.
- Chat.ChatSession.Exchange: the `error` field of a non-ok body is modelled as a string (empty when absent). Non-string values that `new Error(...)` would convert are not modelled.
