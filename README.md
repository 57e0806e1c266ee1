# Relay bot core, modelled in Dafny

This project models the logic of a Discord bot that relays conversations to a chat-completion
service (`src/main.rs`). The bot holds a table read from `bots.txt`. The table is a lazily
initialised static, so the file is read and parsed the first time a handler run looks a
thread's parent up in it (src/main.rs:89). Each line of the file maps a chat channel id to a
prompt channel id. When a message arrives, the bot drops it if the bot
wrote it. It then scans the guild's active threads for the message's thread under a
registered chat channel, and uses the newest message of the mapped prompt channel as the
system prompt. It fetches up to 100 recent thread messages. Each message is tagged System
when the bot wrote it and User otherwise. The list is turned oldest first, and the prompt is
put in front. The bot asks the service for a completion and takes the last choice, or the
empty string when there are none. It posts that reply in runs of at most 2000 characters.

Modules, in dependency order:

- `Types` (types.dfy): 64-bit ids, `Option`, `Result`, messages and threads.
- `Text` (text.dfy): the Rust string operations the loader depends on. These are
  `str::lines`, `str::split_whitespace` (Unicode White_Space) and `u64::from_str` (one
  optional `+`, ASCII digits, value below 2^64).
- `PromptTable` (prompt_table.dfy): the per-line parse, the left fold that inserts lines into
  the map, and the imperative loader `LoadTable`.
- `Classifier` (classifier.dfy): the thread scan as a function (`ScanFrom`), the prompt
  lookup, and the handler's loop with its two mutable flags (`ClassifyMessage`).
- `Conversation` (conversation.dfy): `message_role`, and the context as a function. Also
  `AssembleContext`, which maps the history into an array, reverses it in place and puts the
  system entry in front.
- `Reply` (reply.dfy): the last-choice selection, the 2000-character chunking, and the send
  loop that stops at the first rejected send.
- `Handler` (handler.dfy): the whole handler. The spec function `Handle` returns the outcome
  and the ordered list of outside calls. `HandleMessage` runs the same steps the way the
  source does.
- `Scenarios` (scenarios.dfy): fixed-input examples.

Every call into the platform or the completion service is an input field of `World`:

- the cache's "is own" answer;
- the guild's threads, or None when the guild is not cached;
- the message log of each reachable channel, newest first;
- the completion choices, or None when the request fails;
- the index of the first send the platform rejects, if any.

The handler's calls come back as `Event`s. These are the prompt fetch, the typing signal,
the history fetch, the completion request and the sends. A send the platform accepts is a
`Send` event and a send it refuses is a `SendRejected` event. Every `unwrap` the source
panics on is a `Failed` outcome. The bot's own id (`BOT_ID`) is a `botId` parameter.

Notes on the code as written:

- The table holds only channel-to-channel prompt rules. The prompt is always the newest
  message of the mapped channel.
- A failure ends the handling through an `unwrap` panic. No `error!` is emitted and nothing
  is sent back. A failure after the prompt was found comes after its `info!` line
  (src/main.rs:97), and the runtime prints the panic message.
- A thread on the list whose id is the message's channel but which has no parent is a
  failure. This happens only while no prompt has been found yet.
- The bot's earlier replies are replayed with the System role.

## Model

| member | source | states |
|---|---|---|
| Text.Lines | src/main.rs:27 | no line contains a line feed; the empty text has no lines |
| Text.UnlinesLines | src/main.rs:27 | re-joining the lines with line feeds gives the text back, plus a final line feed when it had none |
| Text.LinesUnlines | src/main.rs:27 | lines without line feeds, joined and split again, come back unchanged |
| Text.Words | src/main.rs:28 | every token is non-empty and free of Unicode whitespace |
| Text.Gaps | src/main.rs:28 | every text is its tokens with whitespace-only separators around and between them, every inner separator non-empty |
| Text.WordsDecompose | src/main.rs:28 | the tokens of any text are its maximal non-whitespace runs: the text is those tokens laid out with whitespace separators |
| Text.WordsInterleave | src/main.rs:28 | tokens laid out with any whitespace separators (leading, trailing, tabs, repeated) split back into exactly those tokens |
| Text.WordsUnwords | src/main.rs:28 | tokens joined by single spaces split back into the same tokens |
| Text.ParseU64 | src/main.rs:29-30 | an accepted token is non-empty, starts with a digit or '+', and holds no whitespace and no '-' |
| Text.ParseU64Decimal | src/main.rs:29-30 | every u64 written in decimal, with or without a leading '+', parses back to itself |
| Text.ParseU64Exact | src/main.rs:29-30 | a token parses to n exactly when it is an optional '+', leading zeros and the decimal digits of n; everything else is refused |
| Text.ParsedIsSpelling | src/main.rs:29-30 | an accepted token is an optional '+', leading zeros and the decimal digits of the value it yields |
| Text.SpellingParses | src/main.rs:29-30 | an optional '+', any leading zeros and the decimal digits of a u64 parse to that u64 |
| Text.StrayCharacterRefused | src/main.rs:29-30 | a token with a character other than a digit, apart from one leading '+', is refused |
| Text.DecimalValueOfDecimal | src/main.rs:29-30 | the decimal spelling of n denotes n |
| PromptTable.LoadTable | src/main.rs:19-35 | the loop over lines that inserts into a mutable map returns exactly the table the text denotes or the same error |
| PromptTable.FailureStops | src/main.rs:29-30 | once a line fails, the lines after it cannot change the result |
| PromptTable.InsertErrors | src/main.rs:27-32 | the load succeeds exactly when every line parses; an error names the first failing line and its reason |
| PromptTable.TableFailure | src/main.rs:27-32 | a failed load of a text names the first line of that text that does not parse, with that line's reason |
| PromptTable.TableContents | src/main.rs:27-34 | a successful load means every line parsed, and the map is that of the lines' pairs in file order |
| PromptTable.InsertMap | src/main.rs:31 | when all lines parse, the load is the map of their pairs, later ones overriding earlier |
| PromptTable.MapOfKeys | src/main.rs:31 | the table's keys are exactly the chat ids some line names |
| PromptTable.MapOfLast | src/main.rs:31 | a repeated chat id maps to the prompt id of the last line naming it |
| PromptTable.ParseLineCases | src/main.rs:28-30 | a line fails for a missing chat id when it has no token, for a bad chat id when its first token is not a u64, for a missing prompt id when it has one u64 token, for a bad prompt id when its second token is not a u64, and otherwise gives the two values |
| PromptTable.ExtraTokensIgnored | src/main.rs:28-30 | a line with at least two tokens parses as its first two tokens alone do, whatever whitespace separates them |
| PromptTable.SingleTokenFails | src/main.rs:30 | a line holding one u64 token with any whitespace around it fails for the missing prompt id |
| PromptTable.BlankLineFails | src/main.rs:29 | a line of whitespace only, such as an empty line, fails with a missing chat id instead of being skipped |
| PromptTable.WordsOfFormatLine | src/main.rs:28 | a line written as "chat prompt" splits into exactly those two tokens |
| PromptTable.ParseFormatLine | src/main.rs:28-30 | a line written as "chat prompt" parses to that pair |
| PromptTable.FormatLineOneLine | src/main.rs:27 | a written table line contains no line feed |
| PromptTable.LoadFormattedTable | src/main.rs:19-35 | loading the text written from a list of entries gives the map of those entries |
| Classifier.ScanFrom | src/main.rs:84-101 | a reported stop is a thread whose id is the message's channel; a match's parent is registered and its prompt channel is the parent's table entry |
| Classifier.ScanFromFirst | src/main.rs:84-101 | from any position, the scan finds nothing exactly when every thread is passed over, and every thread before a stop was passed over |
| Classifier.ScanFirst | src/main.rs:84-101 | the same first-match property for the whole thread list |
| Classifier.ScanFromIgnoresLater | src/main.rs:88 | threads after the one the scan stopped at do not change the result |
| Classifier.ScanIgnoresLater | src/main.rs:88 | later matching threads are ignored once a match is found |
| Classifier.ClassifyMessage | src/main.rs:81-105 | the loop with `in_chat_thread` and `system_prompt` computes exactly the classification, including the missing-parent, unreachable and empty prompt-channel failures |
| Classifier.ClassifyManaged | src/main.rs:84-105 | a message is unmanaged exactly when every thread on the list either has another id or has a parent that is not registered; when managed, the prompt is the newest message of the first registered thread's prompt channel |
| Conversation.MessageRole | src/main.rs:172-183 | the role is System exactly when the author is the bot |
| Conversation.Entries | src/main.rs:122-128 | one entry per history message, in the same order, with that message's role and content |
| Conversation.ReversedIndex | src/main.rs:130 | the reversal has the same length, and position k holds the element k places from the end |
| Conversation.ContextShape | src/main.rs:122-135 | the context has one entry more than the history; entry 0 is (System, prompt); entry i (from 1) holds the i-th oldest history message's content, tagged System exactly when the bot wrote it |
| Conversation.Recent | src/main.rs:115-117 | the fetched history is the newest messages of the log, at most 100 of them, and the whole log when it is shorter |
| Conversation.ReverseInPlace | src/main.rs:130 | the array afterwards holds its old contents reversed |
| Conversation.AssembleContext | src/main.rs:122-135 | mapping into an array, reversing it in place and putting the system entry in front gives exactly the context |
| Reply.SelectReply | src/main.rs:152-156 | the reply is the last choice's content when there are choices, and the empty string otherwise |
| Reply.FlattenChunks | src/main.rs:159 | concatenating the chunks in order reproduces the reply exactly |
| Reply.ChunksShape | src/main.rs:159 | every chunk has 1 to 2000 characters, every chunk but the last has 2000, and there are ⌈n/2000⌉ chunks, so an empty reply has none |
| Reply.ChunksFlatten | src/main.rs:159 | the split is the only well-formed one: chunking the concatenation of a well-formed split gives that split |
| Reply.ChunksOf4500 | src/main.rs:159 | a 4500-character reply becomes three chunks of 2000, 2000 and 500 characters, in order |
| Reply.SendChunks | src/main.rs:162-164 | the chunks are sent in order; a rejected send stops the loop, after exactly the chunks before it |
| Handler.HandleMessage | src/main.rs:65-165 | running the handler step by step gives exactly the outcome and the outside calls the handler's specification gives |
| Handler.Quiet | src/main.rs:65-105 | a self-authored message causes no call; a message in no thread under a registered parent causes no call; typing, the history fetch, the completion request and the sends happen only for a managed message |
| Handler.Delivery | src/main.rs:107-164 | a delivered reply is prompt fetch, typing, history fetch (limit 100), then one request with the fixed model and token budget, a context of the fetched history plus the prompt, and the sends; the sent texts are well-formed chunks that concatenate to the reply |
| Handler.PartialDelivery | src/main.rs:162-164 | when send k fails, the last call is the rejected send of chunk k, and what reached the thread is the first 2000·k characters of the reply |
| Scenarios.ManagedThreadReply | src/main.rs:65-164 | three user messages and one bot message with reply "Hi" give a five-entry request, oldest first, and one message "Hi" |
| Scenarios.EmptyPromptChannel | src/main.rs:92-94 | an empty prompt channel is a failure after the prompt fetch, with no request and no send |
| Scenarios.UnregisteredParent | src/main.rs:84-105 | a thread under an unregistered channel causes no call of any kind |

## Left out

- Reading `bots.txt` from disk and its `expect` (src/main.rs:24-25), and the `lazy_static`
  initialisation: file I/O and runtime plumbing. Only the parse of the file's text is modelled.
- Handler.Handle takes a table that loaded. With a malformed `bots.txt` every handler run
  that reaches the lookup at src/main.rs:89 fails, the first one inside the initialiser and
  later ones on the poisoned static, while runs that stop earlier are unaffected. The model
  states the load's failure (`PromptTable.ParseTable`) but not this per-run effect.
- The OpenAI client and the completion call (src/main.rs:141-149): a foreign SDK. The
  request is a record of the fixed model name "gpt-3.5-turbo", the 1024-token budget and
  the messages. Its answer is an input.
- The request builders' `build().unwrap()` calls (src/main.rs:123-127, 131-135, 142-147):
  every field is set, so the builders are treated as infallible.
- `msg.is_own`, `msg.guild`, `channel.messages`, `broadcast_typing` and `say`: platform I/O,
  given as inputs or emitted as events. A failed typing signal is only logged in the
  source, so the model always records the typing event and continues.
- Reading and parsing `BOT_ID` from the environment inside `message_role`
  (src/main.rs:173-176): configuration, given as the `botId` parameter. Its `expect` failure
  is not modelled.
- Logging (`info!`, `error!`) and the `ready` handler (src/main.rs:167-169): output only.
- The startup function, secrets and environment variables (src/main.rs:185-228):
  configuration plumbing.
- The commented-out greeting and category check (src/main.rs:48-63, 72-79): dead code.
- The async runtime and concurrent handler invocations: each call of `Handle` models one
  handler run on its own.
- Text.Lines: the carriage-return removal that `str::lines` does before a line feed is not
  modelled. The carriage return is whitespace, so no token differs either way.
