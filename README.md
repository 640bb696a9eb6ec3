# claude-telegram-bridge: the message path, modelled and proved in Dafny

The bridge is a Telegram bot that forwards each text message of an
allowed user to the `claude` command-line tool and sends back its reply.
This project models the parts of `bot.py` that decide what happens to a
message:

- the table of per-user CLI sessions (`SessionManager`);
- the argument list the CLI is started with;
- how a finished, failed or timed-out run becomes a response object;
- how the reply text is pulled out of that response;
- how the reply is cut into pieces that fit Telegram's 4096-character limit;
- the order in which the handler does all of this;
- the selection loop of the `/logs` command.

Modules, one per piece of the source:

| file | models |
|---|---|
| `Wrappers.dfy` | `Option` |
| `Text.dfy` | the Python `str` operations used: `strip`, `lstrip`, `split`, `join`, `rfind`, `str(int)` |
| `Json.dfy` | JSON values as `json.loads` returns them, and dictionary lookup; duplicate keys resolve to the last one |
| `Chunking.dfy` | `chunk_message`, as written and corrected |
| `Sessions.dfy` | `SessionManager`, a class over a `map` with a ghost copy of the sessions file |
| `Runner.dfy` | the argument builder and the outcome classifier of `ClaudeRunner.run` |
| `Responses.dfy` | `extract_response_text` and `format_cost` |
| `Logs.dfy` | the entry-selection loop of `cmd_logs` |
| `Bridge.dfy` | the `authorized` guard and `handle_message` |

Imperative code stays imperative:

- `chunk_message`, the part-collecting loop of `extract_response_text` and
  the nested loops of `cmd_logs` are methods with loops.
- The argument builder is a method that appends to the list step by step; it
  has no loop.
- Each of these methods is proved equal to a specification function, and the
  properties are lemmas about those functions.
- `SessionManager` is a class whose methods update `data` and rewrite the ghost
  `persisted` file contents, as `_save` does.

Each of these is a parameter of the model rather than modelled:

- `uuid.uuid4()` (`freshId`)
- what `json.loads` returned (`parsed`, or the decoded log lines)
- whether the subprocess started, and how it ended (`Launch`, `ProcessOutcome`)
- the `.4f` rendering of a float cost (`floatText`)
- the environment configuration (`Config`, `defaultModel`)

Where a Python operation raises (for example `.get` on a log entry that
is not an object, or a join over parts that are not all strings), the
model returns `None`, and the handler's outcome is `Crashed`.

Each cut of `chunk_message` drops the whole run of newlines after it and
drops no space: after a space cut, the space begins the next chunk.
`Dropped` and `Gaps` are the dropped newline runs, and `ChunksReassemble` is
the round trip stated with them.

## Model

| member | source | states |
|---|---|---|
| Text.IsSpace | bot.py:147 | `c.isspace()`: exactly the characters `str.strip()` removes, as at bot.py:182 and bot.py:186 too |
| Text.LStripSpace | bot.py:147 | `lstrip()`: the result is a suffix of the input; every removed character is whitespace, and the first kept one is not |
| Text.RStripSpace | bot.py:147 | `rstrip()`: the result is a prefix of the input; every removed character is whitespace, and the last kept one is not |
| Text.LStripChar | bot.py:242 | `lstrip("\n")`: a suffix of the input; only that character is removed, and the result does not start with it |
| Text.Strip | bot.py:147 | the result is a contiguous slice of the input with only whitespace before and after it, and has no whitespace at either end |
| Text.StripSlice | bot.py:147 | stripping whitespace from the left, then from the right, leaves a slice of the input with only whitespace around it and none at its ends |
| Text.StripOfStripped | bot.py:147 | stripping a string with no surrounding whitespace leaves it unchanged |
| Text.Join | bot.py:265 | `sep.join(parts)`: the parts with the separator between each two |
| Text.Split | bot.py:147 | `split(",")` gives at least one piece, and no piece contains the separator |
| Text.JoinSplit | bot.py:147 | joining the pieces of a split with the separator gives the string back |
| Text.SplitPrefix | bot.py:147 | splitting a separator-free prefix followed by a text extends the text's first piece |
| Text.SplitJoin | bot.py:147 | splitting a join of separator-free pieces gives the pieces back |
| Text.RFind | bot.py:230-236 | `rfind(sub, start, end)` is -1 or an index at or after `start` whose occurrence ends by `end` |
| Text.RFindSpec | bot.py:230-236 | the index found is an occurrence and no later one exists in range; -1 means there is none in range |
| Text.RFindHit | bot.py:230-236 | where `rfind` finds something, the first character of the pattern is there |
| Text.RFindNone | bot.py:233-236 | a failed single-character `rfind` means the character is absent from the range |
| Text.RFindMissing | bot.py:230-236 | `rfind` gives -1 when the first character of the pattern does not occur in range |
| Text.RFindAbsent | bot.py:230-236 | `rfind` gives -1 when the pattern occurs nowhere in range |
| Text.RFindIs | bot.py:230-236 | `rfind` finds the occurrence after which no other starts in range |
| Text.RFindLast | bot.py:230-236 | `rfind` finds an occurrence after which the pattern's first character does not occur in range |
| Text.DecimalString | bot.py:81 | `str(n)`: a minus sign for a negative number, then the digits of its magnitude; also the seconds at bot.py:179 |
| Text.Digits | bot.py:81 | the decimal rendering of a natural number is a non-empty digit string |
| Text.DigitsRoundTrip | bot.py:81 | reading back the digits of `n` gives `n` |
| Text.DecimalRoundTrip | bot.py:81 | `int(str(n)) == n` for every integer, including negative ones |
| Text.DecimalInjective | bot.py:81 | distinct integers have distinct `str` renderings |
| Json.GetOr | bot.py:253 | `d.get(key, default)`: what the lookup finds, else the default; `BlockPart` uses it for `block.get("text", "")` |
| Json.StrRepr | bot.py:267 | `repr` of a text: single quotes unless it holds a single quote and no double quote, with backslash, the quote, `\n`, `\r`, `\t` and non-printable Latin-1 characters escaped |
| Json.Repr | bot.py:267 | `repr` of a decoded JSON value: `None`, `True`/`False`, the decimal integer, the float text, a quoted string, and lists and objects with their items separated by ", " |
| Json.PyStr | bot.py:250 | `str(v)` as the f-string `f"Error: {v}"` uses it: a string is itself, anything else its `repr` |
| Json.Lookup | bot.py:249-253 | a lookup finds nothing exactly when the key is absent, and what it finds is stored under the key |
| Json.LookupLast | bot.py:253 | the last field with a key decides the lookup |
| Json.LookupSkips | bot.py:253 | fields with other keys after the searched ones do not change the lookup |
| Chunking.Cut | bot.py:229-239 | the cut is never past the limit |
| Chunking.CutAtBreak | bot.py:229-239 | a cut before the limit is at a newline, or at a space at or after the search start; a cut at the limit means there is neither in range |
| Chunking.Rest | bot.py:242 | the remainder is no longer than the text after the cut and does not start with a newline; it is all of that text when the cut is not at a newline |
| Chunking.RestSuffix | bot.py:242 | the remainder is a suffix of the text, and everything between the cut and it is a newline |
| Chunking.RestKeepsOut | bot.py:242 | a character absent from the text is absent from the remainder |
| Chunking.Dropped | bot.py:241-242 | the text is the emitted chunk, then a run of newlines, then the remainder |
| Chunking.Terminates | bot.py:224-242 | the `while text:` loop ends from this text: it fits, or a pass shortens it and the loop ends from the remainder |
| Chunking.Pieces | bot.py:224-242 | the chunks the loop appends, one per pass: the text before the cut, then those of the remainder |
| Chunking.Gaps | bot.py:241-242 | the newline run each pass drops after its chunk, and "" after the last chunk |
| Chunking.ChunkGaps | bot.py:220-244 | the dropped runs for the whole result: `[""]` for a text within the limit, else those of the loop |
| Chunking.Chunks | bot.py:220-244 | the result of `chunk_message`: `[text]` for a text within the limit, else the loop's chunks |
| Chunking.StepProgress | bot.py:224-242 | a pass shortens the text exactly when it cuts after index 0 or the text starts with a newline |
| Chunking.PiecesStep | bot.py:224-242 | one pass emits the text before the cut and continues from the remainder |
| Chunking.PiecesBounded | bot.py:224-242 | every chunk the loop emits is at most `limit` long |
| Chunking.ChunksBounded | bot.py:214-244 | every chunk fits the limit, and a text that already fits is returned as the single chunk |
| Chunking.PiecesReassemble | bot.py:224-242 | the loop's chunks, with the dropped newline runs between them, concatenate back to the text |
| Chunking.ChunksReassemble | bot.py:214-244 | the result of `chunk_message`, with the dropped newline runs re-inserted, is exactly the input; only newlines are dropped |
| Chunking.PiecesNonEmpty | bot.py:224-242 | from a text that does not start with a newline, no chunk is empty |
| Chunking.OnlyFirstChunkMayBeEmpty | bot.py:214-244 | every chunk after the first is non-empty |
| Chunking.CutAtLastSpace | bot.py:229-242 | with no newline before the limit, a pass cuts at the last space in range, and the next pass starts at that space |
| Chunking.CutAtLastParagraph | bot.py:229-231 | a pass cuts at the last paragraph break before the limit, whatever else is in range |
| Chunking.CutAtLastLine | bot.py:231-233 | with no paragraph break before the limit, a pass cuts at the last line break in range, whatever spaces there are |
| Chunking.HardCut | bot.py:237-242 | with no newline and no searchable space before the limit, a pass cuts at exactly the limit |
| Chunking.StuckAtSpace | bot.py:236 | as written, a remainder that starts with its only in-range space, with no newline in range, is cut at 0 and never shrinks, so the loop does not end |
| Chunking.SpaceCutSpins | bot.py:236 | as written, the loop does not end on "a bb" with limit 2 |
| Chunking.CorrectedTerminates | bot.py:236 | with the space search starting at index 1, the loop ends on every text for every limit of at least 1 |
| Chunking.CorrectedPasses | bot.py:229-242 | the corrected passes on "a bb" with limit 2 cut at the space, then hard at the limit |
| Chunking.CorrectedExample | bot.py:214-244 | the corrected chunker splits "a bb" with limit 2 into "a", " b", "b" |
| Chunking.NoSpaceTerminates | bot.py:224-242 | as written, the loop ends on every text without spaces |
| Chunking.SameCutOnProgress | bot.py:229-242 | a pass that shortens the text as written cuts where the corrected pass cuts, and leaves the same remainder |
| Chunking.CorrectionConservative | bot.py:224-242 | wherever the loop as written ends, the corrected loop ends too and appends the same chunks |
| Chunking.NoSpaceAgreement | bot.py:224-242 | on a text without spaces the loop as written ends for every limit of at least 1, and the correction changes no chunk |
| Chunking.ChunksConservative | bot.py:214-244 | wherever `chunk_message` as written returns, the corrected chunker returns the same list |
| Chunking.ChunkWith | bot.py:220-244 | the `while text:` loop returns exactly the specified chunks |
| Chunking.ChunkMessage | bot.py:214-244 | as written, when the loop ends: the specified chunks, each at most `limit` long, and `[text]` for a text within the limit |
| Chunking.ChunkMessageCorrected | bot.py:214-244 | the corrected chunker ends on every text; each chunk fits; a short text is its own single chunk; wherever the code as written returns, the result is what it returns |
| Sessions.Load | bot.py:67-73 | `_load`: the table a written file holds; empty for a missing or unreadable file |
| Sessions.UserKey | bot.py:81 | `str(user_id)`, the decimal rendering of the id; `UserKeyInjective` is its property |
| Sessions.Ensured | bot.py:83-93 | the table after `ensure`: unchanged when the user has a record, else with `{fresh id, default model, 0}` added |
| Sessions.AfterReset | bot.py:95-105 | the table after `reset`: the user's record replaced by `{fresh id, old model or default for a new user, 0}` |
| Sessions.AfterSetModel | bot.py:107-110 | the table after `set_model`: the ensured record with only its model replaced |
| Sessions.AfterIncrement | bot.py:112-115 | the table after `increment`: the ensured record with its count one higher |
| Sessions.UserKeyInjective | bot.py:81 | two users never share a `str(user_id)` key |
| Sessions.EnsureIdempotent | bot.py:83-93 | a second `ensure` finds the first one's record whatever fresh id it is given, and `ensure` on a present key changes nothing |
| Sessions.IncrementAfterEnsure | bot.py:112-115 | `increment` after `ensure` (as the handler does) gives the same table as a lone `increment` |
| Sessions.OperationsStayLocal | bot.py:83-115 | `ensure`, `reset`, `set_model` and `increment` leave every other user's record as it was |
| Sessions.IncrementsAddUp | bot.py:112-115 | `n` increments raise the count by exactly `n` and change neither the session id nor the model |
| Sessions.ResetStartsOver | bot.py:95-105 | `reset` installs the fresh id and a zero count; it keeps an existing model, even an absent one, and uses the default only for a new user; the id changes when the fresh id is new |
| Sessions.SessionManager.constructor | bot.py:60-73 | the table is the file's contents, or empty when the file is missing or unreadable |
| Sessions.SessionManager.Save | bot.py:75-76 | the file then holds the whole table |
| Sessions.SessionManager.Get | bot.py:80-81 | returns the user's record exactly when there is one |
| Sessions.SessionManager.Ensure | bot.py:83-93 | an existing record is returned and nothing is written; otherwise `{fresh id, default model, 0}` is inserted and saved |
| Sessions.SessionManager.Reset | bot.py:95-105 | the new record has the fresh id, a zero count and the old model (the default for a new user); the file is rewritten |
| Sessions.SessionManager.SetModel | bot.py:107-110 | after an implicit `ensure`, only the model changes; the file is rewritten |
| Sessions.SessionManager.Increment | bot.py:112-115 | after an implicit `ensure`, only the count changes, by one; the file is rewritten |
| Runner.Plan | bot.py:134-148 | the decisions of one run: resume when the count is non-zero, the session's model else the default when non-empty, the cleaned tool list when the setting is non-empty |
| Runner.Render | bot.py:132-157 | the argument list that spells a plan: header, session flag and id, options, the fixed permission and turn arguments, the prompt last |
| Runner.TimeoutMessage | bot.py:179 | "Claude timed out after Ns" with the configured seconds in decimal |
| Runner.CliErrorMessage | bot.py:182-184 | "Claude CLI error: " and the stripped error output, or "unknown error" when that is empty |
| Runner.Truthy | bot.py:141-146 | Python truthiness of an optional string, as `or` and `if` test it: present and non-empty |
| Runner.ErrorResponse | bot.py:179-184 | the `{"error": message}` object `run` returns on a timeout or a failed exit |
| Runner.Cleaned | bot.py:147 | the kept tool names are non-empty and stripped, and stay free of the separator |
| Runner.ToolList | bot.py:147 | every parsed tool name is non-empty, stripped and comma-free |
| Runner.CleanedOfClean | bot.py:147 | clean names pass the cleaning unchanged |
| Runner.ToolListRoundTrip | bot.py:146-148 | a comma-joined list of clean tool names parses back to those names |
| Runner.ParseRenderOptions | bot.py:140-148 | the `--model` and `--allowedTools` arguments read back as the model and tools they spell |
| Runner.RenderParseOptions | bot.py:140-148 | any option arguments that read back are the spelling of what they read as |
| Runner.ParseRender | bot.py:132-157 | every invocation is read back from its argument list: header, session flag, options, trailer, and the prompt last |
| Runner.RenderParse | bot.py:132-157 | an argument list of this shape is the rendering of what it reads as, so no two argument lists mean the same run |
| Runner.RenderInSteps | bot.py:132-157 | the pieces appended one after another form the rendered argument list |
| Runner.BuildCommand | bot.py:132-157 | the list built step by step spells this run: resume exactly when the count is non-zero; the session's model, else the default, when non-empty; the tool list when the tools setting is non-empty |
| Runner.Classify | bot.py:172-191 | a timeout or a non-zero exit always gives an object with an `error` field |
| Responses.BlockPart | bot.py:261-264 | a text block gives its `text` (or `""`), a bare string gives itself, any other block nothing |
| Responses.Parts | bot.py:258-264 | the parts the loop collects, in block order; never more than there are blocks |
| Responses.PartsMembers | bot.py:258-264 | the parts are exactly the contributions of the blocks that contribute |
| Responses.JoinLines | bot.py:265 | `"\n".join(parts)`: the newline-joined strings, or nothing when a part is not a string, where Python raises |
| Responses.Strings | bot.py:265 | the strings held by all-string parts, one per part, in order |
| Responses.ResponseText | bot.py:247-267 | a reply exists only for a response that is an object |
| Responses.ExtractResponseText | bot.py:247-267 | the loop computes exactly the specified reply text |
| Responses.PartsAppend | bot.py:260-264 | collecting parts distributes over concatenation of block lists |
| Responses.SkippedBlock | bot.py:260-264 | a block that is neither a text block nor a string contributes nothing, wherever it stands |
| Responses.TextBlockPart | bot.py:261-262 | a text block contributes its text |
| Responses.StringsSnoc | bot.py:262-265 | appending a string part appends its string |
| Responses.TextBlocksJoin | bot.py:258-265 | a result made of text blocks yields their texts as parts, in order |
| Responses.TextBlocksRoundTrip | bot.py:258-265 | the reply to text blocks is their texts joined by newlines, and splits back into them when none holds a newline |
| Responses.ErrorWins | bot.py:249-250 | an `error` field decides the reply, whatever the other fields hold |
| Responses.StringResultVerbatim | bot.py:253-255 | a string `result` is the reply verbatim when there is no error |
| Responses.MissingResultIsEmpty | bot.py:253-255 | with neither `error` nor `result` the reply is the empty text |
| Responses.ExampleHello | bot.py:252-255 | `{"result": "hello", "cost_usd": 0.0123}` replies "hello" |
| Responses.ExampleBoom | bot.py:249-250 | `{"error": "boom"}` replies "Error: boom" |
| Responses.MixedParts | bot.py:260-264 | a text block, a skipped block and a bare string give the two texts |
| Responses.FourDecimals | bot.py:274 | `f"{cost:.4f}"` gives text exactly for numbers (integers, booleans, floats), an integer within 2^53 as its digits and ".0000"; `None` for anything else, where Python raises |
| Responses.FormatCost | bot.py:270-275 | no annotation exactly when `cost_usd` is absent or null; `None` exactly when the response is not an object or `cost_usd` is present, not null and not a number |
| Responses.IntegerCost | bot.py:272-274 | an integer cost within 2^53 is annotated as "\n[cost: $" and its digits with ".0000]" |
| Responses.TextCostRaises | bot.py:272-274 | a `cost_usd` given as text, such as "0.01", makes `format_cost` raise |
| Responses.ExampleCost | bot.py:270-275 | `{"result": "ok", "cost_usd": 5}` is annotated "\n[cost: $5.0000]" |
| Responses.ExampleMixed | bot.py:258-265 | a text block "a", an image block and the string "b" reply "a\nb" |
| Logs.RequestedCount | bot.py:371-376 | the count is `min(n, 20)` for a numeric argument, and 5 without one or for a non-number |
| Logs.RevDecoded | bot.py:382-386 | the entries of a file's lines that decode, last line first; never more than there are lines |
| Logs.RevDecodedMembers | bot.py:382-386 | an entry is read from a file exactly when some line of it decodes to that entry |
| Logs.Flat | bot.py:381-386 | every decoded entry, newest first: the files in the given order, each read from its last line |
| Logs.Searched | bot.py:389-392 | the files the scan reaches: only the newest when the count is zero or less, since the first kept entry already meets it |
| Logs.Wanted | bot.py:388-390 | how many entries the scan keeps: the count, or one when the count is zero or less |
| Logs.IsUser | bot.py:387 | `entry.get("user_id") == user_id`: an equal integer, or `True` for 1 and `False` for 0 |
| Logs.FirstMatches | bot.py:387-390 | the scan over entries: the user's entries until `k` are kept, or a crash at the first entry that is not an object |
| Logs.Selection | bot.py:378-392 | the entries the command lists: the first matches among the entries of the files it searches, newest first |
| Logs.Feed | bot.py:383-390 | one line of the inner loop: skipped when it does not decode, a crash when it is not an object, kept when it is the user's, stopping once the count is met |
| Logs.FeedLines | bot.py:382-390 | the inner loop: the lines of one file fed last line first |
| Logs.AfterFile | bot.py:391-392 | the check after each file: a scan that has enough entries stops |
| Logs.FeedFiles | bot.py:381-392 | the outer loop: each file's lines last first, then the count check that ends the loop |
| Logs.FirstMatchesSound | bot.py:387-390 | the scan keeps at most `k` entries, all of them the user's, and fails only when it reaches an entry that is not an object |
| Logs.Mine | bot.py:387-388 | the user's entries, in order; never more than there are entries |
| Logs.MineMembers | bot.py:387-388 | an entry is one of the user's exactly when it is among the entries and belongs to the user |
| Logs.FirstMatchesTakesMine | bot.py:387-390 | when every entry is an object the scan keeps exactly the user's first `k` entries |
| Logs.FeedLinesStep | bot.py:382-390 | one turn of the inner loop feeds the last unread line |
| Logs.FeedFilesStep | bot.py:381-392 | one turn of the outer loop scans a whole file, then checks the count |
| Logs.LinesAfterStop | bot.py:389-390 | once the scan has stopped or crashed, further lines change nothing |
| Logs.FilesAfterStop | bot.py:391-392 | once the scan has stopped or crashed, further files change nothing |
| Logs.FeedAgrees | bot.py:383-390 | one line of the loop agrees with the declarative first-matches selection |
| Logs.LinesAgree | bot.py:382-390 | scanning one file backwards agrees with the selection over its entries, last line first |
| Logs.FilesAgree | bot.py:381-392 | with a positive count, scanning the files agrees with the selection over all entries, newest first |
| Logs.ScanSelects | bot.py:378-392 | the nested loops select the user's first entries, as many as the count asks; a count of zero or less searches only the newest file and keeps at most one entry; an entry that is not an object crashes the scan |
| Logs.SelectEntries | bot.py:378-392 | the nested loops with their breaks compute exactly that selection |
| Bridge.Authorized | bot.py:199-211 | the guard of every handler: the user id is in the allowed set |
| Bridge.Shown | bot.py:435-436 | the reply shown is never empty, and a non-empty reply is shown as it is |
| Bridge.Deliver | bot.py:432-444 | nothing is sent exactly when the extraction or `format_cost` raises; otherwise the reply plus cost is sent as at least one message, each at most 4096 long, which together with the dropped newline runs make up the full reply |
| Bridge.DeliverAgrees | bot.py:441-444 | wherever `chunk_message` as written returns on the full reply, the messages sent are exactly its chunks |
| Bridge.ClassifiedReplyText | bot.py:172-191 | the user reads "Error: Claude timed out after Ns" on a timeout, and "Error: Claude CLI error: ..." on a non-zero exit; on a zero exit, the stripped output when it is not JSON, and otherwise the reply of the parsed response |
| Bridge.FailuresCostNothing | bot.py:176-191 | the responses `run` makes up itself carry no cost, so `format_cost` gives "" for them |
| Bridge.FailuresAreAnswered | bot.py:176-191 | a timeout, a failed run or non-JSON output always gets a reply |
| Bridge.HandleMessage | bot.py:408-444 | an unlisted user gets the refusal and nothing changes; an empty text changes nothing; any other text ensures the session and builds its command; a process that cannot be started crashes the handler with only the `ensure` done; a started one, whatever its run gave, increments the count and saves the table, then the reply with its cost annotation is delivered |

## Left out

- Telegram I/O is not modelled: receiving updates, `reply_text` and `send_action`. The handler returns the messages it would send.
- Concurrency is not modelled: `asyncio`, the `_keep_typing` task and its cancellation.
- Spawning the subprocess is not modelled, including its working directory and the removal of `CLAUDECODE` from the environment. Only whether it started (`Launch`) and how it ended are modelled.
- File I/O is not modelled: reading and writing `sessions.json`, the log directory, `glob`, `exists` and `mkdir`. The sessions file is a ghost value; the log files are given as decoded lines, newest file first, in the order `sorted(..., reverse=True)` produces.
- Library calls are parameters, not models: `json.loads`, `json.dumps`, `uuid.uuid4`, `datetime`. Byte decoding with `errors="replace"` and `str.splitlines` are left out too; the classifier and `/logs` take already-decoded text and lines.
- Responses.FourDecimals: floating point is not modelled. The `.4f` rendering of a float, and of an integer beyond 2^53 (which Python converts to the nearest float), is the parameter `floatText`. An integer too large for a float makes Python raise `OverflowError`; the model gives it `floatText`.
- `log_conversation` is left out. It runs after the count is incremented and before any chunk is sent (bot.py:439). The model takes it to succeed. If it raises (an `OSError` while writing the log, or a lone surrogate under UTF-8), the user gets no reply although the count was incremented.
- The other command handlers are left out: `/start`, `/help`, `/reset`, `/model` and `/status`. They are thin wrappers over the `SessionManager` methods modelled here. Also left out: the rendering of `/logs` entries and its "No conversation logs found." text.
- Configuration parsing from the environment and `main`'s startup checks are left out. `Config` and `defaultModel` are parameters.
- Logs.IsUser: a float `user_id` in a log entry is taken never to equal the user id. Python would compare `12.0 == 12` as true.
- Json.Repr: `str()` of a non-string `result` (the last case of `extract_response_text`) escapes non-printable characters only within Latin-1; Python also escapes non-printable characters above it as `\u`/`\U`. An object with repeated keys is shown with every member, where Python shows each key once. A float is carried as the text Python's `repr` gives it; that text is an input of the model, not computed from a value.
- Chunking.ChunkMessage: `limit` is a natural number. A negative limit, whose Python slices count from the end, is not modelled.
- Sessions.Load: a sessions file holding valid JSON that is not an object is not modelled; the source would fail on first use.
- Session records: every record carries a session id, a model and a count. Records missing `model` or `message_count` are not modelled. The source reads those keys with defaults: `CLAUDE_MODEL` in `reset` (bot.py:98), 0 in `increment` (bot.py:114) and when building the command (bot.py:135), and the default model when building the command (bot.py:141). Only a record missing `session_id` makes the source fail, when the command is built (bot.py:136, bot.py:138).
- Bridge.HandleMessage: the handler sends the chunks of the corrected chunker, where the source calls `chunk_message` as written (bot.py:443). On a reply where the loop as written never ends, the source sends nothing and the handler never returns; the model sends the corrected chunks. Wherever the loop as written ends, `Chunking.CorrectionConservative` proves the two give the same chunks.
- Bridge.Deliver: the same substitution as in `Bridge.HandleMessage`. Its contract states the corrected chunks; `Bridge.DeliverAgrees` states equality with the chunks as written wherever that loop ends.
- Sessions.SessionManager: the session dict returned by `ensure` and later updated in place is modelled by value. Aliasing between the returned dict and the table is not captured.

## Findings

| source | as written | input that shows it | evidently intended | confidence | as-written member | corrected member |
|---|---|---|---|---|---|---|
| bot.py:236 | The space search runs from index 0. After a space cut, the space stays at the head of the remainder, because `lstrip` only drops newlines. When that space is the only one in range and there is no newline, the cut is 0: an empty chunk is appended and the text never shrinks, so the loop never ends. | "a bb" with limit 2. With the default limit: "x " followed by 5000 non-space characters. | every pass makes progress; a space at index 0 is never chosen as the cut | not executed | Chunking.SpaceCutSpins | Chunking.CorrectedTerminates |

Related members:

- `Chunking.StuckAtSpace` states the general condition under which the loop as written spins.
- `Chunking.ChunkMessage` is the method as written. Its precondition is exactly that the loop ends.
- The correction starts the space search at index 1. `Chunking.ChunkMessageCorrected` is the corrected method, and `Chunking.CorrectedExample` gives its result on the counterexample.
- `Chunking.NoSpaceAgreement` shows that on texts without spaces the loop as written ends and the correction changes nothing.
- `Chunking.CorrectionConservative` shows the correction changes nothing on any text where the loop as written ends; `Chunking.SameCutOnProgress` is its one-pass step.
- The handler (`Bridge.HandleMessage`) uses the corrected chunker.
