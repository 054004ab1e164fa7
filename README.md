# Deva memory and reminder core, in Dafny

Deva is a personal chatbot. It keeps two Postgres tables, `memory` and
`reminders`. Its agent can call two tools: `memory_tool` saves a fact, and
`reminder_tool` schedules a task given as `"task | YYYY-MM-DD HH:MM"`.
Each chat turn sends the language model the whole conversation so far plus
the ten newest memories. A FastAPI back end adds CRUD endpoints over
memories and an upsert table of users.

This project models that core and proves properties of it:

- `basics.dfy` (`Basics`): `Option` and `Result` values, `Min`, list
  comprehension, and "last `n` rows, newest first".
- `pystr.dfy` (`PyStr`): the Python `str` operations the core uses.
  These are `strip()` (with Python's `isspace` set), `split` and `join`
  on a one-character separator, `count`, and the slice `s[:n]`.
- `datetimes.dfy` (`DateTimes`): naive `datetime` values. It covers
  `strptime(s, '%Y-%m-%d %H:%M')` with the `ValueError` it raises,
  `strftime('%Y-%m-%d %H:%M')`, `str(datetime)`, and chronological order.
- `db.py`, modelled in `db.dfy` (`Db`): class `Store`. Its two tables are
  sequences of rows in insertion order. Fresh identifiers come from a
  counter. `CURRENT_TIMESTAMP` is an abstract clock that strictly
  increases on every insert.
- `tools.py`, modelled in `tools.dfy` (`Tools`): both tools, the reminder
  tool both as written and as intended (see Findings).
- `chat.py`, modelled in `chat.dfy` (`Chat`):
  - the two tools, with `dateparser.parse` given as a function parameter
  - class `ChatHistory`, the in-memory message history
  - the turn of `chat_with_bot`, with the language model given as a
    function parameter
- `prompts.py`, modelled in `prompts.dfy` (`Prompts`): the memory text of
  the agent prompt.
- `back-end/main.py`, modelled in `api.dfy` (`Api`): class `ApiDb` with
  the memory and user endpoints.

Behaviour of the code worth noting:

- A failed chat turn leaves the user turn in the history without an
  assistant turn.
- The rendered history is never truncated.
- Deleting an absent memory succeeds silently.
- `importance` is any 32-bit integer (a Postgres `INTEGER`), not only 1
  to 5. The model stores any integer; a value outside that range would
  make the database raise, which the model does not capture (see the
  first line under "Left out").
- The ten-memory bound of the chat prompt limits entries, not lines.
  Titles and contents are stripped only at their ends (and not at all in
  prompts.py), so a memory whose text holds an inner newline spans
  several lines of the prompt. A multi-line chat message likewise spans
  several lines of the rendered history.
- A memory's `content` may be `None` through the API.

## Model

| member | source | states |
|---|---|---|
| Basics.LastReversed | db.py:49 | the result has min(n, len) rows and row i is the i-th from the end, the shape of `ORDER BY <insertion time> DESC LIMIT n` |
| Basics.ReversedPermutation | back-end/main.py:71 | listing every row newest first returns the same multiset of rows |
| PyStr.Strip | tools.py:16-18 | `strip()` returns a string with no whitespace at either end |
| PyStr.StripSurrounds | tools.py:17 | the stripped string sits inside the input with only whitespace before and after it |
| PyStr.StripUnique | tools.py:17 | any trimmed string that the input surrounds with whitespace alone, at any offset, equals the strip; with StripSurrounds this characterises `strip()` completely |
| PyStr.StripIdempotent | chat.py:35 | stripping twice is stripping once |
| PyStr.StripTrimmed | chat.py:35 | a string with no whitespace at either end is its own strip |
| PyStr.StripAppendSpace | tools.py:16-18 | a whitespace character appended to a string does not change its strip |
| PyStr.StripPrependSpace | tools.py:16-18 | a whitespace character prepended to a string does not change its strip |
| PyStr.StripKeepsOut | chat.py:56 | a character absent from a string is absent from its strip |
| PyStr.Take | tools.py:9 | `s[:n]` has min(n, len s) characters and is a prefix of `s` |
| PyStr.IndexOf | tools.py:16 | the index found holds the character and no earlier index does |
| PyStr.Count | tools.py:16 | `s.count(c)` is zero exactly when `c` does not occur, and never more than `len(s)` |
| PyStr.Join | chat.py:49-52 | `sep.join(parts)` is empty only when there is nothing to join, is the piece itself for one piece, and contains the separator for two or more pieces |
| PyStr.Split | tools.py:16 | `split` yields at least one piece and no piece contains the separator |
| PyStr.SplitCount | tools.py:16 | `split` yields exactly one more piece than there are separators |
| PyStr.JoinSplit | tools.py:16 | joining the pieces of a split gives back the original text |
| PyStr.SplitJoin | chat.py:49-52 | splitting a join of separator-free pieces gives back the pieces |
| PyStr.JoinLength | chat.py:49-52 | a join of n separator-free pieces contains exactly n - 1 separators |
| PyStr.JoinSnoc | chat.py:49-52 | joining one more piece appends a separator and that piece |
| PyStr.JoinHead | prompts.py:6 | a join begins with its first piece |
| DateTimes.KeyIsChronological | db.py:57 | for valid datetimes, comparing keys is comparing year, month, day, hour, minute and second in that order |
| DateTimes.Pad2 | tools.py:19 | a two-digit field is two digits that read back as the number |
| DateTimes.Pad4 | tools.py:19 | a four-digit field is four digits that read back as the number |
| DateTimes.FormatMinutes | chat.py:36 | `strftime('%Y-%m-%d %H:%M')` is 16 characters |
| DateTimes.FormatSeconds | tools.py:19 | `str(datetime)` is 19 characters and begins with the minute form |
| DateTimes.ParseMinutes | tools.py:17 | a successful `strptime(.., '%Y-%m-%d %H:%M')` always gives a whole minute (second 0), since the format has no seconds field |
| DateTimes.TimeErrorMessage | tools.py:20-21 | the `ValueError` text of each refusal: its first letter tells the cases apart, and the offending text can be read back from it |
| DateTimes.TimeErrorMessageInjective | tools.py:20-21 | two different refusals never print the same message |
| DateTimes.ParseFormat | tools.py:17 | formatting a whole-minute datetime and parsing it back gives the same datetime |
| DateTimes.FormatParse | tools.py:17 | a text the parser accepts is exactly the formatted value, so each instant has one accepted spelling |
| Db.TagsOrEmpty | db.py:45 | `tags or []`: absent tags are stored as the empty list, given tags as they are |
| Db.Recall | db.py:48-50 | `get_memories` returns min(limit, count) pairs, pair i being the title and content of the i-th newest row |
| Db.LastReversedIsNewestWindow | db.py:49 | on a table inserted in clock order, the last rows reversed are what `ORDER BY timestamp DESC LIMIT n` must return: every row is from the table, they are newest first, and no row left out is newer than one taken |
| Db.SortedAllPairs | db.py:57 | in a list sorted by `remind_at`, every earlier reminder is due no later than every later one |
| Db.Insert | db.py:57 | inserting into a sorted list keeps it sorted and adds exactly that element |
| Db.SortByRemindAt | db.py:57 | `ORDER BY remind_at ASC` returns a sorted permutation of the rows |
| Db.Store.constructor | db.py:16-39 | the tables start empty |
| Db.Store.SaveMemory | db.py:41-46 | exactly one row is appended: type "thought", the given title and content, `tags or []`, importance default 1, memory_time default None, a fresh id and the current time; the reminders are unchanged and the store stays valid |
| Db.Store.GetMemories | db.py:48-50 | read-only; min(limit, count) (title, content) pairs, newest first |
| Db.Store.AddReminder | db.py:52-54 | exactly one reminder is appended, with the given task and time and completed false; the memories are unchanged |
| Db.Store.GetReminders | db.py:56-58 | read-only; every reminder, completed ones included, sorted by `remind_at`, as a permutation of the table |
| Tools.Title | tools.py:9 | the title is a prefix of the input, min(50, len) characters long, and the whole input when that is at most 50 characters |
| Tools.MemoryTool | tools.py:7-11 | always appends exactly one memory, whose content is the whole input and whose title is its first 50 characters, and replies with that title; the reminders are unchanged |
| Tools.MemoryReply | tools.py:11 | the reply is "Saved to memory with title: '" followed by the title, readable back from its position, and a closing quote |
| Tools.SplitTaskAndTime | tools.py:16 | unpacking succeeds exactly when the text has one `\|`; the two sides then rebuild the text; otherwise the error is Python's "not enough values" or "too many values" message |
| Tools.PlanReminderAsWritten | tools.py:17 | as written, every input is refused; with one `\|` the reply is the AttributeError of `datetime.strptime` |
| Tools.ReminderToolAsWritten | tools.py:13-21 | as written, the tool never writes, and its reply is the refusal |
| Tools.PlanReminder | tools.py:15-21 | a reminder is planned exactly when the split and the parse of the stripped time succeed; its task is the stripped left side and its time is exactly the parse of the stripped right side, a whole minute that formats back to that text; the reply shows `str(remind_at)`; every refusal starts with "Failed to set reminder: " |
| Tools.DocumentedInputIsScheduled | tools.py:14 | every input of the documented shape `"<task> \| <YYYY-MM-DD HH:MM>"` is scheduled with the stripped task at exactly that minute |
| Tools.DescribedExampleRefusedAsWritten | tools.py:14 | the tool's own example input is refused as written, and the intended parse schedules it for 2025-08-02 15:30 |
| Tools.ReminderTool | tools.py:13-21 | a reminder row is appended exactly when the plan schedules one, so nothing is written on any failure; the memories are unchanged |
| Chat.MemoryTool | chat.py:24-27 | the same as Tools.MemoryTool: one memory with the whole input and a 50-character title |
| Chat.PlanChatReminder | chat.py:29-38 | a reminder is planned exactly when the split succeeds and the date parser finds a date; a failed split gives "Failed to set reminder: " with the error; no date gives the fixed "Failed to parse date" reply; the reply shows the time as `YYYY-MM-DD HH:MM` |
| Chat.ToMinute | chat.py:36 | dropping the seconds gives the start of the same minute |
| Chat.ChatReplyTimeReadsBack | chat.py:36 | the time printed in a scheduling reply parses back, with the fixed format, to the stored instant truncated to the minute |
| Chat.ChatAgreesWithFixedFormat | chat.py:32 | with the fixed-format parser in place of `dateparser`, the chat tool schedules exactly what the tools.py tool schedules |
| Chat.ReminderTool | chat.py:29-38 | one reminder is appended exactly when the plan schedules one; otherwise nothing is written; the memories are unchanged |
| Chat.ChatHistory.constructor | chat.py:40 | the history starts empty |
| Chat.ChatHistory.AddUserMessage | chat.py:46 | appends one human message and nothing else |
| Chat.ChatHistory.AddMessage | chat.py:97 | appends the given message and nothing else |
| Chat.Line | chat.py:50 | a line of the rendered history has no newline when its message has none |
| Chat.Speaker | chat.py:50 | the speaker is "User" exactly for human messages, and contains neither a colon nor a newline |
| Chat.RenderHistory | chat.py:49-52 | the rendered history is empty exactly when there are no messages |
| Chat.RenderHistoryOldestFirst | chat.py:49-52 | the rendered history starts with the oldest message's line |
| Chat.RenderedHistoryEndsWithUser | chat.py:46-52 | the rendering of the history after the user turn is the previous rendering, a newline, then "User: <message>" |
| Chat.TurnPromptEndsWithMessage | chat.py:46-52 | the history sent to the model always ends with the line "User: <message>" |
| Chat.HistoryNotTruncated | chat.py:49-52 | when no message contains a newline, splitting the rendered history at newlines gives one line per message, in order, and nothing is dropped |
| Chat.MemoryEntry | chat.py:56 | an entry is "- ", the stripped title, ": " and the stripped content, each readable back from its position |
| Chat.RenderMemoryBlock | chat.py:56 | the memory block is empty exactly when there is no memory, and starts with the first item's entry |
| Chat.EntryIsSingleLine | chat.py:56 | a memory entry has no newline when its title and content have none |
| Chat.MemoryBlockLines | chat.py:56 | when no title or content contains a newline, the memory block has one line per memory, in order, each "- <stripped title>: <stripped content>" |
| Chat.MemoryBlockAtMostTen | chat.py:55-56 | when no title or content contains a newline, the memory block has at most ten lines |
| Chat.MemoryBlockNewestFirst | chat.py:55-56 | entry i of the memory block is the i-th newest memory |
| Chat.TurnInputs | chat.py:46-56 | the prompt's user message is the message itself; its history is the previous rendering, a newline, then "User: <message>"; its memory block is empty exactly when there is no memory, starts with the newest memory's entry, and has at most ten lines when no title or content contains a newline |
| Chat.ChatWithBot | chat.py:42-103 | the model sees the memory block of the ten newest memories and the whole history including the new user turn; a reply adds the user turn then the assistant turn and is returned as `bot_response`; a failure leaves only the user turn and is returned as `error`; the store is only read |
| Prompts.MemoryLine | prompts.py:6 | a line is the title, ": ", then the content, neither stripped nor prefixed |
| Prompts.RenderMemories | prompts.py:6 | the memory text starts with the first item's line |
| Prompts.GetMemoryText | prompts.py:4-6 | read-only; the text renders the default ten newest memories |
| Prompts.EmptyExactlyWithoutMemories | prompts.py:6 | the text is empty exactly when there are no memories |
| Prompts.LineIsSingle | prompts.py:6 | a line has no newline when its title and content have none |
| Prompts.LinesReadBack | prompts.py:6 | when no title or content contains a newline, splitting the text at newlines gives back one line per memory in order, so there is no trailing newline |
| Prompts.MemoryTextNewestFirst | prompts.py:5 | when no title or content contains a newline, the text has min(10, count) lines, line i being the i-th newest memory |
| Api.OrDefault | back-end/main.py:21-30 | a field left out of the body takes its default and a field that is sent keeps its value |
| Api.FromBody | back-end/main.py:17-30 | validating a body gives each left-out field its model default (tags [], importance 1, completed false, priority 1, None otherwise) and keeps each sent field, even null |
| Api.FindMemory | back-end/main.py:80 | finds a row with the identifier exactly when one exists |
| Api.UpdateRows | back-end/main.py:108-117 | every row with the identifier gets all fields from the request and `updated_at` now, keeping id, username and timestamp; every other row is unchanged |
| Api.UpdateKeepsIdentity | back-end/main.py:108-117 | an update never changes a row's identifier, owner or creation time |
| Api.UpdateAbsentIsNoOp | back-end/main.py:108-118 | an update of an absent identifier changes nothing |
| Api.UpdateResetsOmittedFields | back-end/main.py:110-117 | every field a client leaves out of an update is reset to the model default, whatever the row held |
| Api.RemoveId | back-end/main.py:126 | a delete keeps exactly the rows with other identifiers |
| Api.DeleteIdempotent | back-end/main.py:126-127 | deleting twice is deleting once |
| Api.DeleteAbsentIsNoOp | back-end/main.py:126-127 | deleting an absent identifier changes nothing |
| Api.RemoveKeepsOrder | back-end/main.py:126 | the rows left by a delete are still in identifier and timestamp order |
| Api.Upsert | back-end/main.py:55-62 | after an upsert the user is present; every other row is an earlier row with a different username; no row with another username is lost |
| Api.UpsertKeepsDistinct | back-end/main.py:55-62 | an upsert never creates a second row with the same username |
| Api.UpsertIdempotent | back-end/main.py:55-62 | sending the same user twice is sending it once |
| Api.ViewOf | back-end/main.py:40-44 | a reported user keeps username and name; its face_embedding is None exactly when the stored one is empty |
| Api.ApiDb.constructor | back-end/db_connect.py:16-48 | the tables start empty |
| Api.ApiDb.GetUsers | back-end/main.py:33-49 | read-only; one view per stored user |
| Api.ApiDb.AddUser | back-end/main.py:51-64 | the users table becomes the upsert of the user and keeps distinct usernames; the memories are unchanged; status "success" |
| Api.ApiDb.GetAllMemories | back-end/main.py:67-74 | read-only; every row, as a permutation of the table, in strictly decreasing timestamp order |
| Api.ApiDb.GetMemory | back-end/main.py:76-85 | read-only; success exactly when a row has the identifier, and then it is that row; otherwise 404 "Memory not found" |
| Api.ApiDb.AddMemory | back-end/main.py:87-102 | exactly one row is appended with a fresh identifier (the request's `memory_id` is not used), the request's owner and fields, and the current time as timestamp and updated_at; status "success" |
| Api.ApiDb.UpdateMemory | back-end/main.py:104-120 | the rows become the update of the identifier at the current time; status "success" even when nothing matched |
| Api.ApiDb.DeleteMemory | back-end/main.py:122-129 | the rows become those with other identifiers; status "deleted" either way |

## Left out

- I/O and the database driver are not modelled. This covers the
  psycopg2 and asyncpg connections, commits, connection errors and the
  DDL of `setup_tables` and back-end/db_connect.py; an exception from the
  database never occurs in the model. This includes the one raised for an
  `importance` or `priority` outside the 32-bit range of an `INTEGER`
  column (db.py:24, back-end/db_connect.py:34, 42).
- The identifiers and clocks are abstract. `gen_random_uuid()` is a
  counter of fresh natural numbers, and `CURRENT_TIMESTAMP` is a natural
  number that increases on every write, so no two rows share a timestamp.
- The language model (`ChatNVIDIA`, `chain.invoke`) and `dateparser.parse`
  are foreign code. They are function parameters of `Chat.ChatWithBot`
  and `Chat.PlanChatReminder`.
- Chat.ChatWithBot: only the model call fails. An exception raised by the
  history, by `get_memories` or while rendering is not modelled. The
  `print` of the error is left out, and the prompt template's fixed text
  (chat.py:60-81) is represented only by its three inputs. A model result
  that is not a `BaseMessage` is taken as its string form.
- Chat.PlanChatReminder: a `dateparser` that raises is not modelled. The
  parser's result is a naive datetime without microseconds or time zone.
- DateTimes.ParseMinutes: accepts only the 16-character zero-padded form.
  Python's `strptime` also accepts one-digit months, days, hours and
  minutes, Unicode decimal digits (full-width or Arabic-Indic ones, which
  Python's `\d` matches and `int()` reads), and any run of whitespace
  for the space. Its unconverted-data reading can also differ when a shorter field matches (for example
  "15:60" reads as minute 6 with "0" left over). The model reports those
  texts as not matching.
- Tools.SplitTaskAndTime: gives the `ValueError` texts of CPython 3.12
  (the same up to 3.13). CPython 3.14 appends ", got N" to "too many
  values to unpack (expected 2)".
- DateTimes.TimeErrorMessage: quotes the text in single quotes. Python
  uses `repr`, which also escapes quotes, backslashes and unprintable
  characters.
- DateTimes.FormatMinutes: pads years below 1000 to four digits, as
  `str(datetime)` does. glibc's `strftime('%Y')` prints them without
  padding.
- Db.Store.GetMemories: `limit` is a natural number. A negative LIMIT is
  rejected by Postgres, and `LIMIT NULL` means no limit; neither is
  modelled.
- Api.ApiDb.GetUsers: returns the users in table order. The SQL has no
  ORDER BY, so Postgres promises no order.
- Api.ApiDb: the endpoints are modelled as their statements intend, not
  as the schema of back-end/db_connect.py would let them run.
  - On `memory`, the endpoints write `username` and `embedding` columns
    that the schema lacks (it has `embedding_id`).
  - On `user_details`, the endpoints read and write `username` and
    `face_embedding` (back-end/main.py:37, 56). The schema
    (back-end/db_connect.py:18-21) has only `name TEXT PRIMARY KEY` and
    `embedding_path`.
  - The schema has no unique key on `username`, which
    `ON CONFLICT (username)` (back-end/main.py:58) requires.
  - Postgres would refuse these statements. `Api.Upsert` and
    `DistinctUsernames`, with the username as the unique key, are the
    intended meaning, not what that schema gives.
- Request validation by pydantic (HTTP 422 for a malformed body) is not
  modelled, and the request is taken as already typed. Floating-point
  embeddings are sequences of reals.
- agent.py is wiring only; the `load_chat_history` it imports is defined
  nowhere, and there is no conversation-log table.
- The user interfaces are not modelled: the front end, static/js,
  gradio_app.py, main.py's Redis ping and the WebRTC placeholder in
  back-end/main.py.
- The system prompt template of prompts.py:8-29 is constant text and is
  not modelled.
- The repository contains no command parser (`/remember`, `/list`,
  `/update`, `/delete`) and no `#tag` or `importance=N` extraction, so
  none is modelled.
- Concurrency is not modelled. Each call runs alone, as one process-wide
  connection and history imply.

## Findings

| source | as written | input that shows it | evidently intended | confidence | as-written member | corrected member |
|---|---|---|---|---|---|---|
| tools.py:2 | `import datetime` binds the module, and tools.py:17 calls `datetime.strptime`. Every input that passes the split raises AttributeError "module 'datetime' has no attribute 'strptime'", so `reminder_tool` never stores a reminder | the tool's own example at tools.py:14, "task to do" and "2025-08-02 15:30" around a bar (Tools.DescribedExampleRefusedAsWritten) | `from datetime import datetime`, so that the time is parsed with `datetime.datetime.strptime` | high; not executed | Tools.PlanReminderAsWritten | Tools.PlanReminder |
