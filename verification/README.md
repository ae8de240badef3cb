# Log appender row derivation and batching queue, in Dafny

This project models the core of two logback appenders that write log events to a database table:

- `LogbackBatchDbAppender` queues events and lets a background writer insert them in batches.
- `LogbackDbAppender` inserts one row per event, synchronously.

The two classes' pure helpers behave identically. One Dafny definition serves both.

What is modelled:

- **Row derivation** (`Rows`, built on `Message`, `StackTrace` and `MessageNum`):
  - the message is cut to 255 characters;
  - the message key is taken from the cut message (`getMessageKey` / `findMessageKeyIndex`);
  - the error column is the stack trace of at most four cause levels, capped at 10000 characters (`buildStackTrace`);
  - a missing or empty caller-data array gives "unknown"/"unknown"/0;
  - the rolling message number comes from `nextMessageNum`.
- **Batching appender protocol** (`EventQueue`, `Appenders`):
  - the self-exclusion filter of `append`;
  - the bounded FIFO whose `push` drops events when the queue is full;
  - `pop`, which swaps out the whole queue;
  - the writer's per-batch row derivation.
  All of this is a sequential state machine. Traces of pushes and pops are related to the events that were accepted.
- **Start-up** (`Appenders`): the data source, table name and service checks, in that order. Host and build lookups are parameters, with their fallbacks.

Files:

- `wrappers.dfy`: `Option` (Java `null`) and `Result` (an exception).
- `strings.dfy`: prefixes, `String.indexOf`, and decimal rendering.
- `message.dfy`, `stacktrace.dfy`, `messagenum.dfy`, `rows.dfy`: the shared row-derivation helpers.
- `eventqueue.dfy`, `appenders.dfy`: the queue and the two appenders.

Facts about the code that shape the model:

- `buildStackTrace` renders levels 1 to 4 (`level < 5`).
- The counter starts at 0. It is incremented, and goes back to 1 once it passes the maximum.
- The counter belongs to the appender instance and is never reset by the date.

## Model

| member | source | states |
|---|---|---|
| `Message.TruncateMessage` | src/main/java/com/liftck/util/logging/LogbackBatchDbAppender.java:220-224 | the stored message is exactly the first min(L, 255) characters of the event message (same code at LogbackDbAppender.java:152-156) |
| `Message.FindMessageKeyIndex` | src/main/java/com/liftck/util/logging/LogbackBatchDbAppender.java:379-389 | the key end only moves back, and only to the FIRST occurrence index of the delimiter, and only when that index is past the minimum of 4 |
| `Message.KeyEnd` | src/main/java/com/liftck/util/logging/LogbackBatchDbAppender.java:359-366 | the chained calls never raise the end and leave it either at the cut length or past index 4 |
| `Message.GetMessageKey` | src/main/java/com/liftck/util/logging/LogbackBatchDbAppender.java:348-377 | the key is a prefix of the message of at most min(L, 100) characters |
| `Message.MessageKey` | src/main/java/com/liftck/util/logging/LogbackDbAppender.java:290-320 | null gives null, "" gives "", and any other message gives a prefix of at most 100 characters |
| `Message.KeyEndIsMinimum` | src/main/java/com/liftck/util/logging/LogbackBatchDbAppender.java:359-366 | for any delimiter list, the chain of `findMessageKeyIndex` calls returns the least of the start and the first-occurrence index of every delimiter whose first occurrence is past 4 |
| `Message.KeyEndUnique` | src/main/java/com/liftck/util/logging/LogbackBatchDbAppender.java:359-366 | that least value is unique for a given set of delimiters |
| `Message.DelimiterOrderIrrelevant` | src/main/java/com/liftck/util/logging/LogbackBatchDbAppender.java:360-366 | trying the seven delimiters in any order, with repeats or not, yields the same key end |
| `Message.KeyIsCutAtKeyEnd` | src/main/java/com/liftck/util/logging/LogbackBatchDbAppender.java:354-375 | the key is the first min(L, 100) characters, cut at the end the delimiter chain settles on |
| `Message.KeyCharacterization` | src/main/java/com/liftck/util/logging/LogbackDbAppender.java:302-319 | the key length is the minimum of the cut length and every qualifying first-occurrence index; the key is a prefix of the cut message |
| `Message.KeyNeverTooShort` | src/main/java/com/liftck/util/logging/LogbackBatchDbAppender.java:368-375 | the key is the whole cut message or longer than 4 characters |
| `Message.KeyWithoutDelimiter` | src/main/java/com/liftck/util/logging/LogbackBatchDbAppender.java:354-359 | with no qualifying delimiter, the key is the first 100 characters (the whole message when it is shorter) |
| `Message.SingleQualifyingDelimiter` | src/main/java/com/liftck/util/logging/LogbackBatchDbAppender.java:359-375 | when exactly one delimiter's first occurrence lies past index 4, the key is the cut message up to that occurrence |
| `Message.OnlyOneCanQualify` | src/main/java/com/liftck/util/logging/LogbackDbAppender.java:303-309 | when no character of the message is the first character of any delimiter other than one, no other delimiter can end the key |
| `Message.LaterOccurrenceIgnored` | src/main/java/com/liftck/util/logging/LogbackDbAppender.java:322-331 | "ab-cdefgh-ij" has a "-" at index 9, yet its key is the whole message, because only the first "-", at index 2, is looked at |
| `Message.LaterOccurrenceCountsAlone` | src/main/java/com/liftck/util/logging/LogbackDbAppender.java:322-331 | without the early "-", the "-" at index 9 ends the key: "ab_cdefgh" |
| `Message.KeyExample` | src/main/java/com/liftck/util/logging/LogbackBatchDbAppender.java:348-377 | "Error: something broke" gives "Error"; "short" gives "short" |
| `Strings.IndexOf` | src/main/java/com/liftck/util/logging/LogbackBatchDbAppender.java:382 | `indexOf` returns the least index where the delimiter occurs, or -1 exactly when it occurs nowhere |
| `Strings.IndexOfAbsent` | src/main/java/com/liftck/util/logging/LogbackBatchDbAppender.java:382 | a delimiter whose first character is missing from the message is not found |
| `Strings.IndexOfAt` | src/main/java/com/liftck/util/logging/LogbackBatchDbAppender.java:382 | a delimiter found at k, with its first character absent before k, is found at k |
| `Strings.NatToStringRoundTrip` | src/main/java/com/liftck/util/logging/LogbackBatchDbAppender.java:432 | the count written into the "lines omitted" line reads back as the number of hidden frames |
| `StackTrace.AppendFrames` | src/main/java/com/liftck/util/logging/LogbackBatchDbAppender.java:422-436 | the frame loop with its `break`, entered with every frame outstanding, appends one tab-indented line for each of the first min(n, limit) frames, then a "\t... N lines omitted \n" line with N = n - limit, present exactly when n > limit |
| `StackTrace.AppendLevel` | src/main/java/com/liftck/util/logging/LogbackBatchDbAppender.java:409-436 | the header appends plus the frame loop append exactly that level's block |
| `StackTrace.RenderStep` | src/main/java/com/liftck/util/logging/LogbackBatchDbAppender.java:407-441 | below level 5, a level's rendering is its block followed by the cause's rendering one level down |
| `StackTrace.BuildStackTrace` | src/main/java/com/liftck/util/logging/LogbackBatchDbAppender.java:401-450 | the StringBuilder-threading recursion, which cuts to 10000 at every level, ends with exactly the first min(n, 10000) characters of the builder's initial text followed by the uncut rendering |
| `StackTrace.RenderIsFirstFourLevels` | src/main/java/com/liftck/util/logging/LogbackDbAppender.java:239-274 | the rendering is the blocks of the first min(chain length, 4) throwables of the cause chain, in chain order; "Caused by: " prefixes every level after the first; the frame limit is 2 where a cause follows and 12 otherwise |
| `StackTrace.StackTraceOf` | src/main/java/com/liftck/util/logging/LogbackBatchDbAppender.java:226-231 | the error column is "" exactly when there is no throwable, is at most 10000 characters, and is the cut rendering from level 1 |
| `MessageNum.OverflowAtIntMax` | src/main/java/com/liftck/util/logging/LogbackBatchDbAppender.java:391-399 | as written, with maxMessagesPerDay = 2147483647, the call after 2147483647 returns -2147483648 |
| `MessageNum.Next` | src/main/java/com/liftck/util/logging/LogbackBatchDbAppender.java:391-399 | starting in [0, max] with max >= 1, the number handed out is in [1, max]; with max < 1 it is 1; it stays a Java int |
| `MessageNum.NextAgreesBelowIntMax` | src/main/java/com/liftck/util/logging/LogbackDbAppender.java:123-131 | for every int counter below Integer.MAX_VALUE, the overflow-free counter equals the Java one |
| `MessageNum.AdvanceAfterNext` | src/main/java/com/liftck/util/logging/LogbackBatchDbAppender.java:391-399 | one call followed by k more calls is the same as k + 1 calls |
| `MessageNum.AdvanceInRange` | src/main/java/com/liftck/util/logging/LogbackBatchDbAppender.java:391-399 | a counter that starts within [0, max] stays within it after any number of calls, and after at least one call it lies in [1, max] |
| `MessageNum.AdvanceAllInRange` | src/main/java/com/liftck/util/logging/LogbackBatchDbAppender.java:391-399 | from a counter within [0, max], every number handed out by the first n calls lies in [1, max] |
| `MessageNum.AdvanceFromZero` | src/main/java/com/liftck/util/logging/LogbackBatchDbAppender.java:391-399 | from the initial 0, the k-th call hands out (k - 1) mod max + 1, that is 1, 2, ..., max, 1, 2, ... |
| `MessageNum.WrapExample` | src/main/java/com/liftck/util/logging/LogbackDbAppender.java:123-131 | with max = 3, five calls hand out 1, 2, 3, 1, 2 |
| `MessageNum.NonPositiveMaxAlwaysOne` | src/main/java/com/liftck/util/logging/LogbackBatchDbAppender.java:393-397 | with maxMessagesPerDay below 1, every call hands out 1 |
| `EventQueue.Empty` | src/main/java/com/liftck/util/logging/LogbackBatchDbAppender.java:145-147 | `init` starts with an empty queue |
| `EventQueue.Push` | src/main/java/com/liftck/util/logging/LogbackBatchDbAppender.java:279-290 | a queue holding `maxQueue` or more events is left unchanged (the event is dropped); otherwise the event is appended at the back and nothing else changes; the capacity bound max(0, maxQueue) is preserved |
| `EventQueue.Pop` | src/main/java/com/liftck/util/logging/LogbackBatchDbAppender.java:292-309 | on a non-empty queue, the batch is the whole queue in arrival order and the queue left behind is empty |
| `EventQueue.Apply` | src/main/java/com/liftck/util/logging/LogbackBatchDbAppender.java:279-309 | an offered event is dropped exactly when the queue is full, and is otherwise accepted; a drain either takes a batch or waits |
| `EventQueue.RunConservesEvents` | src/main/java/com/liftck/util/logging/LogbackBatchDbAppender.java:279-308 | over any interleaving of pushes and pops, the popped batches concatenated, followed by what is still queued, equal the initial queue followed by the accepted events: nothing is lost, duplicated or reordered |
| `EventQueue.RunStaysBounded` | src/main/java/com/liftck/util/logging/LogbackBatchDbAppender.java:281-287 | the queue never holds more than max(0, maxQueue) events |
| `EventQueue.OffersFillThenDrop` | src/main/java/com/liftck/util/logging/LogbackBatchDbAppender.java:281-287 | with the writer paused, offering n + K events to an empty queue of capacity n keeps the first n and counts exactly K drops |
| `Rows.ResolveCaller` | src/main/java/com/liftck/util/logging/LogbackBatchDbAppender.java:233-242 | null or empty caller data gives "unknown"/"unknown"/0; otherwise the first element's class, method and line |
| `Rows.RowOf` | src/main/java/com/liftck/util/logging/LogbackBatchDbAppender.java:213-277 | a row's message is the cut message; its key is computed from that cut message and is a prefix of the original of at most 100 characters; the error column is "" exactly without a throwable, and otherwise the level-1 rendering cut to 10000 characters; the level code and name, the service, build version, machine and address, the caller columns, the logger name and the timestamps come from the event and the start-up identity |
| `Rows.DeriveRow` | src/main/java/com/liftck/util/logging/LogbackDbAppender.java:148-207 | a null message fails (the `msg.length()` call throws); otherwise the row is derived with the next rolling number, which lies in [1, max] |
| `Rows.KeyUnaffectedByTruncation` | src/main/java/com/liftck/util/logging/LogbackBatchDbAppender.java:220-264 | the key of the cut message equals the key of the original message |
| `Rows.FirstNullMessageIsFirst` | src/main/java/com/liftck/util/logging/LogbackBatchDbAppender.java:175-182 | `FirstNullMessage` is the position of the first event whose message is null (the batch length when there is none): every earlier event has a message, and the event there has none |
| `Rows.BatchToRows` | src/main/java/com/liftck/util/logging/LogbackBatchDbAppender.java:175-182 | the `populateStatement` loop yields rows exactly when every event has a message; there is then one row per event; either way the counter has moved once for each event before the first null message (`FirstNullMessage`), and started within [0, max] it stays there |
| `Rows.BatchRowsInArrivalOrder` | src/main/java/com/liftck/util/logging/LogbackBatchDbAppender.java:175-182 | a drained batch yields rows exactly when every event has a message; row i is event i's row with the (i+1)-th counter value; the counter moves once per event |
| `Appenders.Configure` | src/main/java/com/liftck/util/logging/LogbackBatchDbAppender.java:44-48 | unset numeric properties default to maxMessagesPerDay = 1000 and maxQueue = 10000 |
| `Appenders.CheckSettings` | src/main/java/com/liftck/util/logging/LogbackBatchDbAppender.java:67-78 | start-up fails on a missing data source first, then a missing table name, then a missing service; it passes exactly when all three are set |
| `Appenders.ResolveIdentity` | src/main/java/com/liftck/util/logging/LogbackBatchDbAppender.java:80-93 | the build version falls back to "unknown" when build-info cannot be read, and is the property value otherwise (possibly null); the host falls back to "unknown"/"0.0.0.0" (`loadBuildInfo` is at lines 315-328) |
| `Appenders.StartBatch` | src/main/java/com/liftck/util/logging/LogbackBatchDbAppender.java:65-98 | start fails exactly with the first missing property; on success it keeps the given settings and has an empty queue of the configured capacity and a counter at 0 |
| `Appenders.Append` | src/main/java/com/liftck/util/logging/LogbackBatchDbAppender.java:130-143 | an event from the writer thread or from the appender's own logger leaves the appender unchanged; every other event is handed to `push` |
| `Appenders.Admitted` | src/main/java/com/liftck/util/logging/LogbackBatchDbAppender.java:133-140 | an event is let through exactly when it is not from the writer thread and not from the appender's own logger; no more events come out than went in |
| `Appenders.AdmittedKeepsOrder` | src/main/java/com/liftck/util/logging/LogbackBatchDbAppender.java:130-143 | the filter keeps the events' order: the admitted events of a concatenation are those of each part, one after the other |
| `Appenders.AppendAllOffersAdmitted` | src/main/java/com/liftck/util/logging/LogbackBatchDbAppender.java:130-143 | appending a sequence of events acts on the queue exactly as offering the non-self-originated ones, in order |
| `Appenders.AppendAll` | src/main/java/com/liftck/util/logging/LogbackBatchDbAppender.java:130-143 | repeated `append` never touches the counter, the identity or the settings; the queue keeps its capacity bound, and no self-originated event ever enters it |
| `Appenders.DrainAndDerive` | src/main/java/com/liftck/util/logging/LogbackBatchDbAppender.java:169-185 | the writer takes the whole queue and leaves it empty; rows exist exactly when no message is null; then there is one row per event, in arrival order, row i is event i's row numbered by the (i+1)-th counter value, each message cut to 255 characters, and the counter advances once per event; whether or not rows exist, the counter ends advanced once for each event before the first null message, and from a counter within [0, max] it stays within [0, max] and every row number lies in [1, max] |
| `Appenders.StartDirect` | src/main/java/com/liftck/util/logging/LogbackDbAppender.java:52-84 | the same start-up checks in the same order; on success it keeps the given settings and the counter is at 0 |
| `Appenders.DirectAppend` | src/main/java/com/liftck/util/logging/LogbackDbAppender.java:133-231 | no self-exclusion; an event with a message yields its row and advances the counter once; a null message loses the event and changes nothing |

## Left out

- JDBC writing is not modelled: `insertEvents`' connection, `prepareStatement`, `addBatch`, `executeBatch`, `commit` and close calls, the direct appender's per-event insert, and `DBHelper`. This is database I/O, and batch atomicity depends on transaction semantics the code does not show. Only the rows a batch would bind are modelled. Note that on the success path the batching writer closes the statement but not the connection (LogbackBatchDbAppender.java:202).
- The writer's re-drain while the connection is open (LogbackBatchDbAppender.java:187-199) is not modelled as such. Each drain is one `DrainAndDerive` step.
- Threads are not modelled: `wait`/`notifyAll`, the writer thread, `interrupt` and `stop()`. `pop` is modelled only on a non-empty queue, and a drain step on an empty queue waits without changing anything.
- The `dayId` and `dayKey` columns are not modelled. They come from `SimpleDateFormat` and `Calendar`, which depend on the default time zone.
- Host and build-info lookups are not performed. They are the `Environment` parameter, and only the fallbacks are modelled.
- `buildInsertSql` and `getExampleUsage` are not modelled. They only build constant text.
- `Level.toInt`, `Level.toString` and `StackTraceElementProxy.toString` are foreign calls. They are taken as given values (`Level`, frame strings).
- Warnings on dropped events or failed batches are not modelled. They go to `log.warn` or `System.out`.
- A null thread name in `append` (a `NullPointerException`) and a null logger name are not modelled. Both names are plain strings here.
- A cyclic cause chain cannot be built from the datatype. The Java level bound is what stops such a chain there.
- Appenders.DrainAndDerive: numbers the events of a drained batch up to the first null message, as the source's loop does. It does not model a failure of `getConnection`, `setAutoCommit` or `prepareStatement` after `pop` (LogbackBatchDbAppender.java:169-173); in that case the source throws the batch away before any row is bound and the counter does not move.
- Appenders.DirectAppend: advances the counter whenever the message is non-null. It does not model a null connection or a JDBC failure before the number is drawn; in those cases the source skips the row without advancing the counter.
- Java strings are sequences of UTF-16 code units. A `char` here stands for one code unit.

## Findings

| source | as written | input that shows it | evidently intended | confidence | as-written member | corrected member |
|---|---|---|---|---|---|---|
| src/main/java/com/liftck/util/logging/LogbackBatchDbAppender.java:391-399 | `messageNum++` on a Java `int`, then reset to 1 only when the result is greater than `maxMessagesPerDay` | `maxMessagesPerDay = 2147483647`: after 2147483647 calls the increment overflows to -2147483648, which is not greater than the maximum, so a negative number is handed out (same code at LogbackDbAppender.java:123-131) | wrap back to 1 once the maximum has been handed out, so the number stays in [1, max] | not executed; the overflow follows from Java `int` arithmetic, and the input needs 2^31 rows from one appender | `MessageNum.OverflowAtIntMax` | `MessageNum.Next` |
