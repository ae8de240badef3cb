/** The row both appenders derive from a logging event (`populateStatement`
    in the batching appender, the body of `append` in the direct one):
    message truncation, message key, stack trace, caller defaults and the
    rolling number.  The day columns are not part of this model. */
module Rows {
  import opened Wrappers
  import opened Strings
  import opened Message
  import opened StackTrace
  import opened MessageNum

  /** `Level.toInt()` and `Level.toString()`, taken as given. */
  datatype Level = Level(code: int, name: string)

  /** One element of the event's caller data. */
  datatype CallerFrame = CallerFrame(className: string, methodName: string, lineNumber: int)

  /** The parts of a logback event the row is derived from.  `None` stands
      for a `null` message, throwable proxy or caller-data array. */
  datatype LogEvent = LogEvent(
    timeStamp: int,
    level: Level,
    loggerName: string,
    threadName: string,
    message: Option<string>,
    throwable: Option<Throwable>,
    callerData: Option<seq<CallerFrame>>)

  const Unknown: string := "unknown"
  const UnknownCaller: CallerFrame := CallerFrame(Unknown, Unknown, 0)

  /** The first caller frame when there is one, else "unknown"/"unknown"/0. */
  function ResolveCaller(callerData: Option<seq<CallerFrame>>): (r: CallerFrame)
    ensures callerData.Some? && |callerData.value| > 0 ==> r == callerData.value[0]
    ensures callerData.None? || |callerData.value| == 0 ==> r == UnknownCaller
  {
    if callerData.Some? && |callerData.value| > 0 then callerData.value[0] else UnknownCaller
  }

  /** Process-wide facts every row carries, fixed at start-up. */
  datatype RowContext = RowContext(service: string, buildVersion: Option<string>, machine: string, machineIp: string)

  /** The bound columns other than `dayId` and `dayKey`. */
  datatype Row = Row(
    service: string,
    level: int,
    levelName: string,
    category: string,
    className: string,
    methodName: string,
    lineNumber: int,
    messageKey: string,
    message: string,
    error: string,
    buildVersion: Option<string>,
    machine: string,
    machineIp: string,
    messageNum: int,
    timestamp: int,
    lastModified: int)

  /** `msg.length()` on a null message throws before any column is bound. */
  datatype RowError = NullMessage

  /** A derived row and the counter after it. */
  datatype Derived = Derived(row: Row, counter: int)

  /** The columns of event `e` once its rolling number `num` is drawn. */
  function RowOf(ctx: RowContext, e: LogEvent, num: int): (row: Row)
    requires e.message.Some?
    ensures row.message == Prefix(e.message.value, MaxMsgLength)
    ensures row.messageKey == GetMessageKey(row.message)
    ensures |row.messageKey| <= MaxMsgKeyLength && row.messageKey == e.message.value[..|row.messageKey|]
    ensures row.error == "" <==> e.throwable.None?
    ensures e.throwable.Some? ==> row.error == Prefix(Render(e.throwable.value, 1), MaxStackLength)
    ensures |row.error| <= MaxStackLength
    ensures row.level == e.level.code && row.levelName == e.level.name
    ensures row.buildVersion == ctx.buildVersion && row.machine == ctx.machine && row.machineIp == ctx.machineIp
    ensures CallerFrame(row.className, row.methodName, row.lineNumber) == ResolveCaller(e.callerData)
    ensures row.service == ctx.service && row.category == e.loggerName
    ensures row.messageNum == num && row.timestamp == e.timeStamp && row.lastModified == e.timeStamp
  {
    var msg := TruncateMessage(e.message.value);
    var stackTrace := StackTraceOf(e.throwable);
    var caller := ResolveCaller(e.callerData);
    Row(ctx.service, e.level.code, e.level.name, e.loggerName,
        caller.className, caller.methodName, caller.lineNumber,
        GetMessageKey(msg), msg, stackTrace,
        ctx.buildVersion, ctx.machine, ctx.machineIp,
        num, e.timeStamp, e.timeStamp)
  }

  /** Derive the row of event `e`, drawing the next rolling number; a null
      message fails before the number is drawn. */
  function DeriveRow(ctx: RowContext, e: LogEvent, counter: int, maxPerDay: int): (r: Result<Derived, RowError>)
    ensures r.Failure? <==> e.message.None?
    ensures r.Success? ==> r.value.counter == Next(counter, maxPerDay) && r.value.row == RowOf(ctx, e, r.value.counter)
    ensures r.Success? && 1 <= maxPerDay && 0 <= counter <= maxPerDay ==> 1 <= r.value.row.messageNum <= maxPerDay
  {
    match e.message
    case None => Failure(NullMessage)
    case Some(_) =>
      var num := Next(counter, maxPerDay);
      Success(Derived(RowOf(ctx, e, num), num))
  }

  /** The key is taken from the stored (truncated) message, yet it is the
      key of the original message: the key only ever looks at the first
      100 characters. */
  lemma KeyUnaffectedByTruncation(m: string)
    ensures GetMessageKey(TruncateMessage(m)) == GetMessageKey(m)
  {
    var t := TruncateMessage(m);
    assert Prefix(t, MaxMsgKeyLength) == Prefix(m, MaxMsgKeyLength);
    KeyIsCutAtKeyEnd(t);
    KeyIsCutAtKeyEnd(m);
  }

  /** Rows derived from a batch, or the failure that discards the batch,
      and the counter after the events that were reached. */
  datatype BatchRows = BatchRows(rows: Result<seq<Row>, RowError>, counter: int)

  predicate AllHaveMessages(events: seq<LogEvent>)
  {
    forall i :: 0 <= i < |events| ==> events[i].message.Some?
  }

  /** The position of the first event with a null message, or the batch
      length when there is none. */
  function FirstNullMessage(events: seq<LogEvent>): (k: nat)
    ensures k <= |events|
  {
    if events == [] || events[0].message.None? then 0
    else 1 + FirstNullMessage(events[1..])
  }

  /** `FirstNullMessage` is the first null message: every earlier event
      has a message, and the event there has none. */
  lemma {:induction false} FirstNullMessageIsFirst(events: seq<LogEvent>)
    ensures forall j :: 0 <= j < FirstNullMessage(events) ==> events[j].message.Some?
    ensures FirstNullMessage(events) < |events| ==> events[FirstNullMessage(events)].message.None?
  {
    if events != [] && events[0].message.Some? {
      FirstNullMessageIsFirst(events[1..]);
      forall j | 1 <= j < FirstNullMessage(events) ensures events[j].message.Some? {
        assert events[j] == events[1..][j - 1];
      }
    }
  }

  lemma FirstNullMessageStep(events: seq<LogEvent>)
    requires events != [] && events[0].message.Some?
    ensures FirstNullMessage(events) == 1 + FirstNullMessage(events[1..])
  {
  }

  /** The counter after the rest of a batch, seen from before its first
      event: the first event drew one number, so the `k` steps after it
      are `k + 1` steps from the start. */
  lemma BatchCounterStep(counter: int, k: nat, n: nat, maxPerDay: int, c: int)
    requires n == k + 1
    requires c == Advance(Next(counter, maxPerDay), k, maxPerDay)
    ensures c == Advance(counter, n, maxPerDay)
  {
    AdvanceAfterNext(counter, k, maxPerDay);
  }

  /** The rows of a drained batch, derived in arrival order with one
      counter step per event.  A null message stops the batch: the rows
      exist exactly when every event has a message, and then there is one
      row per event.  Either way the counter has moved once per event
      before the first null message. */
  function BatchToRows(ctx: RowContext, events: seq<LogEvent>, counter: int, maxPerDay: int): (r: BatchRows)
    ensures r.rows.Success? <==> AllHaveMessages(events)
    ensures r.rows.Success? ==>
      && |r.rows.value| == |events|
      && r.counter == Advance(counter, |events|, maxPerDay)
    ensures r.counter == Advance(counter, FirstNullMessage(events), maxPerDay)
    ensures 1 <= maxPerDay && 0 <= counter <= maxPerDay ==> 0 <= r.counter <= maxPerDay
    decreases |events|
  {
    if events == [] then BatchRows(Success([]), counter)
    else
      AllHaveMessagesStep(events);
      match DeriveRow(ctx, events[0], counter, maxPerDay)
      case Failure(err) => BatchRows(Failure(err), counter)
      case Success(d) =>
        var rest := BatchToRows(ctx, events[1..], d.counter, maxPerDay);
        AdvanceAfterNext(counter, |events| - 1, maxPerDay);
        FirstNullMessageStep(events);
        BatchCounterStep(counter, FirstNullMessage(events[1..]), FirstNullMessage(events), maxPerDay, rest.counter);
        match rest.rows
        case Failure(err) => BatchRows(Failure(err), rest.counter)
        case Success(rs) => BatchRows(Success([d.row] + rs), rest.counter)
  }

  /** One step of the batch: the first event's row, then the rest of the
      batch from the next counter value. */
  lemma BatchStep(ctx: RowContext, events: seq<LogEvent>, counter: int, maxPerDay: int)
    requires events != []
    ensures var r := BatchToRows(ctx, events, counter, maxPerDay);
      var rest := BatchToRows(ctx, events[1..], Next(counter, maxPerDay), maxPerDay);
      && (r.rows.Success? <==> events[0].message.Some? && rest.rows.Success?)
      && (r.rows.Success? ==>
           && r.rows.value == [RowOf(ctx, events[0], Next(counter, maxPerDay))] + rest.rows.value
           && r.counter == rest.counter)
  {
  }

  lemma AllHaveMessagesStep(events: seq<LogEvent>)
    requires events != []
    ensures AllHaveMessages(events) <==> events[0].message.Some? && AllHaveMessages(events[1..])
  {
    if events[0].message.Some? && AllHaveMessages(events[1..]) {
      forall i | 0 <= i < |events| ensures events[i].message.Some? {
        if i > 0 { assert events[i] == events[1..][i - 1]; }
      }
    }
  }

  /** Row i of a batch is event i's row numbered by the (i+1)-th counter
      step. */
  lemma {:induction false} BatchRowsInArrivalOrder(ctx: RowContext, events: seq<LogEvent>, counter: int, maxPerDay: int)
    ensures var r := BatchToRows(ctx, events, counter, maxPerDay);
      && (r.rows.Success? <==> AllHaveMessages(events))
      && (r.rows.Success? ==>
           && |r.rows.value| == |events|
           && r.counter == Advance(counter, |events|, maxPerDay)
           && forall i :: 0 <= i < |events| ==> r.rows.value[i] == RowOf(ctx, events[i], Advance(counter, i + 1, maxPerDay)))
  {
    var r := BatchToRows(ctx, events, counter, maxPerDay);
    if events != [] && r.rows.Success? {
      var c1 := Next(counter, maxPerDay);
      var rest := BatchToRows(ctx, events[1..], c1, maxPerDay);
      BatchStep(ctx, events, counter, maxPerDay);
      BatchRowsInArrivalOrder(ctx, events[1..], c1, maxPerDay);
      var rows := r.rows.value;
      forall i | 0 <= i < |events|
        ensures rows[i] == RowOf(ctx, events[i], Advance(counter, i + 1, maxPerDay))
      {
        AdvanceAfterNext(counter, i, maxPerDay);
        if i > 0 {
          ConsIndex(RowOf(ctx, events[0], c1), rest.rows.value, i);
          assert events[1..][i - 1] == events[i];
        }
      }
    }
  }
}
