/** The two appenders as state machines: start-up validation and identity,
    the batching appender's self-exclusion filter in front of its queue,
    the writer's drain-and-derive step, and the direct appender's one row
    per event. */
module Appenders {
  import opened Wrappers
  import opened Strings
  import opened Message
  import opened EventQueue
  import opened MessageNum
  import opened Rows

  /** The pooled data source, taken as an opaque handle. */
  datatype DataSource = DataSource(url: string)

  /** The configurable properties; `None` is a property left unset. */
  datatype Settings = Settings(
    dataSource: Option<DataSource>,
    tableName: Option<string>,
    service: Option<string>,
    maxMessagesPerDay: int,
    maxQueue: int)

  const DefaultMaxMessagesPerDay: int := 1000

  /** Properties as set in the configuration, the rest at their defaults. */
  function Configure(dataSource: Option<DataSource>, tableName: Option<string>, service: Option<string>): (s: Settings)
    ensures s.maxMessagesPerDay == DefaultMaxMessagesPerDay && s.maxQueue == DefaultMaxQueue
  {
    Settings(dataSource, tableName, service, DefaultMaxMessagesPerDay, DefaultMaxQueue)
  }

  /** The exception `start` throws, by the property found missing. */
  datatype StartError = MissingDataSource | MissingTableName | MissingService

  /** `start`'s checks, in order: data source, then table name, then
      service.  `None` when all three are set. */
  function CheckSettings(s: Settings): (r: Option<StartError>)
    ensures r.None? <==> s.dataSource.Some? && s.tableName.Some? && s.service.Some?
    ensures r == Some(MissingDataSource) <==> s.dataSource.None?
    ensures r == Some(MissingTableName) <==> s.dataSource.Some? && s.tableName.None?
    ensures r == Some(MissingService) <==> s.dataSource.Some? && s.tableName.Some? && s.service.None?
  {
    if s.dataSource.None? then Some(MissingDataSource)
    else if s.tableName.None? then Some(MissingTableName)
    else if s.service.None? then Some(MissingService)
    else None
  }

  /** What `loadBuildInfo` finds: no readable build-info resource, or the
      resource's `build.buildtime` property (possibly absent). */
  datatype BuildInfo = NoBuildInfo | BuildInfo(buildTime: Option<string>)

  /** The local host's name and address as resolved at start-up. */
  datatype Host = Host(name: string, address: string)

  /** What the environment answers at start-up; `host` is `None` when the
      lookup throws. */
  datatype Environment = Environment(buildInfo: BuildInfo, host: Option<Host>)

  /** The identity columns fixed at start-up, with the fallbacks "unknown"
      for the build and "unknown"/"0.0.0.0" for the host. */
  function ResolveIdentity(service: string, env: Environment): (ctx: RowContext)
    ensures ctx.service == service
    ensures env.buildInfo.NoBuildInfo? ==> ctx.buildVersion == Some(Unknown)
    ensures env.buildInfo.BuildInfo? ==> ctx.buildVersion == env.buildInfo.buildTime
    ensures env.host.None? ==> ctx.machine == Unknown && ctx.machineIp == "0.0.0.0"
    ensures env.host.Some? ==> ctx.machine == env.host.value.name && ctx.machineIp == env.host.value.address
  {
    var buildVersion := match env.buildInfo
      case NoBuildInfo => Some(Unknown)
      case BuildInfo(p) => p;
    match env.host
    case None => RowContext(service, buildVersion, Unknown, "0.0.0.0")
    case Some(h) => RowContext(service, buildVersion, h.name, h.address)
  }

  // ---------------------------------------------------------------------
  // LogbackBatchDbAppender

  /** The batching appender once started: its identity, its queue and its
      rolling counter. */
  datatype BatchAppender = BatchAppender(settings: Settings, context: RowContext, queue: Queue<LogEvent>, messageNum: int)

  /** `start` followed by `init`: the checks, then an empty queue of the
      configured capacity and the counter at 0. */
  function StartBatch(s: Settings, env: Environment): (r: Result<BatchAppender, StartError>)
    ensures r.Failure? <==> CheckSettings(s).Some?
    ensures r.Failure? ==> r.error == CheckSettings(s).value
    ensures r.Success? ==>
      && r.value.settings == s
      && r.value.queue == Empty(s.maxQueue)
      && r.value.messageNum == 0
      && r.value.context == ResolveIdentity(s.service.value, env)
  {
    match CheckSettings(s)
    case Some(err) => Failure(err)
    case None => Success(BatchAppender(s, ResolveIdentity(s.service.value, env), Empty(s.maxQueue), 0))
  }

  const WriterThreadName: string := "LogbackBatchDbAppender.writerThread"
  /** `getClass().getName()` of the batching appender. */
  const AppenderLoggerName: string := "com.liftck.util.logging.LogbackBatchDbAppender"

  /** Events logged by the writer thread or by the appender's own logger;
      queueing them would feed the appender its own diagnostics. */
  predicate SelfOriginated(e: LogEvent)
  {
    e.threadName == WriterThreadName || e.loggerName == AppenderLoggerName
  }

  /** `append`: self-originated events are ignored, every other event is
      pushed. */
  function Append(a: BatchAppender, e: LogEvent): (r: BatchAppender)
    ensures SelfOriginated(e) ==> r == a
    ensures !SelfOriginated(e) ==> r == a.(queue := Push(a.queue, e))
  {
    if e.threadName == WriterThreadName then a
    else if AppenderLoggerName == e.loggerName then a
    else a.(queue := Push(a.queue, e))
  }

  /** No event of the appender's own making is ever in its queue. */
  predicate NoSelfEvents(q: Queue<LogEvent>)
  {
    forall i :: 0 <= i < |q.items| ==> !SelfOriginated(q.items[i])
  }

  /** `append` called once per event, in order.  The counter, identity and
      settings are never touched, the queue keeps its capacity bound, and
      no self-originated event ever enters it. */
  function AppendAll(a: BatchAppender, events: seq<LogEvent>): (r: BatchAppender)
    ensures r.settings == a.settings && r.context == a.context && r.messageNum == a.messageNum
    ensures r.queue.maxQueue == a.queue.maxQueue
    ensures Bounded(a.queue) ==> Bounded(r.queue)
    ensures NoSelfEvents(a.queue) ==> NoSelfEvents(r.queue)
    decreases |events|
  {
    if events == [] then a
    else
      var a1 := Append(a, events[0]);
      assert NoSelfEvents(a.queue) ==> NoSelfEvents(a1.queue);
      AppendAll(a1, events[1..])
  }

  /** The events `append` lets through: exactly the events that are not
      self-originated. */
  function Admitted(events: seq<LogEvent>): (r: seq<LogEvent>)
    ensures |r| <= |events|
    ensures forall x :: x in r <==> x in events && !SelfOriginated(x)
  {
    if events == [] then []
    else
      assert events == [events[0]] + events[1..];
      (if SelfOriginated(events[0]) then [] else [events[0]]) + Admitted(events[1..])
  }

  /** The filter keeps the order of the events: admitting a concatenation
      admits each part, one after the other. */
  lemma {:induction false} AdmittedKeepsOrder(xs: seq<LogEvent>, ys: seq<LogEvent>)
    ensures Admitted(xs + ys) == Admitted(xs) + Admitted(ys)
    decreases |xs|
  {
    if xs != [] {
      var head := if SelfOriginated(xs[0]) then [] else [xs[0]];
      ConcatSplit(xs, ys);
      AdmittedStep(xs + ys);
      AdmittedStep(xs);
      AdmittedKeepsOrder(xs[1..], ys);
      ConcatAssoc(head, Admitted(xs[1..]), Admitted(ys));
    } else {
      assert xs + ys == ys;
    }
  }

  lemma AdmittedStep(events: seq<LogEvent>)
    requires events != []
    ensures Admitted(events) == (if SelfOriginated(events[0]) then [] else [events[0]]) + Admitted(events[1..])
  {
  }

  /** Appending a sequence of events is offering exactly the admitted ones
      to the queue, in order; the counter and identity are untouched. */
  lemma {:induction false} AppendAllOffersAdmitted(a: BatchAppender, events: seq<LogEvent>)
    ensures AppendAll(a, events).queue == Run(a.queue, Offers(Admitted(events))).queue
    decreases |events|
  {
    if events != [] {
      var e := events[0];
      var a1 := Append(a, e);
      AppendAllOffersAdmitted(a1, events[1..]);
      if !SelfOriginated(e) {
        var steps := Offers(Admitted(events));
        assert Admitted(events) == [e] + Admitted(events[1..]);
        assert steps[0] == Offer(e) && steps[1..] == Offers(Admitted(events[1..]));
        assert Apply(a.queue, Offer(e)).queue == a1.queue;
        assert Run(a.queue, steps).queue == Run(a1.queue, steps[1..]).queue;
      } else {
        assert Admitted(events) == Admitted(events[1..]);
      }
    }
  }

  /** The writer's step on a non-empty queue: take the whole queue, derive
      its rows in arrival order, advance the counter once per event reached.
      `None` rows: a null message made the writer discard the batch. */
  datatype WriterStep = WriterStep(batch: seq<LogEvent>, rows: Option<seq<Row>>, appender: BatchAppender)

  function DrainAndDerive(a: BatchAppender): (r: WriterStep)
    requires |a.queue.items| > 0
    ensures r.batch == a.queue.items
    ensures r.appender.queue == Empty(a.queue.maxQueue)
    ensures r.appender.settings == a.settings && r.appender.context == a.context
    ensures r.rows.Some? <==> AllHaveMessages(r.batch)
    ensures r.appender.messageNum == Advance(a.messageNum, FirstNullMessage(r.batch), a.settings.maxMessagesPerDay)
    ensures 1 <= a.settings.maxMessagesPerDay && 0 <= a.messageNum <= a.settings.maxMessagesPerDay ==>
      && 0 <= r.appender.messageNum <= a.settings.maxMessagesPerDay
      && (r.rows.Some? ==> forall i :: 0 <= i < |r.rows.value| ==>
            1 <= r.rows.value[i].messageNum <= a.settings.maxMessagesPerDay)
    ensures r.rows.Some? ==>
      && |r.rows.value| == |r.batch|
      && r.appender.messageNum == Advance(a.messageNum, |r.batch|, a.settings.maxMessagesPerDay)
      && (forall i :: 0 <= i < |r.batch| ==>
           r.rows.value[i].message == Prefix(r.batch[i].message.value, MaxMsgLength))
      && (forall i :: 0 <= i < |r.batch| ==>
           r.rows.value[i] == RowOf(a.context, r.batch[i], Advance(a.messageNum, i + 1, a.settings.maxMessagesPerDay)))
  {
    var p := Pop(a.queue);
    var b := BatchToRows(a.context, p.batch, a.messageNum, a.settings.maxMessagesPerDay);
    BatchRowsInArrivalOrder(a.context, p.batch, a.messageNum, a.settings.maxMessagesPerDay);
    AdvanceAllInRange(a.messageNum, |p.batch|, a.settings.maxMessagesPerDay);
    var rows := match b.rows
      case Success(rs) => Some(rs)
      case Failure(_) => None;
    WriterStep(p.batch, rows, a.(queue := p.queue, messageNum := b.counter))
  }

  // ---------------------------------------------------------------------
  // LogbackDbAppender

  /** The direct appender once started: no queue, one row per event. */
  datatype DbAppender = DbAppender(settings: Settings, context: RowContext, messageNum: int)

  function StartDirect(s: Settings, env: Environment): (r: Result<DbAppender, StartError>)
    ensures r.Failure? <==> CheckSettings(s).Some?
    ensures r.Failure? ==> r.error == CheckSettings(s).value
    ensures r.Success? ==>
      && r.value.settings == s
      && r.value.messageNum == 0
      && r.value.context == ResolveIdentity(s.service.value, env)
  {
    match CheckSettings(s)
    case Some(err) => Failure(err)
    case None => Success(DbAppender(s, ResolveIdentity(s.service.value, env), 0))
  }

  datatype DirectStep = DirectStep(row: Option<Row>, appender: DbAppender)

  /** `append` of the direct appender: no self-exclusion; the event's row,
      or nothing when its message is null (the exception is caught and the
      event is lost, with the counter unmoved). */
  function DirectAppend(a: DbAppender, e: LogEvent): (r: DirectStep)
    ensures r.row.Some? <==> e.message.Some?
    ensures r.row.Some? ==>
      && r.appender.messageNum == Next(a.messageNum, a.settings.maxMessagesPerDay)
      && r.row.value == RowOf(a.context, e, r.appender.messageNum)
    ensures r.row.None? ==> r.appender == a
  {
    match DeriveRow(a.context, e, a.messageNum, a.settings.maxMessagesPerDay)
    case Failure(_) => DirectStep(None, a)
    case Success(d) => DirectStep(Some(d.row), a.(messageNum := d.counter))
  }
}
