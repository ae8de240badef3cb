/** The batching appender's queue: `push` drops the event when the queue
    already holds `maxQueue` events, `pop` hands the writer the whole queue
    and leaves an empty one behind.  Both are `synchronized` in `LogbackBatchDbAppender`;
    here they are steps of a sequential state machine. */
module EventQueue {
  import opened Strings

  const DefaultMaxQueue: int := 10000

  /** The pending events, oldest first, and the configured capacity (a Java
      `int`, so possibly zero or negative). */
  datatype Queue<E> = Queue(items: seq<E>, maxQueue: int)

  /** The queue `init` creates. */
  function Empty<E>(maxQueue: int): (r: Queue<E>)
    ensures r.items == [] && r.maxQueue == maxQueue
  {
    Queue([], maxQueue)
  }

  /** The size a queue of capacity `maxQueue` never exceeds. */
  function Capacity(maxQueue: int): nat
  {
    if maxQueue < 0 then 0 else maxQueue
  }

  predicate Bounded<E>(q: Queue<E>)
  {
    |q.items| <= Capacity(q.maxQueue)
  }

  /** `push`: a full queue drops the event; otherwise the event goes to the
      back and nothing else changes. */
  function Push<E>(q: Queue<E>, event: E): (r: Queue<E>)
    ensures r.maxQueue == q.maxQueue
    ensures |q.items| >= q.maxQueue ==> r == q
    ensures |q.items| < q.maxQueue ==> r.items == q.items + [event]
    ensures Bounded(q) ==> Bounded(r)
  {
    if |q.items| >= q.maxQueue then q
    else q.(items := q.items + [event])
  }

  datatype Popped<E> = Popped(batch: seq<E>, queue: Queue<E>)

  /** `pop` once the queue is non-empty (the Java method waits until it
      is): the whole queue, in arrival order, is the batch, and the queue
      left behind is empty. */
  function Pop<E>(q: Queue<E>): (r: Popped<E>)
    requires |q.items| > 0
    ensures r.batch == q.items && |r.batch| > 0
    ensures r.queue == Empty(q.maxQueue)
  {
    Popped(q.items, Empty(q.maxQueue))
  }

  // ---------------------------------------------------------------------
  // Traces of pushes and pops

  /** A producer offering an event, or the writer draining the queue. */
  datatype Step<E> = Offer(event: E) | Drain

  /** What one step did.  A drain of an empty queue waits: nothing moves. */
  datatype Outcome<E> = Accepted | Dropped | Drained(batch: seq<E>) | Waiting

  datatype Stepped<E> = Stepped(queue: Queue<E>, outcome: Outcome<E>)

  function Apply<E>(q: Queue<E>, step: Step<E>): (r: Stepped<E>)
    ensures step.Offer? ==> (r.outcome.Dropped? <==> |q.items| >= q.maxQueue)
    ensures step.Offer? ==> r.outcome.Accepted? || r.outcome.Dropped?
    ensures step.Drain? ==> r.outcome.Drained? || r.outcome.Waiting?
  {
    match step
    case Offer(e) =>
      if |q.items| >= q.maxQueue then Stepped(q, Dropped)
      else Stepped(Push(q, e), Accepted)
    case Drain =>
      if |q.items| == 0 then Stepped(q, Waiting)
      else
        var p := Pop(q);
        Stepped(p.queue, Drained(p.batch))
  }

  datatype Trace<E> = Trace(queue: Queue<E>, outcomes: seq<Outcome<E>>)

  /** Run the steps in order from `q`, recording one outcome per step. */
  function Run<E>(q: Queue<E>, steps: seq<Step<E>>): (r: Trace<E>)
    ensures |r.outcomes| == |steps|
    ensures r.queue.maxQueue == q.maxQueue
    decreases |steps|
  {
    if steps == [] then Trace(q, [])
    else
      var s := Apply(q, steps[0]);
      var rest := Run(s.queue, steps[1..]);
      Trace(rest.queue, [s.outcome] + rest.outcomes)
  }

  /** Everything the writer received, batch after batch. */
  function Delivered<E>(outcomes: seq<Outcome<E>>): seq<E>
  {
    if outcomes == [] then []
    else (if outcomes[0].Drained? then outcomes[0].batch else []) + Delivered(outcomes[1..])
  }

  /** The offered events the queue accepted, in the order offered. */
  function AcceptedEvents<E>(steps: seq<Step<E>>, outcomes: seq<Outcome<E>>): seq<E>
    requires |steps| == |outcomes|
  {
    if steps == [] then []
    else (if steps[0].Offer? && outcomes[0].Accepted? then [steps[0].event] else [])
         + AcceptedEvents(steps[1..], outcomes[1..])
  }

  function DroppedCount<E>(outcomes: seq<Outcome<E>>): nat
  {
    if outcomes == [] then 0
    else (if outcomes[0].Dropped? then 1 else 0) + DroppedCount(outcomes[1..])
  }

  /** No loss, no duplication: the batches handed to the writer followed by
      what is still queued are exactly the queue's initial contents followed
      by the accepted events, in order. */
  lemma {:induction false} RunConservesEvents<E>(q: Queue<E>, steps: seq<Step<E>>)
    ensures var t := Run(q, steps);
            Delivered(t.outcomes) + t.queue.items == q.items + AcceptedEvents(steps, t.outcomes)
    decreases |steps|
  {
    if steps != [] {
      var s := Apply(q, steps[0]);
      var rest := Run(s.queue, steps[1..]);
      RunConservesEvents(s.queue, steps[1..]);
      var outs := [s.outcome] + rest.outcomes;
      assert outs[1..] == rest.outcomes;
      match s.outcome
      case Accepted =>
        assert s.queue.items == q.items + [steps[0].event];
        assert AcceptedEvents(steps, outs) == [steps[0].event] + AcceptedEvents(steps[1..], rest.outcomes);
        assert Delivered(outs) == Delivered(rest.outcomes);
        assert Delivered(rest.outcomes) + rest.queue.items
            == q.items + [steps[0].event] + AcceptedEvents(steps[1..], rest.outcomes);
      case Dropped =>
        assert AcceptedEvents(steps, outs) == AcceptedEvents(steps[1..], rest.outcomes);
        assert Delivered(outs) == Delivered(rest.outcomes);
      case Drained(b) =>
        assert AcceptedEvents(steps, outs) == AcceptedEvents(steps[1..], rest.outcomes);
        assert Delivered(outs) == q.items + Delivered(rest.outcomes);
      case Waiting =>
        assert q.items == [];
        assert AcceptedEvents(steps, outs) == AcceptedEvents(steps[1..], rest.outcomes);
        assert Delivered(outs) == Delivered(rest.outcomes);
    }
  }

  /** The capacity bound holds throughout any trace that starts within it. */
  lemma {:induction false} RunStaysBounded<E>(q: Queue<E>, steps: seq<Step<E>>)
    requires Bounded(q)
    ensures Bounded(Run(q, steps).queue)
    decreases |steps|
  {
    if steps != [] {
      RunStaysBounded(Apply(q, steps[0]).queue, steps[1..]);
    }
  }

  /** Each event offered by itself. */
  function Offers<E>(events: seq<E>): (r: seq<Step<E>>)
    ensures |r| == |events|
  {
    if events == [] then [] else [Offer(events[0])] + Offers(events[1..])
  }

  /** The first offer of a run of offers, then the rest. */
  lemma {:induction false} OffersStep<E>(q: Queue<E>, events: seq<E>)
    requires events != []
    ensures var s := Apply(q, Offer(events[0]));
            var t := Run(q, Offers(events));
            var rest := Run(s.queue, Offers(events[1..]));
            && t.queue == rest.queue
            && DroppedCount(t.outcomes) == (if s.outcome.Dropped? then 1 else 0) + DroppedCount(rest.outcomes)
  {
    var steps := Offers(events);
    assert steps[0] == Offer(events[0]) && steps[1..] == Offers(events[1..]);
    var s := Apply(q, steps[0]);
    var rest := Run(s.queue, steps[1..]);
    assert Run(q, steps).outcomes == [s.outcome] + rest.outcomes;
    assert Run(q, steps).outcomes[1..] == rest.outcomes;
  }

  /** With the writer paused, offering events keeps the first ones that fit
      and drops the rest, each drop counted once: from an empty queue of
      capacity n >= 0, offering n + K events keeps the first n and drops K. */
  lemma {:induction false} OffersFillThenDrop<E>(q: Queue<E>, events: seq<E>)
    requires Bounded(q)
    ensures var t := Run(q, Offers(events));
            var kept := Min(|q.items| + |events|, Capacity(q.maxQueue));
            && t.queue.items == (q.items + events)[..kept]
            && DroppedCount(t.outcomes) == |q.items| + |events| - kept
    decreases |events|
  {
    var kept := Min(|q.items| + |events|, Capacity(q.maxQueue));
    if events == [] {
      assert (q.items + events)[..kept] == q.items;
    } else {
      var s := Apply(q, Offer(events[0]));
      OffersStep(q, events);
      OffersFillThenDrop(s.queue, events[1..]);
      if |q.items| >= q.maxQueue {
        assert (q.items + events)[..kept] == q.items;
        assert (q.items + events[1..])[..kept] == q.items;
      } else {
        assert q.items + events == s.queue.items + events[1..];
      }
    }
  }
}
