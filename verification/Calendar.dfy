/**
  What a timer is for, with no wheel in sight: a clock and the list of pending events, in
  the order in which they were added, each with the absolute tick it is due at.

  TimerWheel.dfy proves that the hierarchical wheel of skynet_timer.c implements exactly this.
 */
module Calendar {

  /** struct timer_event: the service to wake and the session to wake it with. */
  datatype Event = Event(handle: nat, session: int)

  /** An event and the absolute (never wrapping) tick at which it must be dispatched. */
  datatype Entry = Entry(due: nat, event: Event)

  datatype Calendar = Calendar(now: nat, pending: seq<Entry>)

  /** The events due at one tick, in the order they were added. */
  function EventsAt(pending: seq<Entry>, tick: nat): seq<Event> {
    if pending == [] then []
    else
      var last := pending[|pending| - 1];
      EventsAt(pending[..|pending| - 1], tick) + if last.due == tick then [last.event] else []
  }

  /** The entries that are not due at one tick, in the order they were added. */
  function Without(pending: seq<Entry>, tick: nat): seq<Entry> {
    if pending == [] then []
    else
      var last := pending[|pending| - 1];
      Without(pending[..|pending| - 1], tick) + if last.due == tick then [] else [last]
  }

  ghost predicate AllAfter(pending: seq<Entry>, tick: int) {
    forall e :: e in pending ==> tick < e.due
  }

  function Add(c: Calendar, delay: nat, event: Event): Calendar {
    c.(pending := c.pending + [Entry(c.now + delay, event)])
  }

  /** One timer update: the clock advances and the events due at the new time leave. */
  function Tick(c: Calendar): Calendar {
    Calendar(c.now + 1, Without(c.pending, c.now + 1))
  }

  function Fired(c: Calendar): seq<Event> {
    EventsAt(c.pending, c.now + 1)
  }

  datatype Request = Request(delay: nat, event: Event)

  function AddAll(c: Calendar, requests: seq<Request>): Calendar {
    if requests == [] then c
    else
      var last := requests[|requests| - 1];
      Add(AddAll(c, requests[..|requests| - 1]), last.delay, last.event)
  }

  // ---------------------------------------------------------------------------
  // Whole runs

  datatype Op = AddOp(delay: nat, event: Event) | UpdateOp

  function Apply(c: Calendar, op: Op): Calendar {
    match op
    case AddOp(d, e) => Add(c, d, e)
    case UpdateOp => Tick(c)
  }

  /** The state after a run of calls. */
  function Run(c: Calendar, ops: seq<Op>): Calendar
    decreases ops
  {
    if ops == [] then c else Run(Apply(c, ops[0]), ops[1..])
  }

  /** What each update of a run dispatches, one list per update. */
  function Output(c: Calendar, ops: seq<Op>): seq<seq<Event>>
    decreases ops
  {
    if ops == [] then []
    else (if ops[0].UpdateOp? then [Fired(c)] else []) + Output(Apply(c, ops[0]), ops[1..])
  }

  function AddOps(requests: seq<Request>): seq<Op> {
    if requests == [] then []
    else
      var last := requests[|requests| - 1];
      AddOps(requests[..|requests| - 1]) + [AddOp(last.delay, last.event)]
  }

  function Updates(ops: seq<Op>): nat {
    if ops == [] then 0 else (if ops[0].UpdateOp? then 1 else 0) + Updates(ops[1..])
  }

  /** Every event a run adds, with its due tick: the updates made before it, plus its delay. */
  function Schedule(now: nat, ops: seq<Op>): seq<Entry>
    decreases ops
  {
    if ops == [] then []
    else match ops[0]
      case AddOp(d, e) => [Entry(now + d, e)] + Schedule(now, ops[1..])
      case UpdateOp => Schedule(now + 1, ops[1..])
  }

  ghost predicate Delays(ops: seq<Op>) {
    forall op :: op in ops && op.AddOp? ==> 0 < op.delay
  }

  lemma {:induction false} RunConcat(c: Calendar, a: seq<Op>, b: seq<Op>)
    ensures Run(c, a + b) == Run(Run(c, a), b)
    ensures Output(c, a + b) == Output(c, a) + Output(Run(c, a), b)
    ensures Updates(a + b) == Updates(a) + Updates(b)
    decreases a
  {
    if a == [] {
      assert a + b == b;
    } else {
      assert (a + b)[1..] == a[1..] + b;
      RunConcat(Apply(c, a[0]), a[1..], b);
    }
  }

  lemma RunNone(c: Calendar)
    ensures Run(c, []) == c && Output(c, []) == [] && Updates([]) == 0
  {}

  lemma RunOne(c: Calendar, op: Op)
    ensures Run(c, [op]) == Apply(c, op)
    ensures Output(c, [op]) == if op.UpdateOp? then [Fired(c)] else []
    ensures Updates([op]) == if op.UpdateOp? then 1 else 0
  {
    assert [op][1..] == [];
  }

  lemma {:induction false} RunAdds(c: Calendar, requests: seq<Request>)
    ensures Run(c, AddOps(requests)) == AddAll(c, requests)
    ensures Output(c, AddOps(requests)) == [] && Updates(AddOps(requests)) == 0
    ensures forall op :: op in AddOps(requests) ==> op.AddOp? && Request(op.delay, op.event) in requests
  {
    if requests != [] {
      var init, last := requests[..|requests| - 1], requests[|requests| - 1];
      RunAdds(c, init);
      RunConcat(c, AddOps(init), [AddOp(last.delay, last.event)]);
      RunOne(AddAll(c, init), AddOp(last.delay, last.event));
    }
  }

  // ---------------------------------------------------------------------------
  // Facts about the two filters

  lemma {:induction false} EventsAtConcat(a: seq<Entry>, b: seq<Entry>, tick: nat)
    ensures EventsAt(a + b, tick) == EventsAt(a, tick) + EventsAt(b, tick)
  {
    if b == [] {
      assert a + b == a;
    } else {
      var n := |b| - 1;
      EventsAtConcat(a, b[..n], tick);
      assert (a + b)[..|a + b| - 1] == a + b[..n];
    }
  }

  lemma {:induction false} EventsAtNone(p: seq<Entry>, tick: nat)
    requires forall e :: e in p ==> e.due != tick
    ensures EventsAt(p, tick) == [] && Without(p, tick) == p
  {
    hide EventsAt, Without;
    LastEntry(p, tick);
    if p != [] { EventsAtNone(p[..|p| - 1], tick); }
  }

  lemma LastEntry(p: seq<Entry>, tick: nat)
    ensures p == [] ==> EventsAt(p, tick) == [] && Without(p, tick) == []
    ensures p != [] ==>
              var init, last := p[..|p| - 1], p[|p| - 1];
              && p == init + [last]
              && EventsAt(p, tick)
              == (if last.due == tick then EventsAt(init, tick) + [last.event] else EventsAt(init, tick))
              && Without(p, tick) == if last.due == tick then Without(init, tick) else Without(init, tick) + [last]
  {}

  /** Removing one tick removes all of it and nothing else. */
  lemma {:induction false} WithoutSpec(p: seq<Entry>, tick: nat, other: nat)
    ensures EventsAt(Without(p, tick), other) == if other == tick then [] else EventsAt(p, other)
    ensures forall e :: e in Without(p, tick) <==> e in p && e.due != tick
  {
    if p != [] {
      var n := |p| - 1;
      WithoutSpec(p[..n], tick, other);
      assert p == p[..n] + [p[n]];
      EventsAtConcat(Without(p[..n], tick), if p[n].due == tick then [] else [p[n]], other);
      if p[n].due != tick {
        assert [p[n]][..0] == [];
        assert EventsAt([p[n]][..0], other) == [];
      }
    }
  }

  // ---------------------------------------------------------------------------
  // The law of the timer

  lemma {:induction false} ScheduleAfter(now: nat, ops: seq<Op>)
    requires Delays(ops)
    ensures AllAfter(Schedule(now, ops), now)
    decreases ops
  {
    if ops != [] {
      ScheduleAfter(match ops[0] case AddOp(_, _) => now case UpdateOp => now + 1, ops[1..]);
    }
  }

  /**
    Whatever calls are made, update number k dispatches exactly the events whose due tick
    is the k-th tick, in the order they were added: an event added with delay d leaves at
    the d-th later update and at no other.
   */
  lemma {:induction false} RunDispatchesOnTime(c: Calendar, ops: seq<Op>, k: nat)
    requires Delays(ops) && AllAfter(c.pending, c.now)
    requires k < Updates(ops)
    ensures |Output(c, ops)| == Updates(ops)
    ensures Output(c, ops)[k] == EventsAt(c.pending + Schedule(c.now, ops), c.now + 1 + k)
    decreases ops
  {
    hide EventsAt, Without;
    OutputLength(c, ops);
    var rest := ops[1..];
    if ops[0].AddOp? {
      var next := Add(c, ops[0].delay, ops[0].event);
      RunDispatchesOnTime(next, rest, k);
      assert Schedule(c.now, ops) == [Entry(c.now + ops[0].delay, ops[0].event)] + Schedule(c.now, rest);
      ConcatAssociates(c.pending, [Entry(c.now + ops[0].delay, ops[0].event)], Schedule(c.now, rest));
    } else {
      var later := Schedule(c.now + 1, rest);
      ScheduleAfter(c.now + 1, rest);
      TickSplits(c, later, c.now + 1 + k);
      if k > 0 {
        RunDispatchesOnTime(Tick(c), rest, k - 1);
      }
    }
  }

  lemma ConcatAssociates<T>(a: seq<T>, b: seq<T>, c: seq<T>)
    ensures a + (b + c) == a + b + c
  {}

  /** One update takes exactly one tick out of the future, whatever is added later. */
  lemma TickSplits(c: Calendar, later: seq<Entry>, tick: nat)
    requires AllAfter(c.pending, c.now) && AllAfter(later, c.now + 1)
    ensures AllAfter(Tick(c).pending, Tick(c).now)
    ensures EventsAt(c.pending + later, tick)
         == if tick == c.now + 1 then Fired(c) else EventsAt(Tick(c).pending + later, tick)
  {
    hide EventsAt, Without;
    EventsAtConcat(c.pending, later, tick);
    WithoutSpec(c.pending, c.now + 1, tick);
    if tick == c.now + 1 {
      EventsAtNone(later, tick);
    } else {
      EventsAtConcat(Tick(c).pending, later, tick);
    }
  }

  lemma {:induction false} OutputLength(c: Calendar, ops: seq<Op>)
    ensures |Output(c, ops)| == Updates(ops)
    decreases ops
  {
    if ops != [] {
      OutputLength(Apply(c, ops[0]), ops[1..]);
    }
  }

  lemma {:induction false} InEventsAt(p: seq<Entry>, tick: nat, event: Event)
    ensures event in EventsAt(p, tick) <==> Entry(tick, event) in p
  {
    if p != [] {
      InEventsAt(p[..|p| - 1], tick, event);
      assert p == p[..|p| - 1] + [p[|p| - 1]];
    }
  }

  lemma {:induction false} ScheduleConcat(now: nat, a: seq<Op>, b: seq<Op>)
    ensures Schedule(now, a + b) == Schedule(now, a) + Schedule(now + Updates(a), b)
    ensures Updates(a + b) == Updates(a) + Updates(b)
    decreases a
  {
    if a == [] {
      assert a + b == b;
    } else {
      assert (a + b)[1..] == a[1..] + b;
      ScheduleConcat(match a[0] case AddOp(_, _) => now case UpdateOp => now + 1, a[1..], b);
    }
  }

  ghost predicate Adds(ops: seq<Op>, event: Event) {
    exists i :: 0 <= i < |ops| && ops[i].AddOp? && ops[i].event == event
  }

  lemma {:induction false} ScheduleEvents(now: nat, ops: seq<Op>, entry: Entry)
    requires entry in Schedule(now, ops)
    ensures Adds(ops, entry.event)
    decreases ops
  {
    if ops[0].UpdateOp? || entry != Entry(now + ops[0].delay, ops[0].event) {
      ScheduleEvents(if ops[0].UpdateOp? then now + 1 else now, ops[1..], entry);
      var i :| 0 <= i < |ops[1..]| && ops[1..][i].AddOp? && ops[1..][i].event == entry.event;
      assert ops[i + 1] == ops[1..][i];
    }
  }

  /** An event added once in a run is scheduled for one tick only. */
  lemma ScheduledOnce(now: nat, before: seq<Op>, d: nat, event: Event, after: seq<Op>, tick: nat)
    requires !Adds(before, event) && !Adds(after, event)
    ensures Entry(tick, event) in Schedule(now, before + [AddOp(d, event)] + after)
       <==> tick == now + Updates(before) + d
  {
    var mid := [AddOp(d, event)];
    var at := now + Updates(before);
    ScheduleConcat(now, before + mid, after);
    ScheduleConcat(now, before, mid);
    assert mid[1..] == [];
    assert Schedule(at, mid) == [Entry(at + d, event)];
    assert Updates(mid) == 0;
    var wanted := Entry(tick, event);
    if wanted in Schedule(now, before) { ScheduleEvents(now, before, wanted); }
    if wanted in Schedule(at, after) { ScheduleEvents(at, after, wanted); }
  }

  /** The same law for one event that nothing else adds: exactly the d-th later update fires it. */
  lemma EventFiresOnce(c: Calendar, before: seq<Op>, d: nat, event: Event, after: seq<Op>, k: nat)
    requires 0 < d && Delays(before) && Delays(after) && AllAfter(c.pending, c.now)
    requires !Adds(before, event) && !Adds(after, event)
    requires forall e :: e in c.pending ==> e.event != event
    requires k < Updates(before + [AddOp(d, event)] + after)
    ensures k < |Output(c, before + [AddOp(d, event)] + after)|
    ensures event in Output(c, before + [AddOp(d, event)] + after)[k] <==> k == Updates(before) + d - 1
  {
    var ops := before + [AddOp(d, event)] + after;
    var tick := c.now + 1 + k;
    RunDispatchesOnTime(c, ops, k);
    InEventsAt(c.pending + Schedule(c.now, ops), tick, event);
    ScheduledOnce(c.now, before, d, event, after, tick);
  }
}
