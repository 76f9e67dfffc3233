/** What the steps achieve: no message is ever stuck, and no step stands still. */
module SchedulerProgress {

  import opened Basics
  import opened Scheduler
  import opened SchedulerInvariant
  import opened SchedulerActors
  import opened SchedulerSteps
  import opened SchedulerRuns
  import opened SchedulerMail

  // ---------------------------------------------------------------------------
  // Going on from a state

  /** These steps can be taken one after the other, and lead there. */
  ghost predicate Leads(s: State, steps: seq<Step>, t: State)
    decreases steps
  {
    if steps == [] then s == t else Enabled(s, steps[0]) && Leads(Next(s, steps[0]), steps[1..], t)
  }

  /** The messages of x that have been delivered or dropped. */
  function Settled(s: State, x: ActorId): nat
    requires x in s.actors
  {
    |s.actors[x].delivered| + |s.actors[x].dropped|
  }

  /** Some way on settles more than n messages of x. */
  ghost predicate CanSettle(s: State, x: ActorId, n: nat) {
    exists steps, t :: Leads(s, steps, t) && x in t.actors && Settled(t, x) > n
  }

  lemma Before(s: State, step: Step, x: ActorId, n: nat)
    requires Enabled(s, step) && CanSettle(Next(s, step), x, n)
    ensures CanSettle(s, x, n)
  {
    hide Enabled, Next;
    var steps, t :| Leads(Next(s, step), steps, t) && x in t.actors && Settled(t, x) > n;
    assert ([step] + steps)[1..] == steps;
    assert Leads(s, [step] + steps, t);
  }

  lemma AtOnce(s: State, x: ActorId, n: nat)
    requires x in s.actors && Settled(s, x) > n
    ensures CanSettle(s, x, n)
  {
    assert Leads(s, [], s);
  }

  // The step an activity can take, and what it does, as functions of the activity alone.

  lemma LaunchOkOf(s: State, i: nat)
    requires Doing(s, i) && s.acts[i].Creator?
    ensures Enabled(s, LaunchOkStep(i)) && Next(s, LaunchOkStep(i)) == LaunchOk(s, i)
  {}

  lemma DiscardOf(s: State, i: nat)
    requires Doing(s, i) && s.acts[i].Discard?
    ensures Enabled(s, DiscardStep(i)) && Next(s, DiscardStep(i)) == DiscardHandle(s, i)
  {}

  lemma GrabOf(s: State, i: nat)
    requires Doing(s, i) && s.acts[i].Worker?
    ensures Enabled(s, GrabStep(i)) && Next(s, GrabStep(i)) == Grab(s, i)
  {}

  lemma ReleaseQueueOf(s: State, i: nat)
    requires Doing(s, i) && s.acts[i].Orphan?
    ensures Enabled(s, ReleaseQueueStep(i)) && Next(s, ReleaseQueueStep(i)) == ReleaseQueue(s, i)
  {}

  lemma PopOf(s: State, i: nat)
    requires Doing(s, i) && s.acts[i].Run?
    ensures Enabled(s, PopMessageStep(i)) && Next(s, PopMessageStep(i)) == PopMessage(s, i)
  {}

  lemma ReturnOf(s: State, i: nat)
    requires Doing(s, i) && s.acts[i].Call?
    ensures Enabled(s, ReturnStep(i)) && Next(s, ReturnStep(i)) == Return(s, i)
  {}

  lemma PushBackOf(s: State, i: nat)
    requires Doing(s, i) && s.acts[i].Requeue?
    ensures Enabled(s, PushBackStep(i)) && Next(s, PushBackStep(i)) == PushBack(s, i)
  {}

  lemma DropMessageOf(s: State, i: nat)
    requires Doing(s, i) && s.acts[i].Drop?
    ensures Enabled(s, DropMessageStep(i)) && Next(s, DropMessageStep(i)) == DropMessage(s, i)
  {}

  lemma DropReplyOf(s: State, i: nat)
    requires Doing(s, i) && s.acts[i].Reply?
    ensures Enabled(s, DropReplyStep(i)) && Next(s, DropReplyStep(i)) == DropReply(s, i)
  {}

  lemma PushMessageOf(s: State, i: nat)
    requires Doing(s, i) && s.acts[i].Sender?
    ensures Enabled(s, PushMessageStep(i)) && Next(s, PushMessageStep(i)) == PushMessage(s, i)
  {}

  lemma ReleaseOf(s: State, i: nat)
    requires Doing(s, i) && s.acts[i].Releaser?
    ensures Enabled(s, ReleaseStep(i)) && Next(s, ReleaseStep(i)) == Release(s, i)
  {}

  lemma MarkReleaseOf(s: State, i: nat)
    requires Doing(s, i) && s.acts[i].Deleter?
    ensures Enabled(s, MarkReleaseStep(i)) && Next(s, MarkReleaseStep(i)) == MarkRelease(s, i)
  {}

  /** A message of x waits, and n have been settled. */
  ghost predicate Waits(s: State, x: ActorId, n: nat) {
    Inv(s) && x in s.actors && s.actors[x].contents != [] && Settled(s, x) == n
  }

  // ---------------------------------------------------------------------------
  // Whoever owns the queue can go on

  lemma RunSettles(s: State, i: nat, x: ActorId, n: nat)
    requires Waits(s, x, n) && i in s.acts && s.acts[i].Run? && s.acts[i].a == x
    ensures CanSettle(s, x, n)
  {
    hide Inv;
    AtOnce(PopMessage(s, i), x, n);
    PopOf(s, i);
    hide CanSettle, PopMessage;
    Before(s, PopMessageStep(i), x, n);
  }

  lemma DropSettles(s: State, i: nat, x: ActorId, n: nat)
    requires Waits(s, x, n) && i in s.acts && s.acts[i] == Drop(x)
    ensures CanSettle(s, x, n)
  {
    hide Inv;
    AtOnce(DropMessage(s, i), x, n);
    DropMessageOf(s, i);
    hide CanSettle, DropMessage;
    Before(s, DropMessageStep(i), x, n);
  }

  /** After a step that leaves the messages of x alone. */
  lemma StillWaits(s: State, step: Step, x: ActorId, n: nat)
    requires Waits(s, x, n) && Enabled(s, step) && x in Next(s, step).actors
    requires var r, r' := s.actors[x], Next(s, step).actors[x];
             |r'.contents| >= |r.contents| && r'.delivered == r.delivered && r'.dropped == r.dropped
    ensures Waits(Next(s, step), x, n)
  {
    hide Inv, Next, Enabled;
    NextInv(s, step);
  }

  lemma CallSettles(s: State, i: nat, x: ActorId, n: nat)
    requires Waits(s, x, n) && i in s.acts && s.acts[i].Call? && s.acts[i].a == x
    ensures CanSettle(s, x, n)
  {
    hide Inv, CanSettle;
    var step := ReturnStep(i);
    ReturnOf(s, i);
    StillWaits(s, step, x, n);
    RunSettles(Return(s, i), s.nextAct, x, n);
    Before(s, step, x, n);
  }

  lemma ReplySettles(s: State, i: nat, x: ActorId, n: nat)
    requires Waits(s, x, n) && i in s.acts && s.acts[i].Reply? && s.acts[i].a == x
    ensures CanSettle(s, x, n)
  {
    hide Inv, CanSettle;
    var step := DropReplyStep(i);
    ReplyDrops(s, i, x);
    DropReplyOf(s, i);
    hide DropReply;
    StillWaits(s, step, x, n);
    DropSettles(DropReply(s, i), s.nextAct, x, n);
    Before(s, step, x, n);
  }

  lemma ReplyDrops(s: State, i: nat, x: ActorId)
    requires Doing(s, i) && s.acts[i].Reply? && s.acts[i].a == x
    ensures var t := DropReply(s, i);
            && s.nextAct in t.acts && t.acts[s.nextAct] == Drop(x) && x in t.actors
            && t.actors[x].contents == s.actors[x].contents && t.actors[x].delivered == s.actors[x].delivered
            && t.actors[x].dropped == s.actors[x].dropped
  {
    if s.acts[i].msg.source == 0 {} else {}
  }

  // ---------------------------------------------------------------------------
  // A dead context: its references can be given up, and its queue is marked

  /** What is left when the handle of x is gone: a queue without a context. */
  ghost predicate Dead(s: State, i: nat, x: ActorId, n: nat) {
    Waits(s, x, n) && i in s.acts && s.acts[i] == Orphan(x) && !Registered(s, x)
  }

  lemma MarkedSettles(s: State, i: nat, x: ActorId, n: nat)
    requires Waits(s, x, n) && i in s.acts && s.acts[i] == Orphan(x) && s.actors[x].release
    ensures CanSettle(s, x, n)
  {
    hide Inv, CanSettle;
    var step := ReleaseQueueStep(i);
    ReleaseQueueOf(s, i);
    StillWaits(s, step, x, n);
    DropSettles(ReleaseQueue(s, i), s.nextAct, x, n);
    Before(s, step, x, n);
  }

  /** The activities that hold a dead context: senders, and threads about to release it. */
  lemma HolderOf(s: State, i: nat, x: ActorId, n: nat) returns (k: nat)
    requires Dead(s, i, x, n) && s.actors[x].ref > 0
    ensures k in s.acts && k != i && s.acts[k].a == x && (s.acts[k].Releaser? || s.acts[k].Sender?)
  {
    k := ReferenceOf(s, x);
    OwnContext(s, k);
    hide Inv;
    if s.acts[k].Owns(Queue, x) { QueueOwnersDiffer(s, i, k); }
  }

  lemma ReferenceOf(s: State, x: ActorId) returns (k: nat)
    requires Inv(s) && x in s.actors && s.actors[x].ref > 0 && !Registered(s, x)
    ensures k in s.acts && s.acts[k].Owns(Reference, x)
  {
    assert ActorOk(s, x);
    assert RefsCounted(s, x);
    assert Count(s.acts, Reference, x) > 0;
    k :| k in Owners(s.acts, Reference, x);
  }

  lemma OwnContext(s: State, k: nat)
    requires Inv(s) && k in s.acts
    ensures s.acts[k].Run? || s.acts[k].Call? || s.acts[k].Requeue? ==> s.acts[k].ctx == s.acts[k].a
  {
    assert ActivityOk(s, k);
    hide ActorOk;
  }

  lemma DeleterOf(s: State, x: ActorId) returns (k: nat)
    requires Inv(s) && x in s.actors && s.actors[x].ref == 0 && !s.actors[x].release
    ensures k in s.acts && s.acts[k] == Deleter(x)
  {
    assert ActorOk(s, x);
    assert DeletedOnce(s, x);
    k :| k in Owners(s.acts, Deletion, x);
  }

  lemma ReferencesCount(s: State, x: ActorId)
    requires Inv(s) && x in s.actors
    ensures s.actors[x].ref >= 0
  {
    assert ActorOk(s, x);
    assert RefsCounted(s, x);
  }

  /** Nothing delivered, nothing dropped, the same handle. */
  predicate SameBut(r: Actor, r': Actor) {
    r'.delivered == r.delivered && r'.dropped == r.dropped && r'.handle == r.handle
  }

  /** After a step of another activity that touches neither the messages of x nor its handle. */
  lemma StillDead(s: State, step: Step, i: nat, x: ActorId, n: nat)
    requires Dead(s, i, x, n) && Enabled(s, step) && x in Next(s, step).actors
    requires var r, r' := s.actors[x], Next(s, step).actors[x];
             |r'.contents| >= |r.contents| && SameBut(r, r') && Next(s, step).table == s.table
    requires i in Next(s, step).acts && Next(s, step).acts[i] == s.acts[i]
    ensures Dead(Next(s, step), i, x, n)
  {
    hide Inv, Next, Enabled, Waits;
    StillWaits(s, step, x, n);
  }

  lemma ReleaseGoesOn(s: State, k: nat, i: nat, x: ActorId, n: nat)
    requires Dead(s, i, x, n) && k in s.acts && k != i && s.acts[k] == Releaser(x)
    ensures Enabled(s, ReleaseStep(k)) && Dead(Next(s, ReleaseStep(k)), i, x, n)
    ensures Next(s, ReleaseStep(k)).actors[x].ref == s.actors[x].ref - 1
  {
    DeadFacts(s, i, x, n);
    hide Inv, Dead;
    ReleaseOf(s, k);
    ReleaseEffect(s, k, i, x);
    hide Release, Next, Enabled, SameBut;
    StillDead(s, ReleaseStep(k), i, x, n);
  }

  lemma DeadFacts(s: State, i: nat, x: ActorId, n: nat)
    requires Dead(s, i, x, n)
    ensures x in s.actors && i in s.acts && s.nextAct !in s.acts
  {
    NewId(s);
    hide Inv;
  }

  lemma ReleaseEffect(s: State, k: nat, i: nat, x: ActorId)
    requires Doing(s, k) && s.acts[k] == Releaser(x) && i in s.acts && i != k && s.nextAct !in s.acts
    ensures var t := Release(s, k);
            && x in t.actors && t.table == s.table && SameBut(s.actors[x], t.actors[x])
            && t.actors[x].contents == s.actors[x].contents && t.actors[x].ref == s.actors[x].ref - 1
            && i in t.acts && t.acts[i] == s.acts[i]
  {
    if s.actors[x].ref == 1 {} else {}
  }

  lemma PushGoesOn(s: State, k: nat, i: nat, x: ActorId, n: nat)
    requires Dead(s, i, x, n) && k in s.acts && k != i && s.acts[k].Sender? && s.acts[k].a == x
    ensures Enabled(s, PushMessageStep(k)) && Dead(Next(s, PushMessageStep(k)), i, x, n)
    ensures var t := Next(s, PushMessageStep(k));
            && t.actors[x].ref == s.actors[x].ref && s.nextAct != i
            && s.nextAct in t.acts && t.acts[s.nextAct] == Releaser(x)
  {
    DeadFacts(s, i, x, n);
    hide Inv, Dead;
    PushMessageOf(s, k);
    PushEffect(s, k, x);
    hide PushMessage, Next, Enabled, SameBut;
    StillDead(s, PushMessageStep(k), i, x, n);
  }

  lemma PushEffect(s: State, k: nat, x: ActorId)
    requires Doing(s, k) && s.acts[k].Sender? && s.acts[k].a == x && s.nextAct !in s.acts
    ensures var t := PushMessage(s, k);
            && x in t.actors && t.table == s.table && SameBut(s.actors[x], t.actors[x])
            && |t.actors[x].contents| > |s.actors[x].contents|
            && t.acts == (s.acts - {k})[s.nextAct := Releaser(x)] && t.actors[x].ref == s.actors[x].ref
  {
    if s.actors[x].inGlobal {} else {}
  }


  lemma NewId(s: State)
    requires Inv(s)
    ensures s.nextAct !in s.acts
  {
    hide Inv;
    Facts(s);
  }

  lemma MarkGoesOn(s: State, k: nat, i: nat, x: ActorId, n: nat)
    requires Dead(s, i, x, n) && k in s.acts && s.acts[k] == Deleter(x)
    ensures Enabled(s, MarkReleaseStep(k)) && Dead(Next(s, MarkReleaseStep(k)), i, x, n)
    ensures Next(s, MarkReleaseStep(k)).actors[x].release
  {
    hide Inv;
    MarkReleaseOf(s, k);
    if s.actors[x].inGlobal {} else {}
    StillDead(s, MarkReleaseStep(k), i, x, n);
  }

  /** Its references are given up one by one, then the queue is marked, and what waits in it is dropped. */
  lemma {:induction false} DeadSettles(s: State, i: nat, x: ActorId, n: nat)
    requires Dead(s, i, x, n)
    ensures CanSettle(s, x, n)
    decreases s.actors[x].ref
  {
    hide Inv, CanSettle, Next, Enabled, Waits;
    assert Inv(s) && x in s.actors by { InvOf(s, x, n); }
    ReferencesCount(s, x);
    if s.actors[x].release {
      MarkedSettles(s, i, x, n);
    } else if s.actors[x].ref == 0 {
      var k := DeleterOf(s, x);
      MarkGoesOn(s, k, i, x, n);
      InvOf(Next(s, MarkReleaseStep(k)), x, n);
      MarkedSettles(Next(s, MarkReleaseStep(k)), i, x, n);
      Before(s, MarkReleaseStep(k), x, n);
    } else {
      var k := HolderOf(s, i, x, n);
      if s.acts[k].Releaser? {
        ReleaseGoesOn(s, k, i, x, n);
        DeadSettles(Next(s, ReleaseStep(k)), i, x, n);
        Before(s, ReleaseStep(k), x, n);
      } else {
        PushGoesOn(s, k, i, x, n);
        var t := Next(s, PushMessageStep(k));
        ReleaseGoesOn(t, s.nextAct, i, x, n);
        DeadSettles(Next(t, ReleaseStep(s.nextAct)), i, x, n);
        Before(t, ReleaseStep(s.nextAct), x, n);
        Before(s, PushMessageStep(k), x, n);
      }
    }
  }

  lemma InvOf(s: State, x: ActorId, n: nat)
    requires Waits(s, x, n)
    ensures Inv(s) && x in s.actors
  {
    hide Inv;
  }

  // ---------------------------------------------------------------------------
  // A linked queue comes to the front, and a worker takes it

  lemma WorkerSettles(s: State, i: nat, x: ActorId, n: nat)
    requires Waits(s, x, n) && i in s.acts && s.acts[i] == Worker(x)
    ensures CanSettle(s, x, n)
  {
    InvOf(s, x, n);
    GrabsOwnContext(s, x, i);
    TableActorsOf(s);
    hide Inv, CanSettle;
    var step := GrabStep(i);
    GrabOf(s, i);
    GrabEffect(s, i, x);
    hide Grab, Grabs, Next, Enabled;
    StillWaits(s, step, x, n);
    if Grabs(s, s.actors[x].handle) {
      RunSettles(Grab(s, i), s.nextAct, x, n);
    } else {
      DeadSettles(Grab(s, i), s.nextAct, x, n);
    }
    Before(s, step, x, n);
  }

  lemma GrabEffect(s: State, i: nat, x: ActorId)
    requires Doing(s, i) && s.acts[i] == Worker(x)
    requires Grabs(s, s.actors[x].handle) ==> s.table[s.actors[x].handle] == x
    requires forall h :: h in s.table ==> s.table[h] in s.actors
    ensures var t := Grab(s, i);
            && x in t.actors && SameBut(s.actors[x], t.actors[x]) && t.actors[x].contents == s.actors[x].contents
            && s.nextAct in t.acts
            && t.acts[s.nextAct] == (if Grabs(s, s.actors[x].handle) then Run(x, x) else Orphan(x))
            && (!Grabs(s, s.actors[x].handle) ==> !Registered(t, x))
  {
    if Grabs(s, s.actors[x].handle) {} else {}
  }

  lemma TableActorsOf(s: State)
    requires Inv(s)
    ensures forall h :: h in s.table ==> s.table[h] in s.actors
  {
    hide ActorOk, ActivitiesOk;
  }

  lemma {:induction false} LinkedSettles(s: State, x: ActorId, n: nat, p: nat)
    requires Waits(s, x, n) && p < |s.runq| && s.runq[p] == x
    ensures CanSettle(s, x, n)
    decreases p
  {
    hide Inv, CanSettle;
    assert Next(s, PopGlobalStep) == PopGlobal(s);
    StillWaits(s, PopGlobalStep, x, n);
    if p == 0 {
      WorkerSettles(PopGlobal(s), s.nextAct, x, n);
    } else {
      LinkedSettles(PopGlobal(s), x, n, p - 1);
    }
    Before(s, PopGlobalStep, x, n);
  }

  lemma InRunQueue(s: State, x: ActorId, n: nat)
    requires Waits(s, x, n) && x in s.runq
    ensures CanSettle(s, x, n)
  {
    var p :| 0 <= p < |s.runq| && s.runq[p] == x;
    LinkedSettles(s, x, n, p);
  }

  // ---------------------------------------------------------------------------
  // The other owners

  lemma RequeueSettles(s: State, i: nat, x: ActorId, n: nat)
    requires Waits(s, x, n) && i in s.acts && s.acts[i].Requeue? && s.acts[i].a == x
    ensures CanSettle(s, x, n)
  {
    hide Inv, CanSettle;
    var step := PushBackStep(i);
    PushBackOf(s, i);
    StillWaits(s, step, x, n);
    LinkedSettles(PushBack(s, i), x, n, |s.runq|);
    Before(s, step, x, n);
  }

  lemma CreatorSettles(s: State, i: nat, x: ActorId, n: nat)
    requires Waits(s, x, n) && i in s.acts && s.acts[i] == Creator(x)
    ensures CanSettle(s, x, n)
  {
    hide Inv, CanSettle;
    var step := LaunchOkStep(i);
    LaunchOkOf(s, i);
    StillWaits(s, step, x, n);
    LinkedSettles(LaunchOk(s, i), x, n, |s.runq|);
    Before(s, step, x, n);
  }

  lemma OrphanSettles(s: State, i: nat, x: ActorId, n: nat)
    requires Waits(s, x, n) && i in s.acts && s.acts[i] == Orphan(x)
    ensures CanSettle(s, x, n)
  {
    hide Inv, CanSettle;
    if s.actors[x].release {
      MarkedSettles(s, i, x, n);
    } else if !Registered(s, x) {
      DeadSettles(s, i, x, n);
    } else {
      var step := ReleaseQueueStep(i);
      ReleaseQueueOf(s, i);
      StillWaits(s, step, x, n);
      LinkedSettles(ReleaseQueue(s, i), x, n, |s.runq|);
      Before(s, step, x, n);
    }
  }

  lemma DiscardEffect(s: State, i: nat, x: ActorId)
    requires Doing(s, i) && s.acts[i] == Discard(x)
    ensures var t := DiscardHandle(s, i);
            t.actors == s.actors && s.nextAct in t.acts && t.acts[s.nextAct] == Orphan(x)
  {
    if s.actors[x].handle in s.table {} else {}
  }

  lemma DiscardSettles(s: State, i: nat, x: ActorId, n: nat)
    requires Waits(s, x, n) && i in s.acts && s.acts[i] == Discard(x)
    ensures CanSettle(s, x, n)
  {
    NewId(s);
    hide Inv, CanSettle;
    var step := DiscardStep(i);
    DiscardOf(s, i);
    DiscardEffect(s, i, x);
    hide DiscardHandle;
    StillWaits(s, step, x, n);
    OrphanSettles(DiscardHandle(s, i), s.nextAct, x, n);
    Before(s, step, x, n);
  }

  lemma OwnerSettles(s: State, i: nat, x: ActorId, n: nat)
    requires Waits(s, x, n) && i in s.acts && s.acts[i].Owns(Queue, x)
    ensures CanSettle(s, x, n)
  {
    InvOf(s, x, n);
    hide Inv, CanSettle;
    EmptiedHasNone(s, i);
    match s.acts[i]
    case Creator(_) => CreatorSettles(s, i, x, n);
    case Discard(_) => DiscardSettles(s, i, x, n);
    case Worker(_) => WorkerSettles(s, i, x, n);
    case Orphan(_) => OrphanSettles(s, i, x, n);
    case Run(_, _) => RunSettles(s, i, x, n);
    case Call(_, _, _) => CallSettles(s, i, x, n);
    case Requeue(_, _) => RequeueSettles(s, i, x, n);
    case Drop(_) => DropSettles(s, i, x, n);
    case Reply(_, _) => ReplySettles(s, i, x, n);
  }

  lemma EmptiedHasNone(s: State, i: nat)
    requires Inv(s) && i in s.acts
    ensures s.acts[i].a in s.actors && (s.acts[i].Emptied? ==> s.actors[s.acts[i].a].contents == [])
  {
    assert ActivityOk(s, i);
    hide ActorOk;
  }

  /**
    No message is ever stuck: from every state of every run in which one waits in the queue of x,
    the steps of the threads there are can go on so that one more of its messages is delivered or
    dropped. (Which of them comes next is the scheduling of the system, not part of this.)
   */
  lemma MessagesCanGoOn(states: seq<State>, steps: seq<Step>, j: nat, x: ActorId)
    requires IsRun(states, steps) && j < |states| && x in states[j].actors && states[j].actors[x].contents != []
    ensures CanSettle(states[j], x, Settled(states[j], x))
  {
    var s := states[j];
    EveryStateInv(states, steps, j);
    NoMessageStranded(states, steps, j, x);
    hide Inv, CanSettle, IsRun;
    if x in s.runq {
      InRunQueue(s, x, Settled(s, x));
    } else {
      var i :| i in s.acts && s.acts[i].Owns(Queue, x);
      OwnerSettles(s, i, x, Settled(s, x));
    }
  }

  // ---------------------------------------------------------------------------
  // What single steps achieve

  /** The activity a step is a part of. */
  function Acting(step: Step): Option<nat> {
    match step
    case LaunchStep(_, _) => None
    case PopGlobalStep => None
    case SendStep(_, _) => None
    case RetireStep(_) => None
    case _ => Some(step.i)
  }

  lemma LaunchMoves(s: State, i: nat)
    requires Doing(s, i) && s.nextAct !in s.acts && s.nextAct + 1 !in s.acts
    ensures i !in LaunchOk(s, i).acts && i !in LaunchFail(s, i).acts && i !in DiscardHandle(s, i).acts
  {}

  lemma QueueMoves(s: State, i: nat)
    requires Doing(s, i) && s.nextAct !in s.acts
    ensures i !in Grab(s, i).acts && i !in ReleaseQueue(s, i).acts
    ensures i !in DropMessage(s, i).acts && i !in Free(s, i).acts
  {}

  lemma DispatchMoves(s: State, i: nat)
    requires Doing(s, i) && s.nextAct !in s.acts && s.nextAct + 1 !in s.acts
    ensures s.acts[i].Run? ==> i !in PopMessage(s, i).acts && i !in EndSlice(s, i).acts
    ensures s.acts[i].Call? ==> i !in Return(s, i).acts
    ensures s.acts[i].Requeue? ==> i !in PushBack(s, i).acts
  {}

  lemma MessageMoves(s: State, i: nat)
    requires Doing(s, i) && s.nextAct !in s.acts && s.nextAct + 1 !in s.acts
    ensures s.acts[i].Reply? ==> i !in DropReply(s, i).acts
    ensures s.acts[i].Sender? ==> i !in PushMessage(s, i).acts
  {}

  lemma ReferenceMoves(s: State, i: nat)
    requires Doing(s, i) && s.nextAct !in s.acts
    ensures i !in Release(s, i).acts && i !in MarkRelease(s, i).acts
  {}

  /** No step stands still: what its activity was about to do is done. */
  lemma StepsMoveOn(s: State, step: Step)
    requires Inv(s) && Enabled(s, step) && Acting(step).Some?
    ensures Acting(step).value !in Next(s, step).acts
  {
    FreshIds(s);
    var i := Acting(step).value;
    assert Doing(s, i);
    LaunchMoves(s, i);
    QueueMoves(s, i);
    DispatchMoves(s, i);
    MessageMoves(s, i);
    ReferenceMoves(s, i);
    hide Inv, MayLaunch, Doing;
    hide LaunchOk, LaunchFail, DiscardHandle, Grab, ReleaseQueue, PopMessage, Return, EndSlice;
    hide PushBack, DropMessage, DropReply, Free, PushMessage, Release, MarkRelease;
  }

  /** A message that counts as delivered is the oldest, and the callback of its service runs on it. */
  lemma DeliveredMeansCalled(s: State, step: Step, x: ActorId)
    requires Inv(s) && Enabled(s, step) && x in s.actors && x in Next(s, step).actors
    requires Next(s, step).actors[x].delivered != s.actors[x].delivered
    ensures s.actors[x].contents != []
    ensures exists i :: i in Next(s, step).acts && Next(s, step).acts[i] == Call(x, x, s.actors[x].contents[0])
  {
    HistoriesGrow(s, step, x);
    hide Inv, Next, MayLaunch, Extends;
    var i := step.i;
    RunHoldsOwn(s, i);
    PopCalls(s, i);
    PopOf(s, i);
    assert s.nextAct in PopMessage(s, i).acts;
  }

  lemma PopCalls(s: State, i: nat)
    requires Doing(s, i) && s.acts[i].Run? && s.actors[s.acts[i].a].contents != []
    ensures var t := PopMessage(s, i);
            s.nextAct in t.acts
            && t.acts[s.nextAct] == Call(s.acts[i].a, s.acts[i].ctx, s.actors[s.acts[i].a].contents[0])
  {}

  /** A message that counts as dropped is the oldest, and its source is about to be told. */
  lemma DroppedMeansReply(s: State, step: Step, x: ActorId)
    requires Inv(s) && Enabled(s, step) && x in s.actors && x in Next(s, step).actors
    requires Next(s, step).actors[x].dropped != s.actors[x].dropped
    ensures s.actors[x].contents != []
    ensures exists i :: i in Next(s, step).acts && Next(s, step).acts[i] == Reply(x, s.actors[x].contents[0])
  {
    HistoriesGrow(s, step, x);
    hide Inv, Next, MayLaunch, Extends;
    var i := step.i;
    DropReplies(s, i);
    DropMessageOf(s, i);
    assert s.nextAct in DropMessage(s, i).acts;
  }

  lemma DropReplies(s: State, i: nat)
    requires Doing(s, i) && s.acts[i].Drop? && s.actors[s.acts[i].a].contents != []
    ensures var t := DropMessage(s, i);
            s.nextAct in t.acts && t.acts[s.nextAct] == Reply(s.acts[i].a, s.actors[s.acts[i].a].contents[0])
  {}

  /** In every state of every run a callback runs on the message that was delivered last. */
  lemma CallbackGetsMessage(states: seq<State>, steps: seq<Step>, j: nat, i: nat)
    requires IsRun(states, steps) && j < |states| && i in states[j].acts && states[j].acts[i].Call?
    ensures var call := states[j].acts[i];
            call.ctx in states[j].actors && IsLast(call.msg, states[j].actors[call.ctx].delivered)
  {
    EveryStateInv(states, steps, j);
    assert ActivityOk(states[j], i);
  }

  /**
    A worker that has served its slice while other queues wait takes the one that has waited longest,
    and puts its own behind all of them.
   */
  lemma SlicesTakeTurns(s: State, i: nat)
    requires Doing(s, i) && s.acts[i].Run? && s.nextAct !in s.acts && s.nextAct + 1 !in s.acts && s.runq != []
    ensures var a, t := s.acts[i].a, Next(s, EndSliceStep(i));
            && t.runq == s.runq[1..] && s.nextAct in t.acts && t.acts[s.nextAct] == Worker(s.runq[0])
            && exists k :: k in t.acts && t.acts[k].Requeue? && t.acts[k].a == a && t.acts[k].a in t.actors
                           && Next(t, PushBackStep(k)).runq == s.runq[1..] + [a]
  {
    hide Launch, LaunchOk, LaunchFail, DiscardHandle, Grab, ReleaseQueue, PopMessage, Return;
    hide DropMessage, DropReply, Free, StartSend, PushMessage, Release, MarkRelease, Retire;
    var t := Next(s, EndSliceStep(i));
    var k := s.nextAct + 1;
    assert k in t.acts && t.acts[k] == Requeue(s.acts[i].a, s.acts[i].ctx);
    assert Next(t, PushBackStep(k)).runq == s.runq[1..] + [s.acts[i].a];
  }

  /** A launch registers a new context with an empty mailbox, held by the table and its creator. */
  lemma LaunchRegisters(s: State, a: ActorId, h: Handle)
    requires Inv(s) && Enabled(s, LaunchStep(a, h))
    ensures var t := Next(s, LaunchStep(a, h));
            && a in t.actors && t.actors[a].handle == h && t.actors[a].contents == [] && t.actors[a].pushed == []
            && t.table == s.table[h := a] && Registered(t, a) && !t.actors[a].init
            && exists i :: i in t.acts && t.acts[i] == Creator(a)
  {
    hide Inv;
    var t := Next(s, LaunchStep(a, h));
    assert s.nextAct in t.acts && t.acts[s.nextAct] == Creator(a);
  }

  /** Under a retired handle nobody can be reached any more. */
  lemma RetiredIsGone(s: State, h: Handle)
    ensures h !in Next(s, RetireStep(h)).table
    ensures forall g :: g in s.table && g != h ==>
              g in Next(s, RetireStep(h)).table && Next(s, RetireStep(h)).table[g] == s.table[g]
  {}
}
