/** What holds in every state of every run of the scheduler. */
module SchedulerRuns {

  import opened Scheduler
  import opened SchedulerInvariant
  import opened SchedulerActors
  import opened SchedulerSteps

  // ---------------------------------------------------------------------------
  // What holds in every reachable state

  /** A run of the system from its start: any interleaving of any steps. */
  ghost predicate IsRun(states: seq<State>, steps: seq<Step>) {
    && |states| == |steps| + 1
    && states[0] == Init
    && forall j :: 0 <= j < |steps| ==> Enabled(states[j], steps[j]) && states[j + 1] == Next(states[j], steps[j])
  }

  lemma {:induction false} EveryStateInv(states: seq<State>, steps: seq<Step>, j: nat)
    requires IsRun(states, steps) && j < |states|
    ensures Inv(states[j])
  {
    if j > 0 {
      EveryStateInv(states, steps, j - 1);
      hide Inv, Next;
      NextInv(states[j - 1], steps[j - 1]);
    }
  }

  /** A live queue is linked once in the global list, or owned by exactly one activity, or idle: never two of these. */
  lemma OnePlaceOnly(states: seq<State>, steps: seq<Step>, j: nat, a: ActorId)
    requires IsRun(states, steps) && j < |states|
    requires a in states[j].actors && !states[j].actors[a].freed
    ensures var s := states[j];
            var linked, owned := multiset(s.runq)[a], |Owners(s.acts, Queue, a)|;
            var idle := !s.actors[a].inGlobal && !s.actors[a].release;
            || (linked == 1 && owned == 0 && !idle)
            || (linked == 0 && owned == 1 && !idle)
            || (linked == 0 && owned == 0 && idle)
  {
    EveryStateInv(states, steps, j);
    assert ActorOk(states[j], a);
    assert OnePlace(states[j], a);
  }

  /** No service's callback is ever run by two workers at once. */
  lemma NoCallbackRunsTwice(states: seq<State>, steps: seq<Step>, j: nat, i: nat, k: nat)
    requires IsRun(states, steps) && j < |states|
    requires i in states[j].acts && k in states[j].acts && states[j].acts[i].Call? && states[j].acts[k].Call?
    requires states[j].acts[i].ctx == states[j].acts[k].ctx
    ensures i == k
  {
    EveryStateInv(states, steps, j);
    Facts(states[j]);
    if i != k {
      QueueOwnersDiffer(states[j], i, k);
    }
  }

  /** A non-empty mailbox has in_global set, and somebody will look at it. */
  lemma NoMessageStranded(states: seq<State>, steps: seq<Step>, j: nat, a: ActorId)
    requires IsRun(states, steps) && j < |states|
    requires a in states[j].actors && states[j].actors[a].contents != []
    ensures states[j].actors[a].inGlobal && !states[j].actors[a].freed
    ensures a in states[j].runq || exists i :: i in states[j].acts && states[j].acts[i].Owns(Queue, a)
  {
    var s := states[j];
    EveryStateInv(states, steps, j);
    assert ActorOk(s, a);
    assert OnePlace(s, a) && Conserved(s, a) && DeletedOnce(s, a);
    if a !in s.runq {
      assert |Owners(s.acts, Queue, a)| == 1;
      var i :| i in Owners(s.acts, Queue, a);
      assert i in s.acts && s.acts[i].Owns(Queue, a);
    }
  }

  /** One error for each message that has a source: from the dead service, with the session of the message. */
  function Owed(handle: Handle, msgs: seq<Message>): seq<Message> {
    if msgs == [] then []
    else
      var last := msgs[|msgs| - 1];
      Owed(handle, msgs[..|msgs| - 1]) + if last.source != 0 then [Message(handle, last.session, true, 0)] else []
  }

  lemma {:induction false} ErrorsAreOwed(handle: Handle, msgs: seq<Message>)
    ensures Errors(handle, msgs) == Owed(handle, msgs)
  {
    if msgs != [] { ErrorsAreOwed(handle, msgs[..|msgs| - 1]); }
  }

  /**
    Every message ever pushed was delivered, was dropped, or is still waiting, in push order
    and once; and the queue is freed only when drained, with one error sent for each dropped
    message that has a source.
   */
  lemma NoMessageLost(states: seq<State>, steps: seq<Step>, j: nat, a: ActorId)
    requires IsRun(states, steps) && j < |states| && a in states[j].actors
    ensures var r := states[j].actors[a];
            && r.pushed == r.delivered + r.dropped + r.contents
            && (r.freed ==> r.release && r.contents == [] && r.replies == Owed(r.handle, r.dropped))
  {
    var s := states[j];
    EveryStateInv(states, steps, j);
    assert ActorOk(s, a);
    assert OnePlace(s, a) && Conserved(s, a) && DeletedOnce(s, a);
    AnswersAreOwners(s.acts, a);
    var r := s.actors[a];
    assert r.dropped[..|r.dropped|] == r.dropped;
    ErrorsAreOwed(r.handle, r.dropped);
  }

  /** A context is deleted once, exactly when nobody holds it; its queue is freed only after mark_release. */
  lemma ContextDeletedOnce(states: seq<State>, steps: seq<Step>, j: nat, a: ActorId)
    requires IsRun(states, steps) && j < |states| && a in states[j].actors
    ensures var s := states[j];
            var held := Registered(s, a) || exists i :: i in s.acts && s.acts[i].Owns(Reference, a);
            && s.actors[a].deletions == (if held then 0 else 1)
            && (s.actors[a].release ==> !held)
            && (s.actors[a].freed ==> s.actors[a].release)
  {
    var s := states[j];
    EveryStateInv(states, steps, j);
    assert ActorOk(s, a);
    assert RefsCounted(s, a) && DeletedOnce(s, a);
    if i :| i in s.acts && s.acts[i].Owns(Reference, a) {
      Owner(s.acts, i, Reference, a);
    } else {
      assert Owners(s.acts, Reference, a) == {};
    }
  }

  /** Whoever holds a reference works on a context that is not deleted and a queue that is not freed. */
  lemma ReferencesAreAlive(states: seq<State>, steps: seq<Step>, j: nat, i: nat, a: ActorId)
    requires IsRun(states, steps) && j < |states|
    requires i in states[j].acts && states[j].acts[i].Owns(Reference, a)
    ensures a in states[j].actors
    ensures states[j].actors[a].deletions == 0 && !states[j].actors[a].release && !states[j].actors[a].freed
  {
    var s := states[j];
    EveryStateInv(states, steps, j);
    Facts(s);
    assert ActivityOk(s, i);
    assert ActorOk(s, a);
    Owner(s.acts, i, Reference, a);
    assert RefsCounted(s, a) && DeletedOnce(s, a);
  }

  /** The actor whose queue a step links into the global list, if it links one. */
  function Linked(s: State, step: Step): set<ActorId>
    requires Enabled(s, step)
  {
    match step
    case LaunchOkStep(i) => {s.acts[i].a}
    case ReleaseQueueStep(i) => if s.actors[s.acts[i].a].release then {} else {s.acts[i].a}
    case PushBackStep(i) => {s.acts[i].a}
    case PushMessageStep(i) => if s.actors[s.acts[i].a].inGlobal then {} else {s.acts[i].a}
    case MarkReleaseStep(i) => if s.actors[s.acts[i].a].inGlobal then {} else {s.acts[i].a}
    case _ => {}
  }

  /**
    The assertions in the code never fail: a queue pushed to the global list, or freed, is not
    linked, mark_release finds the flag clear, the context grabbed for a queue is its own, no
    callback runs on a context whose init has not succeeded, and errors have a source.
   */
  lemma AssertionsHold(states: seq<State>, steps: seq<Step>, j: nat)
    requires IsRun(states, steps) && j < |steps|
    ensures forall a :: a in Linked(states[j], steps[j]) ==> a !in states[j].runq
    ensures steps[j].MarkReleaseStep? ==> !states[j].actors[states[j].acts[steps[j].i].a].release
    ensures steps[j].EndSliceStep? ==> states[j].acts[steps[j].i].ctx == states[j].acts[steps[j].i].a
    ensures forall i :: i in states[j].acts && states[j].acts[i].Call? ==>
              states[j].acts[i].ctx in states[j].actors && states[j].actors[states[j].acts[i].ctx].init
    ensures steps[j].FreeStep? ==> states[j].acts[steps[j].i].a !in states[j].runq
    ensures steps[j].DropReplyStep? ==> states[j].actors[states[j].acts[steps[j].i].a].handle != 0
  {
    EveryStateInv(states, steps, j);
    CallsInitialised(states[j]);
    RunStep(states, steps, j);
    HandleGiven(states[j], steps[j]);
    hide Inv, Next;
    if steps[j].FreeStep? { OwnedNotLinked(states[j], steps[j].i); }
    PushedQueueNotLinked(states[j], steps[j]);
    MarkFindsClear(states[j], steps[j]);
    GrabbedItsOwn(states[j], steps[j]);
  }

  lemma CallsInitialised(s: State)
    requires Inv(s)
    ensures forall i :: i in s.acts && s.acts[i].Call? ==> s.acts[i].ctx in s.actors && s.actors[s.acts[i].ctx].init
  {
    forall i | i in s.acts && s.acts[i].Call? ensures s.acts[i].ctx in s.actors && s.actors[s.acts[i].ctx].init {
      assert ActivityOk(s, i);
    }
  }

  lemma HandleGiven(s: State, step: Step)
    requires Inv(s) && Enabled(s, step)
    ensures step.DropReplyStep? ==> s.actors[s.acts[step.i].a].handle != 0
  {
    hide ActorOk, ActivitiesOk;
  }

  lemma PushedQueueNotLinked(s: State, step: Step)
    requires Inv(s) && Enabled(s, step)
    ensures forall a :: a in Linked(s, step) ==> a !in s.runq
  {
    hide Inv, MayLaunch;
    if Linked(s, step) != {} {
      OwnedNotLinked(s, step.i);
      assert Linked(s, step) == {s.acts[step.i].a};
    }
  }

  lemma OwnedNotLinked(s: State, i: nat)
    requires Inv(s) && i in s.acts
    ensures var act := s.acts[i];
            && act.a in s.actors
            && (act.Owns(Queue, act.a) || (!s.actors[act.a].inGlobal && !s.actors[act.a].release) ==> act.a !in s.runq)
            && (act.Owns(Reference, act.a) || act.Owns(Deletion, act.a) ==> !s.actors[act.a].release)
            && (act.Drop? || act.Emptied? ==> !s.actors[act.a].freed)
  {
    OwnsSomething(s.acts, i);
    Facts(s);
    var a := s.acts[i].a;
    hide Count, Conserved, Shape;
    assert OnePlace(s, a) && DeletedOnce(s, a) && RefsCounted(s, a);
  }

  lemma MarkFindsClear(s: State, step: Step)
    requires Inv(s) && Enabled(s, step)
    ensures step.MarkReleaseStep? ==> !s.actors[s.acts[step.i].a].release
  {
    hide Inv, MayLaunch;
    if step.MarkReleaseStep? { OwnedNotLinked(s, step.i); }
  }

  lemma GrabbedItsOwn(s: State, step: Step)
    requires Inv(s) && Enabled(s, step)
    ensures step.EndSliceStep? ==> s.acts[step.i].ctx == s.acts[step.i].a
  {
    hide ActorOk, ActivitiesOk, MayLaunch;
    if step.EndSliceStep? { UseActivity(s, step.i); }
  }

  lemma OwnsSomething(acts: map<nat, Activity>, i: nat)
    requires i in acts
    ensures acts[i].Owns(Queue, acts[i].a) ==> Count(acts, Queue, acts[i].a) >= 1
    ensures acts[i].Owns(Reference, acts[i].a) ==> Count(acts, Reference, acts[i].a) >= 1
    ensures acts[i].Owns(Deletion, acts[i].a) ==> Count(acts, Deletion, acts[i].a) >= 1
  {
    if acts[i].Owns(Queue, acts[i].a) { Owner(acts, i, Queue, acts[i].a); }
    if acts[i].Owns(Reference, acts[i].a) { Owner(acts, i, Reference, acts[i].a); }
    if acts[i].Owns(Deletion, acts[i].a) { Owner(acts, i, Deletion, acts[i].a); }
  }

  /** The histories only grow, and once the context is gone nothing more is accepted or delivered. */
  ghost predicate Extends(r: Actor, r': Actor) {
    && r.pushed <= r'.pushed && r.delivered <= r'.delivered && r.dropped <= r'.dropped
    && (r.release ==> r'.release && r'.pushed == r.pushed && r'.delivered == r.delivered)
    && (r.freed ==> r'.freed && r'.dropped == r.dropped)
  }

  predicate SameHistories(r: Actor, r': Actor) {
    r'.pushed == r.pushed && r'.delivered == r.delivered && r'.dropped == r.dropped
  }

  /** A history grows by one message at a time: the oldest that waits is delivered or dropped. */
  predicate OneMessage(s: State, step: Step, a: ActorId, r: Actor, r': Actor)
    requires Enabled(s, step)
  {
    || SameHistories(r, r')
    || (step.PopMessageStep? && s.acts[step.i].a == a && r.contents != []
        && r'.delivered == r.delivered + r.contents[..1] && r'.pushed == r.pushed && r'.dropped == r.dropped)
    || (step.DropMessageStep? && s.acts[step.i].a == a && r.contents != []
        && r'.dropped == r.dropped + r.contents[..1] && r'.pushed == r.pushed && r'.delivered == r.delivered)
    || (step.PushMessageStep? && s.acts[step.i].a == a
        && r'.pushed == r.pushed + [s.acts[step.i].msg] && r'.delivered == r.delivered && r'.dropped == r.dropped)
  }

  lemma HistoriesGrow(s: State, step: Step, a: ActorId)
    requires Inv(s) && Enabled(s, step) && a in s.actors
    ensures a in Next(s, step).actors && Extends(s.actors[a], Next(s, step).actors[a])
    ensures OneMessage(s, step, a, s.actors[a], Next(s, step).actors[a])
  {
    hide Inv, Next, MayLaunch, Extends, OneMessage;
    if step.PopMessageStep? || step.PushMessageStep? || step.DropMessageStep? {
      OwnedNotLinked(s, step.i);
    }
    if step.PopMessageStep? { RunHoldsOwn(s, step.i); }
    ExtendsUnlessReleased(s, step, a);
  }

  lemma RunHoldsOwn(s: State, i: nat)
    requires Inv(s) && i in s.acts && s.acts[i].Run?
    ensures s.acts[i].ctx == s.acts[i].a
  {
    UseActivity(s, i);
    hide ActivitiesOk;
  }

  lemma ExtendsUnlessReleased(s: State, step: Step, a: ActorId)
    requires Enabled(s, step) && a in s.actors
    requires step.PopMessageStep? || step.PushMessageStep? ==> !s.actors[s.acts[step.i].a].release
    requires step.DropMessageStep? ==> !s.actors[s.acts[step.i].a].freed
    ensures a in Next(s, step).actors && Extends(s.actors[a], Next(s, step).actors[a])
    ensures OneMessage(s, step, a, s.actors[a], Next(s, step).actors[a])
  {
    hide Launch, LaunchOk, LaunchFail, DiscardHandle, PopGlobal, Grab, ReleaseQueue, PopMessage, Return, EndSlice;
    hide PushBack, DropMessage, DropReply, Free, StartSend, PushMessage, Release, MarkRelease, Retire;
    hide MayLaunch, Extends, SameHistories;
    match step
    case LaunchStep(b, h) => LaunchExtends(s, b, h, a);
    case PopMessageStep(i) => PopExtends(s, i, a);
    case DropMessageStep(i) => DropExtends(s, i, a);
    case DropReplyStep(i) => ReplyExtends(s, i, a);
    case PushMessageStep(i) => PushExtends(s, i, a);
    case SendStep(to, msg) => SendExtends(s, to, msg, a);
    case GrabStep(i) => GrabExtends(s, i, a);
    case ReleaseStep(i) => ReleaseExtends(s, i, a);
    case MarkReleaseStep(i) => MarkExtends(s, i, a);
    case FreeStep(i) => FreeExtends(s, i, a);
    case LaunchOkStep(i) => LaunchOkExtends(s, i, a);
    case _ => OthersExtend(s, step, a);
  }

  lemma LaunchExtends(s: State, b: ActorId, h: Handle, a: ActorId)
    requires MayLaunch(s, b, h) && a in s.actors
    ensures a in Launch(s, b, h).actors && Extends(s.actors[a], Launch(s, b, h).actors[a])
    ensures SameHistories(s.actors[a], Launch(s, b, h).actors[a])
  {}

  lemma PopExtends(s: State, i: nat, a: ActorId)
    requires Doing(s, i) && s.acts[i].Run? && a in s.actors && !s.actors[s.acts[i].a].release
    ensures a in PopMessage(s, i).actors && Extends(s.actors[a], PopMessage(s, i).actors[a])
    ensures var r, r' := s.actors[a], PopMessage(s, i).actors[a];
            if a == s.acts[i].a && r.contents != []
            then r'.delivered == r.delivered + r.contents[..1] && r'.pushed == r.pushed && r'.dropped == r.dropped
            else SameHistories(r, r')
  {
    if s.actors[s.acts[i].a].contents == [] {} else {}
  }

  lemma DropExtends(s: State, i: nat, a: ActorId)
    requires Doing(s, i) && s.acts[i].Drop? && a in s.actors && !s.actors[s.acts[i].a].freed
    ensures a in DropMessage(s, i).actors && Extends(s.actors[a], DropMessage(s, i).actors[a])
    ensures var r, r' := s.actors[a], DropMessage(s, i).actors[a];
            if a == s.acts[i].a && r.contents != []
            then r'.dropped == r.dropped + r.contents[..1] && r'.pushed == r.pushed && r'.delivered == r.delivered
            else SameHistories(r, r')
  {
    if s.actors[s.acts[i].a].contents == [] {} else {}
  }

  lemma ReplyExtends(s: State, i: nat, a: ActorId)
    requires Doing(s, i) && s.acts[i].Reply? && a in s.actors
    ensures a in DropReply(s, i).actors && Extends(s.actors[a], DropReply(s, i).actors[a])
    ensures SameHistories(s.actors[a], DropReply(s, i).actors[a])
  {
    if s.acts[i].msg.source == 0 {} else {}
  }

  lemma PushExtends(s: State, i: nat, a: ActorId)
    requires Doing(s, i) && s.acts[i].Sender? && a in s.actors && !s.actors[s.acts[i].a].release
    ensures a in PushMessage(s, i).actors && Extends(s.actors[a], PushMessage(s, i).actors[a])
    ensures var r, r' := s.actors[a], PushMessage(s, i).actors[a];
            if a == s.acts[i].a
            then r'.pushed == r.pushed + [s.acts[i].msg] && r'.delivered == r.delivered && r'.dropped == r.dropped
            else SameHistories(r, r')
  {}

  lemma SendExtends(s: State, to: Handle, msg: Message, a: ActorId)
    requires a in s.actors
    ensures a in StartSend(s, to, msg).actors && Extends(s.actors[a], StartSend(s, to, msg).actors[a])
    ensures SameHistories(s.actors[a], StartSend(s, to, msg).actors[a])
  {}

  lemma GrabExtends(s: State, i: nat, a: ActorId)
    requires Doing(s, i) && a in s.actors
    ensures a in Grab(s, i).actors && Extends(s.actors[a], Grab(s, i).actors[a])
    ensures SameHistories(s.actors[a], Grab(s, i).actors[a])
  {}

  lemma ReleaseExtends(s: State, i: nat, a: ActorId)
    requires Doing(s, i) && a in s.actors
    ensures a in Release(s, i).actors && Extends(s.actors[a], Release(s, i).actors[a])
    ensures SameHistories(s.actors[a], Release(s, i).actors[a])
  {}

  lemma MarkExtends(s: State, i: nat, a: ActorId)
    requires Doing(s, i) && a in s.actors
    ensures a in MarkRelease(s, i).actors && Extends(s.actors[a], MarkRelease(s, i).actors[a])
    ensures SameHistories(s.actors[a], MarkRelease(s, i).actors[a])
  {}

  lemma FreeExtends(s: State, i: nat, a: ActorId)
    requires Doing(s, i) && a in s.actors
    ensures a in Free(s, i).actors && Extends(s.actors[a], Free(s, i).actors[a])
    ensures SameHistories(s.actors[a], Free(s, i).actors[a])
  {}

  lemma LaunchOkExtends(s: State, i: nat, a: ActorId)
    requires Doing(s, i) && a in s.actors
    ensures a in LaunchOk(s, i).actors && Extends(s.actors[a], LaunchOk(s, i).actors[a])
    ensures SameHistories(s.actors[a], LaunchOk(s, i).actors[a])
  {}

  lemma OthersExtend(s: State, step: Step, a: ActorId)
    requires Enabled(s, step) && a in s.actors
    requires step.DiscardStep? || step.LaunchFailStep? || step.PopGlobalStep? || step.ReleaseQueueStep?
          || step.ReturnStep? || step.EndSliceStep? || step.PushBackStep? || step.RetireStep?
    ensures Next(s, step).actors == s.actors && Extends(s.actors[a], Next(s, step).actors[a])
    ensures SameHistories(s.actors[a], Next(s, step).actors[a])
  {
    hide Launch, LaunchOk, Grab, PopMessage, DropMessage, DropReply, Free, StartSend, PushMessage, Release, MarkRelease;
  }

  /** Along a run, what was delivered or dropped stays delivered or dropped: no message is popped twice. */
  lemma {:induction false} DeliveriesAreFinal(states: seq<State>, steps: seq<Step>, j: nat, k: nat, a: ActorId)
    requires IsRun(states, steps) && j <= k < |states| && a in states[j].actors
    ensures a in states[k].actors && Extends(states[j].actors[a], states[k].actors[a])
  {
    hide Inv, Next, Enabled;
    if j < k {
      DeliveriesAreFinal(states, steps, j, k - 1, a);
      EveryStateInv(states, steps, k - 1);
      RunStep(states, steps, k - 1);
      hide IsRun;
      HistoriesGrow(states[k - 1], steps[k - 1], a);
    }
  }

  lemma RunStep(states: seq<State>, steps: seq<Step>, j: nat)
    requires IsRun(states, steps) && j < |steps|
    ensures Enabled(states[j], steps[j]) && states[j + 1] == Next(states[j], steps[j])
  {
    hide Enabled, Next;
  }
}
