/** Every step keeps the whole invariant. */
module SchedulerSteps {

  import opened Basics
  import opened Scheduler
  import opened SchedulerInvariant
  import opened SchedulerActors

  // The table, the global list and what activities rely on.

  /** Steps only unregister handles, free queues and link queues of known actors. */
  lemma TableKept(s: State, t: State)
    requires TableOk(s) && t.actors.Keys == s.actors.Keys
    requires forall x :: x in s.actors ==> t.actors[x].handle == s.actors[x].handle
    requires forall x :: x in s.actors && s.actors[x].freed ==> t.actors[x].freed
    requires forall h :: h in t.table ==> h in s.table && t.table[h] == s.table[h]
    requires forall q :: q in t.runq ==> q in s.runq || q in s.actors
    ensures TableOk(t)
  {}

  lemma TableActors(s: State)
    requires TableOk(s)
    ensures forall h :: h in s.table ==> s.table[h] in s.actors
  {}

  /** What an activity relies on in its actor stays as it was. */
  predicate Quieter(act: Activity, r: Actor, r': Actor) {
    && (r.release ==> r'.release) && (r.init ==> r'.init)
    && (r.release && r.contents == [] ==> r'.contents == [])
    && (act.Reply? ==> r'.dropped == r.dropped) && (act.Call? ==> r'.delivered == r.delivered)
  }

  ghost predicate KeptOrOk(s: State, t: State, k: nat)
    requires k in t.acts
  {
    || ActivityOk(t, k)
    || (k in s.acts && t.acts[k] == s.acts[k]
        && (t.acts[k].a in s.actors && t.acts[k].a in t.actors ==>
              Quieter(t.acts[k], s.actors[t.acts[k].a], t.actors[t.acts[k].a])))
  }

  lemma ActivitiesKept(s: State, t: State)
    requires ActivitiesOk(s) && t.actors.Keys == s.actors.Keys && t.nextAct >= s.nextAct
    requires forall k :: k in t.acts ==> KeptOrOk(s, t, k)
    ensures ActivitiesOk(t)
  {
    forall k | k in t.acts ensures ActivityOk(t, k) {
      assert KeptOrOk(s, t, k);
      if k in s.acts { assert ActivityOk(s, k); }
    }
  }

  /** No other activity is answering a message dropped from the same queue. */
  ghost predicate OnlyReply(s: State, i: nat)
    requires i in s.acts
  {
    forall k :: k in s.acts && k != i && s.acts[k].Reply? ==> s.acts[k].a != s.acts[i].a
  }

  /** No other activity is running a callback for the same queue. */
  ghost predicate OnlyCall(s: State, i: nat)
    requires i in s.acts
  {
    forall k :: k in s.acts && k != i && s.acts[k].Call? ==> s.acts[k].a != s.acts[i].a
  }

  lemma UseActivity(s: State, i: nat)
    requires ActivitiesOk(s) && i in s.acts
    ensures ActivityOk(s, i)
  {}

  lemma LaunchShape(s: State, a: ActorId, h: Handle)
    requires Shape(s) && MayLaunch(s, a, h)
    ensures Shape(Launch(s, a, h))
  {
    LaunchTable(s, a, h);
    LaunchActivities(s, a, h);
    hide TableOk, ActivitiesOk;
  }

  lemma LaunchTable(s: State, a: ActorId, h: Handle)
    requires TableOk(s) && MayLaunch(s, a, h)
    ensures TableOk(Launch(s, a, h))
  {}

  lemma LaunchActivities(s: State, a: ActorId, h: Handle)
    requires ActivitiesOk(s) && MayLaunch(s, a, h)
    ensures ActivitiesOk(Launch(s, a, h))
  {
    var t := Launch(s, a, h);
    forall k | k in t.acts ensures ActivityOk(t, k) {
      if k in s.acts { assert ActivityOk(s, k); }
    }
  }

  lemma LaunchOkShape(s: State, i: nat)
    requires Shape(s)
    requires Doing(s, i) && s.acts[i].Creator?
    ensures Shape(LaunchOk(s, i)) && LaunchOk(s, i).actors.Keys == s.actors.Keys
  {
    hide TableOk, ActivitiesOk;
    UseActivity(s, i);
    var t := LaunchOk(s, i);
    TableKept(s, t);
    ActivitiesKept(s, t);
  }

  lemma LaunchFailShape(s: State, i: nat)
    requires Shape(s)
    requires Doing(s, i) && s.acts[i].Creator?
    ensures Shape(LaunchFail(s, i)) && LaunchFail(s, i).actors.Keys == s.actors.Keys
  {
    hide TableOk, ActivitiesOk;
    UseActivity(s, i);
    var t := LaunchFail(s, i);
    TableKept(s, t);
    ActivitiesKept(s, t);
  }

  lemma DiscardShape(s: State, i: nat)
    requires Shape(s)
    requires Doing(s, i) && s.acts[i].Discard?
    ensures Shape(DiscardHandle(s, i)) && DiscardHandle(s, i).actors.Keys == s.actors.Keys
  {
    hide TableOk, ActivitiesOk;
    UseActivity(s, i);
    TableActors(s);
    var t := DiscardHandle(s, i);
    TableKept(s, t);
    ActivitiesKept(s, t);
  }

  lemma PopGlobalShape(s: State)
    requires Shape(s)
    requires s.runq != []
    requires s.runq[0] in s.actors
    ensures Shape(PopGlobal(s)) && PopGlobal(s).actors.Keys == s.actors.Keys
  {
    hide TableOk, ActivitiesOk;
    var t := PopGlobal(s);
    TableKept(s, t);
    ActivitiesKept(s, t);
  }

  lemma GrabShape(s: State, i: nat)
    requires Shape(s)
    requires Doing(s, i) && s.acts[i].Worker?
    requires Grabs(s, s.actors[s.acts[i].a].handle) ==> s.table[s.actors[s.acts[i].a].handle] == s.acts[i].a
                                                        && s.actors[s.acts[i].a].init
    ensures Shape(Grab(s, i)) && Grab(s, i).actors.Keys == s.actors.Keys
  {
    hide TableOk, ActivitiesOk;
    UseActivity(s, i);
    var t := Grab(s, i);
    TableKept(s, t);
    ActivitiesKept(s, t);
  }

  lemma ReleaseQueueShape(s: State, i: nat)
    requires Shape(s)
    requires Doing(s, i) && s.acts[i].Orphan?
    ensures Shape(ReleaseQueue(s, i)) && ReleaseQueue(s, i).actors.Keys == s.actors.Keys
  {
    hide TableOk, ActivitiesOk;
    UseActivity(s, i);
    var t := ReleaseQueue(s, i);
    TableKept(s, t);
    ActivitiesKept(s, t);
  }

  lemma PopMessageShape(s: State, i: nat)
    requires Shape(s)
    requires Doing(s, i) && s.acts[i].Run? && OnlyCall(s, i)
    ensures Shape(PopMessage(s, i)) && PopMessage(s, i).actors.Keys == s.actors.Keys
  {
    hide TableOk, ActivitiesOk;
    UseActivity(s, i);
    var t := PopMessage(s, i);
    TableKept(s, t);
    ActivitiesKept(s, t);
  }

  lemma ReturnShape(s: State, i: nat)
    requires Shape(s)
    requires Doing(s, i) && s.acts[i].Call?
    ensures Shape(Return(s, i)) && Return(s, i).actors.Keys == s.actors.Keys
  {
    hide TableOk, ActivitiesOk;
    UseActivity(s, i);
    var t := Return(s, i);
    TableKept(s, t);
    ActivitiesKept(s, t);
  }

  lemma EndSliceShape(s: State, i: nat)
    requires Shape(s)
    requires Doing(s, i) && s.acts[i].Run?
    requires s.runq != [] ==> s.runq[0] in s.actors
    ensures Shape(EndSlice(s, i)) && EndSlice(s, i).actors.Keys == s.actors.Keys
  {
    hide TableOk, ActivitiesOk;
    UseActivity(s, i);
    var t := EndSlice(s, i);
    TableKept(s, t);
    ActivitiesKept(s, t);
  }

  lemma PushBackShape(s: State, i: nat)
    requires Shape(s)
    requires Doing(s, i) && s.acts[i].Requeue?
    ensures Shape(PushBack(s, i)) && PushBack(s, i).actors.Keys == s.actors.Keys
  {
    hide TableOk, ActivitiesOk;
    UseActivity(s, i);
    var t := PushBack(s, i);
    TableKept(s, t);
    ActivitiesKept(s, t);
  }

  lemma DropMessageShape(s: State, i: nat)
    requires Shape(s)
    requires Doing(s, i) && s.acts[i].Drop?
    requires OnlyReply(s, i)
    ensures Shape(DropMessage(s, i)) && DropMessage(s, i).actors.Keys == s.actors.Keys
  {
    hide TableOk, ActivitiesOk;
    UseActivity(s, i);
    var t := DropMessage(s, i);
    TableKept(s, t);
    ActivitiesKept(s, t);
  }

  lemma AnsweredShape(s: State, i: nat)
    requires Shape(s)
    requires Doing(s, i) && s.acts[i].Reply?
    requires OnlyReply(s, i)
    ensures Shape(Answered(s, i)) && Answered(s, i).actors.Keys == s.actors.Keys
  {
    hide TableOk, ActivitiesOk;
    UseActivity(s, i);
    var t := Answered(s, i);
    TableKept(s, t);
    ActivitiesKept(s, t);
  }

  lemma FreeShape(s: State, i: nat)
    requires Shape(s)
    requires Doing(s, i) && s.acts[i].Emptied?
    ensures Shape(Free(s, i)) && Free(s, i).actors.Keys == s.actors.Keys
  {
    hide TableOk, ActivitiesOk;
    UseActivity(s, i);
    var t := Free(s, i);
    TableKept(s, t);
    ActivitiesKept(s, t);
  }

  lemma StartSendShape(s: State, to: Handle, msg: Message)
    requires Shape(s)
    ensures Shape(StartSend(s, to, msg)) && StartSend(s, to, msg).actors.Keys == s.actors.Keys
  {
    hide TableOk, ActivitiesOk;
    var t := StartSend(s, to, msg);
    TableKept(s, t);
    ActivitiesKept(s, t);
  }

  lemma PushMessageShape(s: State, i: nat)
    requires Shape(s)
    requires Doing(s, i) && s.acts[i].Sender?
    requires !s.actors[s.acts[i].a].release
    ensures Shape(PushMessage(s, i)) && PushMessage(s, i).actors.Keys == s.actors.Keys
  {
    hide TableOk, ActivitiesOk;
    UseActivity(s, i);
    var t := PushMessage(s, i);
    TableKept(s, t);
    ActivitiesKept(s, t);
  }

  lemma ReleaseShape(s: State, i: nat)
    requires Shape(s)
    requires Doing(s, i) && s.acts[i].Releaser?
    ensures Shape(Release(s, i)) && Release(s, i).actors.Keys == s.actors.Keys
  {
    hide TableOk, ActivitiesOk;
    UseActivity(s, i);
    var t := Release(s, i);
    TableKept(s, t);
    ActivitiesKept(s, t);
  }

  lemma MarkReleaseShape(s: State, i: nat)
    requires Shape(s)
    requires Doing(s, i) && s.acts[i].Deleter?
    ensures Shape(MarkRelease(s, i)) && MarkRelease(s, i).actors.Keys == s.actors.Keys
  {
    hide TableOk, ActivitiesOk;
    UseActivity(s, i);
    var t := MarkRelease(s, i);
    TableKept(s, t);
    ActivitiesKept(s, t);
  }

  lemma RetireShape(s: State, h: Handle)
    requires Shape(s)
    requires h in s.table ==> s.table[h] in s.actors
    ensures Shape(Retire(s, h)) && Retire(s, h).actors.Keys == s.actors.Keys
  {
    hide TableOk, ActivitiesOk;
    var t := Retire(s, h);
    TableKept(s, t);
    ActivitiesKept(s, t);
  }

  // The whole invariant, step by step.

  lemma Facts(s: State)
    requires Inv(s)
    ensures s.nextAct !in s.acts && s.nextAct + 1 !in s.acts
    ensures forall i :: i in s.acts ==> ActivityOk(s, i) && s.acts[i].a in s.actors
    ensures forall x :: x in s.actors ==> Ready(s, x)
    ensures forall q :: q in s.runq ==> q in s.actors
    ensures forall h :: h in s.table ==> s.table[h] in s.actors && s.actors[s.table[h]].handle == h
    ensures Shape(s)
  {
    hide ActorOk;
  }

  /** Two activities never own the same queue. */
  lemma QueueOwnersDiffer(s: State, i: nat, k: nat)
    requires Inv(s) && i in s.acts && k in s.acts && i != k
    requires s.acts[i].Owns(Queue, s.acts[i].a) && s.acts[k].Owns(Queue, s.acts[k].a)
    ensures s.acts[i].a != s.acts[k].a
  {
    Facts(s);
    var a := s.acts[i].a;
    assert OnePlace(s, a);
    if a == s.acts[k].a {
      TwoOwners(s.acts, i, k, Queue, a);
    }
  }

  lemma OthersReplyElsewhere(s: State, i: nat)
    requires Inv(s) && i in s.acts && (s.acts[i].Drop? || s.acts[i].Reply?)
    ensures OnlyReply(s, i)
  {
    forall k | k in s.acts && k != i && s.acts[k].Reply? ensures s.acts[k].a != s.acts[i].a {
      QueueOwnersDiffer(s, i, k);
    }
  }

  lemma OthersCallElsewhere(s: State, i: nat)
    requires Inv(s) && i in s.acts && s.acts[i].Run?
    ensures OnlyCall(s, i)
  {
    forall k | k in s.acts && k != i && s.acts[k].Call? ensures s.acts[k].a != s.acts[i].a {
      QueueOwnersDiffer(s, i, k);
    }
  }

  /** What a worker grabs by the handle of its queue is the context of that queue. */
  lemma GrabsOwnContext(s: State, a: ActorId, i: nat)
    requires Inv(s) && i in s.acts && s.acts[i].Worker? && a == s.acts[i].a && a in s.actors
    ensures Grabs(s, s.actors[a].handle) ==> s.table[s.actors[a].handle] == a && s.actors[a].init
  {
    NotLaunching(s.acts, i, a);
    Owner(s.acts, i, Queue, a);
    Facts(s);
    hide Count, Owners, Conserved;
    var h := s.actors[a].handle;
    if Grabs(s, h) {
      var b := s.table[h];
      assert OnePlace(s, a);
      assert Registered(s, b) && RefsCounted(s, b) && DeletedOnce(s, b);
    }
  }

  /** Whoever owns the queue without launching shows that nobody is launching, if there is one owner. */
  lemma NotLaunching(acts: map<nat, Activity>, i: nat, a: ActorId)
    requires i in acts && acts[i].Worker? && acts[i].a == a
    ensures Count(acts, Launching, a) < Count(acts, Queue, a)
  {
    var rest := Owners(acts, Queue, a) - {i};
    assert Owners(acts, Launching, a) <= rest;
    SubsetSize(Owners(acts, Launching, a), rest);
  }

  lemma SenderKeepsAlive(s: State, i: nat)
    requires Inv(s) && i in s.acts && s.acts[i].Sender?
    ensures s.acts[i].a in s.actors && !s.actors[s.acts[i].a].release
  {
    var a := s.acts[i].a;
    Facts(s);
    Owner(s.acts, i, Reference, a);
    assert RefsCounted(s, a) && DeletedOnce(s, a);
  }

  lemma NextShape(s: State, step: Step)
    requires Inv(s) && Enabled(s, step) && !step.DropReplyStep?
    ensures Shape(Next(s, step))
    ensures forall x :: x in Next(s, step).actors ==> x in s.actors || (step.LaunchStep? && x == step.a)
  {
    hide LaunchOk, LaunchFail, DiscardHandle, PopGlobal, Grab, ReleaseQueue, PopMessage, Return, EndSlice, Shape, Ready;
    hide PushBack, DropMessage, Free, StartSend, PushMessage, Release, MarkRelease, Retire, ActorOk, MayLaunch;
    hide Inv, ActivityOk, OnlyReply, OnlyCall, Activity.Owns;
    Facts(s);
    match step
    case LaunchStep(a, h) => LaunchShape(s, a, h);
    case LaunchOkStep(i) => LaunchOkShape(s, i);
    case LaunchFailStep(i) => LaunchFailShape(s, i);
    case DiscardStep(i) => DiscardShape(s, i);
    case PopGlobalStep => PopGlobalShape(s);
    case GrabStep(i) => { GrabsOwnContext(s, s.acts[i].a, i); GrabShape(s, i); }
    case ReleaseQueueStep(i) => ReleaseQueueShape(s, i);
    case PopMessageStep(i) => { OthersCallElsewhere(s, i); PopMessageShape(s, i); }
    case ReturnStep(i) => ReturnShape(s, i);
    case EndSliceStep(i) => EndSliceShape(s, i);
    case PushBackStep(i) => PushBackShape(s, i);
    case DropMessageStep(i) => { OthersReplyElsewhere(s, i); DropMessageShape(s, i); }
    case FreeStep(i) => FreeShape(s, i);
    case SendStep(to, msg) => StartSendShape(s, to, msg);
    case PushMessageStep(i) => { SenderKeepsAlive(s, i); PushMessageShape(s, i); }
    case ReleaseStep(i) => ReleaseShape(s, i);
    case MarkReleaseStep(i) => MarkReleaseShape(s, i);
    case RetireStep(h) => RetireShape(s, h);
  }

  lemma NextActor(s: State, step: Step, x: ActorId)
    requires Inv(s) && Enabled(s, step) && !step.DropReplyStep?
    requires x in s.actors || (step.LaunchStep? && x == step.a)
    ensures x in Next(s, step).actors ==> ActorOk(Next(s, step), x)
  {
    hide Inv, Shape, Activity.Owns;
    hide Launch, LaunchOk, LaunchFail, DiscardHandle, PopGlobal, Grab, ReleaseQueue, PopMessage, Return, EndSlice, Ready;
    hide PushBack, DropMessage, Free, StartSend, PushMessage, Release, MarkRelease, Retire, ActorOk, MayLaunch;
    Facts(s);
    match step
    case LaunchStep(a, h) => LaunchActor(s, a, h, x);
    case LaunchOkStep(i) => LaunchOkActor(s, i, x);
    case LaunchFailStep(i) => LaunchFailActor(s, i, x);
    case DiscardStep(i) => DiscardActor(s, i, x);
    case PopGlobalStep => PopGlobalActor(s, x);
    case GrabStep(i) => { GrabsOwnContext(s, s.acts[i].a, i); GrabActor(s, i, x); }
    case ReleaseQueueStep(i) => ReleaseQueueActor(s, i, x);
    case PopMessageStep(i) => PopMessageActor(s, i, x);
    case ReturnStep(i) => ReturnActor(s, i, x);
    case EndSliceStep(i) => EndSliceActor(s, i, x);
    case PushBackStep(i) => PushBackActor(s, i, x);
    case DropMessageStep(i) => DropMessageActor(s, i, x);
    case FreeStep(i) => FreeActor(s, i, x);
    case SendStep(to, msg) => StartSendActor(s, to, msg, x);
    case PushMessageStep(i) => PushMessageActor(s, i, x);
    case ReleaseStep(i) => ReleaseActor(s, i, x);
    case MarkReleaseStep(i) => MarkReleaseActor(s, i, x);
    case RetireStep(h) => RetireActor(s, h, x);
  }

  lemma AnsweredInv(s: State, i: nat)
    requires Inv(s) && Doing(s, i) && s.acts[i].Reply?
    ensures Inv(Answered(s, i))
  {
    Facts(s);
    OthersReplyElsewhere(s, i);
    AnsweredShape(s, i);
    hide Count, Owners, ActorOk, Shape, Ready, Answered;
    forall x | x in Answered(s, i).actors ensures ActorOk(Answered(s, i), x) {
      DropReplyActor(s, i, x);
    }
  }

  lemma OtherStepInv(s: State, step: Step)
    requires Inv(s) && Enabled(s, step) && !step.DropReplyStep?
    ensures Inv(Next(s, step))
  {
    hide Next, Enabled, ActorOk, Shape;
    NextShape(s, step);
    forall x | x in Next(s, step).actors ensures ActorOk(Next(s, step), x) {
      NextActor(s, step, x);
    }
  }

  lemma SendInv(s: State, to: Handle, msg: Message)
    requires Inv(s)
    ensures Inv(StartSend(s, to, msg))
  {
    hide Inv, StartSend;
    OtherStepInv(s, SendStep(to, msg));
  }

  lemma DropReplyInv(s: State, i: nat)
    requires Inv(s) && Doing(s, i) && s.acts[i].Reply?
    ensures Inv(DropReply(s, i))
  {
    AnsweredInv(s, i);
    hide Inv, Answered, StartSend;
    var msg := s.acts[i].msg;
    SendInv(Answered(s, i), msg.source, ErrorFor(s.actors[s.acts[i].a].handle, msg));
  }

  lemma NextInv(s: State, step: Step)
    requires Inv(s) && Enabled(s, step)
    ensures Inv(Next(s, step))
  {
    hide Inv;
    if step.DropReplyStep? {
      hide DropReply;
      DropReplyInv(s, step.i);
    } else {
      hide Next, Enabled;
      OtherStepInv(s, step);
    }
  }
}
