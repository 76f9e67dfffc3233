/** Where every message comes from: what is pushed to a queue is what was sent to it, and nothing else. */
module SchedulerMail {

  import opened Basics
  import opened Scheduler
  import opened SchedulerInvariant
  import opened SchedulerSteps
  import opened SchedulerRuns

  /** The activities that carry one message to one actor. */
  function Carriers(acts: map<nat, Activity>, x: ActorId, m: Message): set<nat> {
    set i | i in acts && acts[i] == Sender(x, m)
  }

  function Carried(acts: map<nat, Activity>, x: ActorId, m: Message): nat {
    |Carriers(acts, x, m)|
  }

  function Pushed(s: State, x: ActorId, m: Message): nat {
    if x in s.actors then multiset(s.actors[x].pushed)[m] else 0
  }

  /** Accepted by the queue of x, or on the way to it. */
  function Arrived(s: State, x: ActorId, m: Message): nat {
    Pushed(s, x, m) + Carried(s.acts, x, m)
  }

  /**
    A step hands message m to actor x: somebody sends it to the handle of x, or x is the source of a
    message that is dropped, and m is the error for it: from the handle of the dead service, with the
    session of the message.
   */
  predicate Hands(s: State, step: Step, x: ActorId, m: Message) {
    match step
    case SendStep(to, msg) => to in s.table && s.table[to] == x && msg == m
    case DropReplyStep(i) =>
      && Doing(s, i) && s.acts[i].Reply?
      && (var lost := s.acts[i].msg;
          && lost.source in s.table && s.table[lost.source] == x
          && m == Message(s.actors[s.acts[i].a].handle, lost.session, true, 0))
    case _ => false
  }

  /** How often message m has been handed to actor x before state j. */
  function Handed(states: seq<State>, steps: seq<Step>, j: nat, x: ActorId, m: Message): nat
    requires j <= |steps| < |states|
  {
    if j == 0 then 0
    else Handed(states, steps, j - 1, x, m) + if Hands(states[j - 1], steps[j - 1], x, m) then 1 else 0
  }

  lemma SpawnCarries(s: State, act: Activity, x: ActorId, m: Message)
    requires s.nextAct !in s.acts
    ensures Carried(Spawn(s, act).acts, x, m) == Carried(s.acts, x, m) + One(act == Sender(x, m))
  {
    var extra := if act == Sender(x, m) then {s.nextAct} else {};
    assert Carriers(Spawn(s, act).acts, x, m) == Carriers(s.acts, x, m) + extra;
  }

  lemma FinishCarries(s: State, i: nat, x: ActorId, m: Message)
    requires i in s.acts
    ensures Carried(Finish(s, i).acts, x, m) == Carried(s.acts, x, m) - One(s.acts[i] == Sender(x, m))
  {
    assert Carriers(Finish(s, i).acts, x, m) == Carriers(s.acts, x, m) - {i};
  }

  lemma BecomeCarries(s: State, i: nat, act: Activity, x: ActorId, m: Message)
    requires i in s.acts && s.nextAct !in s.acts
    ensures Carried(Become(s, i, act).acts, x, m)
         == Carried(s.acts, x, m) - One(s.acts[i] == Sender(x, m)) + One(act == Sender(x, m))
  {
    FinishCarries(s, i, x, m);
    SpawnCarries(Finish(s, i), act, x, m);
  }

  /** Carriers depend on the activities only. */
  lemma SameActs(s: State, t: State, x: ActorId, m: Message)
    requires s.acts == t.acts && Pushed(s, x, m) == Pushed(t, x, m)
    ensures Arrived(s, x, m) == Arrived(t, x, m)
  {}

  lemma StartSendHands(s: State, to: Handle, msg: Message, x: ActorId, m: Message)
    requires s.nextAct !in s.acts && (to in s.table ==> s.table[to] in s.actors)
    ensures Arrived(StartSend(s, to, msg), x, m)
         == Arrived(s, x, m) + One(to in s.table && s.table[to] == x && msg == m)
  {
    hide Carried;
    if Grabs(s, to) { SpawnCarries(AddRef(s, to), Sender(s.table[to], msg), x, m); }
  }

  lemma PushArrives(s: State, i: nat, x: ActorId, m: Message)
    requires Doing(s, i) && s.acts[i].Sender? && s.nextAct !in s.acts
    ensures Arrived(PushMessage(s, i), x, m) == Arrived(s, x, m)
  {
    var a, msg := s.acts[i].a, s.acts[i].msg;
    hide Carried;
    BecomeCarries(s, i, Releaser(a), x, m);
    assert PushMessage(s, i).acts == Become(s, i, Releaser(a)).acts;
    assert PushMessage(s, i).actors[a].pushed == s.actors[a].pushed + [msg];
  }

  lemma AnsweredArrives(s: State, i: nat, x: ActorId, m: Message)
    requires Doing(s, i) && s.acts[i].Reply? && s.nextAct !in s.acts
    ensures Arrived(Answered(s, i), x, m) == Arrived(s, x, m)
  {
    hide Carried;
    BecomeCarries(s, i, Drop(s.acts[i].a), x, m);
    assert Answered(s, i).acts == Become(s, i, Drop(s.acts[i].a)).acts;
  }

  /** A step that sends nothing: the messages on the way and those accepted stay as they were. */
  ghost predicate Quiet(s: State, t: State) {
    && (forall k :: k in s.acts && s.acts[k].Sender? ==> k in t.acts && t.acts[k] == s.acts[k])
    && (forall k :: k in t.acts && t.acts[k].Sender? ==> k in s.acts && t.acts[k] == s.acts[k])
    && (forall x :: x in s.actors ==> x in t.actors && t.actors[x].pushed == s.actors[x].pushed)
    && (forall x :: x in t.actors && x !in s.actors ==> t.actors[x].pushed == [])
  }

  lemma QuietArrives(s: State, t: State, x: ActorId, m: Message)
    requires Quiet(s, t)
    ensures Arrived(t, x, m) == Arrived(s, x, m)
  {
    assert Carriers(t.acts, x, m) == Carriers(s.acts, x, m);
    hide Carriers;
  }

  lemma LaunchQuiet(s: State, a: ActorId, h: Handle)
    requires MayLaunch(s, a, h) && s.nextAct !in s.acts && s.nextAct + 1 !in s.acts
    ensures Quiet(s, Launch(s, a, h))
  {}

  lemma LaunchOkQuiet(s: State, i: nat)
    requires Doing(s, i) && s.acts[i].Creator? && s.nextAct !in s.acts && s.nextAct + 1 !in s.acts
    ensures Quiet(s, LaunchOk(s, i))
  {}

  lemma LaunchFailQuiet(s: State, i: nat)
    requires Doing(s, i) && s.acts[i].Creator? && s.nextAct !in s.acts && s.nextAct + 1 !in s.acts
    ensures Quiet(s, LaunchFail(s, i))
  {}

  lemma DiscardHandleQuiet(s: State, i: nat)
    requires Doing(s, i) && s.acts[i].Discard? && s.nextAct !in s.acts && s.nextAct + 1 !in s.acts
    ensures Quiet(s, DiscardHandle(s, i))
  {}

  lemma GrabQuiet(s: State, i: nat)
    requires Doing(s, i) && s.acts[i].Worker? && s.nextAct !in s.acts && s.nextAct + 1 !in s.acts
    ensures Quiet(s, Grab(s, i))
  {}

  lemma ReleaseQueueQuiet(s: State, i: nat)
    requires Doing(s, i) && s.acts[i].Orphan? && s.nextAct !in s.acts && s.nextAct + 1 !in s.acts
    ensures Quiet(s, ReleaseQueue(s, i))
  {}

  lemma PopMessageQuiet(s: State, i: nat)
    requires Doing(s, i) && s.acts[i].Run? && s.nextAct !in s.acts && s.nextAct + 1 !in s.acts
    ensures Quiet(s, PopMessage(s, i))
  {}

  lemma EndSliceQuiet(s: State, i: nat)
    requires Doing(s, i) && s.acts[i].Run? && s.nextAct !in s.acts && s.nextAct + 1 !in s.acts
    ensures Quiet(s, EndSlice(s, i))
  {}

  lemma DropMessageQuiet(s: State, i: nat)
    requires Doing(s, i) && s.acts[i].Drop? && s.nextAct !in s.acts && s.nextAct + 1 !in s.acts
    ensures Quiet(s, DropMessage(s, i))
  {}

  lemma ReleaseQuiet(s: State, i: nat)
    requires Doing(s, i) && s.acts[i].Releaser? && s.nextAct !in s.acts && s.nextAct + 1 !in s.acts
    ensures Quiet(s, Release(s, i))
  {}

  lemma MarkReleaseQuiet(s: State, i: nat)
    requires Doing(s, i) && s.acts[i].Deleter? && s.nextAct !in s.acts && s.nextAct + 1 !in s.acts
    ensures Quiet(s, MarkRelease(s, i))
  {}

  lemma OthersQuiet(s: State, step: Step)
    requires Enabled(s, step) && s.nextAct !in s.acts
    requires step.PopGlobalStep? || step.ReturnStep? || step.PushBackStep? || step.FreeStep? || step.RetireStep?
    ensures Quiet(s, Next(s, step))
  {
    hide Launch, LaunchOk, Grab, PopMessage, DropMessage, DropReply, StartSend, PushMessage, Release, MarkRelease;
    hide LaunchFail, DiscardHandle, ReleaseQueue, EndSlice;
  }

  lemma FreshIds(s: State)
    requires Inv(s)
    ensures s.nextAct !in s.acts && s.nextAct + 1 !in s.acts && forall h :: h in s.table ==> s.table[h] in s.actors
  {
    hide Inv;
    Facts(s);
  }

  lemma QuietSteps(s: State, step: Step)
    requires Inv(s) && Enabled(s, step) && !step.SendStep? && !step.DropReplyStep? && !step.PushMessageStep?
    ensures Quiet(s, Next(s, step))
  {
    hide Launch, LaunchOk, LaunchFail, DiscardHandle, PopGlobal, Grab, ReleaseQueue, PopMessage, Return, EndSlice;
    hide PushBack, DropMessage, DropReply, Free, StartSend, PushMessage, Release, MarkRelease, Retire;
    hide MayLaunch, Quiet, Inv, Doing;
    FreshIds(s);
    match step
    case LaunchStep(a, h) => LaunchQuiet(s, a, h);
    case LaunchOkStep(i) => LaunchOkQuiet(s, i);
    case LaunchFailStep(i) => LaunchFailQuiet(s, i);
    case DiscardStep(i) => DiscardHandleQuiet(s, i);
    case GrabStep(i) => GrabQuiet(s, i);
    case ReleaseQueueStep(i) => ReleaseQueueQuiet(s, i);
    case PopMessageStep(i) => PopMessageQuiet(s, i);
    case EndSliceStep(i) => EndSliceQuiet(s, i);
    case DropMessageStep(i) => DropMessageQuiet(s, i);
    case ReleaseStep(i) => ReleaseQuiet(s, i);
    case MarkReleaseStep(i) => MarkReleaseQuiet(s, i);
    case _ => OthersQuiet(s, step);
  }

  /** A step changes what has arrived by what it hands over. */
  lemma StepArrives(s: State, step: Step, x: ActorId, m: Message)
    requires Inv(s) && Enabled(s, step)
    ensures Arrived(Next(s, step), x, m) == Arrived(s, x, m) + One(Hands(s, step, x, m))
  {
    hide Launch, LaunchOk, LaunchFail, DiscardHandle, PopGlobal, Grab, ReleaseQueue, PopMessage, Return, EndSlice;
    hide PushBack, DropMessage, Free, StartSend, PushMessage, Release, MarkRelease, Retire, Answered;
    hide MayLaunch, Quiet, Inv, Arrived, Doing;
    FreshIds(s);
    match step
    case SendStep(to, msg) => StartSendHands(s, to, msg, x, m);
    case PushMessageStep(i) => PushArrives(s, i, x, m);
    case DropReplyStep(i) => ReplyHands(s, i, x, m);
    case _ => {
      QuietSteps(s, step);
      QuietArrives(s, Next(s, step), x, m);
    }
  }

  lemma ReplyHands(s: State, i: nat, x: ActorId, m: Message)
    requires Inv(s) && Doing(s, i) && s.acts[i].Reply?
    ensures Arrived(DropReply(s, i), x, m) == Arrived(s, x, m) + One(Hands(s, DropReplyStep(i), x, m))
  {
    hide Answered, Arrived, Inv, StartSend;
    AnsweredReady(s, i);
    AnsweredArrives(s, i, x, m);
    NoHandleZero(s);
    var lost := s.acts[i].msg;
    if lost.source != 0 {
      StartSendHands(Answered(s, i), lost.source, ErrorFor(s.actors[s.acts[i].a].handle, lost), x, m);
    }
  }

  lemma AnsweredReady(s: State, i: nat)
    requires Inv(s) && Doing(s, i) && s.acts[i].Reply?
    ensures var t := Answered(s, i);
            && s.nextAct !in s.acts && t.nextAct !in t.acts && t.table == s.table
            && forall h :: h in t.table ==> t.table[h] in t.actors
  {
    AnsweredInv(s, i);
    assert Answered(s, i).table == s.table;
    hide Inv, Answered;
    Facts(s);
    Facts(Answered(s, i));
  }

  lemma NoHandleZero(s: State)
    requires Inv(s)
    ensures 0 !in s.table
  {
    hide ActorOk, ActivitiesOk;
  }

  /**
    In every state of every run, what the queue of an actor has accepted and what is still on its
    way to it is exactly what has been handed to it: each message sent to its handle while that was
    registered, and one error for each of its messages that was dropped, with the session it waits for.
   */
  lemma {:induction false} AllMailAccounted(states: seq<State>, steps: seq<Step>, j: nat, x: ActorId, m: Message)
    requires IsRun(states, steps) && j < |states|
    ensures Pushed(states[j], x, m) + Carried(states[j].acts, x, m) == Handed(states, steps, j, x, m)
  {
    hide Inv, Next, Enabled, Hands, Arrived;
    if j == 0 {
      assert Carriers(states[0].acts, x, m) == {};
    } else {
      AllMailAccounted(states, steps, j - 1, x, m);
      ArrivedIs(states[j - 1], x, m);
      ArrivedIs(states[j], x, m);
      EveryStateInv(states, steps, j - 1);
      RunStep(states, steps, j - 1);
      StepArrives(states[j - 1], steps[j - 1], x, m);
    }
  }

  lemma ArrivedIs(s: State, x: ActorId, m: Message)
    ensures Arrived(s, x, m) == Pushed(s, x, m) + Carried(s.acts, x, m)
  {}
}
