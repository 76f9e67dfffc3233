/** The invariant of the scheduler: who owns a queue, who holds a context, what became of each message. */
module SchedulerInvariant {

  import opened Basics
  import opened Scheduler

  // ---------------------------------------------------------------------------
  // Counting owners

  function Owners(acts: map<nat, Activity>, role: Role, x: ActorId): set<nat> {
    set i | i in acts && acts[i].Owns(role, x)
  }

  function Count(acts: map<nat, Activity>, role: Role, x: ActorId): nat {
    |Owners(acts, role, x)|
  }

  function One(b: bool): int { if b then 1 else 0 }

  lemma SpawnCounts(s: State, act: Activity, role: Role, x: ActorId)
    requires s.nextAct !in s.acts
    ensures Count(Spawn(s, act).acts, role, x) == Count(s.acts, role, x) + One(act.Owns(role, x))
  {
    hide Activity.Owns;
    var extra := if act.Owns(role, x) then {s.nextAct} else {};
    assert Owners(Spawn(s, act).acts, role, x) == Owners(s.acts, role, x) + extra;
  }

  lemma FinishCounts(s: State, i: nat, role: Role, x: ActorId)
    requires i in s.acts
    ensures Count(Finish(s, i).acts, role, x) == Count(s.acts, role, x) - One(s.acts[i].Owns(role, x))
  {
    assert Owners(Finish(s, i).acts, role, x) == Owners(s.acts, role, x) - {i};
  }

  // ---------------------------------------------------------------------------
  // The invariant

  /** The errors owed for a run of dropped messages. */
  function Errors(handle: Handle, msgs: seq<Message>): seq<Message> {
    if msgs == [] then []
    else
      var last := msgs[|msgs| - 1];
      Errors(handle, msgs[..|msgs| - 1]) + ErrorsFor(handle, last)
  }

  /** The handle table refers to actor x. */
  predicate Registered(s: State, x: ActorId)
    requires x in s.actors
  {
    s.actors[x].handle in s.table && s.table[s.actors[x].handle] == x
  }

  /** A live queue is linked once in the global list, or owned by one activity, or idle. */
  ghost predicate OnePlace(s: State, x: ActorId)
    requires x in s.actors
  {
    var r := s.actors[x];
    multiset(s.runq)[x] + Count(s.acts, Queue, x) + One(!r.inGlobal && !r.release) == One(!r.freed)
  }

  /** `ref` counts the table slot and the activities that hold the context. */
  ghost predicate RefsCounted(s: State, x: ActorId)
    requires x in s.actors
  {
    s.actors[x].ref == One(Registered(s, x)) + Count(s.acts, Reference, x)
  }

  /** The context is deleted once, when the count reaches zero, and mark_release follows once. */
  ghost predicate DeletedOnce(s: State, x: ActorId)
    requires x in s.actors
  {
    var r := s.actors[x];
    && r.deletions == One(r.ref == 0)
    && Count(s.acts, Deletion, x) == One(r.ref == 0 && !r.release)
    && (r.release ==> r.ref == 0)
    && (r.freed ==> r.release && r.contents == [])
  }

  /** Nothing pushed is lost, duplicated or reordered, and every drop is answered. */
  ghost predicate Conserved(s: State, x: ActorId)
    requires x in s.actors
  {
    var r := s.actors[x];
    var owed := Count(s.acts, Answer, x);
    && r.pushed == r.delivered + r.dropped + r.contents
    && (r.contents != [] ==> r.inGlobal)
    && (r.dropped != [] ==> r.release)
    && owed <= |r.dropped|
    && r.replies == Errors(r.handle, r.dropped[..|r.dropped| - owed])
  }

  /** A context whose init has not succeeded is still being launched, or can no longer be grabbed. */
  ghost predicate InitOk(s: State, x: ActorId)
    requires x in s.actors
  {
    s.actors[x].init || Count(s.acts, Launching, x) >= 1 || !Registered(s, x)
  }

  predicate IsLast(msg: Message, msgs: seq<Message>) {
    msgs != [] && msg == msgs[|msgs| - 1]
  }

  ghost predicate ActivityOk(s: State, i: nat)
    requires i in s.acts
  {
    var act := s.acts[i];
    && i < s.nextAct
    && act.a in s.actors
    && (act.Run? || act.Call? || act.Requeue? ==> act.ctx == act.a && s.actors[act.a].init)
    && (act.Drop? || act.Reply? || act.Emptied? ==> s.actors[act.a].release)
    && (act.Emptied? ==> s.actors[act.a].contents == [])
    && (act.Reply? ==> IsLast(act.msg, s.actors[act.a].dropped))
    && (act.Call? ==> IsLast(act.msg, s.actors[act.a].delivered))
  }

  ghost predicate ActorOk(s: State, x: ActorId)
    requires x in s.actors
  {
    OnePlace(s, x) && RefsCounted(s, x) && DeletedOnce(s, x) && Conserved(s, x) && InitOk(s, x)
  }

  ghost predicate TableOk(s: State) {
    && (forall h :: h in s.table ==> s.table[h] in s.actors && s.actors[s.table[h]].handle == h)
    && (forall x :: x in s.runq ==> x in s.actors)
    && (forall x :: x in s.actors ==> s.actors[x].handle != 0)
    && (forall x, y :: x in s.actors && y in s.actors && x != y && !s.actors[x].freed && !s.actors[y].freed
                       ==> s.actors[x].handle != s.actors[y].handle)
  }

  ghost predicate ActivitiesOk(s: State) {
    forall i :: i in s.acts ==> ActivityOk(s, i)
  }

  ghost predicate Shape(s: State) {
    TableOk(s) && ActivitiesOk(s)
  }

  ghost predicate Inv(s: State) {
    Shape(s) && forall x :: x in s.actors ==> ActorOk(s, x)
  }

  // ---------------------------------------------------------------------------
  // Every step keeps the invariant

  lemma Spawned(s: State, act: Activity, x: ActorId)
    requires s.nextAct !in s.acts
    ensures forall role :: Count(Spawn(s, act).acts, role, x) == Count(s.acts, role, x) + One(act.Owns(role, x))
  {
    forall role
      ensures Count(Spawn(s, act).acts, role, x) == Count(s.acts, role, x) + One(act.Owns(role, x))
    {
      SpawnCounts(s, act, role, x);
    }
  }

  lemma Finished(s: State, i: nat, x: ActorId)
    requires i in s.acts
    ensures forall role :: Count(Finish(s, i).acts, role, x) == Count(s.acts, role, x) - One(s.acts[i].Owns(role, x))
  {
    forall role
      ensures Count(Finish(s, i).acts, role, x) == Count(s.acts, role, x) - One(s.acts[i].Owns(role, x))
    {
      FinishCounts(s, i, role, x);
    }
  }

  lemma Owner(acts: map<nat, Activity>, i: nat, role: Role, x: ActorId)
    requires i in acts && acts[i].Owns(role, x)
    ensures Count(acts, role, x) >= 1
  {
    assert i in Owners(acts, role, x);
  }

  lemma TwoOwners(acts: map<nat, Activity>, i: nat, k: nat, role: Role, x: ActorId)
    requires i in acts && k in acts && i != k && acts[i].Owns(role, x) && acts[k].Owns(role, x)
    ensures Count(acts, role, x) >= 2
  {
    var rest := Owners(acts, role, x) - {i};
    assert k in rest;
    assert |rest| >= 1;
  }

  /** Whoever owns the queue without owing an answer shows that no answer is owed. */
  lemma NoAnswerOwed(acts: map<nat, Activity>, i: nat, x: ActorId)
    requires i in acts && acts[i].Owns(Queue, x) && !acts[i].Owns(Answer, x)
    ensures Count(acts, Answer, x) < Count(acts, Queue, x)
  {
    var rest := Owners(acts, Queue, x) - {i};
    assert Owners(acts, Answer, x) <= rest;
    SubsetSize(Owners(acts, Answer, x), rest);
  }

}
