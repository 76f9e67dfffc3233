/** Every step keeps what the invariant says of one actor. */
module SchedulerActors {

  import opened Basics
  import opened Scheduler
  import opened SchedulerInvariant

  // Actor by actor: x is any actor, changed by the step or not.

  ghost predicate Ready(s: State, x: ActorId) {
    s.nextAct !in s.acts && x in s.actors && ActorOk(s, x)
  }

  /** A step that concerns another actor. */
  lemma OtherActor(s: State, t: State, x: ActorId)
    requires Ready(s, x) && x in t.actors && t.actors[x] == s.actors[x]
    requires t.table == s.table && multiset(t.runq)[x] == multiset(s.runq)[x]
    requires forall role :: Count(t.acts, role, x) == Count(s.acts, role, x)
    ensures ActorOk(t, x)
  {
    hide Count, Errors;
  }

  lemma LaunchActor(s: State, a: ActorId, h: Handle, x: ActorId)
    requires MayLaunch(s, a, h) && s.nextAct !in s.acts && (x == a || Ready(s, x))
    requires forall i :: i in s.acts ==> s.acts[i].a in s.actors && ActivityOk(s, i)
    requires forall q :: q in s.runq ==> q in s.actors
    ensures ActorOk(Launch(s, a, h), x)
  {
    hide ActorOk, Count, ActivityOk;
    if x == a {
      forall i | i in s.acts ensures s.acts[i].a != a && !(s.acts[i].Owns(Reference, a)) { UsesOwn(s, i); }
      LaunchedActor(s, a, h);
    } else {
      EarlierActor(s, a, h, x);
    }
  }

  lemma UsesOwn(s: State, i: nat)
    requires i in s.acts && ActivityOk(s, i)
    ensures s.acts[i].Run? || s.acts[i].Call? || s.acts[i].Requeue? ==> s.acts[i].ctx == s.acts[i].a
  {}

  lemma LaunchedActor(s: State, a: ActorId, h: Handle)
    requires a !in s.actors && s.nextAct !in s.acts && a !in s.runq
    requires forall i :: i in s.acts ==> s.acts[i].a != a && !s.acts[i].Owns(Reference, a)
    ensures ActorOk(Launch(s, a, h), a)
  {
    hide Count, Owners, Errors, Conserved;
    forall role ensures Count(s.acts, role, a) == 0 { NobodyOwns(s.acts, role, a); }
    Spawned(s, Creator(a), a);
    assert Launch(s, a, h).acts == Spawn(s, Creator(a)).acts;
    NothingPushed(Launch(s, a, h), a);
  }

  lemma NothingPushed(s: State, a: ActorId)
    requires a in s.actors && Count(s.acts, Answer, a) == 0
    requires var r := s.actors[a];
             r.pushed == r.delivered == r.dropped == r.contents == [] && r.replies == []
    ensures Conserved(s, a)
  {
    hide Count;
    var none := s.actors[a].dropped;
    assert none[..0] == [];
  }

  lemma NobodyOwns(acts: map<nat, Activity>, role: Role, a: ActorId)
    requires forall i :: i in acts ==> acts[i].a != a && !acts[i].Owns(Reference, a)
    ensures Count(acts, role, a) == 0
  {
    assert Owners(acts, role, a) == {};
  }

  lemma EarlierActor(s: State, a: ActorId, h: Handle, x: ActorId)
    requires MayLaunch(s, a, h) && Ready(s, x)
    ensures ActorOk(Launch(s, a, h), x)
  {
    hide Count, Owners, Errors;
    Spawned(s, Creator(a), x);
  }

  lemma LaunchOkActor(s: State, i: nat, x: ActorId)
    requires Ready(s, x) && Doing(s, i) && s.acts[i].Creator?
    ensures ActorOk(LaunchOk(s, i), x)
  {
    hide Count, Owners;
    Finished(s, i, x);
    Spawned(Finish(s, i), Releaser(s.acts[i].a), x);
  }

  lemma LaunchFailActor(s: State, i: nat, x: ActorId)
    requires Ready(s, x) && i in s.acts && s.acts[i].Creator? && s.nextAct + 1 !in s.acts
    ensures ActorOk(LaunchFail(s, i), x)
  {
    hide Count, Owners;
    var a := s.acts[i].a;
    Finished(s, i, x);
    Spawned(Finish(s, i), Discard(a), x);
    Spawned(Become(s, i, Discard(a)), Releaser(a), x);
  }

  /** Retiring the handle comes first, so that nobody grabs the context that was not initialised. */
  lemma DiscardActor(s: State, i: nat, x: ActorId)
    requires Ready(s, x) && Doing(s, i) && s.acts[i].Discard? && s.nextAct + 1 !in s.acts
    requires forall h :: h in s.table ==> s.table[h] in s.actors && s.actors[s.table[h]].handle == h
    ensures ActorOk(DiscardHandle(s, i), x)
  {
    hide Count, Owners, Errors;
    var a := s.acts[i].a;
    var h := s.actors[a].handle;
    Finished(s, i, x);
    Spawned(Finish(s, i), Orphan(a), x);
    if h in s.table { Spawned(Become(s, i, Orphan(a)), Releaser(s.table[h]), x); }
  }

  lemma PopGlobalActor(s: State, x: ActorId)
    requires Ready(s, x) && s.runq != []
    ensures ActorOk(PopGlobal(s), x) && PopGlobal(s).actors == s.actors
    ensures PopGlobal(s).nextAct == s.nextAct + 1 && forall k :: k in s.acts && k != s.nextAct ==>
              k in PopGlobal(s).acts && PopGlobal(s).acts[k] == s.acts[k]
    ensures forall k :: k in PopGlobal(s).acts ==> k in s.acts || k == s.nextAct
  {
    hide Count, Owners, Errors, ActorOk;
    Spawned(s, Worker(s.runq[0]), x);
    assert multiset(s.runq)[x] == One(s.runq[0] == x) + multiset(s.runq[1..])[x] by {
      assert s.runq == [s.runq[0]] + s.runq[1..];
    }
    QueueMoves(s, PopGlobal(s), x);
  }

  lemma GrabActor(s: State, i: nat, x: ActorId)
    requires Ready(s, x) && Doing(s, i) && s.acts[i].Worker? && Ready(s, s.acts[i].a)
    requires Grabs(s, s.actors[s.acts[i].a].handle) ==> s.table[s.actors[s.acts[i].a].handle] == s.acts[i].a
    ensures ActorOk(Grab(s, i), x)
  {
    hide Count, Owners, Errors, ActorOk;
    var a := s.acts[i].a;
    var found := Grabs(s, s.actors[a].handle);
    Finished(s, i, x);
    Spawned(Finish(s, i), if found then Run(a, a) else Orphan(a), x);
    if x != a {
      OtherActor(s, Grab(s, i), x);
    } else if found {
      OneMoreHolder(s, Grab(s, i), a);
    } else {
      QueueMoves(s, Grab(s, i), a);
    }
  }

  /** A registered context is grabbed: one more activity holds it. */
  lemma OneMoreHolder(s: State, t: State, a: ActorId)
    requires Ready(s, a) && a in t.actors && t.table == s.table && t.runq == s.runq && Registered(s, a)
    requires t.actors[a] == s.actors[a].(ref := s.actors[a].ref + 1)
    requires forall role :: Count(t.acts, role, a) == Count(s.acts, role, a) + One(role == Reference)
    ensures ActorOk(t, a)
  {
    hide Count, Errors;
    assert s.actors[a].ref >= 1;
  }

  lemma ReleaseQueueActor(s: State, i: nat, x: ActorId)
    requires Ready(s, x) && Doing(s, i) && s.acts[i].Orphan?
    ensures ActorOk(ReleaseQueue(s, i), x)
  {
    hide Count, Owners, Errors, ActorOk;
    var a := s.acts[i].a;
    Finished(s, i, x);
    Spawned(Finish(s, i), Drop(a), x);
    if x != a {
      OtherActor(s, ReleaseQueue(s, i), x);
    } else {
      QueueMoves(s, ReleaseQueue(s, i), a);
    }
  }

  /** The queue of an actor passes from its owner to another, or to the global list. */
  lemma QueueMoves(s: State, t: State, a: ActorId)
    requires Ready(s, a) && t.actors == s.actors && t.table == s.table
    requires multiset(t.runq)[a] + Count(t.acts, Queue, a) == multiset(s.runq)[a] + Count(s.acts, Queue, a)
    requires forall role :: role != Queue ==> Count(t.acts, role, a) == Count(s.acts, role, a)
    ensures ActorOk(t, a)
  {
    hide Count, Errors;
  }

  lemma PopMessageActor(s: State, i: nat, x: ActorId)
    requires Ready(s, x) && Doing(s, i) && s.acts[i].Run? && s.acts[i].ctx == s.acts[i].a && Ready(s, s.acts[i].a)
    ensures ActorOk(PopMessage(s, i), x)
  {
    hide Count, Owners, Errors, ActorOk;
    var a := s.acts[i].a;
    var r := s.actors[a];
    Finished(s, i, x);
    Spawned(Finish(s, i), if r.contents != [] then Call(a, a, r.contents[0]) else Releaser(a), x);
    if x != a {
      OtherActor(s, PopMessage(s, i), x);
    } else {
      Owner(s.acts, i, Queue, a);
      Owner(s.acts, i, Reference, a);
      PopMessageSelf(s, PopMessage(s, i), a);
    }
  }

  lemma PopMessageSelf(s: State, t: State, a: ActorId)
    requires Ready(s, a) && a in t.actors && t.table == s.table && t.runq == s.runq
    requires Count(s.acts, Queue, a) >= 1 && Count(s.acts, Reference, a) >= 1
    requires var r := s.actors[a];
             t.actors[a] == if r.contents == [] then r.(inGlobal := false)
                            else r.(contents := r.contents[1..], delivered := r.delivered + [r.contents[0]])
    requires forall role :: Count(t.acts, role, a)
                == Count(s.acts, role, a) - One(role == Queue && s.actors[a].contents == [])
    ensures ActorOk(t, a)
  {
    hide Count, Errors;
    var r := s.actors[a];
    assert r.dropped == [];
    if r.contents != [] {
      assert r.contents == [r.contents[0]] + r.contents[1..];
    }
  }

  lemma ReturnActor(s: State, i: nat, x: ActorId)
    requires Ready(s, x) && i in s.acts && s.acts[i].Call?
    ensures ActorOk(Return(s, i), x)
  {
    hide Count, Owners;
    Finished(s, i, x);
    Spawned(Finish(s, i), Run(s.acts[i].a, s.acts[i].ctx), x);
  }

  lemma EndSliceActor(s: State, i: nat, x: ActorId)
    requires Ready(s, x) && i in s.acts && s.acts[i].Run?
    requires s.nextAct + 1 !in s.acts
    ensures ActorOk(EndSlice(s, i), x)
  {
    hide Count, Owners, ActorOk, PopGlobal;
    var a, c := s.acts[i].a, s.acts[i].ctx;
    if s.runq == [] {
      KeepQueueActor(s, i, x);
    } else {
      PopGlobalActor(s, x);
      TakeNextActor(PopGlobal(s), i, x);
    }
  }

  lemma KeepQueueActor(s: State, i: nat, x: ActorId)
    requires Ready(s, x) && i in s.acts && s.acts[i].Run?
    requires s.nextAct + 1 !in s.acts
    ensures ActorOk(Spawn(Become(s, i, Worker(s.acts[i].a)), Releaser(s.acts[i].ctx)), x)
  {
    hide Count, Owners;
    var a, c := s.acts[i].a, s.acts[i].ctx;
    Finished(s, i, x);
    Spawned(Finish(s, i), Worker(a), x);
    Spawned(Become(s, i, Worker(a)), Releaser(c), x);
  }

  lemma TakeNextActor(s: State, i: nat, x: ActorId)
    requires Ready(s, x) && i in s.acts && s.acts[i].Run?
    ensures ActorOk(Become(s, i, Requeue(s.acts[i].a, s.acts[i].ctx)), x)
  {
    hide Count, Owners;
    Finished(s, i, x);
    Spawned(Finish(s, i), Requeue(s.acts[i].a, s.acts[i].ctx), x);
  }

  lemma PushBackActor(s: State, i: nat, x: ActorId)
    requires Ready(s, x) && i in s.acts && s.acts[i].Requeue?
    ensures ActorOk(PushBack(s, i), x)
  {
    hide Count, Owners;
    Finished(s, i, x);
    Spawned(Finish(s, i), Releaser(s.acts[i].ctx), x);
  }

  lemma DropMessageActor(s: State, i: nat, x: ActorId)
    requires Ready(s, x) && Doing(s, i) && s.acts[i].Drop? && Ready(s, s.acts[i].a) && s.actors[s.acts[i].a].release
    ensures ActorOk(DropMessage(s, i), x)
  {
    hide Count, Owners, Errors;
    var a := s.acts[i].a;
    var r := s.actors[a];
    var act := if r.contents != [] then Reply(a, r.contents[0]) else Emptied(a);
    Finished(s, i, x);
    Spawned(Finish(s, i), act, x);
    if x != a {
      hide ActorOk;
      OtherActor(s, DropMessage(s, i), x);
    } else {
      NoAnswerOwed(s.acts, i, a);
      DropMessageSelf(s, DropMessage(s, i), a);
    }
  }

  lemma DropMessageSelf(s: State, t: State, a: ActorId)
    requires Ready(s, a) && a in t.actors && t.runq == s.runq && t.table == s.table
    requires s.actors[a].release && Count(s.acts, Answer, a) < Count(s.acts, Queue, a)
    requires var r := s.actors[a];
             t.actors[a] == if r.contents == [] then r.(inGlobal := false)
                            else r.(contents := r.contents[1..], dropped := r.dropped + [r.contents[0]])
    requires forall role :: Count(t.acts, role, a)
                == Count(s.acts, role, a) + One(role == Answer && s.actors[a].contents != [])
    ensures ActorOk(t, a)
  {
    hide Count, Errors;
    var r := s.actors[a];
    if r.contents != [] {
      assert r.contents == [r.contents[0]] + r.contents[1..];
      assert (r.dropped + [r.contents[0]])[..|r.dropped|] == r.dropped[..|r.dropped|];
    }
  }

  lemma DropReplyActor(s: State, i: nat, x: ActorId)
    requires Ready(s, x) && Doing(s, i) && s.acts[i].Reply? && Ready(s, s.acts[i].a) && ActivityOk(s, i)
    ensures ActorOk(Answered(s, i), x)
  {
    hide Count, Owners, Errors, ActorOk;
    var a := s.acts[i].a;
    Finished(s, i, x);
    Spawned(Finish(s, i), Drop(a), x);
    if x != a {
      OtherActor(s, Answered(s, i), x);
    } else {
      Owner(s.acts, i, Answer, a);
      AnswersAreOwners(s.acts, a);
      AnsweredSelf(s, Answered(s, i), a, s.acts[i].msg);
    }
  }

  lemma AnsweredSelf(s: State, t: State, a: ActorId, msg: Message)
    requires Ready(s, a) && a in t.actors && t.table == s.table && t.runq == s.runq
    requires 1 <= Count(s.acts, Answer, a) <= Count(s.acts, Queue, a)
    requires s.actors[a].dropped != [] && msg == s.actors[a].dropped[|s.actors[a].dropped| - 1]
    requires t.actors[a] == s.actors[a].(replies := s.actors[a].replies + ErrorsFor(s.actors[a].handle, msg))
    requires forall role :: Count(t.acts, role, a) == Count(s.acts, role, a) - One(role == Answer)
    ensures ActorOk(t, a)
  {
    hide Count;
    var d := s.actors[a].dropped;
    assert d[..|d|] == d;
  }

  lemma AnswersAreOwners(acts: map<nat, Activity>, x: ActorId)
    ensures Count(acts, Answer, x) <= Count(acts, Queue, x)
  {
    SubsetSize(Owners(acts, Answer, x), Owners(acts, Queue, x));
  }

  lemma FreeActor(s: State, i: nat, x: ActorId)
    requires Ready(s, x) && Doing(s, i) && s.acts[i].Emptied? && Ready(s, s.acts[i].a) && ActivityOk(s, i)
    ensures ActorOk(Free(s, i), x)
  {
    Owner(s.acts, i, Queue, s.acts[i].a);
    hide Count, Owners, Errors;
    Finished(s, i, x);
  }

  lemma StartSendActor(s: State, to: Handle, msg: Message, x: ActorId)
    requires Ready(s, x) && (Grabs(s, to) ==> Ready(s, s.table[to]) && s.actors[s.table[to]].handle == to)
    ensures ActorOk(StartSend(s, to, msg), x)
  {
    hide Count, Owners, Errors;
    if Grabs(s, to) {
      Spawned(s, Sender(s.table[to], msg), x);
      assert Registered(s, s.table[to]);
    }
  }

  lemma PushMessageActor(s: State, i: nat, x: ActorId)
    requires Ready(s, x) && Doing(s, i) && s.acts[i].Sender? && Ready(s, s.acts[i].a)
    ensures ActorOk(PushMessage(s, i), x)
  {
    hide Count, Owners, Errors, ActorOk;
    var a := s.acts[i].a;
    Finished(s, i, x);
    Spawned(Finish(s, i), Releaser(a), x);
    if x != a {
      OtherActor(s, PushMessage(s, i), x);
    } else {
      Owner(s.acts, i, Reference, a);
      PushMessageSelf(s, PushMessage(s, i), a, s.acts[i].msg);
    }
  }

  lemma PushMessageSelf(s: State, t: State, a: ActorId, msg: Message)
    requires Ready(s, a) && a in t.actors && t.table == s.table && Count(s.acts, Reference, a) >= 1
    requires var r := s.actors[a];
             && t.actors[a] == r.(contents := r.contents + [msg], pushed := r.pushed + [msg], inGlobal := true)
             && t.runq == if r.inGlobal then s.runq else s.runq + [a]
    requires forall role :: Count(t.acts, role, a) == Count(s.acts, role, a)
    ensures ActorOk(t, a)
  {
    hide Count, Errors;
  }

  lemma ReleaseActor(s: State, i: nat, x: ActorId)
    requires Ready(s, x) && Doing(s, i) && s.acts[i].Releaser? && Ready(s, s.acts[i].a)
    ensures ActorOk(Release(s, i), x)
  {
    var a := s.acts[i].a;
    hide Count, Owners, Errors;
    Finished(s, i, x);
    Spawned(Finish(s, i), Deleter(a), x);
    if x != a {
      hide ActorOk;
      OtherActor(s, Release(s, i), x);
    } else {
      Owner(s.acts, i, Reference, a);
      ReleaseSelf(s, Release(s, i), a);
    }
  }

  lemma ReleaseSelf(s: State, t: State, a: ActorId)
    requires Ready(s, a) && a in t.actors && t.table == s.table && t.runq == s.runq
    requires Count(s.acts, Reference, a) >= 1
    requires var r := s.actors[a];
             t.actors[a] == r.(ref := r.ref - 1, deletions := r.deletions + if r.ref == 1 then 1 else 0)
    requires forall role :: Count(t.acts, role, a)
                == Count(s.acts, role, a) - One(role == Reference) + One(role == Deletion && s.actors[a].ref == 1)
    ensures ActorOk(t, a)
  {
    hide Count, Errors;
  }

  lemma MarkReleaseActor(s: State, i: nat, x: ActorId)
    requires Ready(s, x) && Doing(s, i) && s.acts[i].Deleter? && Ready(s, s.acts[i].a)
    ensures ActorOk(MarkRelease(s, i), x)
  {
    Owner(s.acts, i, Deletion, s.acts[i].a);
    hide Count, Owners, Errors;
    Finished(s, i, x);
  }

  lemma RetireActor(s: State, h: Handle, x: ActorId)
    requires Ready(s, x) && (h in s.table ==> s.table[h] in s.actors && s.actors[s.table[h]].handle == h)
    ensures ActorOk(Retire(s, h), x)
  {
    hide Count, Owners, Errors;
    if h in s.table {
      Spawned(s, Releaser(s.table[h]), x);
    }
  }
}
