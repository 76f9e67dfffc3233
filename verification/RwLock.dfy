/**
  The reader/writer spin lock of rwlock.h as a system of interleaved steps of any number of
  threads. Each atomic load, store, increment, decrement or compare-and-swap is one step;
  atomics are sequentially consistent.
 */
module RwLock {

  type Thread = nat

  /** Where a thread is. */
  datatype Pc =
    | Outside
    | WaitWriter    // rwlock_rlock: while (write) {}
    | Increment     // about to do ++read
    | CheckWriter   // incremented, about to look at write again
    | BackOff       // a writer came: about to do --read
    | Reading       // inside the read section; the next step is rwlock_runlock
    | Acquire       // rwlock_wlock: CAS(write, 0, 1)
    | WaitReaders   // while (read) {}
    | Writing       // inside the write section; the next step is rwlock_wunlock
  {
    /** The increment of `read` has been done and not undone. */
    predicate Counted() {
      CheckWriter? || BackOff? || Reading?
    }

    predicate HoldsWrite() {
      WaitReaders? || Writing?
    }
  }

  datatype State = State(write: int, read: int, pcs: map<Thread, Pc>)

  const Init := State(0, 0, map[])

  function PcOf(s: State, t: Thread): Pc {
    if t in s.pcs then s.pcs[t] else Outside
  }

  function Go(s: State, t: Thread, pc: Pc): State {
    s.(pcs := s.pcs[t := pc])
  }

  datatype Step = StartRead(t: Thread) | StartWrite(t: Thread) | Advance(t: Thread)

  predicate Enabled(s: State, step: Step) {
    match step
    case StartRead(t) => PcOf(s, t).Outside?
    case StartWrite(t) => PcOf(s, t).Outside?
    case Advance(t) => !PcOf(s, t).Outside?
  }

  function Next(s: State, step: Step): State
    requires Enabled(s, step)
  {
    match step
    case StartRead(t) => Go(s, t, WaitWriter)
    case StartWrite(t) => Go(s, t, Acquire)
    case Advance(t) =>
      match PcOf(s, t)
      case WaitWriter => if s.write != 0 then s else Go(s, t, Increment)
      case Increment => Go(s, t, CheckWriter).(read := s.read + 1)
      case CheckWriter => Go(s, t, if s.write != 0 then BackOff else Reading)
      case BackOff => Go(s, t, WaitWriter).(read := s.read - 1)
      case Reading => Go(s, t, Outside).(read := s.read - 1)
      case Acquire => if s.write == 0 then Go(s, t, WaitReaders).(write := 1) else s
      case WaitReaders => if s.read != 0 then s else Go(s, t, Writing)
      case Writing => Go(s, t, Outside).(write := 0)
  }

  // ---------------------------------------------------------------------------
  // The invariant

  function Counted(s: State): set<Thread> {
    set t | t in s.pcs && s.pcs[t].Counted()
  }

  ghost predicate Inv(s: State) {
    && s.read == |Counted(s)|
    && (s.write == 0 || s.write == 1)
    && (s.write == 0 ==> forall t :: !PcOf(s, t).HoldsWrite())
    && (s.write == 1 ==> exists t :: PcOf(s, t).HoldsWrite())
    && (forall t, u :: PcOf(s, t).HoldsWrite() && PcOf(s, u).HoldsWrite() ==> t == u)
    && (forall t, u :: PcOf(s, t).Writing? ==> !PcOf(s, u).Reading?)
  }

  lemma GoCounted(s: State, t: Thread, pc: Pc)
    ensures Counted(Go(s, t, pc)) == if pc.Counted() then Counted(s) + {t} else Counted(s) - {t}
    ensures PcOf(s, t).Counted() <==> t in Counted(s)
  {}

  lemma StepInv(s: State, step: Step)
    requires Inv(s) && Enabled(s, step)
    ensures Inv(Next(s, step))
  {
    hide Next;
    CountMoves(s, step);
    HolderMoves(s, step);
    forall x, u ensures PcOf(Next(s, step), x).Writing? ==> !PcOf(Next(s, step), u).Reading? {
      WriterAlone(s, step, x, u);
    }
  }

  /** Whoever starts writing has found no reader counted, and holds the flag a reader looks at. */
  lemma WriterAlone(s: State, step: Step, x: Thread, u: Thread)
    requires Inv(s) && Enabled(s, step)
    ensures PcOf(Next(s, step), x).Writing? ==> !PcOf(Next(s, step), u).Reading?
  {
    hide Counted;
    ReaderCounted(s, u);
    assert PcOf(s, x).Writing? ==> !PcOf(s, u).Reading?;
    assert s.write == 0 ==> !PcOf(s, x).HoldsWrite();
  }

  lemma ReaderCounted(s: State, u: Thread)
    ensures PcOf(s, u).Reading? ==> |Counted(s)| > 0
  {
    if PcOf(s, u).Reading? { assert u in Counted(s); }
  }

  lemma CountMoves(s: State, step: Step)
    requires s.read == |Counted(s)| && Enabled(s, step)
    ensures Next(s, step).read == |Counted(Next(s, step))|
  {
    hide Counted;
    var s' := Next(s, step);
    GoCounts(s, step.t, PcOf(s', step.t));
    SamePcs(s', Go(s, step.t, PcOf(s', step.t)));
  }

  lemma GoCounts(s: State, t: Thread, pc: Pc)
    ensures |Counted(Go(s, t, pc))| ==
            |Counted(s)| + (if pc.Counted() then 1 else 0) - if PcOf(s, t).Counted() then 1 else 0
  {
    GoCounted(s, t, pc);
    hide Counted;
    if PcOf(s, t).Counted() == pc.Counted() { assert Counted(Go(s, t, pc)) == Counted(s); }
  }

  lemma SamePcs(s: State, s': State)
    requires s.pcs == s'.pcs
    ensures Counted(s) == Counted(s')
  {}

  lemma HolderMoves(s: State, step: Step)
    requires Inv(s) && Enabled(s, step)
    ensures var s' := Next(s, step);
            && (s'.write == 0 || s'.write == 1)
            && (s'.write == 0 ==> forall t :: !PcOf(s', t).HoldsWrite())
            && (s'.write == 1 ==> exists t :: PcOf(s', t).HoldsWrite())
            && (forall t, u :: PcOf(s', t).HoldsWrite() && PcOf(s', u).HoldsWrite() ==> t == u)
  {
    var s' := Next(s, step);
    assert forall u :: u != step.t ==> PcOf(s', u) == PcOf(s, u);
    if s.write == 1 {
      var h :| PcOf(s, h).HoldsWrite();
      if s'.write == 1 { assert PcOf(s', h).HoldsWrite(); }
    } else if s'.write == 1 {
      assert PcOf(s', step.t).HoldsWrite();
    }
  }

  // ---------------------------------------------------------------------------
  // Every run

  ghost predicate IsRun(states: seq<State>, steps: seq<Step>) {
    && |states| == |steps| + 1 && states[0] == Init
    && forall i :: 0 <= i < |steps| ==> Enabled(states[i], steps[i]) && states[i + 1] == Next(states[i], steps[i])
  }

  lemma {:induction false} EveryStateInv(states: seq<State>, steps: seq<Step>, k: nat)
    requires IsRun(states, steps) && k < |states|
    ensures Inv(states[k])
  {
    if k > 0 {
      EveryStateInv(states, steps, k - 1);
      hide Inv, Next;
      assert Enabled(states[k - 1], steps[k - 1]) && states[k - 1 + 1] == Next(states[k - 1], steps[k - 1]);
      StepInv(states[k - 1], steps[k - 1]);
    } else {
      assert Counted(Init) == {};
    }
  }

  /** A writer never overlaps another writer or a reader, and `read` counts the threads past the increment. */
  lemma Exclusion(states: seq<State>, steps: seq<Step>, k: nat, t: Thread, u: Thread)
    requires IsRun(states, steps) && k < |states|
    ensures PcOf(states[k], t).Writing? && PcOf(states[k], u).Writing? ==> t == u
    ensures PcOf(states[k], t).Writing? ==> !PcOf(states[k], u).Reading?
    ensures states[k].read == |Counted(states[k])|
  {
    EveryStateInv(states, steps, k);
  }

  /**
    While a writer holds `write`, from its successful compare-and-swap to its unlock, no
    thread gets into the read section: who has not begun to increment waits, and who increments
    backs off.
   */
  lemma NobodyEnters(states: seq<State>, steps: seq<Step>, k: nat, w: Thread, r: Thread)
    requires IsRun(states, steps) && k < |steps|
    requires PcOf(states[k], w).HoldsWrite() && !PcOf(states[k], r).Reading?
    ensures !PcOf(states[k + 1], r).Reading?
    ensures PcOf(states[k], r).CheckWriter? && steps[k] == Advance(r) ==> PcOf(states[k + 1], r).BackOff?
    ensures PcOf(states[k], r).WaitWriter? ==> PcOf(states[k + 1], r).WaitWriter?
  {
    EveryStateInv(states, steps, k);
    assert Enabled(states[k], steps[k]) && states[k + 1] == Next(states[k], steps[k]);
  }

  ghost predicate Reachable(s: State) {
    exists states, steps :: IsRun(states, steps) && states[|steps|] == s
  }

  lemma ReachableNext(s: State, step: Step, s': State)
    requires Reachable(s) && Enabled(s, step) && s' == Next(s, step)
    ensures Reachable(s')
  {
    hide Enabled, Next;
    var states, steps :| IsRun(states, steps) && states[|steps|] == s;
    assert IsRun(states + [s'], steps + [step]);
    assert (states + [s'])[|steps + [step]|] == s';
  }

  /** A thread that meets no writer gets into the read section, whoever else is there. */
  lemma ReaderEnters(s: State, t: Thread)
    requires Reachable(s) && s.write == 0 && PcOf(s, t).Outside?
    ensures Reachable(Go(s, t, Reading).(read := s.read + 1))
  {
    hide Reachable;
    var s1, s2, s3 := Go(s, t, WaitWriter), Go(s, t, Increment), Go(s, t, CheckWriter).(read := s.read + 1);
    ReachableNext(s, StartRead(t), s1);
    assert Go(s1, t, Increment) == s2;
    ReachableNext(s1, Advance(t), s2);
    assert Go(s2, t, CheckWriter).(read := s.read + 1) == s3;
    ReachableNext(s2, Advance(t), s3);
    assert Go(s3, t, Reading) == Go(s, t, Reading).(read := s.read + 1);
    ReachableNext(s3, Advance(t), Go(s, t, Reading).(read := s.read + 1));
  }

  /** Readers do overlap: two threads can be in the read section at once. */
  lemma ReadersShare()
    ensures exists s :: Reachable(s) && PcOf(s, 0).Reading? && PcOf(s, 1).Reading?
  {
    assert IsRun([Init], []) && Reachable(Init);
    hide Reachable;
    ReaderEnters(Init, 0);
    var s := Go(Init, 0, Reading).(read := 1);
    ReaderEnters(s, 1);
    var s' := Go(s, 1, Reading).(read := 2);
    assert PcOf(s', 0).Reading? && PcOf(s', 1).Reading?;
  }

  // ---------------------------------------------------------------------------
  // Nobody is shut out

  ghost predicate Leads(s: State, steps: seq<Step>, s': State)
    decreases steps
  {
    if steps == [] then s == s' else Enabled(s, steps[0]) && Leads(Next(s, steps[0]), steps[1..], s')
  }

  /** Some way on brings thread t there. */
  ghost predicate CanGet(s: State, t: Thread, pc: Pc) {
    exists steps, s' :: Leads(s, steps, s') && PcOf(s', t) == pc
  }

  lemma There(s: State, t: Thread)
    ensures CanGet(s, t, PcOf(s, t))
  {
    assert Leads(s, [], s);
  }

  lemma Before(s: State, step: Step, t: Thread, pc: Pc)
    requires Enabled(s, step) && CanGet(Next(s, step), t, pc)
    ensures CanGet(s, t, pc)
  {
    hide Enabled, Next;
    var steps, s' :| Leads(Next(s, step), steps, s') && PcOf(s', t) == pc;
    assert ([step] + steps)[1..] == steps;
    assert Leads(s, [step] + steps, s');
  }

  predicate Asks(pc: Pc) { pc.WaitWriter? || pc.Acquire? }

  function Wanted(pc: Pc): Pc { if pc.WaitWriter? then Reading else Writing }

  /** With nobody inside, the thread walks in. */
  lemma WalksIn(s: State, t: Thread)
    requires s.read == 0 && s.write == 0 && Asks(PcOf(s, t))
    ensures CanGet(s, t, Wanted(PcOf(s, t)))
  {
    hide CanGet;
    var step := Advance(t);
    var s1 := Next(s, step);
    var s2 := Next(s1, step);
    if PcOf(s, t).WaitWriter? {
      There(Next(s2, step), t);
      Before(s2, step, t, Reading);
      Before(s1, step, t, Reading);
      Before(s, step, t, Reading);
    } else {
      There(s2, t);
      Before(s1, step, t, Writing);
      Before(s, step, t, Writing);
    }
  }

  /** With no reader counted, the writer there is, if any, leaves. */
  lemma WriterLeaves(s: State, t: Thread)
    requires Inv(s) && s.read == 0 && Asks(PcOf(s, t))
    ensures CanGet(s, t, Wanted(PcOf(s, t)))
  {
    hide CanGet, Counted;
    if s.write == 0 {
      WalksIn(s, t);
    } else {
      var h :| PcOf(s, h).HoldsWrite();
      var step := Advance(h);
      var s1 := Next(s, step);
      if PcOf(s, h).Writing? {
        WalksIn(s1, t);
      } else {
        WalksIn(Next(s1, step), t);
        Before(s1, step, t, Wanted(PcOf(s, t)));
      }
      Before(s, step, t, Wanted(PcOf(s, t)));
    }
  }

  /** A counted reader goes on until it is counted no more. */
  lemma ReaderGoes(s: State, u: Thread)
    requires Inv(s) && PcOf(s, u).Counted()
    ensures var s1 := Next(s, Advance(u));
            && Inv(s1) && s1.read <= s.read && (forall t :: t != u ==> PcOf(s1, t) == PcOf(s, t))
            && if PcOf(s, u).CheckWriter? then PcOf(s1, u).Counted() && !PcOf(s1, u).CheckWriter? else s1.read == s.read - 1
  {
    StepInv(s, Advance(u));
    hide Inv;
  }

  lemma {:induction false} ReadersLeave(s: State, t: Thread)
    requires Inv(s) && Asks(PcOf(s, t))
    ensures s.read >= 0 && CanGet(s, t, Wanted(PcOf(s, t)))
    decreases |Counted(s)|
  {
    ReadIsCount(s);
    if s.read == 0 {
      WriterLeaves(s, t);
    } else {
      var u :| u in Counted(s);
      IsCounted(s, u);
      hide Inv, CanGet, Counted, Enabled, Next;
      CanAdvance(s, u);
      ReaderGoes(s, u);
      var s1 := Next(s, Advance(u));
      ReadIsCount(s1);
      if PcOf(s, u).CheckWriter? {
        CanAdvance(s1, u);
        ReaderGoes(s1, u);
        ReadIsCount(Next(s1, Advance(u)));
        ReadersLeave(Next(s1, Advance(u)), t);
        Before(s1, Advance(u), t, Wanted(PcOf(s, t)));
      } else {
        ReadersLeave(s1, t);
      }
      Before(s, Advance(u), t, Wanted(PcOf(s, t)));
    }
  }

  lemma ReadIsCount(s: State)
    requires Inv(s)
    ensures s.read == |Counted(s)|
  {}

  lemma IsCounted(s: State, u: Thread)
    requires u in Counted(s)
    ensures PcOf(s, u).Counted()
  {}

  lemma CanAdvance(s: State, u: Thread)
    requires PcOf(s, u).Counted()
    ensures Enabled(s, Advance(u))
  {}

  /**
    From every state of every run the threads inside can go on so that any thread that waits for the
    lock gets it: a reader into the read section, a writer into the write section.
   */
  lemma WaitingThreadGetsIn(states: seq<State>, steps: seq<Step>, k: nat, t: Thread)
    requires IsRun(states, steps) && k < |states| && Asks(PcOf(states[k], t))
    ensures CanGet(states[k], t, Wanted(PcOf(states[k], t)))
  {
    hide CanGet, Inv;
    EveryStateInv(states, steps, k);
    ReadersLeave(states[k], t);
  }
}
