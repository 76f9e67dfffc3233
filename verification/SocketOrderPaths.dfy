/** Which way messages take: the direct write, the two lists, and none once the socket is being closed. */
module SocketOrderPaths {

  import opened Basics
  import opened SocketOrder
  import opened SocketOrderInvariant
  import opened SocketOrderRuns

  // ---------------------------------------------------------------------------
  // A call that nothing interferes with

  /** n steps of thread t, with nobody else moving. */
  function Alone(s: State, t: Thread, n: nat): State
    decreases n
  {
    if n == 0 || !Enabled(s, Advance(t, 0)) then s else Alone(ThreadStep(s, t, 0), t, n - 1)
  }

  /** The socket is open, nothing waits to be written or is on its way, and nobody is writing. */
  predicate Quiet(s: State) {
    s.high == [] && s.low == [] && s.dw == None && s.sending == 0 && s.kind == Connected && s.lock == Free
  }

  predicate AllLoads(s: State, load: int) {
    forall k :: load <= k <= 4 ==> LoadHolds(s, k)
  }

  lemma Twice(s: State, t: Thread, a: Pc, b: Pc)
    ensures Go(Go(s, t, a), t, b) == Go(s, t, b)
  {
    assert s.pcs[t := a][t := b] == s.pcs[t := b];
  }

  lemma OneLoad(s: State, t: Thread, m: Msg, round: int, load: int, n: nat)
    requires PcOf(s, t) == Check(m, round, load) && 0 <= load <= 4 && n > 0
    ensures LoadHolds(s, load) ==>
              var pc := if load < 4 then Check(m, round, load + 1) else CanWrite(m, round);
              Alone(s, t, n) == Alone(Go(s, t, pc), t, n - 1)
    ensures !LoadHolds(s, load) ==>
              var pc := if load < 4 then IsHalfWrite(m, round) else CannotWrite(m, round);
              Alone(s, t, n) == Alone(Go(s, t, pc), t, n - 1)
  {
    hide LoadHolds;
  }

  /** can_direct_write when every load from here on comes out right. */
  lemma {:induction false} LoadsPass(s: State, t: Thread, m: Msg, round: int, load: int, n: nat)
    requires PcOf(s, t) == Check(m, round, load) && 0 <= load <= 4 && n >= 5 - load && AllLoads(s, load)
    ensures Alone(s, t, n) == Alone(Go(s, t, CanWrite(m, round)), t, n - (5 - load))
    decreases 4 - load
  {
    hide Alone, LoadHolds;
    assert LoadHolds(s, load);
    OneLoad(s, t, m, round, load, n);
    if load < 4 {
      var s1 := Go(s, t, Check(m, round, load + 1));
      SameLoads(s, s1);
      LoadsPass(s1, t, m, round, load + 1, n - 1);
      Twice(s, t, Check(m, round, load + 1), CanWrite(m, round));
    }
  }

  lemma SameLoads(s: State, s': State)
    requires s'.high == s.high && s'.low == s.low && s'.dw == s.dw && s'.sending == s.sending && s'.kind == s.kind
    ensures forall load :: LoadHolds(s', load) == LoadHolds(s, load)
  {}

  lemma QuietLoads(s: State)
    ensures Quiet(s) ==> AllLoads(s, 0)
    ensures AllLoads(s, 0) && s.lock == Free ==> Quiet(s)
  {
    if AllLoads(s, 0) {
      assert LoadHolds(s, 0) && LoadHolds(s, 1) && LoadHolds(s, 2) && LoadHolds(s, 3) && LoadHolds(s, 4);
    }
  }

  lemma Locks(s: State, t: Thread, m: Msg, n: nat)
    requires PcOf(s, t) == TryLock(m) && n > 0
    ensures s.lock == Free ==> Alone(s, t, n) == Alone(Go(s, t, Check(m, 2, 0)).(lock := OfThread(t)), t, n - 1)
    ensures s.lock != Free ==> Alone(s, t, n) == Alone(Go(s, t, Inc(m)), t, n - 1)
  {}

  /** A call of socket_server_send on a quiet socket, left alone, comes to write directly. */
  lemma QuietCallWritesDirectly(s: State, t: Thread, m: Msg)
    requires PcOf(s, t) == Check(m, 1, 0) && Quiet(s)
    ensures PcOf(Alone(s, t, 11), t) == DirectWrite(m) && Alone(s, t, 11).lock == OfThread(t)
  {
    hide Alone, AllLoads;
    QuietLoads(s);
    LoadsPass(s, t, m, 1, 0, 11);
    var s1 := Go(s, t, TryLock(m));
    Locks(s1, t, m, 6);
    var s2 := Go(s1, t, Check(m, 2, 0)).(lock := OfThread(t));
    SameAll(s, s2);
    LoadsPass(s2, t, m, 2, 0, 5);
    NoSteps(Go(s2, t, DirectWrite(m)), t);
  }

  lemma SameAll(s: State, s': State)
    requires s'.high == s.high && s'.low == s.low && s'.dw == s.dw && s'.sending == s.sending && s'.kind == s.kind
    ensures AllLoads(s', 0) == AllLoads(s, 0)
  {
    SameLoads(s, s');
    hide LoadHolds;
  }

  lemma NoSteps(s: State, t: Thread)
    ensures Alone(s, t, 0) == s
  {}

  /** On any other socket it is handed to the socket thread. */
  lemma {:induction false} OtherCallsAreQueued(s: State, t: Thread, m: Msg, load: int) returns (n: nat)
    requires PcOf(s, t) == Check(m, 1, load) && 0 <= load <= 4 && !Quiet(s)
    requires forall k :: 0 <= k < load ==> LoadHolds(s, k)
    ensures PcOf(Alone(s, t, n), t) == Inc(m)
    decreases 4 - load
  {
    if !LoadHolds(s, load) {
      n := if load == 4 then 1 else 3;
      OneLoad(s, t, m, 1, load, n);
      if load < 4 {
        n := GivesUp(Go(s, t, IsHalfWrite(m, 1)), t, m);
        n := n + 1;
        OneLoad(s, t, m, 1, load, n);
      }
    } else if load < 4 {
      var s1 := Go(s, t, Check(m, 1, load + 1));
      SameLoads(s, s1);
      hide Alone, LoadHolds;
      n := OtherCallsAreQueued(s1, t, m, load + 1);
      n := n + 1;
      OneLoad(s, t, m, 1, load, n);
    } else {
      AllHold(s);
      QuietLoads(s);
      n := 2;
      OneLoad(s, t, m, 1, load, n);
      Locks(Go(s, t, TryLock(m)), t, m, 1);
    }
  }

  lemma AllHold(s: State)
    requires (forall k :: 0 <= k < 4 ==> LoadHolds(s, k)) && LoadHolds(s, 4)
    ensures AllLoads(s, 0)
  {
    hide LoadHolds;
  }

  lemma GivesUp(s: State, t: Thread, m: Msg) returns (n: nat)
    requires PcOf(s, t) == IsHalfWrite(m, 1)
    ensures PcOf(Alone(s, t, n), t) == Inc(m)
  {
    n := if s.kind == HalfWrite then 2 else 1;
    var s1 := ThreadStep(s, t, 0);
    assert Alone(s, t, n) == Alone(s1, t, n - 1);
    if s.kind == HalfWrite { assert Alone(s1, t, 1) == Alone(ThreadStep(s1, t, 0), t, 0); }
  }

  // ---------------------------------------------------------------------------
  // Low priority

  function LowIn(list: seq<Buf>): nat {
    if list == [] then 0 else (if list[0].msg.low then 1 else 0) + LowIn(list[1..])
  }

  /** The high list holds one message sent with low priority at most, and a direct write leaves none over. */
  ghost predicate LowOk(s: State) {
    LowIn(s.high) <= 1 && (s.dw.Some? ==> !s.dw.value.msg.low)
  }

  lemma {:induction false} LowAppend(list: seq<Buf>, b: Buf)
    ensures LowIn(list + [b]) == LowIn(list) + if b.msg.low then 1 else 0
  {
    if list != [] {
      LowAppend(list[1..], b);
      assert (list + [b])[1..] == list[1..] + [b];
    }
  }

  lemma LowPrepend(b: Buf, list: seq<Buf>)
    ensures LowIn([b] + list) == LowIn(list) + if b.msg.low then 1 else 0
  {
    assert ([b] + list)[1..] == list;
  }

  lemma ThreadLow(s: State, t: Thread, n: nat)
    requires Inv(s) && LowOk(s) && Enabled(s, Advance(t, n))
    ensures LowOk(ThreadStep(s, t, n))
  {
    KeptIsHigh(s, t);
    ListsUntouched(s, t, n);
    hide Inv, LowIn, ThreadStep, Enabled;
  }

  lemma ListsUntouched(s: State, t: Thread, n: nat)
    requires Enabled(s, Advance(t, n))
    ensures var s' := ThreadStep(s, t, n);
            && s'.high == s.high && s'.closing == s.closing && s'.kind == s.kind && s'.sock == s.sock
            && (s'.dw == s.dw || (PcOf(s, t).KeepRest? && s'.dw == Some(Buf(PcOf(s, t).m, PcOf(s, t).n))))
  {
    hide LoadHolds;
  }

  lemma KeptIsHigh(s: State, t: Thread)
    requires Inv(s)
    ensures PcOf(s, t).KeepRest? ==> !PcOf(s, t).m.low
  {
    assert ThreadOk(s, t);
    hide BooksOk, FrameOk, PathOk, Whole, Mine;
  }

  lemma AppendLow(s: State)
    requires LowOk(s) && s.sock.Append?
    ensures LowOk(AppendMsg(s))
  {
    LowAppend(s.high, Buf(s.sock.m, 0));
    NoneLow();
    hide LowIn;
  }

  lemma RestLow(s: State)
    requires LowOk(s)
    ensures LowOk(TakeRest(s))
  {
    if s.dw.Some? { LowPrepend(s.dw.value, s.high); }
    hide LowIn;
  }

  lemma HighLow(s: State, n: nat)
    requires LowOk(s) && s.high != [] && n <= Rest(s.high[0])
    ensures LowOk(HighSent(s, n))
  {
    var b := s.high[0];
    LowPrepend(Buf(b.msg, b.off + n), s.high[1..]);
    LowPrepend(b, s.high[1..]);
    assert s.high == [b] + s.high[1..];
    hide LowIn, Rest;
    assert HighSent(s, n).dw == s.dw;
  }

  lemma RaisedLow(s: State)
    requires LowOk(s) && s.high == []
    ensures LowOk(RaiseLow(s))
  {
    if s.low != [] {
      LowPrepend(s.low[0], []);
      assert [s.low[0]] + [] == [s.low[0]];
    }
    NoneLow();
    hide LowIn;
  }

  /** The other steps leave the high list and the left-over, or free them. */
  lemma OnlyFrees(s: State, s': State)
    requires LowOk(s) && s'.high in {[], s.high} && s'.dw in {None, s.dw}
    ensures LowOk(s')
  {
    NoneLow();
    hide LowIn;
  }

  lemma HighStopsLow(s: State, out: Outcome)
    requires LowOk(s) && (s.high == [] || !out.Accepted?)
    ensures LowOk(SendHigh(s, out))
  {
    OnlyFrees(s, SendHigh(s, out));
    hide LowIn;
  }

  lemma LowListLow(s: State, out: Outcome)
    requires LowOk(s) && (out.Accepted? && s.low != [] ==> out.n <= Rest(s.low[0]))
    ensures LowOk(SendLow(s, out))
  {
    if s.low != [] && out.Accepted? {} else {}
    OnlyFrees(s, SendLow(s, out));
    hide LowIn;
  }

  lemma SocketLow(s: State, out: Outcome)
    requires Inv(s) && LowOk(s) && Enabled(s, SockAdvance(out))
    ensures LowOk(SocketStep(s, out))
  {
    RaisesIntoEmpty(s);
    hide Inv, LowOk, AppendMsg, TakeRest, HighSent, RaiseLow, SendLow;
    match s.sock
    case Append(_) => AppendLow(s);
    case TakeDw => RestLow(s);
    case High => if s.high != [] && out.Accepted? { HighLow(s, out.n); } else { HighStopsLow(s, out); hide SendHigh; }
    case Raise => RaisedLow(s);
    case Low => LowListLow(s, out);
    case Dec => OnlyFrees(s, DecSending(s));
    case UnlockSock => OnlyFrees(s, Unlocked(s));
    case FreeLow => OnlyFrees(s, FreeLowList(s));
    case Freed => OnlyFrees(s, Shut(s));
  }

  lemma RaisesIntoEmpty(s: State)
    requires Inv(s)
    ensures s.sock.Raise? ==> s.high == []
  {
    hide ThreadOk, FrameOk, SizeOk, SendingOk, LockOk, InBounds, AllLow, PiecesOk, Whole;
  }

  lemma NextLow(s: State, step: Step)
    requires Inv(s) && LowOk(s) && Enabled(s, step)
    ensures LowOk(Next(s, step))
  {
    hide Inv, LowIn, ThreadStep, SocketStep;
    match step
    case Advance(t, n) => ThreadLow(s, t, n);
    case SockAdvance(out) => SocketLow(s, out);
    case Command(now) => { if s.pipe[0].Close? { NoneLow(); } }
    case Force => NoneLow();
    case _ =>
  }

  lemma NoneLow()
    ensures LowIn([]) == 0
  {}

  /**
    Messages sent with low priority do not crowd the others: in every state of every run the high list
    holds one of them at most, the one that was sent in part or that found both lists empty.
   */
  lemma {:induction false} LowKeepsOut(states: seq<State>, steps: seq<Step>, k: nat)
    requires IsRun(states, steps) && k < |states|
    ensures LowOk(states[k])
  {
    hide Inv, Next, Enabled, LowOk;
    if k == 0 {
      FirstLow(states[0]);
    } else {
      LowKeepsOut(states, steps, k - 1);
      EveryStateInv(states, steps, k - 1);
      RunStep(states, steps, k - 1);
      hide IsRun;
      NextLow(states[k - 1], steps[k - 1]);
    }
  }

  lemma FirstLow(s: State)
    requires Initial(s)
    ensures LowOk(s)
  {}

  // ---------------------------------------------------------------------------
  // Closing

  /** The service has closed the socket, writing has failed, or the socket is gone or being shut. */
  predicate Closed(s: State) {
    s.closing || s.kind in {Invalid, HalfWrite} || s.sock.Freeing()
  }

  /** The socket thread takes a close command, or one of its writes fails. */
  predicate Closes(s: State, step: Step) {
    match step
    case Command(_) => s.pipe != [] && s.pipe[0].Close?
    case SockAdvance(out) => out.Failed? && ((s.sock.High? && s.high != []) || (s.sock.Low? && s.low != []))
    case _ => false
  }

  /** A close command shuts the socket at once, or lets it finish writing; a failed write ends writing. */
  lemma CloseCloses(s: State, step: Step)
    requires Enabled(s, step) && Closes(s, step)
    ensures Closed(Next(s, step))
    ensures var t := Next(s, step);
            if step.Command? && s.kind != Invalid
            then if s.pipe[0].shutdown || step.now || s.kind == HalfWrite then t.sock == FreeLow && t.high == []
                 else t.closing && t.kind == HalfRead && t.high == s.high && t.low == s.low
            else t.kind in {Invalid, HalfWrite}
  {
    hide ThreadStep;
  }

  /** A request to close is the next thing in the pipe behind what is there. */
  lemma CloseIsAsked(s: State, shutdown: bool)
    ensures Next(s, AskClose(shutdown)).pipe == s.pipe + [Close(shutdown)]
  {}

  lemma ThreadClosed(s: State, t: Thread, n: nat)
    requires Enabled(s, Advance(t, n))
    ensures Closed(ThreadStep(s, t, n)) == Closed(s)
  {
    ListsUntouched(s, t, n);
    hide ThreadStep, Enabled;
  }

  lemma SocketClosed(s: State, out: Outcome)
    requires Enabled(s, SockAdvance(out)) && Closed(s)
    ensures Closed(SocketStep(s, out))
  {
    match s.sock
    case High => if s.high != [] && out.Accepted? {} else {}
    case Low => if s.low != [] && out.Accepted? {} else {}
    case _ =>
  }

  lemma StaysClosed(s: State, step: Step)
    requires Enabled(s, step) && Closed(s)
    ensures Closed(Next(s, step))
  {
    hide ThreadStep, SocketStep;
    match step
    case Advance(t, n) => ThreadClosed(s, t, n);
    case SockAdvance(out) => SocketClosed(s, out);
    case _ =>
  }

  /**
    Once the socket thread has taken a close command, in whatever state the socket was, or has failed
    to write, no message is accepted any more: what is still in the pipe, or comes into it, is refused
    by send_socket.
   */
  lemma {:induction false} NothingAfterClose(states: seq<State>, steps: seq<Step>, j: nat, k: nat)
    requires IsRun(states, steps) && j < k < |states|
    requires Closes(states[j], steps[j])
    ensures Closed(states[k])
    ensures states[k].sock.Append? ==> states[k].closing || states[k].kind in {Invalid, HalfWrite}
  {
    hide Next, Enabled;
    RunStep(states, steps, k - 1);
    if k == j + 1 {
      CloseCloses(states[j], steps[j]);
    } else {
      NothingAfterClose(states, steps, j, k - 1);
      StaysClosed(states[k - 1], steps[k - 1]);
    }
  }
}
