/** What holds of every run of the send path. */
module SocketOrderRuns {

  import opened Basics
  import opened SocketOrder
  import opened SocketOrderInvariant

  // ---------------------------------------------------------------------------
  // Runs

  datatype Step =
    | Call(t: Thread, low: bool, data: seq<byte>)
    | Advance(t: Thread, n: nat)     // n is what a direct write accepts
    | AskClose(shutdown: bool)       // socket_server_close or socket_server_shutdown
    | Command(now: bool)
    | Become(kind: Kind)
    | Writable
    | Force                          // a read or connect error, or the remote end: force_close
    | SockAdvance(o: Outcome)

  predicate Enabled(s: State, step: Step) {
    match step
    case Call(t, _, _) => PcOf(s, t).Idle?
    case Advance(t, n) =>
      (match PcOf(s, t)
       case Idle => false
       case DirectWrite(m) => n <= |m.data|
       case Inc(_) => s.sending < 0xffff
       case _ => true)
    case AskClose(_) => true
    case Command(_) => s.sock == Poll && s.pipe != []
    case Become(kind) => s.sock == Poll && MayBecome(s.kind, kind)
    case Writable => s.sock == Poll && s.kind !in {Connecting, Invalid}
    case Force => s.sock == Poll && s.kind != Invalid
    case SockAdvance(o) =>
      (match s.sock
       case Poll => false
       case Dec => s.sending > 0
       case High => Takes(s.high, o)
       case Low => Takes(s.low, o)
       case Freed => s.lock == Free
       case _ => true)
  }

  function ThreadStep(s: State, t: Thread, n: nat): State
    requires Enabled(s, Advance(t, n))
  {
    match PcOf(s, t)
    case Check(_, _, _) => Load(s, t)
    case IsHalfWrite(_, _) => LoadHalfWrite(s, t)
    case ThenType(_, _) => LoadType(s, t)
    case TryLock(_) => TryTake(s, t)
    case DirectWrite(_) => WriteNow(s, t, n)
    case KeepRest(_, _) => Keep(s, t)
    case UnlockIdle => Unlock(s, t)
    case UnlockThenW => Unlock(s, t)
    case UnlockThenInc(_) => Unlock(s, t)
    case PushW => PushEnable(s, t)
    case Inc(_) => IncSending(s, t)
    case Push(_) => PushSend(s, t)
  }

  function SocketStep(s: State, o: Outcome): State
    requires Enabled(s, SockAdvance(o))
  {
    match s.sock
    case Append(_) => AppendMsg(s)
    case Dec => DecSending(s)
    case TakeDw => TakeRest(s)
    case High => SendHigh(s, o)
    case Low => SendLow(s, o)
    case Raise => RaiseLow(s)
    case UnlockSock => Unlocked(s)
    case FreeLow => FreeLowList(s)
    case Freed => Shut(s)
  }

  function Next(s: State, step: Step): State
    requires Enabled(s, step)
  {
    match step
    case Call(t, low, data) => Begin(s, t, low, data)
    case Advance(t, n) => ThreadStep(s, t, n)
    case AskClose(shutdown) => RequestClose(s, shutdown)
    case Command(now) => TakeCmd(s, now)
    case Become(kind) => s.(kind := kind)
    case Writable => LockSend(s)
    case Force => FreeHigh(s)
    case SockAdvance(o) => SocketStep(s, o)
  }

  lemma ThreadStepInv(s: State, t: Thread, n: nat)
    requires Inv(s) && Enabled(s, Advance(t, n))
    ensures Inv(ThreadStep(s, t, n))
  {
    hide Inv, Load, LoadHalfWrite, LoadType, TryTake, WriteNow, Keep, Unlock, PushEnable, IncSending, PushSend;
    match PcOf(s, t)
    case Check(_, _, _) => LoadInv(s, t);
    case IsHalfWrite(_, _) => LoadHalfWriteInv(s, t);
    case ThenType(_, _) => LoadTypeInv(s, t);
    case TryLock(_) => TryTakeInv(s, t);
    case DirectWrite(_) => WriteNowInv(s, t, n);
    case KeepRest(_, _) => KeepInv(s, t);
    case UnlockIdle => UnlockInv(s, t);
    case UnlockThenW => UnlockInv(s, t);
    case UnlockThenInc(_) => UnlockInv(s, t);
    case PushW => PushEnableInv(s, t);
    case Inc(_) => IncSendingInv(s, t);
    case Push(_) => PushSendInv(s, t);
  }

  lemma SocketStepInv(s: State, o: Outcome)
    requires Inv(s) && Enabled(s, SockAdvance(o))
    ensures Inv(SocketStep(s, o))
  {
    hide Inv, AppendMsg, DecSending, TakeRest, SendHigh, SendLow, RaiseLow, Unlocked, FreeLowList, Shut;
    match s.sock
    case Append(_) => AppendMsgInv(s);
    case Dec => DecSendingInv(s);
    case TakeDw => TakeRestInv(s);
    case High => SendHighInv(s, o);
    case Low => SendLowInv(s, o);
    case Raise => RaiseLowInv(s);
    case UnlockSock => UnlockSockInv(s);
    case FreeLow => FreeLowInv(s);
    case Freed => ShutInv(s);
  }

  lemma NextInv(s: State, step: Step)
    requires Inv(s) && Enabled(s, step)
    ensures Inv(Next(s, step))
  {
    hide Inv, Begin, ThreadStep, RequestClose, TakeCmd, LockSend, FreeHigh, SocketStep;
    match step
    case Call(t, low, data) => BeginInv(s, t, low, data);
    case Advance(t, n) => ThreadStepInv(s, t, n);
    case AskClose(shutdown) => RequestCloseInv(s, shutdown);
    case Command(now) => TakeCmdInv(s, now);
    case Become(kind) => KindInv(s, s.(kind := kind));
    case Writable => LockSendInv(s);
    case Force => FreeHighInv(s);
    case SockAdvance(o) => SocketStepInv(s, o);
  }

  ghost predicate IsRun(states: seq<State>, steps: seq<Step>) {
    && |states| == |steps| + 1 && Initial(states[0])
    && forall i :: 0 <= i < |steps| ==> Enabled(states[i], steps[i]) && states[i + 1] == Next(states[i], steps[i])
  }

  lemma InitialThread(s: State, u: Thread)
    requires Initial(s)
    ensures ThreadOk(s, u)
  {
    MineOne(Msg(u, 0, true, []), u);
    assert MsgsOf([]) == [] && BufMsgs([]) == [];
    hide Mine, MsgsOf, BufMsgs;
    assert Path(s, u) == [];
  }

  lemma InitialInv(s: State)
    requires Initial(s)
    ensures Inv(s)
  {
    assert BooksOk(s) && FrameOk(s) by {
      assert Pushers(s) == {};
    }
    hide BooksOk, FrameOk, ThreadOk, Initial;
    forall u ensures ThreadOk(s, u) {
      InitialThread(s, u);
    }
  }

  lemma {:induction false} EveryStateInv(states: seq<State>, steps: seq<Step>, k: nat)
    requires IsRun(states, steps) && k < |states|
    ensures Inv(states[k])
  {
    hide Inv, Next, Enabled, Initial;
    if k == 0 {
      InitialInv(states[0]);
    } else {
      EveryStateInv(states, steps, k - 1);
      NextInv(states[k - 1], steps[k - 1]);
      assert states[k - 1 + 1] == Next(states[k - 1], steps[k - 1]);
    }
  }

  /**
    What one thread sends through socket_server_send is written in call order: no direct
    write overtakes a message still in the pipe, in the lists or in dw_buffer.
   */
  lemma WrittenInCallOrder(states: seq<State>, steps: seq<Step>, k: nat, t: Thread)
    requires IsRun(states, steps) && k < |states|
    ensures InCallOrder(states[k].pieces, t)
  {
    EveryStateInv(states, steps, k);
    var s := states[k];
    assert ThreadOk(s, t);
    hide Inv, ThreadOk, FromDw, Mine, MsgsOf;
    var wrote := Mine(MsgsOf(s.pieces), t);
    assert Path(s, t) == wrote + FromDw(s, t);
    assert forall i :: 0 <= i < |wrote| ==> wrote[i] == Path(s, t)[i];
    hide Path;
  }

  /** Only one thread at a time is between its checks and the end of its write. */
  lemma OneWriter(states: seq<State>, steps: seq<Step>, k: nat, t: Thread, u: Thread)
    requires IsRun(states, steps) && k < |states|
    ensures PcOf(states[k], t).DirectWrite? && PcOf(states[k], u).DirectWrite? ==> t == u
    ensures PcOf(states[k], t).DirectWrite? ==> !states[k].sock.HoldsLock()
  {
    EveryStateInv(states, steps, k);
    assert LockOk(states[k]);
    hide Inv;
  }

  /** What the assertions of send_buffer_, raise_uncomplete and dec_sending_ref say. */
  lemma BooksBalance(states: seq<State>, steps: seq<Step>, k: nat)
    requires IsRun(states, steps) && k < |states|
    ensures var s := states[k];
            && (s.kind != Invalid && !s.sock.Freeing() ==> s.wbSize == Unsent(s.high) + Unsent(s.low))
            && (s.sock != Raise ==> Whole(s.low))
            && (s.sock == Raise ==> s.high == [])
            && (s.sock == Dec ==> s.sending > 0)
  {
    EveryStateInv(states, steps, k);
    assert BooksOk(states[k]);
    hide Inv, Whole, Unsent;
  }

  /** A direct write made while force_close, about to take the lock, has freed a half-sent message. */
  ghost predicate TearsAt(s: State, step: Step) {
    step.Advance? && PcOf(s, step.t).DirectWrite? && Tears(s, step.n)
  }

  lemma SocketStepFramed(s: State, o: Outcome)
    requires Inv(s) && Enabled(s, SockAdvance(o))
    ensures Framed(SocketStep(s, o).pieces) <==> Framed(s.pieces)
  {
    hide BooksOk, FrameOk, ThreadOk, Framed, Open, HighSent, LowSent, Rest;
    assert BooksOk(s) && FrameOk(s);
    hide Inv;
    if s.sock.High? && s.high != [] && o.Accepted? {
      HighSentFrame(s, o.n);
    } else if s.sock.Low? && s.low != [] && o.Accepted? {
      LowSentFrame(s, o.n);
    } else {
      NothingWritten(s, o);
    }
  }

  lemma NothingWritten(s: State, o: Outcome)
    requires Enabled(s, SockAdvance(o))
    requires (s.sock.High? ==> s.high == [] || !o.Accepted?) && (s.sock.Low? ==> s.low == [] || !o.Accepted?)
    ensures SocketStep(s, o).pieces == s.pieces
  {
    hide HighSent, LowSent, Rest, Unsent;
  }

  lemma StepFramed(s: State, step: Step)
    requires Inv(s) && Enabled(s, step)
    ensures Framed(Next(s, step).pieces) <==> Framed(s.pieces) && !TearsAt(s, step)
  {
    hide Inv, Framed, Open;
    match step
    case SockAdvance(o) => { hide SocketStep; SocketStepFramed(s, o); }
    case Advance(t, n) =>
      if PcOf(s, t).DirectWrite? { hide Tears, WriteNow; WriteNowFrame(s, t, n); }
    case _ =>
  }

  ghost predicate NeverTorn(states: seq<State>, steps: seq<Step>, k: nat)
    requires k <= |steps| < |states|
  {
    forall i :: 0 <= i < k ==> !TearsAt(states[i], steps[i])
  }

  lemma NeverTornPush(states: seq<State>, steps: seq<Step>, k: nat)
    requires 0 < k <= |steps| < |states|
    ensures NeverTorn(states, steps, k) <==> NeverTorn(states, steps, k - 1) && !TearsAt(states[k - 1], steps[k - 1])
  {
    hide TearsAt;
  }

  lemma RunStep(states: seq<State>, steps: seq<Step>, k: nat)
    requires IsRun(states, steps) && k < |steps|
    ensures Enabled(states[k], steps[k]) && states[k + 1] == Next(states[k], steps[k])
  {
    hide Enabled, Next, Initial;
  }

  /** The bytes on the wire are whole messages end to end exactly as long as no direct write has torn one. */
  lemma {:induction false} FramedUnlessTorn(states: seq<State>, steps: seq<Step>, k: nat)
    requires IsRun(states, steps) && k < |states|
    ensures Framed(states[k].pieces) <==> NeverTorn(states, steps, k)
  {
    hide Framed, TearsAt, Next, Enabled, Inv;
    if k == 0 {
      assert Framed([]) by { FramedNothing(); }
    } else {
      hide IsRun, NeverTorn;
      RunStep(states, steps, k - 1);
      EveryStateInv(states, steps, k - 1);
      FramedUnlessTorn(states, steps, k - 1);
      StepFramed(states[k - 1], steps[k - 1]);
      NeverTornPush(states, steps, k);
    }
  }

  lemma FramedNothing()
    ensures Framed([])
  {}

  // What framing means for the bytes.

  function Bytes(pieces: seq<Piece>): seq<byte>
    requires PiecesOk(pieces)
  {
    if pieces == [] then []
    else
      var last := pieces[|pieces| - 1];
      Bytes(pieces[..|pieces| - 1]) + last.msg.data[last.lo..last.hi]
  }

  /** The messages whose first byte has been written, laid end to end. */
  function Started(pieces: seq<Piece>): seq<byte> {
    if pieces == [] then []
    else
      var last := pieces[|pieces| - 1];
      Started(pieces[..|pieces| - 1]) + if last.lo == 0 then last.msg.data else []
  }

  function Missing(pieces: seq<Piece>): seq<byte>
    requires PiecesOk(pieces)
  {
    match Open(pieces)
    case None => []
    case Some(b) => assert pieces[|pieces| - 1] in pieces; b.msg.data[b.off..]
  }

  /** One more piece of a framed stream: where it stands in its message. */
  lemma MissingPush(front: seq<Piece>, last: Piece)
    requires Framed(front + [last]) && PiecesOk(front + [last])
    ensures Framed(front) && PiecesOk(front) && last.lo < last.hi <= |last.msg.data|
    ensures Missing(front + [last]) == last.msg.data[last.hi..]
    ensures Missing(front) == if last.lo == 0 then [] else last.msg.data[last.lo..]
  {
    FramedPush(front, last);
    assert last in front + [last];
    assert forall p :: p in front ==> p in front + [last];
    hide Framed;
    if Open(front).Some? { assert front[|front| - 1] in front; }
  }

  /** A framed stream lacks only the rest of its last message. */
  lemma {:induction false} FramedBytes(pieces: seq<Piece>)
    requires Framed(pieces) && PiecesOk(pieces)
    ensures Bytes(pieces) + Missing(pieces) == Started(pieces)
  {
    if pieces != [] {
      var n := |pieces| - 1;
      var front, last := pieces[..n], pieces[n];
      assert pieces == front + [last];
      MissingPush(front, last);
      FramedBytes(front);
      var data := last.msg.data;
      hide Framed, Missing, PiecesOk;
      assert Bytes(pieces) == Bytes(front) + data[last.lo..last.hi];
      assert Started(pieces) == Started(front) + if last.lo == 0 then data else [];
      hide Bytes, Started;
      assert data[last.lo..last.hi] + data[last.hi..] == data[last.lo..];
      assert Bytes(front) + data[last.lo..last.hi] + data[last.hi..] == Bytes(front) + data[last.lo..];
      assert data[0..] == data;
    }
  }

  lemma StreamIsMessages(states: seq<State>, steps: seq<Step>, k: nat)
    requires IsRun(states, steps) && k < |states|
    requires NeverTorn(states, steps, k)
    ensures PiecesOk(states[k].pieces)
    ensures Bytes(states[k].pieces) + Missing(states[k].pieces) == Started(states[k].pieces)
  {
    FramedUnlessTorn(states, steps, k);
    EveryStateInv(states, steps, k);
    FramedBytes(states[k].pieces);
    hide Framed, Open;
  }

  // A run that does tear a message.

  ghost predicate Reachable(s: State) {
    exists states, steps :: IsRun(states, steps) && states[|steps|] == s
  }

  lemma ReachableInitial(s: State)
    requires Initial(s)
    ensures Reachable(s)
  {
    assert IsRun([s], []);
  }

  lemma ReachableNext(s: State, step: Step)
    requires Reachable(s) && Enabled(s, step)
    ensures Reachable(Next(s, step))
  {
    hide Enabled, Next, Initial;
    var states, steps :| IsRun(states, steps) && states[|steps|] == s;
    var s' := Next(s, step);
    assert IsRun(states + [s'], steps + [step]);
    assert (states + [s'])[|steps + [step]|] == s';
  }

  predicate Quiet(s: State) {
    s.high == [] && s.low == [] && s.dw == None && s.sending == 0 && s.kind == Connected
  }

  lemma {:induction false} LoadsPass(s: State, t: Thread, m: Msg, round: int, load: int)
    requires Reachable(s) && Quiet(s) && PcOf(s, t) == Check(m, round, load) && 0 <= load <= 4
    ensures Reachable(Go(s, t, CanWrite(m, round)))
    decreases 4 - load
  {
    hide Reachable;
    ReachableNext(s, Advance(t, 0));
    if load < 4 {
      var s' := Go(s, t, Check(m, round, load + 1));
      LoadsPass(s', t, m, round, load + 1);
      assert Go(s', t, CanWrite(m, round)) == Go(s, t, CanWrite(m, round));
    }
  }

  lemma DirectReach(s: State, t: Thread, m: Msg)
    requires Reachable(s) && Quiet(s) && PcOf(s, t) == Check(m, 1, 0) && s.lock == Free
    ensures Reachable(Go(s, t, DirectWrite(m)).(lock := OfThread(t)))
  {
    hide Reachable;
    LoadsPass(s, t, m, 1, 0);
    var s1 := Go(s, t, TryLock(m));
    ReachableNext(s1, Advance(t, 0));
    var s2 := Go(s1, t, Check(m, 2, 0)).(lock := OfThread(t));
    LoadsPass(s2, t, m, 2, 0);
    assert Go(s2, t, DirectWrite(m)) == Go(s, t, DirectWrite(m)).(lock := OfThread(t));
  }

  function Fresh(): State {
    State(Connected, false, [], [], 0, 0, None, Free, [], map[], map[], Poll, [])
  }

  /** One byte of the first message is written, the rest is kept, and the socket thread finds the socket full. */
  function HalfSent(): State {
    var m := Msg(0, 0, false, [1, 2]);
    State(Connected, false, [Buf(m, 1)], [], 1, 0, None, Free, [], map[0 := PushW], map[0 := 1], Poll, [Piece(m, 0, 1)])
  }

  lemma HalfSentReached()
    ensures Reachable(HalfSent())
  {
    hide Reachable;
    var m := Msg(0, 0, false, [1, 2]);
    var s0 := Fresh();
    ReachableInitial(s0);
    ReachableNext(s0, Call(0, false, [1, 2]));
    var s1 := s0.(pcs := map[0 := Check(m, 1, 0)], calls := map[0 := 1]);
    assert Begin(s0, 0, false, [1, 2]) == s1;
    DirectReach(s1, 0, m);
    var s2 := s1.(pcs := map[0 := DirectWrite(m)], lock := OfThread(0));
    assert Go(s1, 0, DirectWrite(m)).(lock := OfThread(0)) == s2;
    ReachableNext(s2, Advance(0, 1));
    var s3 := s2.(pcs := map[0 := KeepRest(m, 1)], pieces := [Piece(m, 0, 1)]);
    assert WriteNow(s2, 0, 1) == s3;
    ReachableNext(s3, Advance(0, 0));
    var s4 := s3.(pcs := map[0 := UnlockThenW], dw := Some(Buf(m, 1)));
    assert Keep(s3, 0) == s4;
    ReachableNext(s4, Advance(0, 0));
    var s5 := s4.(pcs := map[0 := PushW], lock := Free);
    assert Unlock(s4, 0) == s5;
    SocketFindsFull(s5, m);
  }

  lemma SocketFindsFull(s: State, m: Msg)
    requires Reachable(s) && s.kind == Connected && s.sock == Poll && s.lock == Free
    requires s.high == [] && s.wbSize == 0 && s.dw == Some(Buf(m, 1)) && |m.data| == 2
    ensures Reachable(s.(high := [Buf(m, 1)], wbSize := 1, dw := None))
  {
    hide Reachable;
    ReachableNext(s, Writable);
    var s1 := s.(sock := TakeDw, lock := OfSocket);
    ReachableNext(s1, SockAdvance(WouldBlock));
    var s2 := s1.(high := [Buf(m, 1)], wbSize := 1, dw := None, sock := High);
    assert TakeRest(s1) == s2 by { assert [Buf(m, 1)] + [] == [Buf(m, 1)]; }
    ReachableNext(s2, SockAdvance(WouldBlock));
    ReachableNext(s2.(sock := UnlockSock), SockAdvance(WouldBlock));
  }

  /** The window is real: a reachable state in which the stream is not whole messages end to end. */
  lemma TearingHappens()
    ensures exists s :: Reachable(s) && !Framed(s.pieces)
  {
    hide Reachable;
    HalfSentReached();
    var s := HalfSent();
    ReachableNext(s, Force);
    ReachableNext(FreeHigh(s), SockAdvance(WouldBlock));
    var s1 := FreeLowList(FreeHigh(s));
    var m := Msg(1, 0, false, [3]);
    ReachableNext(s1, Call(1, false, [3]));
    var s2 := Begin(s1, 1, false, [3]);
    DirectReach(s2, 1, m);
    var s3 := Go(s2, 1, DirectWrite(m)).(lock := OfThread(1));
    ReachableNext(s3, Advance(1, 1));
    var s4 := WriteNow(s3, 1, 1);
    assert s4.pieces == [Piece(Msg(0, 0, false, [1, 2]), 0, 1), Piece(m, 0, 1)];
    assert !Follows(s4.pieces[0], s4.pieces[1]);
  }
}
