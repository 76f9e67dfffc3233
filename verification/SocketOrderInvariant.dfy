/** What every step of the send path keeps; see SocketOrder for the steps. */
module SocketOrderInvariant {

  import opened Basics
  import opened SocketOrder

  // ---------------------------------------------------------------------------
  // The invariant

  ghost predicate LockOk(s: State) {
    && (s.sock.HoldsLock() <==> s.lock == OfSocket)
    && forall t :: PcOf(s, t).HoldsLock() <==> s.lock == OfThread(t)
  }

  function Pushers(s: State): set<Thread> {
    set t | t in s.pcs && s.pcs[t].Push?
  }

  function Sends(pipe: seq<Cmd>): nat {
    if pipe == [] then 0 else Sends(pipe[..|pipe| - 1]) + if pipe[|pipe| - 1].Send? then 1 else 0
  }

  function InHand(s: State): nat {
    if s.sock.Append? || s.sock.Dec? then 1 else 0
  }

  /** `sending` counts the messages between inc_sending_ref and dec_sending_ref. */
  ghost predicate SendingOk(s: State) {
    s.sending == |Pushers(s)| + Sends(s.pipe) + InHand(s)
  }

  function Unsent(list: seq<Buf>): int {
    if list == [] then 0 else Rest(list[0]) + Unsent(list[1..])
  }

  /** wb_size is the number of unsent bytes in the two lists, until they are freed. */
  ghost predicate SizeOk(s: State) {
    s.kind != Invalid && !s.sock.Freeing() ==> s.wbSize == Unsent(s.high) + Unsent(s.low)
  }

  predicate Whole(list: seq<Buf>) {
    forall b :: b in list ==> b.off == 0
  }

  predicate PiecesOk(pieces: seq<Piece>) {
    forall p :: p in pieces ==> p.lo < p.hi <= |p.msg.data|
  }

  predicate AllLow(list: seq<Buf>) {
    forall b :: b in list ==> b.msg.low
  }

  predicate InBounds(list: seq<Buf>) {
    forall b :: b in list ==> b.off <= |b.msg.data|
  }

  ghost predicate ListsOk(s: State) {
    && InBounds(s.high) && InBounds(s.low) && (s.dw.Some? ==> s.dw.value.off <= |s.dw.value.msg.data|)
    && AllLow(s.low)
    && PiecesOk(s.pieces)
    && (s.sock == FreeLow ==> s.high == [])
    && (s.kind == Invalid || s.sock == Freed ==> s.high == [] && s.low == [])
    && (Whole(s.low) || (s.sock == Raise && s.low != [] && Whole(s.low[1..])))
    && (s.kind == Invalid ==> s.dw == None && !s.sock.TakeDw? && !s.sock.High? && !s.sock.Low? && !s.sock.Raise?)
    && (s.sock.High? || s.sock.Low? || s.sock.Raise? ==> s.dw == None)
    && (s.sock.Low? || s.sock.Raise? ==> s.high == [])
  }

  function PipeMsgs(pipe: seq<Cmd>): seq<Msg> {
    if pipe == [] then []
    else PipeMsgs(pipe[..|pipe| - 1]) + if pipe[|pipe| - 1].Send? then [pipe[|pipe| - 1].m] else []
  }

  function BufMsgs(list: seq<Buf>): seq<Msg> {
    seq(|list|, i requires 0 <= i < |list| => list[i].msg)
  }

  function DwMsgs(dw: Option<Buf>): seq<Msg> {
    if dw.Some? then [dw.value.msg] else []
  }

  function HandMsgs(s: State): seq<Msg> {
    if s.sock.Append? then [s.sock.m] else []
  }

  /** The calls of thread t, from the bytes on the wire back to the call being made. */
  function Path(s: State, t: Thread): seq<nat> {
    Mine(MsgsOf(s.pieces), t) + FromDw(s, t)
  }

  function FromDw(s: State, t: Thread): seq<nat> {
    Mine(DwMsgs(s.dw), t) + FromHigh(s, t)
  }

  function FromHigh(s: State, t: Thread): seq<nat> {
    Mine(BufMsgs(s.high), t) + FromHand(s, t)
  }

  function FromHand(s: State, t: Thread): seq<nat> {
    Mine(HandMsgs(s), t) + FromPipe(s, t)
  }

  function FromPipe(s: State, t: Thread): seq<nat> {
    Mine(PipeMsgs(s.pipe), t) + Mine(PcOf(s, t).Carried(), t)
  }

  ghost predicate PathOk(s: State, t: Thread) {
    && Sorted(Path(s, t))
    && (forall n :: n in Path(s, t) ==> n < CallsOf(s, t))
    && (forall m :: m in PcOf(s, t).Carried() ==> m.owner == t)
  }

  /** After the first check found no message on its way, thread t has none in the pipe. */
  predicate Flushed(s: State, t: Thread) {
    Mine(PipeMsgs(s.pipe), t) == [] && Mine(HandMsgs(s), t) == []
  }

  /** What the loads of can_direct_write have established and other threads cannot undo. */
  ghost predicate ChecksOk(s: State, t: Thread) {
    match PcOf(s, t)
    case Check(m, round, load) =>
      && !m.low && 1 <= round <= 2 && 0 <= load <= 4
      && (round == 2 || load == 4 ==> Flushed(s, t))
      && (round == 2 && load >= 1 ==> Mine(BufMsgs(s.high), t) == [] && Whole(s.high))
      && (round == 2 && load >= 3 ==> s.dw == None)
    case IsHalfWrite(m, round) => !m.low && 1 <= round <= 2
    case ThenType(m, round) => !m.low && 1 <= round <= 2 && s.kind in {HalfWrite, Invalid}
    case TryLock(m) => !m.low && Flushed(s, t)
    case DirectWrite(m) =>
      !m.low && Flushed(s, t) && Mine(BufMsgs(s.high), t) == [] && Whole(s.high) && s.dw == None && s.kind != Invalid
    case KeepRest(m, n) =>
      && !m.low && n <= |m.data| && Flushed(s, t)
      && Mine(BufMsgs(s.high), t) == [] && Whole(s.high) && s.dw == None && s.kind != Invalid
    case _ => true
  }

  /** Where the rest of a message written in part is kept; everything else is untouched. */
  ghost predicate RestKept(s: State, b: Buf) {
    || (s.dw == Some(b) && Whole(s.high) && Whole(s.low))
    || (s.dw == None && s.high != [] && s.high[0] == b && Whole(s.high[1..]) && Whole(s.low)
        && !s.sock.Low? && !s.sock.Raise?)
    || (s.dw == None && s.high == [] && s.low != [] && s.low[0] == b && Whole(s.low[1..]) && s.sock == Raise)
    || (s.lock.OfThread? && PcOf(s, s.lock.t) == KeepRest(b.msg, b.off) && Whole(s.high) && Whole(s.low))
  }

  ghost predicate AllWhole(s: State) {
    && Whole(s.high) && Whole(s.low) && (s.dw.Some? ==> s.dw.value.off == 0)
    && (s.lock.OfThread? && PcOf(s, s.lock.t).KeepRest? ==> PcOf(s, s.lock.t).n == 0)
  }

  /** While the stream is well framed, the rest of an incomplete message comes next, unless force_close freed it. */
  ghost predicate FrameOk(s: State) {
    Framed(s.pieces) ==>
      match Open(s.pieces)
      case None => AllWhole(s)
      case Some(b) => s.kind == Invalid || s.sock.Freeing() || RestKept(s, b)
  }

  ghost predicate BooksOk(s: State) {
    LockOk(s) && SendingOk(s) && SizeOk(s) && ListsOk(s)
  }

  ghost predicate ThreadOk(s: State, t: Thread) {
    PathOk(s, t) && ChecksOk(s, t)
  }

  ghost predicate Inv(s: State) {
    BooksOk(s) && FrameOk(s) && forall t :: ThreadOk(s, t)
  }

  // ---------------------------------------------------------------------------
  // Messages and their order

  lemma {:induction false} MineConcat(a: seq<Msg>, b: seq<Msg>, t: Thread)
    ensures Mine(a + b, t) == Mine(a, t) + Mine(b, t)
  {
    hide Mine;
    LastMine(b, t);
    if b == [] {
      assert a + b == a;
    } else {
      MineConcat(a, b[..|b| - 1], t);
      LastMine(a + b, t);
      assert (a + b)[..|a + b| - 1] == a + b[..|b| - 1];
    }
  }

  lemma LastMine(msgs: seq<Msg>, t: Thread)
    ensures msgs == [] ==> Mine(msgs, t) == []
    ensures msgs != [] ==>
              var last := msgs[|msgs| - 1];
              Mine(msgs, t) == Mine(msgs[..|msgs| - 1], t) + if last.owner == t && !last.low then [last.call] else []
  {}

  lemma MineOne(m: Msg, t: Thread)
    ensures Mine([m], t) == if m.owner == t && !m.low then [m.call] else []
    ensures Mine([], t) == []
  {
    assert [m][..0] == [];
  }

  lemma {:induction false} PipeMsgsConcat(a: seq<Cmd>, b: seq<Cmd>)
    ensures PipeMsgs(a + b) == PipeMsgs(a) + PipeMsgs(b)
    ensures Sends(a + b) == Sends(a) + Sends(b)
  {
    if b == [] {
      assert a + b == a;
    } else {
      PipeMsgsConcat(a, b[..|b| - 1]);
      assert (a + b)[..|a + b| - 1] == a + b[..|b| - 1];
    }
  }

  lemma PipeMsgsOne(c: Cmd)
    ensures PipeMsgs([c]) == if c.Send? then [c.m] else []
    ensures Sends([c]) == if c.Send? then 1 else 0
  {
    assert [c][..0] == [];
  }

  lemma {:induction false} NoSends(pipe: seq<Cmd>)
    requires Sends(pipe) == 0
    ensures PipeMsgs(pipe) == []
  {
    if pipe != [] { NoSends(pipe[..|pipe| - 1]); }
  }

  lemma {:induction false} UnsentPush(list: seq<Buf>, b: Buf)
    ensures Unsent(list + [b]) == Unsent(list) + Rest(b)
  {
    if list == [] {
      assert list + [b] == [b];
    } else {
      UnsentPush(list[1..], b);
      assert (list + [b])[1..] == list[1..] + [b];
    }
  }

  // ---------------------------------------------------------------------------
  // Steps of a service thread keep the invariant

  /** A step that moves thread t to another point, holding the same lock. */
  ghost predicate Moves(s: State, t: Thread, pc: Pc) {
    && pc.HoldsLock() == PcOf(s, t).HoldsLock()
    && !pc.Push? && !PcOf(s, t).Push? && !pc.KeepRest? && !PcOf(s, t).KeepRest?
  }

  lemma MoveBooks(s: State, t: Thread, pc: Pc)
    requires BooksOk(s) && Moves(s, t, pc)
    ensures BooksOk(Go(s, t, pc))
  {
    hide Unsent, Sends;
    assert Pushers(Go(s, t, pc)) == Pushers(s);
  }

  lemma MoveFrame(s: State, t: Thread, pc: Pc)
    requires FrameOk(s) && Moves(s, t, pc)
    ensures FrameOk(Go(s, t, pc))
  {
    hide Framed, Open, Whole;
  }

  lemma MoveThread(s: State, t: Thread, pc: Pc, u: Thread)
    requires ThreadOk(s, u)
    requires u == t ==> pc.Carried() == PcOf(s, t).Carried() && ChecksOk(Go(s, t, pc), t)
    ensures ThreadOk(Go(s, t, pc), u)
  {
    hide Sorted, Mine, Whole, PipeMsgs;
  }

  lemma MoveInv(s: State, t: Thread, pc: Pc)
    requires Inv(s) && Moves(s, t, pc) && pc.Carried() == PcOf(s, t).Carried() && ChecksOk(Go(s, t, pc), t)
    ensures Inv(Go(s, t, pc))
  {
    hide BooksOk, FrameOk, ThreadOk, Moves, ChecksOk;
    MoveBooks(s, t, pc);
    MoveFrame(s, t, pc);
    forall u ensures ThreadOk(Go(s, t, pc), u) {
      MoveThread(s, t, pc, u);
    }
  }

  /** A step that leaves the calls of thread u where they are, or moves them along. */
  lemma SamePath(s: State, s': State, u: Thread)
    requires PathOk(s, u) && Path(s', u) == Path(s, u) && CallsOf(s', u) == CallsOf(s, u)
    requires forall m :: m in PcOf(s', u).Carried() ==> m in PcOf(s, u).Carried()
    ensures PathOk(s', u)
  {
    hide Path, Sorted;
  }

  /** A step that drops or repeats calls of thread u, in order. */
  lemma SubPath(s: State, s': State, u: Thread)
    requires PathOk(s, u) && Sorted(Path(s', u)) && CallsOf(s', u) == CallsOf(s, u)
    requires forall n :: n in Path(s', u) ==> n in Path(s, u)
    requires forall m :: m in PcOf(s', u).Carried() ==> m in PcOf(s, u).Carried()
    ensures PathOk(s', u)
  {
    hide Path, Sorted;
  }

  /** A step that undoes nothing of what thread u has found out. */
  lemma ChecksKept(s: State, s': State, u: Thread)
    requires ChecksOk(s, u) && PcOf(s', u) == PcOf(s, u)
    requires Flushed(s, u) ==> Flushed(s', u)
    requires Flushed(s, u) && PcOf(s, u).HoldsLock() && Mine(BufMsgs(s.high), u) == [] && Whole(s.high)
         ==> Mine(BufMsgs(s'.high), u) == [] && Whole(s'.high)
    requires PcOf(s, u).HoldsLock() && s.dw == None ==> s'.dw == None
    requires PcOf(s, u).HoldsLock() && s.kind != Invalid ==> s'.kind != Invalid
    requires s.kind in {HalfWrite, Invalid} ==> s'.kind in {HalfWrite, Invalid}
    ensures ChecksOk(s', u)
  {
    hide Flushed, Whole, Mine;
  }

  lemma NothingQueued(s: State, t: Thread)
    ensures SendingOk(s) && s.sending == 0 ==> Flushed(s, t)
    ensures s.high == [] ==> Mine(BufMsgs(s.high), t) == [] && Whole(s.high)
  {
    if SendingOk(s) && s.sending == 0 { NoSends(s.pipe); }
    assert BufMsgs([]) == [];
    hide Pushers, Sends, PipeMsgs;
  }

  lemma LoadChecks(s: State, t: Thread)
    requires ChecksOk(s, t) && SendingOk(s) && PcOf(s, t).Check?
    ensures ChecksOk(Load(s, t), t)
  {
    NothingQueued(s, t);
    var s' := Load(s, t);
    assert s'.pipe == s.pipe && s'.sock == s.sock && s'.high == s.high && s'.dw == s.dw;
    assert Flushed(s, t) ==> Flushed(s', t);
    hide SendingOk, Flushed, Mine, BufMsgs, Whole;
  }

  lemma LoadInv(s: State, t: Thread)
    requires Inv(s) && PcOf(s, t).Check?
    ensures Inv(Load(s, t))
  {
    assert ThreadOk(s, t);
    hide FrameOk, PathOk, SizeOk, ListsOk, LockOk;
    LoadMoves(s, t);
    LoadChecks(s, t);
    hide Inv, Load, Moves;
    MoveInv(s, t, PcOf(Load(s, t), t));
  }

  lemma LoadMoves(s: State, t: Thread)
    requires ChecksOk(s, t) && PcOf(s, t).Check?
    ensures var pc := PcOf(Load(s, t), t);
            Load(s, t) == Go(s, t, pc) && Moves(s, t, pc) && pc.Carried() == PcOf(s, t).Carried()
  {
    hide LoadHolds, Flushed, Whole;
  }

  lemma LoadHalfWriteInv(s: State, t: Thread)
    requires Inv(s) && PcOf(s, t).IsHalfWrite?
    ensures Inv(LoadHalfWrite(s, t))
  {
    assert ThreadOk(s, t);
    hide Inv, PathOk;
    MoveInv(s, t, PcOf(LoadHalfWrite(s, t), t));
  }

  lemma LoadTypeInv(s: State, t: Thread)
    requires Inv(s) && PcOf(s, t).ThenType?
    ensures Inv(LoadType(s, t))
  {
    assert ThreadOk(s, t);
    hide Inv, PathOk;
    MoveInv(s, t, PcOf(LoadType(s, t), t));
  }

  lemma SortedPush(xs: seq<nat>, n: nat)
    requires Sorted(xs) && forall x :: x in xs ==> x < n
    ensures Sorted(xs + [n]) && forall x :: x in xs + [n] ==> x < n + 1
  {
    assert forall i :: 0 <= i < |xs| ==> xs[i] in xs;
  }

  lemma BeginPath(s: State, t: Thread, low: bool, data: seq<byte>)
    requires PcOf(s, t) == Idle
    ensures Path(Begin(s, t, low, data), t) == Path(s, t) + if low then [] else [CallsOf(s, t)]
  {
    var m := Msg(t, CallsOf(s, t), low, data);
    MineOne(m, t);
    hide Mine;
    assert PcOf(Begin(s, t, low, data), t).Carried() == [m];
  }

  lemma BeginThread(s: State, t: Thread, low: bool, data: seq<byte>, u: Thread)
    requires ThreadOk(s, u) && PcOf(s, t) == Idle
    ensures ThreadOk(Begin(s, t, low, data), u)
  {
    var s' := Begin(s, t, low, data);
    hide Path, Mine, Whole, PipeMsgs;
    if u == t {
      BeginPath(s, t, low, data);
      SortedPush(Path(s, t), CallsOf(s, t));
    } else {
      SameFront(s, s', u);
      SamePath(s, s', u);
      ChecksKept(s, s', u);
    }
  }

  lemma BeginInv(s: State, t: Thread, low: bool, data: seq<byte>)
    requires Inv(s) && PcOf(s, t) == Idle
    ensures Inv(Begin(s, t, low, data))
  {
    var s' := Begin(s, t, low, data);
    var pc := PcOf(s', t);
    MoveBooks(s, t, pc);
    MoveFrame(s, t, pc);
    forall u ensures ThreadOk(s', u) {
      BeginThread(s, t, low, data, u);
    }
    assert BooksOk(s') && FrameOk(s') by {
      hide Framed, Open, Whole, Unsent, Sends;
      assert Pushers(s') == Pushers(Go(s, t, pc));
    }
    hide BooksOk, FrameOk, ThreadOk;
  }

  lemma TryTakeThread(s: State, t: Thread, u: Thread)
    requires ThreadOk(s, u) && PcOf(s, t).TryLock?
    ensures ThreadOk(TryTake(s, t), u)
  {
    hide Path, Sorted, Mine, Whole, PipeMsgs;
    SameFront(s, TryTake(s, t), u);
    SamePath(s, TryTake(s, t), u);
    if u != t { ChecksKept(s, TryTake(s, t), u); }
  }

  lemma TryTakeInv(s: State, t: Thread)
    requires Inv(s) && PcOf(s, t).TryLock?
    ensures Inv(TryTake(s, t))
  {
    assert ThreadOk(s, t);
    TryTakeShape(s, t);
    hide BooksOk, FrameOk, ThreadOk, TryTake;
    forall u ensures ThreadOk(TryTake(s, t), u) {
      TryTakeThread(s, t, u);
    }
  }

  lemma TryTakeShape(s: State, t: Thread)
    requires BooksOk(s) && FrameOk(s) && PcOf(s, t).TryLock?
    ensures BooksOk(TryTake(s, t)) && FrameOk(TryTake(s, t))
  {
    hide Framed, Open, Whole, Unsent, Sends;
    assert Pushers(TryTake(s, t)) == Pushers(s);
  }

  lemma UnlockThread(s: State, t: Thread, u: Thread)
    requires ThreadOk(s, u) && (PcOf(s, t).UnlockIdle? || PcOf(s, t).UnlockThenW? || PcOf(s, t).UnlockThenInc?)
    ensures ThreadOk(Unlock(s, t), u)
  {
    hide Sorted, Mine, Whole, PipeMsgs;
  }

  lemma UnlockInv(s: State, t: Thread)
    requires Inv(s) && (PcOf(s, t).UnlockIdle? || PcOf(s, t).UnlockThenW? || PcOf(s, t).UnlockThenInc?)
    ensures Inv(Unlock(s, t))
  {
    var s' := Unlock(s, t);
    assert BooksOk(s') && FrameOk(s') by {
      hide Framed, Open, Whole, Unsent, Sends, ThreadOk;
      assert Pushers(s') == Pushers(s);
    }
    forall u ensures ThreadOk(s', u) {
      UnlockThread(s, t, u);
    }
    hide BooksOk, FrameOk, ThreadOk;
  }

  lemma PushEnableThread(s: State, t: Thread, u: Thread)
    requires ThreadOk(s, u) && PcOf(s, t).PushW?
    ensures ThreadOk(PushEnable(s, t), u)
  {
    PipeMsgsConcat(s.pipe, [EnableWrite]);
    PipeMsgsOne(EnableWrite);
    assert PipeMsgs(s.pipe) + [] == PipeMsgs(s.pipe);
    hide Sorted, Mine, Whole, PipeMsgs;
    SamePath(s, PushEnable(s, t), u);
    if u != t { ChecksKept(s, PushEnable(s, t), u); }
  }

  lemma PushEnableInv(s: State, t: Thread)
    requires Inv(s) && PcOf(s, t).PushW?
    ensures Inv(PushEnable(s, t))
  {
    var s' := PushEnable(s, t);
    PipeMsgsConcat(s.pipe, [EnableWrite]);
    PipeMsgsOne(EnableWrite);
    assert BooksOk(s') && FrameOk(s') by {
      hide Framed, Open, Whole, Unsent, Sends, ThreadOk, PipeMsgs;
      assert Pushers(s') == Pushers(s);
    }
    forall u ensures ThreadOk(s', u) {
      PushEnableThread(s, t, u);
    }
    hide BooksOk, FrameOk, ThreadOk;
  }

  lemma IncSendingThread(s: State, t: Thread, u: Thread)
    requires ThreadOk(s, u) && PcOf(s, t).Inc?
    ensures ThreadOk(IncSending(s, t), u)
  {
    hide Sorted, Mine, Whole, PipeMsgs;
  }

  lemma IncSendingInv(s: State, t: Thread)
    requires Inv(s) && PcOf(s, t).Inc?
    ensures Inv(IncSending(s, t))
  {
    var s' := IncSending(s, t);
    assert BooksOk(s') && FrameOk(s') by {
      hide Framed, Open, Whole, Unsent, Sends, ThreadOk;
      assert Pushers(s') == Pushers(s) + {t};
    }
    forall u ensures ThreadOk(s', u) {
      IncSendingThread(s, t, u);
    }
    hide BooksOk, FrameOk, ThreadOk;
  }

  lemma MinePush(msgs: seq<Msg>, m: Msg, t: Thread)
    ensures Mine(msgs + [m], t) == Mine(msgs, t) + Mine([m], t)
    ensures m.owner != t || m.low ==> Mine(msgs + [m], t) == Mine(msgs, t)
  {
    MineConcat(msgs, [m], t);
    MineOne(m, t);
    assert Mine(msgs, t) + [] == Mine(msgs, t);
  }

  /** Only the call being made, the pipe and the pieces have changed. */
  lemma SameFront(s: State, s': State, u: Thread)
    requires s'.dw == s.dw && s'.high == s.high && s'.sock == s.sock
    requires FromPipe(s', u) == FromPipe(s, u)
    ensures FromDw(s', u) == FromDw(s, u)
    ensures s'.pieces == s.pieces ==> Path(s', u) == Path(s, u)
  {
    hide FromPipe, Mine;
  }

  lemma PushedPipe(pipe: seq<Cmd>, m: Msg, u: Thread)
    ensures Mine(PipeMsgs(pipe + [Send(m)]), u) == Mine(PipeMsgs(pipe), u) + Mine([m], u)
    ensures u != m.owner ==> Mine(PipeMsgs(pipe + [Send(m)]), u) == Mine(PipeMsgs(pipe), u)
  {
    PipeMsgsConcat(pipe, [Send(m)]);
    PipeMsgsOne(Send(m));
    hide PipeMsgs;
    MinePush(PipeMsgs(pipe), m, u);
  }

  /** The message moves from the call to the end of the pipe. */
  lemma PushSendPath(s: State, t: Thread, u: Thread)
    requires PcOf(s, t).Push? && PcOf(s, t).m.owner == t
    ensures Path(PushSend(s, t), u) == Path(s, u)
    ensures u != t ==> Mine(PipeMsgs(PushSend(s, t).pipe), u) == Mine(PipeMsgs(s.pipe), u)
  {
    var m, s' := PcOf(s, t).m, PushSend(s, t);
    hide Path, PipeMsgs, Mine, FromPipe;
    PushedPipe(s.pipe, m, u);
    assert FromPipe(s', u) == FromPipe(s, u) by { PushSendPipe(s, t, u); }
    SameFront(s, s', u);
  }

  lemma PushSendPipe(s: State, t: Thread, u: Thread)
    requires PcOf(s, t).Push? && PcOf(s, t).m.owner == t
    ensures FromPipe(PushSend(s, t), u) == FromPipe(s, u)
  {
    hide Mine, PipeMsgs;
    var m, s' := PcOf(s, t).m, PushSend(s, t);
    PushedPipe(s.pipe, m, u);
    if u == t {
      MineOne(m, u);
      AppendNil(Mine(PipeMsgs(s'.pipe), u));
      assert PcOf(s', u) == Idle && PcOf(s, u) == Push(m);
    } else {
      assert PcOf(s', u) == PcOf(s, u);
    }
  }

  lemma AppendNil(a: seq<nat>)
    ensures a + [] == a
  {}

  lemma PushSendThread(s: State, t: Thread, u: Thread)
    requires ThreadOk(s, u) && PcOf(s, t).Push? && PcOf(s, t).m.owner == t
    ensures ThreadOk(PushSend(s, t), u)
  {
    hide Sorted, Whole, Mine, PathOk, PipeMsgs, Path;
    PushSendPath(s, t, u);
    SamePath(s, PushSend(s, t), u);
    if u != t { ChecksKept(s, PushSend(s, t), u); }
  }

  lemma PushSendInv(s: State, t: Thread)
    requires Inv(s) && PcOf(s, t).Push?
    ensures Inv(PushSend(s, t))
  {
    assert PcOf(s, t).m.owner == t by { CarriesOwn(s, t); }
    hide BooksOk, FrameOk, ThreadOk, PushSend;
    PushSendBooks(s, t);
    PushSendFrame(s, t);
    forall u ensures ThreadOk(PushSend(s, t), u) {
      assert ThreadOk(s, u);
      PushSendThread(s, t, u);
    }
  }

  lemma CarriesOwn(s: State, t: Thread)
    requires Inv(s) && PcOf(s, t).Push?
    ensures PcOf(s, t).m.owner == t
  {
    hide BooksOk, FrameOk, ChecksOk, Path;
    assert ThreadOk(s, t);
    assert PcOf(s, t).m in PcOf(s, t).Carried();
  }

  lemma PushSendBooks(s: State, t: Thread)
    requires BooksOk(s) && PcOf(s, t).Push?
    ensures BooksOk(PushSend(s, t))
  {
    hide Whole, Unsent, Sends, InBounds, AllLow, PiecesOk, PipeMsgs;
    var c := Send(PcOf(s, t).m);
    PipeMsgsConcat(s.pipe, [c]);
    PipeMsgsOne(c);
    assert t in Pushers(s) && Pushers(PushSend(s, t)) == Pushers(s) - {t};
  }

  lemma PushSendFrame(s: State, t: Thread)
    requires FrameOk(s) && PcOf(s, t).Push?
    ensures FrameOk(PushSend(s, t))
  {
    hide Framed, Open, Whole;
  }

  // The direct write and what follows it.

  lemma PieceMsgsPush(pieces: seq<Piece>, p: Piece)
    ensures MsgsOf(pieces + [p]) == MsgsOf(pieces) + [p.msg]
  {}

  lemma FramedPush(pieces: seq<Piece>, p: Piece)
    ensures Framed(pieces + [p])
       <==> Framed(pieces) && match Open(pieces) case None => p.lo == 0 case Some(b) => p.msg == b.msg && p.lo == b.off
  {
    var all := pieces + [p];
    if Framed(all) {
      forall i | 0 <= i < |pieces| - 1 ensures Follows(pieces[i], pieces[i + 1]) {
        assert Follows(all[i], all[i + 1]);
      }
      if pieces != [] {
        assert Follows(all[|pieces| - 1], all[|pieces|]);
        assert pieces[0] == all[0];
      }
    }
  }

  lemma FramedBefore(s: State, b: Buf, n: nat)
    ensures Framed(Wrote(s, b.msg, b.off, n).pieces) ==> Framed(s.pieces)
  {
    if n > 0 {
      FramedPush(s.pieces, Piece(b.msg, b.off, b.off + n));
      hide Framed;
    }
  }

  /** Writing n bytes of what comes next keeps the stream framed. */
  lemma WroteFramed(s: State, b: Buf, n: nat)
    requires Framed(s.pieces) && b.off + n <= |b.msg.data|
    requires match Open(s.pieces) case None => b.off == 0 case Some(o) => o == b
    ensures Framed(Wrote(s, b.msg, b.off, n).pieces)
    ensures Open(Wrote(s, b.msg, b.off, n).pieces)
         == if n == 0 then Open(s.pieces) else if b.off + n == |b.msg.data| then None else Some(Buf(b.msg, b.off + n))
  {
    if n > 0 {
      FramedPush(s.pieces, Piece(b.msg, b.off, b.off + n));
      hide Framed;
    }
  }

  /** A thread about to write directly is between messages, unless force_close freed a half-sent one. */
  lemma DirectWriteFindsBoundary(s: State, t: Thread)
    requires Inv(s) && PcOf(s, t).DirectWrite? && Framed(s.pieces)
    ensures s.sock.Freeing() || (Open(s.pieces) == None && AllWhole(s))
  {
    assert ThreadOk(s, t);
    assert s.lock == OfThread(t);
    hide Framed;
    if Open(s.pieces).Some? {
      var b := Open(s.pieces).value;
      assert s.pieces[|s.pieces| - 1] in s.pieces;
      assert b.off > 0;
    }
  }

  predicate Tears(s: State, n: nat) {
    n > 0 && s.sock.Freeing() && Open(s.pieces).Some?
  }

  lemma WriteNowFrame(s: State, t: Thread, n: nat)
    requires Inv(s) && PcOf(s, t).DirectWrite? && n <= |PcOf(s, t).m.data|
    ensures FrameOk(WriteNow(s, t, n))
    ensures Framed(WriteNow(s, t, n).pieces) <==> Framed(s.pieces) && !Tears(s, n)
  {
    var m := PcOf(s, t).m;
    var s' := WriteNow(s, t, n);
    if n > 0 { FramedPush(s.pieces, Piece(m, 0, n)); }
    assert s.lock == OfThread(t);
    if Framed(s.pieces) {
      DirectWriteFindsBoundary(s, t);
      if n > 0 && Open(s.pieces).Some? {
        assert s.pieces[|s.pieces| - 1] in s.pieces;
      }
      if Open(s.pieces) == None { WroteFramed(s, Buf(m, 0), n); }
    }
    hide Framed, Open, Whole, Unsent, Sends, ThreadOk;
  }

  lemma SortedAgain(xs: seq<nat>, n: nat)
    requires Sorted(xs + [n])
    ensures Sorted(xs) && Sorted(xs + [n, n])
  {
    var before := xs + [n];
    forall i | 0 <= i < |xs| ensures xs[i] == before[i] && xs[i] <= n {
      assert before[i] <= before[|xs|];
    }
  }

  /** Nothing that thread t sent earlier is between its call and the socket. */
  lemma NothingBetween(s: State, t: Thread)
    requires Flushed(s, t) && Mine(BufMsgs(s.high), t) == [] && s.dw == None
    ensures FromDw(s, t) == FromHigh(s, t) == Mine(PcOf(s, t).Carried(), t)
  {
    hide Mine;
    assert Mine([], t) == [] by { MineOne(Msg(t, 0, true, []), t); }
  }

  lemma WriteNowPath(s: State, t: Thread, n: nat)
    requires ThreadOk(s, t) && PcOf(s, t).DirectWrite? && n <= |PcOf(s, t).m.data|
    ensures PathOk(WriteNow(s, t, n), t)
  {
    hide ChecksOk, Mine, MsgsOf, Flushed, FromDw, Sorted;
    var m := PcOf(s, t).m;
    var s' := WriteNow(s, t, n);
    var done := Mine(MsgsOf(s.pieces), t);
    DirectFacts(s, t, n);
    NothingBetween(s, t);
    NothingBetween(s', t);
    MineOne(m, t);
    PieceMsgsPush(s.pieces, Piece(m, 0, n));
    MinePush(MsgsOf(s.pieces), m, t);
    assert Path(s, t) == done + [m.call];
    assert Path(s', t) == (if n > 0 then done + [m.call] else done) + Mine(PcOf(s', t).Carried(), t);
    hide Path;
    Stutter(Path(s, t), done, m.call, Path(s', t));
    SubPath(s, s', t);
  }

  /** What a thread knows when it writes directly, and still knows after it. */
  lemma DirectFacts(s: State, t: Thread, n: nat)
    requires ThreadOk(s, t) && PcOf(s, t).DirectWrite? && n <= |PcOf(s, t).m.data|
    ensures !PcOf(s, t).m.low && PcOf(s, t).m.owner == t
    ensures var s' := WriteNow(s, t, n);
            && Flushed(s, t) && Mine(BufMsgs(s.high), t) == [] && s.dw == None
            && Flushed(s', t) && s'.high == s.high && s'.dw == None && CallsOf(s', t) == CallsOf(s, t)
            && PcOf(s', t).Carried() in {[], [PcOf(s, t).m]}
  {
    hide Mine, Sorted, Path, Whole;
    assert PcOf(s, t).m in PcOf(s, t).Carried();
  }

  lemma Stutter(before: seq<nat>, done: seq<nat>, call: nat, after: seq<nat>)
    requires Sorted(before) && before == done + [call]
    requires after == done + [] || after == done + [call] || after == done + [call] + [] || after == done + [call] + [call]
    ensures Sorted(after) && forall n :: n in after ==> n in before
  {
    SortedAgain(done, call);
    assert done + [] == done;
    assert done + [call] + [call] == done + [call, call];
    assert done + [call] + [] == done + [call];
    hide Sorted;
  }

  lemma WriteNowOtherPath(s: State, t: Thread, n: nat, u: Thread)
    requires PcOf(s, t).DirectWrite? && n <= |PcOf(s, t).m.data| && PcOf(s, t).m.owner == t != u
    ensures Path(WriteNow(s, t, n), u) == Path(s, u)
  {
    var m := PcOf(s, t).m;
    hide Mine, FromDw, PipeMsgs;
    PieceMsgsPush(s.pieces, Piece(m, 0, n));
    MinePush(MsgsOf(s.pieces), m, u);
    SameFront(s, WriteNow(s, t, n), u);
    hide FromPipe, MsgsOf;
  }

  lemma WriteNowOther(s: State, t: Thread, n: nat, u: Thread)
    requires ThreadOk(s, u) && PcOf(s, t).DirectWrite? && n <= |PcOf(s, t).m.data| && PcOf(s, t).m.owner == t != u
    ensures ThreadOk(WriteNow(s, t, n), u)
  {
    hide PathOk, ChecksOk, Path, Mine, Sorted, Whole, PipeMsgs;
    WriteNowOtherPath(s, t, n, u);
    SamePath(s, WriteNow(s, t, n), u);
    ChecksKept(s, WriteNow(s, t, n), u);
  }

  lemma WriteNowBooks(s: State, t: Thread, n: nat)
    requires BooksOk(s) && PcOf(s, t).DirectWrite? && n <= |PcOf(s, t).m.data|
    ensures BooksOk(WriteNow(s, t, n))
  {
    hide Unsent, Sends, Whole;
    assert Pushers(WriteNow(s, t, n)) == Pushers(s);
  }

  lemma WriteNowChecks(s: State, t: Thread, n: nat)
    requires ChecksOk(s, t) && PcOf(s, t).DirectWrite? && n <= |PcOf(s, t).m.data|
    ensures ChecksOk(WriteNow(s, t, n), t)
  {
    var s' := WriteNow(s, t, n);
    assert s'.pipe == s.pipe && s'.sock == s.sock && s'.high == s.high && s'.dw == s.dw && s'.kind == s.kind;
    assert Flushed(s, t) ==> Flushed(s', t);
    hide Mine, Whole, Flushed, BufMsgs;
  }

  lemma WriteNowOwn(s: State, t: Thread, n: nat)
    requires ThreadOk(s, t) && PcOf(s, t).DirectWrite? && n <= |PcOf(s, t).m.data|
    ensures ThreadOk(WriteNow(s, t, n), t) && PcOf(s, t).m.owner == t
  {
    assert PcOf(s, t).m in PcOf(s, t).Carried();
    WriteNowPath(s, t, n);
    WriteNowChecks(s, t, n);
    hide Path, Sorted, ChecksOk, WriteNow;
  }

  lemma WriteNowInv(s: State, t: Thread, n: nat)
    requires Inv(s) && PcOf(s, t).DirectWrite? && n <= |PcOf(s, t).m.data|
    ensures Inv(WriteNow(s, t, n))
  {
    WriteNowFrame(s, t, n);
    WriteNowBooks(s, t, n);
    assert ThreadOk(s, t);
    WriteNowOwn(s, t, n);
    hide BooksOk, FrameOk, ThreadOk, WriteNow;
    forall u ensures ThreadOk(WriteNow(s, t, n), u) {
      if u != t { WriteNowOther(s, t, n, u); }
    }
  }

  lemma KeepOwn(s: State, t: Thread)
    requires ThreadOk(s, t) && PcOf(s, t).KeepRest?
    ensures ThreadOk(Keep(s, t), t)
  {
    var s' := Keep(s, t);
    assert PcOf(s, t).m in PcOf(s, t).Carried();
    KeepFront(s, t);
    assert s'.pieces == s.pieces;
    hide FromDw, Mine, Sorted;
    SamePath(s, s', t);
  }

  /** The rest of the message goes from the call of its thread to the left-over. */
  lemma KeepFront(s: State, t: Thread)
    requires ChecksOk(s, t) && PcOf(s, t).KeepRest? && PcOf(s, t).m.owner == t
    ensures FromDw(Keep(s, t), t) == FromDw(s, t)
  {
    hide Mine, Whole, PipeMsgs;
    var m := PcOf(s, t).m;
    var s' := Keep(s, t);
    MineOne(m, t);
    assert DwMsgs(s'.dw) == [m] && DwMsgs(s.dw) == [];
    assert Flushed(s', t);
    NothingBetween(s, t);
    assert FromHigh(s', t) == [];
  }

  lemma KeepOther(s: State, t: Thread, u: Thread)
    requires ThreadOk(s, t) && ThreadOk(s, u) && PcOf(s, t).KeepRest? && u != t && !PcOf(s, u).HoldsLock()
    ensures ThreadOk(Keep(s, t), u)
  {
    hide Mine, Whole, PipeMsgs;
    var m := PcOf(s, t).m;
    var s' := Keep(s, t);
    assert m in PcOf(s, t).Carried();
    MineOne(m, u);
    assert DwMsgs(s'.dw) == [m] && DwMsgs(s.dw) == [];
    assert FromHigh(s', u) == FromHigh(s, u);
    assert FromDw(s', u) == FromDw(s, u);
    hide FromDw;
    SamePath(s, s', u);
    ChecksKept(s, s', u);
  }

  lemma KeepShape(s: State, t: Thread)
    requires BooksOk(s) && FrameOk(s) && ThreadOk(s, t) && PcOf(s, t).KeepRest?
    ensures BooksOk(Keep(s, t)) && FrameOk(Keep(s, t))
  {
    hide Framed, Unsent, Sends, PathOk, Mine;
    assert Pushers(Keep(s, t)) == Pushers(s);
    assert s.lock == OfThread(t);
    if Open(s.pieces).Some? {
      assert s.pieces[|s.pieces| - 1] in s.pieces;
    }
  }

  lemma KeepInv(s: State, t: Thread)
    requires Inv(s) && PcOf(s, t).KeepRest?
    ensures Inv(Keep(s, t))
  {
    assert ThreadOk(s, t);
    KeepShape(s, t);
    assert LockOk(s);
    hide BooksOk, FrameOk, ThreadOk, Keep;
    forall u ensures ThreadOk(Keep(s, t), u) {
      if u == t { KeepOwn(s, t); } else { KeepOther(s, t, u); }
    }
  }

  // ---------------------------------------------------------------------------
  // Steps of the socket thread keep the invariant

  /** Dropping or repeating one call leaves the rest in order. */
  lemma SortedAround(a: seq<nat>, x: seq<nat>, c: seq<nat>)
    requires Sorted(a + x + c)
    ensures Sorted(a + c) && forall n :: n in a + c ==> n in a + x + c
    ensures |x| <= 1 ==> Sorted(a + x + x + c) && forall n :: n in a + x + x + c ==> n in a + x + c
  {
    var all := a + x + c;
    forall i, j | 0 <= i < j < |a + c| ensures (a + c)[i] <= (a + c)[j] {
      assert (a + c)[i] == all[if i < |a| then i else i + |x|];
      assert (a + c)[j] == all[if j < |a| then j else j + |x|];
    }
    if |x| <= 1 {
      var twice := a + x + x + c;
      forall i, j | 0 <= i < j < |twice| ensures twice[i] <= twice[j] {
        assert twice[i] == all[if i < |a + x| then i else i - |x|];
        assert twice[j] == all[if j < |a + x| then j else j - |x|];
      }
    }
  }

  lemma PathAround(s: State, s': State, u: Thread, a: seq<nat>, x: seq<nat>, c: seq<nat>)
    requires PathOk(s, u) && s'.pcs == s.pcs && s'.calls == s.calls && Path(s, u) == a + x + c
    requires Path(s', u) == a + c || (|x| <= 1 && Path(s', u) == a + x + x + c)
    ensures PathOk(s', u)
  {
    SortedAround(a, x, c);
    hide Path, Sorted;
    SubPath(s, s', u);
  }

  /** The calls of thread u at each place, from the wire to the call being made. */
  function Chain(wrote: seq<nat>, dw: seq<nat>, high: seq<nat>, hand: seq<nat>, rest: seq<nat>): seq<nat> {
    wrote + (dw + (high + (hand + rest)))
  }

  lemma PathChain(s: State, u: Thread)
    ensures Path(s, u) == Chain(Mine(MsgsOf(s.pieces), u), Mine(DwMsgs(s.dw), u), Mine(BufMsgs(s.high), u),
                                Mine(HandMsgs(s), u), FromPipe(s, u))
  {
    hide Mine, MsgsOf, DwMsgs, BufMsgs, HandMsgs, FromPipe;
  }

  lemma ChainSplits(p: seq<nat>, d: seq<nat>, h: seq<nat>, x: seq<nat>, r: seq<nat>)
    ensures Chain(p, d, h, x, r) == p + d + h + x + r
    ensures Chain(p, d, h, x, r) == p + d + h + (x + r)
    ensures Chain(p, d, h, x, r) == p + d + (h + (x + r))
  {}

  lemma ChainDrops(p: seq<nat>, d: seq<nat>, h: seq<nat>, x: seq<nat>, r: seq<nat>)
    ensures Chain(p, d, h, [], r) == p + d + h + r
    ensures Chain(p, d, [], x, r) == p + d + (x + r)
    ensures Chain(p, [], h, x, r) == p + (h + (x + r))
  {
    assert [] + r == r && [] + (x + r) == x + r && [] + (h + (x + r)) == h + (x + r);
  }

  /** The socket thread drops what is in the high list, in dw_buffer, or in its hand. */
  lemma Drop(s: State, s': State, u: Thread)
    requires PathOk(s, u) && s'.pcs == s.pcs && s'.calls == s.calls && s'.pieces == s.pieces
    requires FromPipe(s', u) == FromPipe(s, u)
    requires || (s'.dw == s.dw && s'.high == s.high && HandMsgs(s') == [])
             || (s'.dw == s.dw && s'.high == [] && HandMsgs(s') == HandMsgs(s))
             || (s'.dw == None && s'.high == s.high && HandMsgs(s') == HandMsgs(s))
    ensures PathOk(s', u)
  {
    MineOne(Msg(u, 0, true, []), u);
    assert BufMsgs([]) == [] && DwMsgs(None) == [];
    PathChain(s, u);
    PathChain(s', u);
    var p, d, h := Mine(MsgsOf(s.pieces), u), Mine(DwMsgs(s.dw), u), Mine(BufMsgs(s.high), u);
    var x, r := Mine(HandMsgs(s), u), FromPipe(s, u);
    hide Mine, FromPipe, PathOk, MsgsOf, BufMsgs, DwMsgs, HandMsgs, Path, Chain;
    ChainSplits(p, d, h, x, r);
    ChainDrops(p, d, h, x, r);
    if s'.dw != s.dw {
      PathAround(s, s', u, p, d, h + (x + r));
    } else if s'.high != s.high {
      PathAround(s, s', u, p + d, h, x + r);
    } else if HandMsgs(s') == [] {
      PathAround(s, s', u, p + d + h, x, r);
    } else {
      SamePath(s, s', u);
    }
  }

  lemma FreeHighInv(s: State)
    requires Inv(s) && s.sock == Poll && s.kind != Invalid
    ensures Inv(FreeHigh(s))
  {
    var s' := FreeHigh(s);
    assert BooksOk(s') && FrameOk(s') by {
      hide Framed, Open, Unsent, Sends, ThreadOk;
      assert Pushers(s') == Pushers(s);
    }
    forall u ensures ThreadOk(s', u) {
      assert ThreadOk(s, u);
      hide PathOk, ChecksOk, BooksOk, FrameOk, PipeMsgs;
      MineOne(Msg(u, 0, true, []), u);
      assert BufMsgs(s'.high) == [];
      Drop(s, s', u);
      ChecksKept(s, s', u);
    }
    hide BooksOk, FrameOk, ThreadOk;
  }

  lemma FreeLowInv(s: State)
    requires Inv(s) && s.sock == FreeLow
    ensures Inv(FreeLowList(s))
  {
    var s' := FreeLowList(s);
    assert BooksOk(s') && FrameOk(s') by {
      hide Framed, Open, Unsent, Sends, ThreadOk;
      assert Pushers(s') == Pushers(s);
    }
    forall u ensures ThreadOk(s', u) {
      assert ThreadOk(s, u);
      hide PathOk, ChecksOk, BooksOk, FrameOk, Mine, PipeMsgs;
      assert FromHand(s', u) == FromHand(s, u);
      hide FromHand;
      SamePath(s, s', u);
      ChecksKept(s, s', u);
    }
    hide BooksOk, FrameOk, ThreadOk;
  }

  lemma ShutInv(s: State)
    requires Inv(s) && s.sock == Freed && s.lock == Free
    ensures Inv(Shut(s))
  {
    var s' := Shut(s);
    assert BooksOk(s') && FrameOk(s') by {
      hide Framed, Open, Unsent, Sends, ThreadOk;
      assert Pushers(s') == Pushers(s);
    }
    forall u ensures ThreadOk(s', u) {
      assert ThreadOk(s, u) && LockOk(s);
      hide PathOk, ChecksOk, BooksOk, FrameOk, Mine, PipeMsgs;
      assert FromHand(s', u) == FromHand(s, u);
      hide FromHand;
      Drop(s, s', u);
      ChecksKept(s, s', u);
    }
    hide BooksOk, FrameOk, ThreadOk;
  }

  /** The head of the pipe, if it is a message, comes before the rest of the pipe. */
  lemma PipeHead(pipe: seq<Cmd>, u: Thread)
    requires pipe != []
    ensures Sends(pipe) == (if pipe[0].Send? then 1 else 0) + Sends(pipe[1..])
    ensures Mine(PipeMsgs(pipe), u) == Mine(if pipe[0].Send? then [pipe[0].m] else [], u) + Mine(PipeMsgs(pipe[1..]), u)
  {
    assert pipe == [pipe[0]] + pipe[1..];
    PipeMsgsConcat([pipe[0]], pipe[1..]);
    PipeMsgsOne(pipe[0]);
    hide PipeMsgs;
    MineConcat(PipeMsgs([pipe[0]]), PipeMsgs(pipe[1..]), u);
  }

  lemma TakeSendPath(s: State, u: Thread)
    requires s.pipe != [] && s.sock == Poll && s.pipe[0].Send?
    ensures FromHand(TakeCmd(s, false), u) == FromHand(s, u)
    ensures Flushed(s, u) ==> Flushed(TakeCmd(s, false), u)
  {
    hide Mine, PipeMsgs, Sends;
    var s' := TakeCmd(s, false);
    PipeHead(s.pipe, u);
    MineOne(Msg(u, 0, true, []), u);
    var m := [s.pipe[0].m];
    assert HandMsgs(s') == m && HandMsgs(s) == [] && s'.pipe == s.pipe[1..] && PcOf(s', u) == PcOf(s, u);
    hide TakeCmd, PcOf;
    var x, rest, call := Mine(m, u), Mine(PipeMsgs(s'.pipe), u), Mine(PcOf(s, u).Carried(), u);
    assert FromHand(s, u) == [] + ((x + rest) + call);
    assert FromHand(s', u) == x + (rest + call);
    hide FromHand;
    assert x + (rest + call) == [] + ((x + rest) + call);
  }

  lemma TakeSendThread(s: State, u: Thread)
    requires ThreadOk(s, u) && s.pipe != [] && s.sock == Poll && s.pipe[0].Send?
    ensures ThreadOk(TakeCmd(s, false), u)
  {
    hide PathOk, ChecksOk, Mine, PipeMsgs, FromHand, Flushed;
    TakeSendPath(s, u);
    SamePath(s, TakeCmd(s, false), u);
    ChecksKept(s, TakeCmd(s, false), u);
  }

  lemma TakeSendInv(s: State)
    requires Inv(s) && s.pipe != [] && s.sock == Poll && s.pipe[0].Send?
    ensures Inv(TakeCmd(s, false))
  {
    var s' := TakeCmd(s, false);
    PipeHead(s.pipe, 0);
    assert BooksOk(s') && FrameOk(s') by {
      hide Framed, Open, Unsent, Sends, ThreadOk;
      assert Pushers(s') == Pushers(s);
    }
    forall u ensures ThreadOk(s', u) {
      assert ThreadOk(s, u);
      hide BooksOk, FrameOk, ThreadOk, TakeCmd;
      TakeSendThread(s, u);
    }
    hide BooksOk, FrameOk, ThreadOk, TakeCmd;
  }

  lemma PoppedThread(s: State, u: Thread)
    requires ThreadOk(s, u) && s.pipe != [] && s.sock == Poll && !s.pipe[0].Send?
    ensures ThreadOk(Popped(s), u)
  {
    var s' := Popped(s);
    PipeHead(s.pipe, u);
    MineOne(Msg(u, 0, true, []), u);
    hide PathOk, ChecksOk, Mine, PipeMsgs;
    assert Mine(PipeMsgs(s'.pipe), u) == Mine(PipeMsgs(s.pipe), u);
    assert FromHand(s', u) == FromHand(s, u);
    assert Flushed(s, u) ==> Flushed(s', u);
    hide FromHand, Flushed;
    SamePath(s, s', u);
    ChecksKept(s, s', u);
  }

  lemma PoppedInv(s: State)
    requires Inv(s) && s.pipe != [] && s.sock == Poll && !s.pipe[0].Send?
    ensures Inv(Popped(s))
  {
    var s' := Popped(s);
    PipeHead(s.pipe, 0);
    assert BooksOk(s') && FrameOk(s') by {
      hide Framed, Open, Unsent, Sends, ThreadOk;
      assert Pushers(s') == Pushers(s);
    }
    forall u ensures ThreadOk(s', u) {
      assert ThreadOk(s, u);
      hide BooksOk, FrameOk, ThreadOk, Popped;
      PoppedThread(s, u);
    }
    hide BooksOk, FrameOk, ThreadOk, Popped;
  }

  /** A change of type alone: no thread relies on it but one that has seen HALFCLOSE_WRITE, or holds the lock. */
  ghost predicate KindMoves(s: State, s': State) {
    && s' == s.(kind := s'.kind, closing := s'.closing) && s.kind != Invalid
    && s'.kind != Invalid && (s.kind == HalfWrite ==> s'.kind == HalfWrite)
  }

  lemma KindInv(s: State, s': State)
    requires Inv(s) && KindMoves(s, s')
    ensures Inv(s')
  {
    assert BooksOk(s') && FrameOk(s') by {
      hide Framed, Open, Unsent, Sends, ThreadOk, Whole;
      assert Pushers(s') == Pushers(s);
    }
    forall u ensures ThreadOk(s', u) {
      assert ThreadOk(s, u);
      hide PathOk, ChecksOk, BooksOk, FrameOk, Mine, PipeMsgs;
      assert FromHand(s', u) == FromHand(s, u);
      hide FromHand;
      SamePath(s, s', u);
      ChecksKept(s, s', u);
    }
    hide BooksOk, FrameOk, ThreadOk;
  }

  lemma CloseSocketInv(s: State, now: bool)
    requires Inv(s) && s.sock == Poll
    ensures Inv(CloseSocket(s, now))
  {
    hide Inv;
    if s.kind != Invalid {
      if now || s.kind == HalfWrite { FreeHighInv(s); } else { KindInv(s, CloseSocket(s, now)); }
    }
  }

  lemma TakeCmdInv(s: State, now: bool)
    requires Inv(s) && s.pipe != [] && s.sock == Poll
    ensures Inv(TakeCmd(s, now))
  {
    hide Inv;
    if s.pipe[0].Send? {
      TakeSendInv(s);
    } else {
      PoppedInv(s);
      if s.pipe[0].Close? { CloseSocketInv(Popped(s), s.pipe[0].shutdown || now); }
    }
  }

  lemma BufsPush(list: seq<Buf>, b: Buf)
    ensures Unsent(list + [b]) == Unsent(list) + Rest(b)
    ensures Whole(list + [b]) <==> Whole(list) && b.off == 0
    ensures InBounds(list + [b]) <==> InBounds(list) && b.off <= |b.msg.data|
    ensures AllLow(list + [b]) <==> AllLow(list) && b.msg.low
    ensures BufMsgs(list + [b]) == BufMsgs(list) + [b.msg]
  {
    UnsentPush(list, b);
    assert b in list + [b];
    assert forall c :: c in list ==> c in list + [b];
  }

  lemma DroppedInv(s: State)
    requires Inv(s) && s.sock.Append?
    ensures Inv(s.(sock := Dec))
  {
    var s' := s.(sock := Dec);
    assert BooksOk(s') && FrameOk(s') by {
      hide Framed, Open, Unsent, Sends, ThreadOk, Whole;
      assert Pushers(s') == Pushers(s);
    }
    forall u ensures ThreadOk(s', u) {
      assert ThreadOk(s, u);
      hide BooksOk, FrameOk, PathOk, ChecksOk, Mine, PipeMsgs;
      Drop(s, s', u);
      MineOne(s.sock.m, u);
      ChecksKept(s, s', u);
    }
    hide BooksOk, FrameOk, ThreadOk;
  }

  lemma ToHighBooks(s: State, b: Buf)
    requires BooksOk(s) && s.sock.Append? && s.kind != Invalid && b.off <= |b.msg.data|
    ensures BooksOk(ToHigh(s, b))
  {
    BufsPush(s.high, b);
    assert Pushers(ToHigh(s, b)) == Pushers(s);
    hide Unsent, Sends, Whole, InBounds, AllLow, BufMsgs, Rest;
  }

  lemma ToLowBooks(s: State, b: Buf)
    requires BooksOk(s) && s.sock.Append? && s.kind != Invalid && b.off == 0 && b.msg.low
    ensures BooksOk(ToLow(s, b))
  {
    BufsPush(s.low, b);
    assert Pushers(ToLow(s, b)) == Pushers(s);
    hide Unsent, Sends, Whole, InBounds, AllLow, BufMsgs, Rest;
  }

  lemma ToHighFrame(s: State, b: Buf)
    requires FrameOk(s) && s.sock.Append? && b.off == 0
    ensures FrameOk(ToHigh(s, b))
  {
    hide Framed, Open, Rest;
  }

  lemma ToLowFrame(s: State, b: Buf)
    requires FrameOk(s) && s.sock.Append? && b.off == 0
    ensures FrameOk(ToLow(s, b))
  {
    hide Framed, Open, Rest;
  }

  lemma ToHighPath(s: State, b: Buf, u: Thread)
    requires s.sock == Append(b.msg)
    ensures FromHigh(ToHigh(s, b), u) == FromHigh(s, u)
  {
    var s' := ToHigh(s, b);
    MineOne(b.msg, u);
    BufsPush(s.high, b);
    MinePush(BufMsgs(s.high), b.msg, u);
    hide Mine, BufMsgs, PipeMsgs, Rest;
    assert HandMsgs(s) == [b.msg] && HandMsgs(s') == [];
    var h, x, rest := Mine(BufMsgs(s.high), u), Mine([b.msg], u), FromPipe(s, u);
    assert FromHigh(s, u) == h + (x + rest);
    assert FromHigh(s', u) == (h + x) + ([] + rest);
    hide FromHigh;
    assert (h + x) + ([] + rest) == h + (x + rest);
  }

  lemma ToHighThread(s: State, b: Buf, u: Thread)
    requires ThreadOk(s, u) && s.sock == Append(b.msg) && b.off == 0
    ensures ThreadOk(ToHigh(s, b), u)
  {
    hide PathOk, ChecksOk, Mine, PipeMsgs, FromHigh, BufMsgs, Whole, InBounds, AllLow, Rest, Unsent;
    var s' := ToHigh(s, b);
    ToHighPath(s, b, u);
    MineOne(b.msg, u);
    BufsPush(s.high, b);
    MinePush(BufMsgs(s.high), b.msg, u);
    SamePath(s, s', u);
    ChecksKept(s, s', u);
  }

  lemma ToHighInv(s: State, b: Buf)
    requires Inv(s) && s.sock == Append(b.msg) && b.off == 0 && s.kind != Invalid
    ensures Inv(ToHigh(s, b))
  {
    ToHighBooks(s, b);
    ToHighFrame(s, b);
    assert forall u :: ThreadOk(s, u);
    hide BooksOk, FrameOk, ThreadOk, ToHigh;
    forall u ensures ThreadOk(ToHigh(s, b), u) {
      ToHighThread(s, b, u);
    }
  }

  lemma ToLowThread(s: State, b: Buf, u: Thread)
    requires ThreadOk(s, u) && s.sock == Append(b.msg) && b.msg.low
    ensures ThreadOk(ToLow(s, b), u)
  {
    var s' := ToLow(s, b);
    MineOne(b.msg, u);
    hide PathOk, ChecksOk, Mine, PipeMsgs, BufMsgs, Whole, Rest;
    assert HandMsgs(s) == [b.msg] && HandMsgs(s') == [];
    assert FromHand(s', u) == FromHand(s, u);
    hide FromHand;
    SamePath(s, s', u);
    ChecksKept(s, s', u);
  }

  lemma ToLowInv(s: State, b: Buf)
    requires Inv(s) && s.sock == Append(b.msg) && b.off == 0 && b.msg.low && s.kind != Invalid
    ensures Inv(ToLow(s, b))
  {
    ToLowBooks(s, b);
    ToLowFrame(s, b);
    assert forall u :: ThreadOk(s, u);
    hide BooksOk, FrameOk, ThreadOk, ToLow;
    forall u ensures ThreadOk(ToLow(s, b), u) {
      ToLowThread(s, b, u);
    }
  }

  lemma AppendMsgInv(s: State)
    requires Inv(s) && s.sock.Append?
    ensures Inv(AppendMsg(s))
  {
    hide Inv, ToHigh, ToLow;
    var b := Buf(s.sock.m, 0);
    DroppedInv(s);
    if s.kind != Invalid {
      ToHighInv(s, b);
      if b.msg.low { ToLowInv(s, b); }
    }
  }

  /** A step of the socket thread that moves no message. */
  lemma QuietThread(s: State, s': State, u: Thread)
    requires ThreadOk(s, u)
    requires s' == s.(sock := s'.sock, lock := s'.lock, sending := s'.sending)
    requires HandMsgs(s') == HandMsgs(s)
    ensures ThreadOk(s', u)
  {
    hide PathOk, ChecksOk, Mine, PipeMsgs, HandMsgs;
    assert FromHand(s', u) == FromHand(s, u);
    hide FromHand;
    SamePath(s, s', u);
    ChecksKept(s, s', u);
  }

  lemma DecSendingInv(s: State)
    requires Inv(s) && s.sock.Dec? && s.sending > 0
    ensures Inv(DecSending(s))
  {
    var s' := DecSending(s);
    assert BooksOk(s') && FrameOk(s') by {
      hide Framed, Open, Unsent, Sends, ThreadOk;
      assert Pushers(s') == Pushers(s);
    }
    assert forall u :: ThreadOk(s, u);
    hide BooksOk, FrameOk, ThreadOk;
    forall u ensures ThreadOk(s', u) {
      QuietThread(s, s', u);
    }
  }

  lemma LockSendFrame(s: State)
    requires FrameOk(s) && LockOk(s) && s.sock == Poll && s.lock == Free
    ensures FrameOk(LockSend(s))
  {
    hide Framed, Open, Whole;
  }

  lemma LockSendBooks(s: State)
    requires BooksOk(s) && s.sock == Poll && s.kind != Invalid && s.lock == Free
    ensures BooksOk(LockSend(s))
  {
    hide Unsent, Sends, Whole;
    assert Pushers(LockSend(s)) == Pushers(s);
  }

  lemma LockSendInv(s: State)
    requires Inv(s) && s.sock == Poll && s.kind != Invalid
    ensures Inv(LockSend(s))
  {
    assert LockOk(s) && forall u :: ThreadOk(s, u);
    hide BooksOk, FrameOk, ThreadOk, LockOk;
    if s.lock == Free {
      LockSendFrame(s);
      LockSendBooks(s);
      forall u ensures ThreadOk(LockSend(s), u) {
        QuietThread(s, LockSend(s), u);
      }
    }
  }

  function Unlocked(s: State): State {
    s.(sock := Poll, lock := Free)
  }

  lemma UnlockSockInv(s: State)
    requires Inv(s) && s.sock == UnlockSock
    ensures Inv(Unlocked(s))
  {
    var s' := Unlocked(s);
    assert BooksOk(s') && FrameOk(s') by {
      hide Framed, Open, Unsent, Sends, ThreadOk;
      assert Pushers(s') == Pushers(s);
    }
    assert forall u :: ThreadOk(s, u);
    hide BooksOk, FrameOk, ThreadOk;
    forall u ensures ThreadOk(s', u) {
      QuietThread(s, s', u);
    }
  }

  // The socket thread writes, holding the lock.

  lemma BufsHead(b: Buf, tail: seq<Buf>)
    ensures Unsent([b] + tail) == Rest(b) + Unsent(tail) && ([b] + tail)[1..] == tail
    ensures Whole([b] + tail) <==> Whole(tail) && b.off == 0
    ensures InBounds([b] + tail) <==> InBounds(tail) && b.off <= |b.msg.data|
    ensures AllLow([b] + tail) <==> AllLow(tail) && b.msg.low
  {
    var list := [b] + tail;
    assert list[1..] == tail && list[0] == b && b in list;
    assert forall c :: c in list <==> c == b || c in tail;
  }

  lemma WrotePieces(s: State, m: Msg, lo: nat, n: nat)
    requires PiecesOk(s.pieces) && lo + n <= |m.data|
    ensures PiecesOk(Wrote(s, m, lo, n).pieces)
  {}

  /** The list after n bytes of its head have been written. */
  function Shortened(list: seq<Buf>, n: nat): seq<Buf>
    requires list != [] && n <= Rest(list[0])
  {
    if n == Rest(list[0]) then list[1..] else [Buf(list[0].msg, list[0].off + n)] + list[1..]
  }

  lemma ShortenedList(list: seq<Buf>, n: nat)
    requires list != [] && n <= Rest(list[0])
    ensures Unsent(Shortened(list, n)) == Unsent(list) - n
    ensures InBounds(list) ==> InBounds(Shortened(list, n))
    ensures AllLow(list) ==> AllLow(Shortened(list, n))
    ensures Whole(list) ==> Whole(Shortened(list, n)) || (n != Rest(list[0]) && Whole(Shortened(list, n)[1..]))
  {
    var b, tail := list[0], list[1..];
    assert list == [b] + tail;
    BufsHead(b, tail);
    BufsHead(Buf(b.msg, b.off + n), tail);
    hide Whole, InBounds, AllLow, Unsent;
  }

  lemma HighSentLists(s: State, n: nat)
    requires ListsOk(s) && s.sock.High? && s.high != [] && n <= Rest(s.high[0])
    ensures ListsOk(HighSent(s, n))
  {
    ShortenedList(s.high, n);
    WrotePieces(s, s.high[0].msg, s.high[0].off, n);
    assert HighSent(s, n).high == Shortened(s.high, n);
    hide Whole, InBounds, AllLow, Unsent, PiecesOk, Shortened;
  }

  lemma HighSentSize(s: State, n: nat)
    requires SizeOk(s) && s.sock.High? && s.high != [] && n <= Rest(s.high[0])
    ensures SizeOk(HighSent(s, n))
  {
    hide Whole, InBounds, AllLow, Unsent;
    var s' := HighSent(s, n);
    ShortenedList(s.high, n);
    HighShortened(s, n);
    hide Shortened, HighSent;
  }

  lemma HighShortened(s: State, n: nat)
    requires s.sock.High? && s.high != [] && n <= Rest(s.high[0])
    ensures var s' := HighSent(s, n);
            && s'.high == Shortened(s.high, n) && s'.wbSize == s.wbSize - n && s'.low == s.low && s'.kind == s.kind
            && !s'.sock.Freeing()
  {}

  lemma SameBooks(s: State, s': State)
    requires LockOk(s) && SendingOk(s)
    requires s'.pcs == s.pcs && s'.lock == s.lock && s'.sock.HoldsLock() == s.sock.HoldsLock()
    requires s'.pipe == s.pipe && s'.sending == s.sending && InHand(s') == InHand(s)
    ensures LockOk(s') && SendingOk(s')
  {
    assert Pushers(s') == Pushers(s);
    hide Sends;
  }

  lemma HighSentBooks(s: State, n: nat)
    requires BooksOk(s) && s.sock.High? && s.high != [] && n <= Rest(s.high[0])
    ensures BooksOk(HighSent(s, n))
  {
    hide ListsOk, SizeOk, LockOk, SendingOk;
    HighSentLists(s, n);
    HighSentSize(s, n);
    SameBooks(s, HighSent(s, n));
  }

  lemma HighSentFrame(s: State, n: nat)
    requires FrameOk(s) && BooksOk(s) && s.sock.High? && s.high != [] && n <= Rest(s.high[0])
    ensures FrameOk(HighSent(s, n))
    ensures Framed(HighSent(s, n).pieces) <==> Framed(s.pieces)
  {
    hide Framed, Open, Whole, InBounds, AllLow, Unsent, PiecesOk;
    var b := s.high[0];
    assert PiecesOk(s.pieces);
    assert InBounds(s.high) && b in s.high;
    assert s.dw == None && s.lock == OfSocket && s.kind != Invalid;
    hide BooksOk;
    if n > 0 { FramedPush(s.pieces, Piece(b.msg, b.off, b.off + n)); }
    if Framed(s.pieces) {
      HighHead(s);
      WroteFramed(s, b, n);
      BufsHead(Buf(b.msg, b.off + n), s.high[1..]);
      OpenIsPartial(s.pieces);
    }
  }

  lemma OpenIsPartial(pieces: seq<Piece>)
    requires PiecesOk(pieces)
    ensures Open(pieces).Some? ==> 0 < Open(pieces).value.off < |Open(pieces).value.msg.data|
  {
    if pieces != [] { assert pieces[|pieces| - 1] in pieces; }
  }

  /** The head of the high list is what comes next on the wire. */
  lemma HighHead(s: State)
    requires FrameOk(s) && Framed(s.pieces) && s.sock.High? && s.lock == OfSocket && s.kind != Invalid && s.high != []
    requires s.dw == None
    ensures Whole(s.high[1..]) && Whole(s.low)
    ensures match Open(s.pieces) case None => s.high[0].off == 0 case Some(o) => s.high[0] == o
  {
    hide Framed, Open;
    assert s.high[0] in s.high;
    assert forall c :: c in s.high[1..] ==> c in s.high;
  }

  function Wire(wrote: seq<nat>, high: seq<nat>, rest: seq<nat>): seq<nat> {
    wrote + ([] + (high + rest))
  }

  lemma WirePath(s: State, u: Thread)
    requires s.dw == None
    ensures Path(s, u) == Wire(Mine(MsgsOf(s.pieces), u), Mine(BufMsgs(s.high), u), FromHand(s, u))
  {
    MineOne(Msg(u, 0, true, []), u);
    hide Mine, MsgsOf, BufMsgs, FromHand;
  }

  lemma AroundHead(p: seq<nat>, x: seq<nat>, t: seq<nat>, r: seq<nat>)
    ensures Wire(p, x + t, r) == p + x + (t + r)
    ensures Wire(p + x, t, r) == p + x + (t + r)
    ensures Wire(p + x, x + t, r) == p + x + x + (t + r)
    ensures Wire(p, t, r) == p + (t + r)
  {}

  lemma WroteMine(s: State, m: Msg, lo: nat, n: nat, u: Thread)
    ensures Mine(MsgsOf(Wrote(s, m, lo, n).pieces), u) == Mine(MsgsOf(s.pieces), u) + if n > 0 then Mine([m], u) else []
  {
    if n > 0 {
      PieceMsgsPush(s.pieces, Piece(m, lo, lo + n));
      MinePush(MsgsOf(s.pieces), m, u);
    }
  }

  lemma HeadMine(b: Buf, tail: seq<Buf>, u: Thread)
    ensures Mine(BufMsgs([b] + tail), u) == Mine([b.msg], u) + Mine(BufMsgs(tail), u)
  {
    assert BufMsgs([b] + tail) == [b.msg] + BufMsgs(tail);
    MineConcat([b.msg], BufMsgs(tail), u);
  }

  lemma ShortenedMine(list: seq<Buf>, n: nat, u: Thread)
    requires list != [] && n <= Rest(list[0])
    ensures Mine(BufMsgs(list), u) == Mine([list[0].msg], u) + Mine(BufMsgs(list[1..]), u)
    ensures Mine(BufMsgs(Shortened(list, n)), u)
         == if n == Rest(list[0]) then Mine(BufMsgs(list[1..]), u) else Mine(BufMsgs(list), u)
  {
    var b, tail := list[0], list[1..];
    assert list == [b] + tail;
    HeadMine(b, tail, u);
    HeadMine(Buf(b.msg, b.off + n), tail, u);
    hide Mine, BufMsgs;
  }

  lemma HighSentParts(s: State, n: nat, u: Thread)
    requires s.sock.High? && s.high != [] && n <= Rest(s.high[0]) && s.dw == None
    ensures var s' := HighSent(s, n);
            && s'.pcs == s.pcs && s'.calls == s.calls && s'.dw == None && FromHand(s', u) == FromHand(s, u)
            && s'.high == Shortened(s.high, n)
            && s'.pieces == Wrote(s, s.high[0].msg, s.high[0].off, n).pieces
  {
    hide Mine, BufMsgs, MsgsOf, PipeMsgs;
  }

  lemma HighSentWire(s: State, n: nat, u: Thread)
    requires s.sock.High? && s.high != [] && n <= Rest(s.high[0]) && s.dw == None
    ensures var p, x := Mine(MsgsOf(s.pieces), u), Mine([s.high[0].msg], u);
            var t, r := Mine(BufMsgs(s.high[1..]), u), FromHand(s, u);
            && Path(s, u) == Wire(p, x + t, r)
            && Path(HighSent(s, n), u) == Wire(if n > 0 then p + x else p, if n == Rest(s.high[0]) then t else x + t, r)
  {
    HighSentParts(s, n, u);
    ShortenedMine(s.high, n, u);
    WroteMine(s, s.high[0].msg, s.high[0].off, n, u);
    AppendNil(Mine(MsgsOf(s.pieces), u));
    hide Mine, BufMsgs, MsgsOf, FromHand, HighSent, Rest, Path, Wire, Shortened, Wrote;
    WirePath(s, u);
    WirePath(HighSent(s, n), u);
  }

  lemma HighSentPath(s: State, n: nat, u: Thread)
    requires PathOk(s, u) && s.sock.High? && s.high != [] && n <= Rest(s.high[0]) && s.dw == None
    ensures PathOk(HighSent(s, n), u)
  {
    var s', b := HighSent(s, n), s.high[0];
    HighSentParts(s, n, u);
    MineOne(b.msg, u);
    hide Mine, BufMsgs, MsgsOf, PathOk, FromHand, HighSent, Rest, Path, Wire, Shortened, Wrote;
    HighSentWire(s, n, u);
    var p, x, t, r := Mine(MsgsOf(s.pieces), u), Mine([b.msg], u), Mine(BufMsgs(s.high[1..]), u), FromHand(s, u);
    AroundHead(p, x, t, r);
    if n > 0 && n == Rest(b) {
      SamePath(s, s', u);
    } else if n == 0 && n < Rest(b) {
      SamePath(s, s', u);
    } else {
      PathAround(s, s', u, p, x, t + r);
    }
  }

  lemma HighSentThread(s: State, n: nat, u: Thread)
    requires ThreadOk(s, u) && s.sock.High? && s.high != [] && n <= Rest(s.high[0]) && s.dw == None
    requires !PcOf(s, u).HoldsLock()
    ensures ThreadOk(HighSent(s, n), u)
  {
    hide PathOk, ChecksOk, Mine, PipeMsgs, Rest;
    HighSentPath(s, n, u);
    ChecksKept(s, HighSent(s, n), u);
  }

  lemma HighSentInv(s: State, n: nat)
    requires Inv(s) && s.sock.High? && s.high != [] && n <= Rest(s.high[0])
    ensures Inv(HighSent(s, n))
  {
    HighSentBooks(s, n);
    HighSentFrame(s, n);
    assert forall u :: ThreadOk(s, u) && !PcOf(s, u).HoldsLock();
    assert s.dw == None;
    hide BooksOk, FrameOk, ThreadOk, HighSent, Rest;
    forall u ensures ThreadOk(HighSent(s, n), u) {
      HighSentThread(s, n, u);
    }
  }

  lemma LowSentLists(s: State, n: nat)
    requires ListsOk(s) && SizeOk(s) && s.sock.Low? && s.low != [] && n <= Rest(s.low[0])
    ensures ListsOk(LowSent(s, n)) && SizeOk(LowSent(s, n))
  {
    ShortenedList(s.low, n);
    WrotePieces(s, s.low[0].msg, s.low[0].off, n);
    assert LowSent(s, n).low == Shortened(s.low, n);
    hide Whole, InBounds, AllLow, Unsent, PiecesOk, Shortened;
  }

  lemma LowSentBooks(s: State, n: nat)
    requires BooksOk(s) && s.sock.Low? && s.low != [] && n <= Rest(s.low[0])
    ensures BooksOk(LowSent(s, n))
  {
    hide ListsOk, SizeOk, LockOk, SendingOk;
    LowSentLists(s, n);
    SameBooks(s, LowSent(s, n));
  }

  /** While the low list is being sent no message is half sent. */
  lemma LowFindsBoundary(s: State)
    requires FrameOk(s) && Framed(s.pieces) && s.sock.Low? && s.lock == OfSocket && s.kind != Invalid && s.dw == None
    ensures Open(s.pieces) == None && AllWhole(s)
  {
    hide Framed, Open, Whole;
  }

  lemma LowSentFrame(s: State, n: nat)
    requires FrameOk(s) && BooksOk(s) && s.sock.Low? && s.low != [] && n <= Rest(s.low[0])
    ensures FrameOk(LowSent(s, n))
    ensures Framed(LowSent(s, n).pieces) <==> Framed(s.pieces)
  {
    hide Framed, Open, Unsent, AllLow, PiecesOk;
    var b := s.low[0];
    assert b in s.low;
    assert b.off <= |b.msg.data| && s.dw == None && s.lock == OfSocket && s.kind != Invalid && s.high == [];
    hide BooksOk;
    FramedBefore(s, b, n);
    if Framed(s.pieces) {
      LowFindsBoundary(s);
      WroteFramed(s, b, n);
      assert forall c :: c in s.low[1..] ==> c in s.low;
      assert ([Buf(b.msg, b.off + n)] + s.low[1..])[1..] == s.low[1..];
    }
    hide Open;
  }

  lemma LowSentPath(s: State, n: nat, u: Thread)
    requires s.sock.Low? && s.low != [] && n <= Rest(s.low[0]) && s.low[0].msg.low
    ensures Path(LowSent(s, n), u) == Path(s, u)
  {
    hide Mine, MsgsOf, BufMsgs, PipeMsgs, Rest;
    var s', m := LowSent(s, n), s.low[0].msg;
    WroteMine(s, m, s.low[0].off, n, u);
    MineOne(m, u);
    AppendNil(Mine(MsgsOf(s.pieces), u));
    LowKeepsHigh(s, n, u);
    hide FromHigh;
  }

  lemma LowKeepsHigh(s: State, n: nat, u: Thread)
    requires s.sock.Low? && s.low != [] && n <= Rest(s.low[0])
    ensures FromHigh(LowSent(s, n), u) == FromHigh(s, u) && LowSent(s, n).dw == s.dw
  {
    hide Mine, MsgsOf, BufMsgs, PipeMsgs, Rest;
  }

  lemma LowSentThread(s: State, n: nat, u: Thread)
    requires ThreadOk(s, u) && s.sock.Low? && s.low != [] && n <= Rest(s.low[0]) && s.low[0].msg.low
    requires !PcOf(s, u).HoldsLock()
    ensures ThreadOk(LowSent(s, n), u)
  {
    hide PathOk, ChecksOk, Mine, PipeMsgs, Rest, Path;
    LowSentPath(s, n, u);
    SamePath(s, LowSent(s, n), u);
    ChecksKept(s, LowSent(s, n), u);
  }

  lemma LowSentInv(s: State, n: nat)
    requires Inv(s) && s.sock.Low? && s.low != [] && n <= Rest(s.low[0])
    ensures Inv(LowSent(s, n))
  {
    LowSentBooks(s, n);
    LowSentFrame(s, n);
    assert forall u :: ThreadOk(s, u) && !PcOf(s, u).HoldsLock();
    assert s.low[0] in s.low && s.low[0].msg.low;
    hide BooksOk, FrameOk, ThreadOk, LowSent, Rest;
    forall u ensures ThreadOk(LowSent(s, n), u) {
      LowSentThread(s, n, u);
    }
  }

  lemma RaiseLowLists(s: State)
    requires ListsOk(s) && SizeOk(s) && s.sock.Raise?
    ensures ListsOk(RaiseLow(s)) && SizeOk(RaiseLow(s))
  {
    if s.low != [] {
      assert s.low == [s.low[0]] + s.low[1..];
      BufsHead(s.low[0], s.low[1..]);
      assert [s.low[0]] + [] == [s.low[0]];
      BufsHead(s.low[0], []);
    }
    hide Whole, InBounds, AllLow;
  }

  lemma RaiseLowFrame(s: State)
    requires FrameOk(s) && BooksOk(s) && s.sock.Raise?
    ensures FrameOk(RaiseLow(s))
  {
    assert s.lock == OfSocket && s.dw == None && s.high == [];
    if s.low != [] {
      assert s.low[0] in s.low;
      assert [s.low[0]][1..] == [];
    }
    hide Framed, Open, BooksOk;
  }

  lemma RaiseLowPath(s: State, u: Thread)
    requires s.sock.Raise? && s.high == [] && (s.low != [] ==> s.low[0].msg.low)
    ensures FromHigh(RaiseLow(s), u) == FromHigh(s, u)
  {
    var s' := RaiseLow(s);
    if s.low != [] {
      MineOne(s.low[0].msg, u);
      assert BufMsgs([s.low[0]]) == [s.low[0].msg];
    }
    MineOne(Msg(u, 0, true, []), u);
    assert BufMsgs([]) == [];
    hide Mine, BufMsgs, PipeMsgs;
    assert FromHand(s', u) == FromHand(s, u);
    hide FromHand;
  }

  lemma RaiseLowThread(s: State, u: Thread)
    requires ThreadOk(s, u) && s.sock.Raise? && s.high == [] && !PcOf(s, u).HoldsLock()
    requires s.low != [] ==> s.low[0].msg.low
    ensures ThreadOk(RaiseLow(s), u)
  {
    hide PathOk, ChecksOk, Mine, MsgsOf, BufMsgs, PipeMsgs, FromHigh;
    RaiseLowPath(s, u);
    SamePath(s, RaiseLow(s), u);
    ChecksKept(s, RaiseLow(s), u);
  }

  lemma RaiseLowInv(s: State)
    requires Inv(s) && s.sock.Raise?
    ensures Inv(RaiseLow(s))
  {
    RaiseLowLists(s);
    RaiseLowFrame(s);
    assert s.high == [];
    SameBooks(s, RaiseLow(s));
    assert forall u :: ThreadOk(s, u) && !PcOf(s, u).HoldsLock();
    if s.low != [] { assert s.low[0] in s.low && s.low[0].msg.low; }
    hide LockOk, SendingOk, SizeOk, ListsOk, FrameOk, ThreadOk, RaiseLow;
    forall u ensures ThreadOk(RaiseLow(s), u) {
      RaiseLowThread(s, u);
    }
  }

  // Closing with the lock held.

  lemma ShutLockedInv(s: State)
    requires Inv(s) && (s.sock.High? || s.sock.Low?)
    ensures Inv(ShutLocked(s))
  {
    var s' := ShutLocked(s);
    assert s.dw == None;
    SameBooks(s, s');
    assert SizeOk(s') && ListsOk(s') && FrameOk(s') by {
      hide Framed, Open, Unsent, Sends, ThreadOk;
    }
    assert forall u :: ThreadOk(s, u) && !PcOf(s, u).HoldsLock();
    hide LockOk, SendingOk, SizeOk, ListsOk, FrameOk;
    forall u ensures ThreadOk(s', u) {
      assert ThreadOk(s, u);
      hide PathOk, ChecksOk, Mine, PipeMsgs;
      assert FromHand(s', u) == FromHand(s, u);
      hide FromHand;
      Drop(s, s', u);
      ChecksKept(s, s', u);
    }
    hide ThreadOk;
  }

  /** A step of the socket thread, holding the lock, that moves to another point. */
  ghost predicate SockMoves(s: State, pc: SockPc) {
    && s.sock.HoldsLock() && !s.sock.Raise? && pc.HoldsLock() && !pc.TakeDw?
    && (pc == UnlockSock || (pc == Low && s.sock.High? && s.high == []) || (pc == Raise && s.sock.Low?))
  }

  lemma SockMoveInv(s: State, pc: SockPc)
    requires Inv(s) && SockMoves(s, pc)
    ensures Inv(s.(sock := pc))
  {
    var s' := s.(sock := pc);
    SameBooks(s, s');
    SockMoveShape(s, pc);
    assert forall u :: ThreadOk(s, u);
    hide LockOk, SendingOk, SizeOk, ListsOk, FrameOk, ThreadOk;
    forall u ensures ThreadOk(s', u) {
      QuietThread(s, s', u);
    }
  }

  lemma SockMoveShape(s: State, pc: SockPc)
    requires BooksOk(s) && FrameOk(s) && SockMoves(s, pc)
    ensures ListsOk(s.(sock := pc)) && SizeOk(s.(sock := pc)) && FrameOk(s.(sock := pc))
  {
    hide Framed, Open, Unsent, Sends, Whole;
  }

  lemma CloseWriteInv(s: State)
    requires Inv(s) && (s.sock.High? || s.sock.Low?)
    ensures Inv(CloseWrite(s))
  {
    assert s.kind != Invalid;
    hide Inv;
    if s.closing || s.kind == HalfRead {
      ShutLockedInv(s);
    } else {
      SockMoveInv(s, UnlockSock);
      KindInv(s.(sock := UnlockSock), CloseWrite(s));
    }
  }

  lemma BothEmptyInv(s: State)
    requires Inv(s) && (s.sock.High? || s.sock.Low?)
    ensures Inv(BothEmpty(s))
  {
    hide Inv;
    if s.closing { ShutLockedInv(s); } else { SockMoveInv(s, UnlockSock); }
  }

  predicate Takes(list: seq<Buf>, o: Outcome) {
    o.Accepted? && list != [] ==> o.n <= Rest(list[0])
  }

  lemma SendHighInv(s: State, o: Outcome)
    requires Inv(s) && s.sock.High? && Takes(s.high, o)
    ensures Inv(SendHigh(s, o))
  {
    hide Inv, BothEmpty, CloseWrite, HighSent, Rest;
    if s.high == [] {
      if s.low == [] { BothEmptyInv(s); } else { SockMoveInv(s, Low); }
    } else {
      match o
      case Accepted(n) => HighSentInv(s, n);
      case WouldBlock => SockMoveInv(s, UnlockSock);
      case Failed => CloseWriteInv(s);
    }
  }

  lemma SendLowInv(s: State, o: Outcome)
    requires Inv(s) && s.sock.Low? && Takes(s.low, o)
    ensures Inv(SendLow(s, o))
  {
    hide Inv, BothEmpty, CloseWrite, LowSent, Rest;
    if s.low == [] {
      BothEmptyInv(s);
    } else {
      match o
      case Accepted(n) => LowSentInv(s, n);
      case WouldBlock => SockMoveInv(s, Raise);
      case Failed => CloseWriteInv(s);
    }
  }

  // send_buffer takes what a direct write left over.

  lemma TakeRestLists(s: State)
    requires ListsOk(s) && s.sock.TakeDw?
    ensures ListsOk(TakeRest(s))
  {
    if s.dw.Some? { BufsHead(s.dw.value, s.high); }
    hide Whole, InBounds, AllLow, Unsent, PiecesOk;
  }

  lemma TakeRestSize(s: State)
    requires SizeOk(s) && s.sock.TakeDw?
    ensures SizeOk(TakeRest(s))
  {
    if s.dw.Some? { BufsHead(s.dw.value, s.high); }
    hide Whole, InBounds, AllLow, Unsent, PiecesOk;
  }

  lemma TakeRestFrame(s: State)
    requires FrameOk(s) && s.sock.TakeDw? && s.lock == OfSocket
    ensures FrameOk(TakeRest(s))
  {
    if s.dw.Some? { BufsHead(s.dw.value, s.high); }
    hide Framed, Open, Whole, InBounds, AllLow, Unsent, Rest;
  }

  lemma TakeRestPath(s: State, u: Thread)
    requires s.sock.TakeDw?
    ensures FromDw(TakeRest(s), u) == FromDw(s, u)
  {
    var s' := TakeRest(s);
    assert HandMsgs(s') == HandMsgs(s) && s'.pipe == s.pipe && s'.pcs == s.pcs && s'.dw == None;
    if s.dw.None? {
      SameFromDw(s, s', u);
    } else {
      assert s'.high == [s.dw.value] + s.high;
      hide TakeRest, HandMsgs, PipeMsgs, Mine, BufMsgs;
      HeadMine(s.dw.value, s.high, u);
      assert FromHand(s', u) == FromHand(s, u);
      hide FromHand;
      MineOne(s.dw.value.msg, u);
      Shift(Mine([s.dw.value.msg], u), Mine(BufMsgs(s.high), u), FromHand(s, u));
    }
  }

  lemma Shift(x: seq<nat>, h: seq<nat>, r: seq<nat>)
    ensures x + (h + r) == [] + ((x + h) + r)
  {}

  lemma SameFromDw(s: State, s': State, u: Thread)
    requires s'.dw == s.dw && s'.high == s.high && HandMsgs(s') == HandMsgs(s) && s'.pipe == s.pipe && s'.pcs == s.pcs
    ensures FromDw(s', u) == FromDw(s, u)
  {
    hide Mine, BufMsgs, HandMsgs, PipeMsgs, DwMsgs;
  }

  lemma TakeRestThread(s: State, u: Thread)
    requires ThreadOk(s, u) && s.sock.TakeDw? && !PcOf(s, u).HoldsLock()
    ensures ThreadOk(TakeRest(s), u)
  {
    hide PathOk, ChecksOk, Mine, MsgsOf, BufMsgs, PipeMsgs, FromDw, Rest;
    TakeRestPath(s, u);
    SamePath(s, TakeRest(s), u);
    ChecksKept(s, TakeRest(s), u);
  }

  lemma TakeRestInv(s: State)
    requires Inv(s) && s.sock.TakeDw?
    ensures Inv(TakeRest(s))
  {
    assert s.lock == OfSocket;
    TakeRestLists(s);
    TakeRestSize(s);
    TakeRestFrame(s);
    SameBooks(s, TakeRest(s));
    assert forall u :: ThreadOk(s, u) && !PcOf(s, u).HoldsLock();
    hide LockOk, SendingOk, SizeOk, ListsOk, FrameOk, ThreadOk, TakeRest;
    forall u ensures ThreadOk(TakeRest(s), u) {
      TakeRestThread(s, u);
    }
  }

  lemma RequestCloseThread(s: State, shutdown: bool, u: Thread)
    requires ThreadOk(s, u) && PipeMsgs(RequestClose(s, shutdown).pipe) == PipeMsgs(s.pipe)
    ensures ThreadOk(RequestClose(s, shutdown), u)
  {
    var s' := RequestClose(s, shutdown);
    hide PathOk, ChecksOk, Mine, PipeMsgs;
    assert FromHand(s', u) == FromHand(s, u);
    hide FromHand;
    SamePath(s, s', u);
    ChecksKept(s, s', u);
  }

  lemma RequestCloseInv(s: State, shutdown: bool)
    requires Inv(s)
    ensures Inv(RequestClose(s, shutdown))
  {
    var s' := RequestClose(s, shutdown);
    PipeMsgsConcat(s.pipe, [Close(shutdown)]);
    PipeMsgsOne(Close(shutdown));
    assert PipeMsgs(s'.pipe) == PipeMsgs(s.pipe);
    assert BooksOk(s') && FrameOk(s') by {
      hide Framed, Open, Unsent, Sends, ThreadOk, Whole, PipeMsgs;
      assert Pushers(s') == Pushers(s);
    }
    assert forall u :: ThreadOk(s, u);
    hide BooksOk, FrameOk, ThreadOk, RequestClose, PipeMsgs;
    forall u ensures ThreadOk(s', u) {
      RequestCloseThread(s, shutdown, u);
    }
  }
}
