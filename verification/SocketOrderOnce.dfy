/** Every run of the send path writes each message at most once, and keeps every message until it does. */
module SocketOrderOnce {

  import opened Basics
  import opened SocketOrder
  import opened SocketOrderInvariant
  import opened SocketOrderRuns

  // ---------------------------------------------------------------------------
  // Where the messages of thread o that w is true of are: begun on the wire, or still waiting to be begun

  function One(b: bool): nat { if b then 1 else 0 }

  /** The messages of one call; and one message, its bytes included. */
  function OfCall(o: Thread, c: nat): Msg -> bool {
    (m: Msg) => m.owner == o && m.call == c
  }

  function Just(m: Msg): Msg -> bool {
    (x: Msg) => x == m
  }

  ghost predicate Own(o: Thread, w: Msg -> bool) { forall m :: w(m) ==> m.owner == o }

  /** No empty messages, of which no byte is ever written. */
  ghost predicate Sized(w: Msg -> bool) { forall m :: w(m) ==> m.data != [] }

  /** How many have been begun. */
  function InPieces(pieces: seq<Piece>, w: Msg -> bool): nat {
    if pieces == [] then 0
    else
      var last := pieces[|pieces| - 1];
      InPieces(pieces[..|pieces| - 1], w) + One(last.lo == 0 && w(last.msg))
  }

  function InBufs(list: seq<Buf>, w: Msg -> bool): nat {
    if list == [] then 0 else One(list[0].off == 0 && w(list[0].msg)) + InBufs(list[1..], w)
  }

  function InDw(dw: Option<Buf>, w: Msg -> bool): nat {
    One(dw.Some? && dw.value.off == 0 && w(dw.value.msg))
  }

  function InPipe(pipe: seq<Cmd>, w: Msg -> bool): nat {
    if pipe == [] then 0 else One(pipe[0].Send? && w(pipe[0].m)) + InPipe(pipe[1..], w)
  }

  function InSock(sock: SockPc, w: Msg -> bool): nat {
    One(sock.Append? && w(sock.m))
  }

  /** In the call that thread o is making, unless a part of it has been written. */
  function InCall(pc: Pc, w: Msg -> bool): nat {
    One(pc.Carried() != [] && !(pc.KeepRest? && pc.n > 0) && w(pc.Carried()[0]))
  }

  function Waiting(s: State, o: Thread, w: Msg -> bool): nat {
    InDw(s.dw, w) + InBufs(s.high, w) + InBufs(s.low, w)
    + InSock(s.sock, w) + InPipe(s.pipe, w) + InCall(PcOf(s, o), w)
  }

  function Total(s: State, o: Thread, w: Msg -> bool): nat {
    InPieces(s.pieces, w) + Waiting(s, o, w)
  }

  /** A call is in one place at most, and nowhere before it is made. */
  ghost predicate Once(s: State) {
    forall o: Thread, c: nat :: Total(s, o, OfCall(o, c)) <= One(c < CallsOf(s, o))
  }

  /** A step keeps the messages in as many places, or fewer when it may lose some. */
  ghost predicate Keeps(s: State, t: State, loses: bool, o: Thread, w: Msg -> bool) {
    Total(t, o, w) <= Total(s, o, w) && (!loses && Sized(w) ==> Total(t, o, w) == Total(s, o, w))
  }

  lemma {:induction false} BufsAppend(list: seq<Buf>, b: Buf, w: Msg -> bool)
    ensures InBufs(list + [b], w) == InBufs(list, w) + One(b.off == 0 && w(b.msg))
  {
    if list != [] {
      BufsAppend(list[1..], b, w);
      assert (list + [b])[1..] == list[1..] + [b];
    }
  }

  lemma BufsPrepend(list: seq<Buf>, b: Buf, w: Msg -> bool)
    ensures InBufs([b] + list, w) == One(b.off == 0 && w(b.msg)) + InBufs(list, w)
    ensures InBufs([], w) == 0
  {
    assert ([b] + list)[1..] == list;
  }

  lemma BufsHead(list: seq<Buf>, w: Msg -> bool)
    requires list != []
    ensures InBufs(list, w) == One(list[0].off == 0 && w(list[0].msg)) + InBufs(list[1..], w)
  {}

  lemma {:induction false} PipeAppend(pipe: seq<Cmd>, x: Cmd, w: Msg -> bool)
    ensures InPipe(pipe + [x], w) == InPipe(pipe, w) + One(x.Send? && w(x.m))
  {
    if pipe != [] {
      PipeAppend(pipe[1..], x, w);
      assert (pipe + [x])[1..] == pipe[1..] + [x];
    }
  }

  lemma PipeHeadCount(pipe: seq<Cmd>, w: Msg -> bool)
    requires pipe != []
    ensures InPipe(pipe, w) == One(pipe[0].Send? && w(pipe[0].m)) + InPipe(pipe[1..], w)
  {}

  lemma WroteCount(s: State, m: Msg, lo: nat, n: nat, w: Msg -> bool)
    ensures InPieces(Wrote(s, m, lo, n).pieces, w) == InPieces(s.pieces, w) + One(n > 0 && lo == 0 && w(m))
  {
    var p := Piece(m, lo, lo + n);
    assert (s.pieces + [p])[..|s.pieces|] == s.pieces;
  }

  // ---------------------------------------------------------------------------
  // No step brings a call to a second place

  /** Thread t carries its own messages only. */
  lemma OwnCall(s: State, t: Thread)
    requires Inv(s)
    ensures PcOf(s, t).Carried() != [] ==> PcOf(s, t).Carried()[0].owner == t
    ensures PcOf(s, t).KeepRest? ==> s.dw == None
  {
    assert ThreadOk(s, t);
    hide BooksOk, FrameOk, Path, Sorted, Mine, Whole;
  }

  /** A step of a thread that only moves on. */
  lemma MovesOn(s: State, t: Thread, s': State, o: Thread, w: Msg -> bool)
    requires s'.pieces == s.pieces && s'.dw == s.dw && s'.high == s.high && s'.low == s.low
    requires s'.sock == s.sock && s'.pipe == s.pipe && s'.pcs == s.pcs[t := PcOf(s', t)]
    requires PcOf(s', t).Carried() == PcOf(s, t).Carried() && !PcOf(s, t).KeepRest? && !PcOf(s', t).KeepRest?
    ensures Keeps(s, s', false, o, w)
  {
    hide InPieces, InDw, InBufs, InPipe, InSock;
  }

  lemma DirectOnce(s: State, t: Thread, n: nat, o: Thread, w: Msg -> bool)
    requires PcOf(s, t).DirectWrite? && n <= |PcOf(s, t).m.data| && PcOf(s, t).m.owner == t && Own(o, w)
    ensures Keeps(s, WriteNow(s, t, n), false, o, w)
  {
    hide InPieces, InDw, InBufs, InPipe, InSock;
    WroteCount(s, PcOf(s, t).m, 0, n, w);
  }

  lemma KeepOnce(s: State, t: Thread, o: Thread, w: Msg -> bool)
    requires PcOf(s, t).KeepRest? && PcOf(s, t).m.owner == t
    requires Own(o, w) && s.dw == None
    ensures Keeps(s, Keep(s, t), false, o, w)
  {
    hide InPieces, InBufs, InPipe, InSock;
  }

  lemma PushOnce(s: State, t: Thread, o: Thread, w: Msg -> bool)
    requires PcOf(s, t).Push? && PcOf(s, t).m.owner == t && Own(o, w)
    ensures Keeps(s, PushSend(s, t), false, o, w)
  {
    hide InPieces, InBufs, InPipe, InSock, InDw;
    PipeAppend(s.pipe, Send(PcOf(s, t).m), w);
  }

  lemma AskOnce(s: State, x: Cmd, w: Msg -> bool)
    requires !x.Send?
    ensures InPipe(s.pipe + [x], w) == InPipe(s.pipe, w)
  {
    PipeAppend(s.pipe, x, w);
  }

  lemma EnableOnce(s: State, t: Thread, o: Thread, w: Msg -> bool)
    requires PcOf(s, t).PushW?
    ensures Keeps(s, PushEnable(s, t), false, o, w)
  {
    hide InPieces, InBufs, InPipe, InSock, InDw;
    AskOnce(s, EnableWrite, w);
  }

  lemma LoadOnce(s: State, t: Thread, o: Thread, w: Msg -> bool)
    requires PcOf(s, t).Check?
    ensures Keeps(s, Load(s, t), false, o, w)
  {
    hide Keeps;
    MovesOn(s, t, Load(s, t), o, w);
  }

  lemma HalfWriteOnce(s: State, t: Thread, o: Thread, w: Msg -> bool)
    requires PcOf(s, t).IsHalfWrite?
    ensures Keeps(s, LoadHalfWrite(s, t), false, o, w)
  {
    hide Keeps;
    MovesOn(s, t, LoadHalfWrite(s, t), o, w);
  }

  lemma TypeOnce(s: State, t: Thread, o: Thread, w: Msg -> bool)
    requires PcOf(s, t).ThenType?
    ensures Keeps(s, LoadType(s, t), false, o, w)
  {
    hide Keeps;
    MovesOn(s, t, LoadType(s, t), o, w);
  }

  lemma TryOnce(s: State, t: Thread, o: Thread, w: Msg -> bool)
    requires PcOf(s, t).TryLock?
    ensures Keeps(s, TryTake(s, t), false, o, w)
  {
    hide Keeps;
    MovesOn(s, t, TryTake(s, t), o, w);
  }

  lemma IncOnce(s: State, t: Thread, o: Thread, w: Msg -> bool)
    requires PcOf(s, t).Inc?
    ensures Keeps(s, IncSending(s, t), false, o, w)
  {
    hide Keeps;
    MovesOn(s, t, IncSending(s, t), o, w);
  }

  lemma UnlockOnce(s: State, t: Thread, o: Thread, w: Msg -> bool)
    requires PcOf(s, t).UnlockIdle? || PcOf(s, t).UnlockThenW? || PcOf(s, t).UnlockThenInc?
    ensures Keeps(s, Unlock(s, t), false, o, w)
  {
    hide Keeps;
    MovesOn(s, t, Unlock(s, t), o, w);
  }

  lemma ThreadOnce(s: State, t: Thread, n: nat, o: Thread, w: Msg -> bool)
    requires Inv(s) && Enabled(s, Advance(t, n)) && Own(o, w)
    ensures Keeps(s, ThreadStep(s, t, n), false, o, w)
  {
    OwnCall(s, t);
    hide Inv, Total, Own, Sized, Keeps;
    hide Load, LoadHalfWrite, LoadType, TryTake, WriteNow, Keep, Unlock, PushEnable, IncSending, PushSend;
    match PcOf(s, t)
    case Check(_, _, _) => LoadOnce(s, t, o, w);
    case IsHalfWrite(_, _) => HalfWriteOnce(s, t, o, w);
    case ThenType(_, _) => TypeOnce(s, t, o, w);
    case TryLock(_) => TryOnce(s, t, o, w);
    case DirectWrite(_) => DirectOnce(s, t, n, o, w);
    case KeepRest(_, _) => KeepOnce(s, t, o, w);
    case UnlockIdle => UnlockOnce(s, t, o, w);
    case UnlockThenW => UnlockOnce(s, t, o, w);
    case UnlockThenInc(_) => UnlockOnce(s, t, o, w);
    case PushW => EnableOnce(s, t, o, w);
    case Inc(_) => IncOnce(s, t, o, w);
    case Push(_) => PushOnce(s, t, o, w);
  }

  /** A step of the socket thread that writes nothing and takes nothing up. */
  lemma OnlyDrops(s: State, s': State, loses: bool, o: Thread, w: Msg -> bool)
    requires s'.pieces == s.pieces && s'.pipe == s.pipe && s'.pcs == s.pcs && !s'.sock.Append?
    requires s'.dw in {None, s.dw} && s'.high in {[], s.high} && s'.low in {[], s.low}
    requires !loses ==> s'.dw == s.dw && s'.high == s.high && s'.low == s.low && !s.sock.Append?
    ensures Keeps(s, s', loses, o, w)
  {
    hide InPieces, InPipe, InCall;
    assert InBufs([], w) == 0;
    hide InBufs;
  }

  lemma CommandOnce(s: State, now: bool, o: Thread, w: Msg -> bool)
    requires s.sock == Poll && s.pipe != []
    ensures Keeps(s, TakeCmd(s, now), Loses(s, Command(now)), o, w)
  {
    PoppedOnce(s, o, w);
    if !s.pipe[0].Send? {
      OnlyDrops(Popped(s), TakeCmd(s, now), Loses(s, Command(now)), o, w);
      hide Total, TakeCmd, Popped;
    }
    hide InPieces, InPipe, InCall, InBufs, InDw;
  }

  /** Taking a command from the pipe, with the message of a send still in hand. */
  lemma PoppedOnce(s: State, o: Thread, w: Msg -> bool)
    requires s.sock == Poll && s.pipe != []
    ensures Total(Popped(s), o, w) + One(s.pipe[0].Send? && w(s.pipe[0].m)) == Total(s, o, w)
  {
    hide InPieces, InPipe, InCall, InBufs, InDw;
    PipeHeadCount(s.pipe, w);
  }

  lemma AppendOnce(s: State, o: Thread, w: Msg -> bool)
    requires s.sock.Append?
    ensures Keeps(s, AppendMsg(s), Refuses(s), o, w)
  {
    var b := Buf(s.sock.m, 0);
    BufsAppend(s.high, b, w);
    BufsAppend(s.low, b, w);
    hide InPieces, InPipe, InCall, InBufs, InDw;
  }

  lemma RestOnce(s: State, o: Thread, w: Msg -> bool)
    requires s.sock.TakeDw?
    ensures Keeps(s, TakeRest(s), false, o, w)
  {
    if s.dw.Some? { BufsPrepend(s.high, s.dw.value, w); }
    hide InPieces, InPipe, InCall, InBufs;
  }

  lemma SentOnce(s: State, list: seq<Buf>, n: nat, w: Msg -> bool)
    requires list != [] && n <= Rest(list[0])
    ensures InPieces(Wrote(s, list[0].msg, list[0].off, n).pieces, w) + InBufs(Shortened(list, n), w)
         <= InPieces(s.pieces, w) + InBufs(list, w)
    ensures Sized(w) && list[0].off <= |list[0].msg.data| ==>
              InPieces(Wrote(s, list[0].msg, list[0].off, n).pieces, w) + InBufs(Shortened(list, n), w)
              == InPieces(s.pieces, w) + InBufs(list, w)
  {
    hide InPieces, InBufs, Wrote;
    var b := list[0];
    WroteCount(s, b.msg, b.off, n, w);
    BufsHead(list, w);
    BufsPrepend(list[1..], Buf(b.msg, b.off + n), w);
  }

  /** A step that moves messages between the lists and the wire only. */
  lemma OnlySends(s: State, s': State, o: Thread, w: Msg -> bool)
    requires s'.dw == s.dw && s'.pipe == s.pipe && s'.pcs == s.pcs && !s'.sock.Append?
    requires InPieces(s'.pieces, w) + InBufs(s'.high, w) + InBufs(s'.low, w)
          <= InPieces(s.pieces, w) + InBufs(s.high, w) + InBufs(s.low, w)
    requires Sized(w) && !s.sock.Append? ==>
               InPieces(s'.pieces, w) + InBufs(s'.high, w) + InBufs(s'.low, w)
               == InPieces(s.pieces, w) + InBufs(s.high, w) + InBufs(s.low, w)
    requires !s.sock.Append?
    ensures Keeps(s, s', false, o, w)
  {
    hide InPieces, InBufs, InPipe, InCall, InDw, Sized;
  }

  lemma HighOnce(s: State, n: nat, o: Thread, w: Msg -> bool)
    requires s.high != [] && n <= Rest(s.high[0]) && s.high[0].off <= |s.high[0].msg.data| && s.sock.High?
    ensures Keeps(s, HighSent(s, n), false, o, w)
  {
    hide Total, InPieces, InBufs;
    SentOnce(s, s.high, n, w);
    HighSentParts(s, n);
    hide HighSent, Wrote, Shortened;
    OnlySends(s, HighSent(s, n), o, w);
  }

  lemma HighSentParts(s: State, n: nat)
    requires s.high != [] && n <= Rest(s.high[0]) && s.sock.High?
    ensures var s' := HighSent(s, n);
            && s'.dw == s.dw && s'.pipe == s.pipe && s'.pcs == s.pcs && !s'.sock.Append? && s'.low == s.low
            && s'.high == Shortened(s.high, n)
            && s'.pieces == Wrote(s, s.high[0].msg, s.high[0].off, n).pieces
  {}

  lemma LowSentParts(s: State, n: nat)
    requires s.low != [] && n <= Rest(s.low[0]) && s.sock.Low?
    ensures var s' := LowSent(s, n);
            && s'.dw == s.dw && s'.pipe == s.pipe && s'.pcs == s.pcs && !s'.sock.Append? && s'.high == s.high
            && s'.low == Shortened(s.low, n)
            && s'.pieces == Wrote(s, s.low[0].msg, s.low[0].off, n).pieces
  {}

  lemma LowOnce(s: State, n: nat, o: Thread, w: Msg -> bool)
    requires s.low != [] && n <= Rest(s.low[0]) && s.low[0].off <= |s.low[0].msg.data| && s.sock.Low?
    ensures Keeps(s, LowSent(s, n), false, o, w)
  {
    hide Total, InPieces, InBufs;
    SentOnce(s, s.low, n, w);
    LowSentParts(s, n);
    hide LowSent, Wrote, Shortened;
    OnlySends(s, LowSent(s, n), o, w);
  }

  lemma RaiseOnce(s: State, o: Thread, w: Msg -> bool)
    requires s.sock.Raise? && s.high == []
    ensures Keeps(s, RaiseLow(s), false, o, w)
  {
    if s.low != [] {
      BufsHead(s.low, w);
      BufsPrepend([], s.low[0], w);
      assert [s.low[0]] + [] == [s.low[0]];
    }
    hide InPieces, InBufs, InPipe, InCall, InDw;
  }

  lemma SocketOnce(s: State, out: Outcome, o: Thread, w: Msg -> bool)
    requires Inv(s) && Enabled(s, SockAdvance(out))
    ensures Keeps(s, SocketStep(s, out), Loses(s, SockAdvance(out)), o, w)
  {
    HeadsInBounds(s);
    hide Inv, Total, AppendMsg, TakeRest, HighSent, LowSent, RaiseLow, Keeps, Sized;
    var loses := Loses(s, SockAdvance(out));
    match s.sock
    case Append(_) => AppendOnce(s, o, w);
    case TakeDw => RestOnce(s, o, w);
    case High =>
      if s.high != [] && out.Accepted? { HighOnce(s, out.n, o, w); } else { OnlyDrops(s, SendHigh(s, out), loses, o, w); }
    case Low =>
      if s.low != [] && out.Accepted? { LowOnce(s, out.n, o, w); } else { OnlyDrops(s, SendLow(s, out), loses, o, w); }
    case Raise => RaiseOnce(s, o, w);
    case Dec => OnlyDrops(s, DecSending(s), loses, o, w);
    case UnlockSock => OnlyDrops(s, Unlocked(s), loses, o, w);
    case FreeLow => OnlyDrops(s, FreeLowList(s), loses, o, w);
    case Freed => OnlyDrops(s, Shut(s), loses, o, w);
  }

  lemma HeadsInBounds(s: State)
    requires Inv(s)
    ensures s.high != [] ==> s.high[0].off <= |s.high[0].msg.data|
    ensures s.low != [] ==> s.low[0].off <= |s.low[0].msg.data|
    ensures s.sock.Raise? || s.sock.Low? ==> s.high == []
    ensures s.sock.High? || s.sock.Low? ==> s.dw == None
  {
    hide ThreadOk, FrameOk, SizeOk, SendingOk, LockOk;
    if s.high != [] { assert s.high[0] in s.high; }
    if s.low != [] { assert s.low[0] in s.low; }
  }

  /** A new call brings its own message, and that only. */
  lemma BeginOnce(s: State, t: Thread, low: bool, data: seq<byte>, o: Thread, w: Msg -> bool)
    requires PcOf(s, t).Idle? && Own(o, w)
    ensures Total(Begin(s, t, low, data), o, w) == Total(s, o, w) + One(w(Msg(t, CallsOf(s, t), low, data)))
  {
    hide InPieces, InBufs, InPipe, InSock, InDw;
  }

  /** When a step may lose messages: send_socket refuses one, or the socket is shut. */
  predicate Loses(s: State, step: Step) {
    match step
    case Force => true
    case Command(now) =>
      s.pipe != [] && s.pipe[0].Close? && s.kind != Invalid && (s.pipe[0].shutdown || now || s.kind == HalfWrite)
    case SockAdvance(out) =>
      (match s.sock
       case Append(_) => Refuses(s)
       case FreeLow => true
       case Freed => true
       case High => s.high != [] && out.Failed? && Shuts(s)
       case Low => s.low != [] && out.Failed? && Shuts(s)
       case _ => false)
    case _ => false
  }

  predicate Refuses(s: State) { s.kind in {Invalid, HalfWrite, Paccept} || s.closing }

  /** A failed write shuts a socket that is closing, or closed by the other end. */
  predicate Shuts(s: State) { s.closing || s.kind == HalfRead }

  /** The message a step hands to the send path. */
  predicate Makes(s: State, step: Step, m: Msg) {
    step.Call? && m == Msg(step.t, CallsOf(s, step.t), step.low, step.data)
  }

  lemma StepKeeps(s: State, step: Step, o: Thread, w: Msg -> bool)
    requires Inv(s) && Enabled(s, step) && !step.Call? && Own(o, w)
    ensures Keeps(s, Next(s, step), Loses(s, step), o, w) && Next(s, step).calls == s.calls
  {
    hide Inv, Total, Begin, SocketStep, TakeCmd, LockSend, Own, Keeps;
    match step
    case Advance(t, n) => { ThreadOnce(s, t, n, o, w); CallsSame(s, t, n); hide ThreadStep; }
    case AskClose(shutdown) => AskedOnce(s, shutdown, o, w);
    case Command(now) => { CommandOnce(s, now, o, w); CommandCalls(s, now); }
    case Become(kind) => KindOnce(s, kind, o, w);
    case Writable => LockOnce(s, o, w);
    case Force => OnlyDrops(s, FreeHigh(s), true, o, w);
    case SockAdvance(out) => { SocketOnce(s, out, o, w); SocketCalls(s, out); }
  }

  lemma CallKeeps(s: State, step: Step, o: Thread, w: Msg -> bool)
    requires Enabled(s, step) && step.Call? && Own(o, w)
    ensures Total(Next(s, step), o, w) == Total(s, o, w) + One(w(Msg(step.t, CallsOf(s, step.t), step.low, step.data)))
    ensures Next(s, step).calls == s.calls[step.t := CallsOf(s, step.t) + 1]
  {
    hide Total, ThreadStep, SocketStep, TakeCmd, LockSend;
    BeginOnce(s, step.t, step.low, step.data, o, w);
  }

  lemma NextOnce(s: State, step: Step)
    requires Inv(s) && Once(s) && Enabled(s, step)
    ensures Once(Next(s, step))
  {
    hide Inv, Next, Enabled, Total, Loses;
    forall o: Thread, c: nat
      ensures Total(Next(s, step), o, OfCall(o, c)) <= One(c < CallsOf(Next(s, step), o))
    {
      var w := OfCall(o, c);
      assert Total(s, o, w) <= One(c < CallsOf(s, o));
      if step.Call? { CallKeeps(s, step, o, w); } else { StepKeeps(s, step, o, w); }
    }
  }

  lemma CallsSame(s: State, t: Thread, n: nat)
    requires Enabled(s, Advance(t, n))
    ensures ThreadStep(s, t, n).calls == s.calls
  {}

  lemma CommandCalls(s: State, now: bool)
    requires s.pipe != []
    ensures TakeCmd(s, now).calls == s.calls
  {}

  lemma SocketCalls(s: State, out: Outcome)
    requires Enabled(s, SockAdvance(out))
    ensures SocketStep(s, out).calls == s.calls
  {
    match s.sock
    case High =>
    case Low =>
    case Freed =>
    case _ =>
  }

  lemma AskedOnce(s: State, shutdown: bool, o: Thread, w: Msg -> bool)
    ensures Keeps(s, RequestClose(s, shutdown), false, o, w)
    ensures RequestClose(s, shutdown).calls == s.calls
  {
    AskOnce(s, Close(shutdown), w);
    hide InPieces, InBufs, InPipe, InSock, InDw, InCall;
  }

  lemma KindOnce(s: State, kind: Kind, o: Thread, w: Msg -> bool)
    ensures Keeps(s, s.(kind := kind), false, o, w)
  {
    hide InPieces, InBufs, InPipe, InSock, InDw, InCall;
  }

  lemma LockOnce(s: State, o: Thread, w: Msg -> bool)
    requires s.sock == Poll
    ensures Keeps(s, LockSend(s), false, o, w) && LockSend(s).calls == s.calls
  {
    hide InPieces, InBufs, InPipe, InDw, InCall;
  }

  // ---------------------------------------------------------------------------
  // No message is lost, and none comes from nowhere

  /** How often message m has been handed to the send path before state k. */
  function Made(states: seq<State>, steps: seq<Step>, k: nat, m: Msg): nat
    requires k <= |steps| < |states|
  {
    if k == 0 then 0 else Made(states, steps, k - 1, m) + One(Makes(states[k - 1], steps[k - 1], m))
  }

  ghost predicate NothingLost(states: seq<State>, steps: seq<Step>, k: nat)
    requires k <= |steps| < |states|
  {
    forall j :: 0 <= j < k ==> !Loses(states[j], steps[j])
  }

  /**
    In every state of every run a message is in at most as many places, begun on the wire or waiting
    for it, as calls have handed it in, byte by byte the same; and in exactly as many while no step
    has refused a message or shut the socket. An empty message is never begun.
   */
  lemma {:induction false} MessagesKept(states: seq<State>, steps: seq<Step>, k: nat, m: Msg)
    requires IsRun(states, steps) && k < |states|
    ensures Total(states[k], m.owner, Just(m)) <= Made(states, steps, k, m)
    ensures NothingLost(states, steps, k) && m.data != [] ==>
              Total(states[k], m.owner, Just(m)) == Made(states, steps, k, m)
  {
    hide Inv, Next, Enabled, Total, Loses;
    var o, w := m.owner, Just(m);
    assert Own(o, w) && (m.data != [] ==> Sized(w));
    if k == 0 {
      NothingYet(states[0], o, w);
    } else {
      MessagesKept(states, steps, k - 1, m);
      EveryStateInv(states, steps, k - 1);
      RunStep(states, steps, k - 1);
      hide IsRun;
      var s, step := states[k - 1], steps[k - 1];
      if step.Call? { CallKeeps(s, step, o, w); } else { StepKeeps(s, step, o, w); }
    }
  }

  lemma NothingYet(s: State, o: Thread, w: Msg -> bool)
    requires Initial(s)
    ensures Total(s, o, w) == 0
  {}

  /** What is begun on the wire was handed in by a call, with these bytes. */
  lemma BegunWasSent(states: seq<State>, steps: seq<Step>, k: nat, i: nat)
    requires IsRun(states, steps) && k < |states| && i < |states[k].pieces| && states[k].pieces[i].lo == 0
    ensures Made(states, steps, k, states[k].pieces[i].msg) > 0
  {
    var m := states[k].pieces[i].msg;
    MessagesKept(states, steps, k, m);
    OneStart(states[k].pieces, i, Just(m));
    hide IsRun, Made;
  }

  // ---------------------------------------------------------------------------
  // What the descriptor accepts is on the wire

  function Length(pieces: seq<Piece>): int {
    if pieces == [] then 0
    else var last := pieces[|pieces| - 1]; Length(pieces[..|pieces| - 1]) + (last.hi - last.lo)
  }

  /** The bytes that the write() of a step accepts. */
  function Accepts(s: State, step: Step): nat {
    match step
    case Advance(t, n) => if PcOf(s, t).DirectWrite? then n else 0
    case SockAdvance(Accepted(n)) => if (s.sock.High? && s.high != []) || (s.sock.Low? && s.low != []) then n else 0
    case _ => 0
  }

  function AcceptedSoFar(states: seq<State>, steps: seq<Step>, k: nat): nat
    requires k <= |steps| < |states|
  {
    if k == 0 then 0 else AcceptedSoFar(states, steps, k - 1) + Accepts(states[k - 1], steps[k - 1])
  }

  lemma WroteLength(s: State, m: Msg, lo: nat, n: nat)
    ensures Length(Wrote(s, m, lo, n).pieces) == Length(s.pieces) + n
  {
    var p := Piece(m, lo, lo + n);
    assert (s.pieces + [p])[..|s.pieces|] == s.pieces;
  }

  lemma ThreadWrites(s: State, t: Thread, n: nat)
    requires Enabled(s, Advance(t, n))
    ensures Length(ThreadStep(s, t, n).pieces) == Length(s.pieces) + if PcOf(s, t).DirectWrite? then n else 0
  {
    hide Length;
    if PcOf(s, t).DirectWrite? { WroteLength(s, PcOf(s, t).m, 0, n); }
  }

  lemma SocketWrites(s: State, out: Outcome)
    requires Enabled(s, SockAdvance(out))
    ensures Length(SocketStep(s, out).pieces) == Length(s.pieces) + Accepts(s, SockAdvance(out))
  {
    hide Length;
    match s.sock
    case High => {
      if s.high != [] && out.Accepted? {
        WroteLength(s, s.high[0].msg, s.high[0].off, out.n);
        HighSentParts(s, out.n);
        hide HighSent, Wrote;
      }
    }
    case Low => {
      if s.low != [] && out.Accepted? {
        WroteLength(s, s.low[0].msg, s.low[0].off, out.n);
        LowSentParts(s, out.n);
        hide LowSent, Wrote;
      }
    }
    case Freed =>
    case _ =>
  }

  lemma StepWrites(s: State, step: Step)
    requires Enabled(s, step)
    ensures Length(Next(s, step).pieces) == Length(s.pieces) + Accepts(s, step)
  {
    hide Length, ThreadStep, SocketStep;
    match step
    case Advance(t, n) => ThreadWrites(s, t, n);
    case SockAdvance(out) => SocketWrites(s, out);
    case _ =>
  }

  lemma {:induction false} BytesLength(pieces: seq<Piece>)
    requires PiecesOk(pieces)
    ensures |Bytes(pieces)| == Length(pieces)
  {
    if pieces != [] {
      assert pieces[|pieces| - 1] in pieces;
      BytesLength(pieces[..|pieces| - 1]);
    }
  }

  /** Every byte that a write() accepts is on the wire, and no other. */
  lemma {:induction false} WireIsAccepted(states: seq<State>, steps: seq<Step>, k: nat)
    requires IsRun(states, steps) && k < |states|
    ensures PiecesOk(states[k].pieces) && |Bytes(states[k].pieces)| == AcceptedSoFar(states, steps, k)
  {
    hide Inv, Next, Enabled, Length;
    EveryStateInv(states, steps, k);
    PiecesFit(states[k]);
    BytesLength(states[k].pieces);
    if k == 0 {
      NothingWrittenYet(states[0]);
    } else {
      WireIsAccepted(states, steps, k - 1);
      BytesLength(states[k - 1].pieces);
      RunStep(states, steps, k - 1);
      StepWrites(states[k - 1], steps[k - 1]);
    }
  }

  lemma PiecesFit(s: State)
    requires Inv(s)
    ensures PiecesOk(s.pieces)
  {
    hide ThreadOk, FrameOk, SizeOk, SendingOk, LockOk, PiecesOk;
  }

  lemma NothingWrittenYet(s: State)
    requires Initial(s)
    ensures Length(s.pieces) == 0
  {}

  /** No thread stands still, a command leaves the pipe, and a free lock is taken. */
  lemma StepsMoveOn(s: State, step: Step)
    requires Enabled(s, step)
    ensures step.Advance? ==> PcOf(Next(s, step), step.t) != PcOf(s, step.t)
    ensures step.Command? ==> Next(s, step).pipe == s.pipe[1..]
    ensures step.Writable? && s.lock == Free ==> Next(s, step).sock == TakeDw && Next(s, step).lock == OfSocket
    ensures step.SockAdvance? ==> Next(s, step).sock != s.sock || Next(s, step).high != s.high || Next(s, step).low != s.low
  {
    match step
    case Advance(t, n) => { ThreadMoves(s, t, n); hide ThreadStep; }
    case SockAdvance(out) => { SocketMoves(s, out); hide SocketStep; }
    case Command(now) => if s.pipe[0].Close? {} else {}
    case _ => hide ThreadStep, SocketStep;
  }

  lemma ThreadMoves(s: State, t: Thread, n: nat)
    requires Enabled(s, Advance(t, n))
    ensures PcOf(ThreadStep(s, t, n), t) != PcOf(s, t)
  {
    hide LoadHolds;
  }

  lemma SocketMoves(s: State, out: Outcome)
    requires Enabled(s, SockAdvance(out))
    ensures var t := SocketStep(s, out); t.sock != s.sock || t.high != s.high || t.low != s.low
  {
    match s.sock
    case High => if s.high != [] && out.Accepted? {} else {}
    case Low => if s.low != [] && out.Accepted? {} else {}
    case Freed =>
    case _ =>
  }

  lemma {:induction false} EveryStateOnce(states: seq<State>, steps: seq<Step>, k: nat)
    requires IsRun(states, steps) && k < |states|
    ensures Once(states[k])
  {
    hide Inv, Next, Enabled, Once;
    if k == 0 {
      InitialOnce(states[0]);
    } else {
      EveryStateOnce(states, steps, k - 1);
      EveryStateInv(states, steps, k - 1);
      RunStep(states, steps, k - 1);
      hide IsRun;
      NextOnce(states[k - 1], steps[k - 1]);
    }
  }

  lemma InitialOnce(s: State)
    requires Initial(s)
    ensures Once(s)
  {}

  // ---------------------------------------------------------------------------
  // What it means for the bytes on the wire

  lemma {:induction false} TwoStarts(pieces: seq<Piece>, i: nat, j: nat)
    requires i < j < |pieces| && pieces[i].lo == 0 && pieces[j].lo == 0
    requires pieces[i].msg.owner == pieces[j].msg.owner && pieces[i].msg.call == pieces[j].msg.call
    ensures InPieces(pieces, OfCall(pieces[i].msg.owner, pieces[i].msg.call)) >= 2
  {
    var n := |pieces| - 1;
    if j < n {
      TwoStarts(pieces[..n], i, j);
    } else {
      OneStart(pieces[..n], i, OfCall(pieces[i].msg.owner, pieces[i].msg.call));
    }
  }

  lemma {:induction false} OneStart(pieces: seq<Piece>, i: nat, w: Msg -> bool)
    requires i < |pieces| && pieces[i].lo == 0 && w(pieces[i].msg)
    ensures InPieces(pieces, w) >= 1
  {
    var n := |pieces| - 1;
    if i < n { OneStart(pieces[..n], i, w); }
  }

  lemma {:induction false} InOrder(msgs: seq<Msg>, i: nat, j: nat, t: Thread)
    requires Sorted(Mine(msgs, t)) && i < j < |msgs|
    requires msgs[i].owner == msgs[j].owner == t && !msgs[i].low && !msgs[j].low
    ensures msgs[i].call <= msgs[j].call
  {
    var n := |msgs| - 1;
    var init := Mine(msgs[..n], t);
    assert forall k :: 0 <= k < |init| ==> init[k] == Mine(msgs, t)[k];
    if j < n {
      InOrder(msgs[..n], i, j, t);
    } else {
      IsMine(msgs[..n], i, t);
      var k :| 0 <= k < |init| && init[k] == msgs[i].call;
      assert Mine(msgs, t)[|init|] == msgs[j].call;
    }
  }

  lemma {:induction false} IsMine(msgs: seq<Msg>, i: nat, t: Thread)
    requires i < |msgs| && msgs[i].owner == t && !msgs[i].low
    ensures msgs[i].call in Mine(msgs, t)
  {
    var n := |msgs| - 1;
    if i < n { IsMine(msgs[..n], i, t); }
  }

  /**
    In every state of every run a message is begun at most once, and the messages of one thread
    sent through socket_server_send are begun in strictly increasing order of its calls.
   */
  lemma BegunOnce(states: seq<State>, steps: seq<Step>, k: nat, i: nat, j: nat)
    requires IsRun(states, steps) && k < |states| && i < j < |states[k].pieces|
    requires states[k].pieces[i].lo == 0 && states[k].pieces[j].lo == 0
    requires states[k].pieces[i].msg.owner == states[k].pieces[j].msg.owner
    ensures var m, m' := states[k].pieces[i].msg, states[k].pieces[j].msg;
            m.call != m'.call && (!m.low && !m'.low ==> m.call < m'.call)
  {
    var pieces := states[k].pieces;
    var m, m' := pieces[i].msg, pieces[j].msg;
    EveryStateOnce(states, steps, k);
    assert Total(states[k], m.owner, OfCall(m.owner, m.call)) <= 1;
    if m.call == m'.call { TwoStarts(pieces, i, j); }
    if !m.low && !m'.low {
      WrittenInCallOrder(states, steps, k, m.owner);
      InOrder(MsgsOf(pieces), i, j, m.owner);
    }
    hide IsRun, Once;
  }
}
