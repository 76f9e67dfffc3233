/**
  The send path of one TCP socket in socket_server.c as a system of interleaved steps: any
  number of service threads inside socket_server_send, and the socket thread.

  Every load of a shared field by socket_server_send, every write to the socket, every lock
  operation and every write to the control pipe is a step of its own; atomics are taken to
  be sequentially consistent. The system covers the life of one socket id, from new_fd to
  SOCKET_TYPE_INVALID. A write to the socket accepts any prefix or fails.
 */
module SocketOrder {

  import opened Basics

  type Thread = nat

  /** One call: the calling thread, the number of its earlier calls, and how it was sent. */
  datatype Msg = Msg(owner: Thread, call: nat, low: bool, data: seq<byte>)

  /** struct write_buffer: `off` bytes of the message are already written (ptr - buffer). */
  datatype Buf = Buf(msg: Msg, off: nat)

  /** The bytes [lo, hi) of a message, written to the socket by one call of write(). */
  datatype Piece = Piece(msg: Msg, lo: nat, hi: nat)

  datatype Kind = Connecting | Paccept | Connected | HalfRead | HalfWrite | Invalid

  datatype Cmd = Send(m: Msg) | EnableWrite | Close(shutdown: bool)

  /** Where a service thread is inside socket_server_send. */
  datatype Pc =
    | Idle
    | Check(m: Msg, round: int, load: int)  // can_direct_write, first or second time; loads 0 to 4
    | IsHalfWrite(m: Msg, round: int)       // the second operand of nomore_sending_data
    | ThenType(m: Msg, round: int)          // it held; type == CONNECTED comes next
    | TryLock(m: Msg)
    | DirectWrite(m: Msg)
    | KeepRest(m: Msg, n: nat)              // n bytes accepted, about to set dw_buffer
    | UnlockIdle
    | UnlockThenW
    | PushW                                 // about to ask the socket thread to enable writing
    | UnlockThenInc(m: Msg)
    | Inc(m: Msg)                           // inc_sending_ref
    | Push(m: Msg)                          // send_request 'D' or 'P'
  {
    predicate HoldsLock() {
      ((Check? || IsHalfWrite? || ThenType?) && round == 2)
      || DirectWrite? || KeepRest? || UnlockIdle? || UnlockThenW? || UnlockThenInc?
    }

    /** The message the call is still carrying. */
    function Carried(): seq<Msg> {
      if Idle? || UnlockIdle? || UnlockThenW? || PushW? then [] else [m]
    }
  }

  /** Where the socket thread is. */
  datatype SockPc =
    | Poll
    | Append(m: Msg)  // send_socket
    | Dec             // dec_sending_ref
    | TakeDw          // send_buffer, lock taken
    | High            // send_list of the high list
    | Low             // send_list of the low list
    | Raise           // after send_list of the low list
    | UnlockSock
    | FreeLow         // force_close: the high list is freed, the low list comes next
    | Freed           // force_close: both lists are freed, about to take the lock
  {
    predicate HoldsLock() {
      TakeDw? || High? || Low? || Raise? || UnlockSock?
    }

    predicate Freeing() {
      FreeLow? || Freed?
    }
  }

  datatype Lock = Free | OfThread(t: Thread) | OfSocket

  datatype State = State(
    kind: Kind, closing: bool,
    high: seq<Buf>, low: seq<Buf>, wbSize: int,
    sending: nat, dw: Option<Buf>, lock: Lock,
    pipe: seq<Cmd>,
    pcs: map<Thread, Pc>, calls: map<Thread, nat>,
    sock: SockPc,
    pieces: seq<Piece>)

  function PcOf(s: State, t: Thread): Pc {
    if t in s.pcs then s.pcs[t] else Idle
  }

  function CallsOf(s: State, t: Thread): nat {
    if t in s.calls then s.calls[t] else 0
  }

  function Go(s: State, t: Thread, pc: Pc): State {
    s.(pcs := s.pcs[t := pc])
  }

  /** new_fd has run and the socket has some type; nothing has been sent. */
  predicate Initial(s: State) {
    && s.kind in {Connecting, Paccept, Connected} && !s.closing
    && s.high == [] && s.low == [] && s.wbSize == 0 && s.sending == 0 && s.dw == None && s.lock == Free
    && s.pipe == [] && s.pcs == map[] && s.calls == map[] && s.sock == Poll && s.pieces == []
  }

  // ---------------------------------------------------------------------------
  // Steps of a service thread

  /**
    A call of socket_server_send or socket_server_send_lowpriority that does not give up at
    once. The loads that make it give up race with the socket thread, so any call may go on.
   */
  function Begin(s: State, t: Thread, low: bool, data: seq<byte>): State {
    var m := Msg(t, CallsOf(s, t), low, data);
    Go(s, t, if low then Inc(m) else Check(m, 1, 0)).(calls := s.calls[t := CallsOf(s, t) + 1])
  }

  /** One load of can_direct_write: the lists, dw_buffer, the count of sends on their way, the type. */
  predicate LoadHolds(s: State, load: int) {
    match load
    case 0 => s.high == []
    case 1 => s.low == []
    case 2 => s.dw == None
    case 3 => s.sending == 0
    case _ => s.kind == Connected
  }

  function Load(s: State, t: Thread): State
    requires PcOf(s, t).Check?
  {
    var Check(m, round, load) := PcOf(s, t);
    if LoadHolds(s, load) then
      Go(s, t, if load < 4 then Check(m, round, load + 1) else CanWrite(m, round))
    else Go(s, t, if load < 4 then IsHalfWrite(m, round) else CannotWrite(m, round))
  }

  function CanWrite(m: Msg, round: int): Pc {
    if round == 1 then TryLock(m) else DirectWrite(m)
  }

  function CannotWrite(m: Msg, round: int): Pc {
    if round == 1 then Inc(m) else UnlockThenInc(m)
  }

  /** nomore_sending_data is also true of a socket closed for writing; can_direct_write then looks at the type again. */
  function LoadHalfWrite(s: State, t: Thread): State
    requires PcOf(s, t).IsHalfWrite?
  {
    var IsHalfWrite(m, round) := PcOf(s, t);
    Go(s, t, if s.kind == HalfWrite then ThenType(m, round) else CannotWrite(m, round))
  }

  function LoadType(s: State, t: Thread): State
    requires PcOf(s, t).ThenType?
  {
    var ThenType(m, round) := PcOf(s, t);
    Go(s, t, if s.kind == Connected then CanWrite(m, round) else CannotWrite(m, round))
  }

  function TryTake(s: State, t: Thread): State
    requires PcOf(s, t).TryLock?
  {
    var m := PcOf(s, t).m;
    if s.lock == Free then Go(s, t, Check(m, 2, 0)).(lock := OfThread(t)) else Go(s, t, Inc(m))
  }

  function Wrote(s: State, m: Msg, lo: nat, n: nat): State {
    if n == 0 then s else s.(pieces := s.pieces + [Piece(m, lo, lo + n)])
  }

  /** The direct write; n is 0 when it fails. */
  function WriteNow(s: State, t: Thread, n: nat): State
    requires PcOf(s, t).DirectWrite? && n <= |PcOf(s, t).m.data|
  {
    var m := PcOf(s, t).m;
    Go(Wrote(s, m, 0, n), t, if n == |m.data| then UnlockIdle else KeepRest(m, n))
  }

  function Keep(s: State, t: Thread): State
    requires PcOf(s, t).KeepRest?
  {
    Go(s, t, UnlockThenW).(dw := Some(Buf(PcOf(s, t).m, PcOf(s, t).n)))
  }

  function Unlock(s: State, t: Thread): State
    requires PcOf(s, t).UnlockIdle? || PcOf(s, t).UnlockThenW? || PcOf(s, t).UnlockThenInc?
  {
    var next := match PcOf(s, t) case UnlockIdle => Idle case UnlockThenW => PushW case pc => Inc(pc.m);
    Go(s, t, next).(lock := Free)
  }

  function PushEnable(s: State, t: Thread): State {
    Go(s, t, Idle).(pipe := s.pipe + [EnableWrite])
  }

  function IncSending(s: State, t: Thread): State
    requires PcOf(s, t).Inc?
  {
    Go(s, t, Push(PcOf(s, t).m)).(sending := s.sending + 1)
  }

  function PushSend(s: State, t: Thread): State
    requires PcOf(s, t).Push?
  {
    Go(s, t, Idle).(pipe := s.pipe + [Send(PcOf(s, t).m)])
  }

  function RequestClose(s: State, shutdown: bool): State {
    s.(pipe := s.pipe + [Close(shutdown)])
  }

  // ---------------------------------------------------------------------------
  // Steps of the socket thread

  /** force_close, first part: the two lists are freed without the lock. */
  function FreeHigh(s: State): State {
    s.(high := [], sock := FreeLow)
  }

  function FreeLowList(s: State): State {
    s.(low := [], sock := Freed)
  }

  /** force_close, second part, under the lock: close the descriptor, free dw_buffer. */
  function Shut(s: State): State {
    s.(kind := Invalid, dw := None, sock := Poll)
  }

  /** force_close called with the lock already held. */
  function ShutLocked(s: State): State {
    s.(high := [], low := [], kind := Invalid, dw := None, sock := UnlockSock)
  }

  /** ctrl_cmd: take a command. */
  function TakeCmd(s: State, now: bool): State
    requires s.pipe != []
  {
    match s.pipe[0]
    case Send(m) => Popped(s).(sock := Append(m))
    case EnableWrite => Popped(s)
    case Close(shutdown) => CloseSocket(Popped(s), shutdown || now)
  }

  function Popped(s: State): State
    requires s.pipe != []
  {
    s.(pipe := s.pipe[1..])
  }

  /**
    close_socket. Whether it closes at once depends on request->shutdown and on
    nomore_sending_data, whose loads race with the senders: `now` is what they come to.
   */
  function CloseSocket(s: State, now: bool): State {
    if s.kind == Invalid then s
    else if now || s.kind == HalfWrite then FreeHigh(s)
    else s.(closing := true, kind := HalfRead)
  }

  function Rest(b: Buf): int {
    |b.msg.data| - b.off
  }

  /** send_socket: drop the message, or append it; to the high list if both are empty. */
  function AppendMsg(s: State): State
    requires s.sock.Append?
  {
    if s.kind in {Invalid, HalfWrite, Paccept} || s.closing then s.(sock := Dec)
    else if s.sock.m.low && (s.high != [] || s.low != []) then ToLow(s, Buf(s.sock.m, 0))
    else ToHigh(s, Buf(s.sock.m, 0))
  }

  function ToHigh(s: State, b: Buf): State {
    s.(sock := Dec, high := s.high + [b], wbSize := s.wbSize + Rest(b))
  }

  function ToLow(s: State, b: Buf): State {
    s.(sock := Dec, low := s.low + [b], wbSize := s.wbSize + Rest(b))
  }

  function DecSending(s: State): State
    requires s.sending > 0
  {
    s.(sock := Poll, sending := s.sending - 1)
  }

  /** send_buffer: try the lock. */
  function LockSend(s: State): State {
    if s.lock == Free then s.(sock := TakeDw, lock := OfSocket) else s
  }

  /** send_buffer: put what a direct write left over in front of the high list. */
  function TakeRest(s: State): State {
    if s.dw.Some? then
      s.(high := [s.dw.value] + s.high, wbSize := s.wbSize + Rest(s.dw.value), dw := None, sock := High)
    else s.(sock := High)
  }

  datatype Outcome = Accepted(n: nat) | WouldBlock | Failed

  /** close_write, with the lock held. */
  function CloseWrite(s: State): State {
    if s.closing || s.kind == HalfRead then ShutLocked(s)
    else s.(kind := if s.kind == Invalid then Invalid else HalfWrite, sock := UnlockSock)
  }

  /** send_buffer_, step 4: both lists are empty. */
  function BothEmpty(s: State): State {
    if s.closing then ShutLocked(s) else s.(sock := UnlockSock)
  }

  /** One turn of send_list_tcp on the high list. */
  function SendHigh(s: State, o: Outcome): State
    requires o.Accepted? && s.high != [] ==> o.n <= Rest(s.high[0])
  {
    if s.high == [] then if s.low == [] then BothEmpty(s) else s.(sock := Low)
    else match o
      case Accepted(n) => HighSent(s, n)
      case WouldBlock => s.(sock := UnlockSock)
      case Failed => CloseWrite(s)
  }

  function HighSent(s: State, n: nat): State
    requires s.high != [] && n <= Rest(s.high[0])
  {
    var b := s.high[0];
    var w := Wrote(s, b.msg, b.off, n).(wbSize := s.wbSize - n);
    if n == Rest(b) then w.(high := s.high[1..])
    else w.(high := [Buf(b.msg, b.off + n)] + s.high[1..], sock := UnlockSock)
  }

  /** One turn of send_list_tcp on the low list. */
  function SendLow(s: State, o: Outcome): State
    requires o.Accepted? && s.low != [] ==> o.n <= Rest(s.low[0])
  {
    if s.low == [] then BothEmpty(s)
    else match o
      case Accepted(n) => LowSent(s, n)
      case WouldBlock => s.(sock := Raise)
      case Failed => CloseWrite(s)
  }

  function LowSent(s: State, n: nat): State
    requires s.low != [] && n <= Rest(s.low[0])
  {
    var b := s.low[0];
    var w := Wrote(s, b.msg, b.off, n).(wbSize := s.wbSize - n);
    if n == Rest(b) then w.(low := s.low[1..])
    else w.(low := [Buf(b.msg, b.off + n)] + s.low[1..], sock := Raise)
  }

  /** raise_uncomplete: a partly written head of the low list becomes the high list. */
  function RaiseLow(s: State): State {
    if s.low != [] && s.low[0].off != 0 then s.(high := [s.low[0]], low := s.low[1..], sock := UnlockSock)
    else s.(sock := UnlockSock)
  }

  /** Start of a paused socket, end of a connect, or the remote end closing: the type changes. */
  predicate MayBecome(from: Kind, to: Kind) {
    (from in {Connecting, Paccept} && to == Connected) || (from in {Paccept, Connected} && to == HalfRead)
  }

  // ---------------------------------------------------------------------------
  // The two laws

  /** The calls of thread t to socket_server_send among some messages, by number. */
  function Mine(msgs: seq<Msg>, t: Thread): seq<nat> {
    if msgs == [] then []
    else
      var last := msgs[|msgs| - 1];
      Mine(msgs[..|msgs| - 1], t) + if last.owner == t && !last.low then [last.call] else []
  }

  ghost predicate Sorted(xs: seq<nat>) {
    forall i, j :: 0 <= i < j < |xs| ==> xs[i] <= xs[j]
  }

  function MsgsOf(pieces: seq<Piece>): seq<Msg> {
    seq(|pieces|, i requires 0 <= i < |pieces| => pieces[i].msg)
  }

  /** What thread t sent through socket_server_send reaches the socket in call order. */
  ghost predicate InCallOrder(pieces: seq<Piece>, t: Thread) {
    Sorted(Mine(MsgsOf(pieces), t))
  }

  predicate Follows(p: Piece, q: Piece) {
    if p.hi == |p.msg.data| then q.lo == 0 else q.msg == p.msg && q.lo == p.hi
  }

  /** The bytes written are whole messages laid end to end, the last one possibly cut short. */
  ghost predicate Framed(pieces: seq<Piece>) {
    && (pieces != [] ==> pieces[0].lo == 0)
    && forall i :: 0 <= i < |pieces| - 1 ==> Follows(pieces[i], pieces[i + 1])
  }

  /** The message that has been written in part only, with how much of it. */
  function Open(pieces: seq<Piece>): Option<Buf> {
    if pieces == [] || pieces[|pieces| - 1].hi == |pieces[|pieces| - 1].msg.data| then None
    else Some(Buf(pieces[|pieces| - 1].msg, pieces[|pieces| - 1].hi))
  }
}
