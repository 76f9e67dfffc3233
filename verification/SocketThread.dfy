/**
  One TCP socket as the socket thread of socket_server.c works on it: the two write lists,
  the write loop, half closing, and the events handed to the service. The lock is not seen
  here; SocketOrder has the interleavings with the sending threads.
 */
module SocketThread {

  import opened Basics
  import opened SocketOrder
  import opened SocketOrderInvariant

  const WARNING_SIZE := 1024 * 1024

  /** What one call of write() does. When the list of outcomes runs out the socket is full. */
  datatype Write = Wrote(n: nat) | Interrupted | Again | Broken

  /** What a function of the socket thread returns; Ignore is -1, Reset is SOCKET_RST. */
  datatype Code = Ignore | Closed | Error | Reset | Warning | Opened

  /** The unsent bytes of a list, in sending order. */
  function Backlog(list: seq<Buf>): seq<byte>
    requires InBounds(list)
  {
    if list == [] then [] else assert list[0] in list; list[0].msg.data[list[0].off..] + Backlog(Tail(list))
  }

  function Tail(list: seq<Buf>): (t: seq<Buf>)
    requires list != []
    ensures InBounds(list) ==> InBounds(t)
    ensures Whole(list) ==> Whole(t)
  {
    assert forall b :: b in list[1..] ==> b in list;
    list[1..]
  }

  lemma {:induction false} BacklogPush(list: seq<Buf>, b: Buf)
    requires InBounds(list) && b.off <= |b.msg.data|
    ensures InBounds(list + [b]) && Backlog(list + [b]) == Backlog(list) + b.msg.data[b.off..]
  {
    BufsPush(list, b);
    if list == [] {
      assert Tail([b]) == [];
    } else {
      BacklogPush(Tail(list), b);
      assert Tail(list + [b]) == Tail(list) + [b];
      hide InBounds, Tail;
      Joined(list[0].msg.data[list[0].off..], Backlog(Tail(list)), b.msg.data[b.off..]);
    }
  }

  lemma SliceSplits(d: seq<byte>, off: nat, n: nat)
    requires off + n <= |d|
    ensures d[off..] == d[off..off + n] + d[off + n..]
  {}

  lemma PrefixOfConcat(a: seq<byte>, b: seq<byte>, n: nat)
    requires n == |a|
    ensures (a + b)[..n] == a
  {}

  lemma Joined(a: seq<byte>, b: seq<byte>, c: seq<byte>)
    ensures (a + b) + c == a + (b + c)
  {}

  /** n bytes of the head go out. */
  lemma BacklogShortened(list: seq<Buf>, n: nat)
    requires InBounds(list) && list != [] && n <= Rest(list[0])
    ensures InBounds(Shortened(list, n)) && n <= |Backlog(list)|
    ensures Backlog(list)[..n] + Backlog(Shortened(list, n)) == Backlog(list)
    ensures Backlog(list)[..n] == list[0].msg.data[list[0].off..list[0].off + n]
  {
    ShortenedList(list, n);
    var b := list[0];
    assert b in list;
    var d, off := b.msg.data, b.off;
    SliceSplits(d, off, n);
    var sent, left, rest := d[off..off + n], d[off + n..], Backlog(Tail(list));
    assert Backlog(list) == (sent + left) + rest;
    Joined(sent, left, rest);
    PrefixOfConcat(sent, left + rest, n);
    ShortenedBacklog(list, n);
  }

  lemma ShortenedBacklog(list: seq<Buf>, n: nat)
    requires list != [] && n <= Rest(list[0]) && list[0].off <= |list[0].msg.data| && InBounds(list)
    requires InBounds(Shortened(list, n))
    ensures Backlog(Shortened(list, n)) == list[0].msg.data[list[0].off + n..] + Backlog(Tail(list))
  {
    var b := list[0];
    if n < Rest(b) {
      assert Tail(Shortened(list, n)) == Tail(list);
    } else {
      assert Shortened(list, n) == Tail(list) && b.msg.data[b.off + n..] == [];
    }
  }

  // ---------------------------------------------------------------------------
  // How far the write loop gets

  /** Why the loop stops: nothing left, the descriptor takes no more, or it is broken. */
  datatype Stop = AllOut | Full | WriteFailed

  /** How many messages go out whole, how much of the next one, why it ends there, and the outcomes left over. */
  datatype Sending = Sending(whole: nat, part: nat, stop: Stop, left: seq<Write>)

  /** What messages of these lengths meet when write() behaves like this. */
  function Progress(lengths: seq<nat>, writes: seq<Write>): (p: Sending)
    ensures p.whole <= |lengths| && (p.stop == AllOut <==> p.whole == |lengths|)
    ensures p.part <= if p.whole < |lengths| then lengths[p.whole] else 0
    ensures p.stop == WriteFailed ==> p.part == 0
    decreases |writes|
  {
    if lengths == [] then Sending(0, 0, AllOut, writes)
    else if writes == [] then Sending(0, 0, Full, [])
    else match writes[0]
      case Interrupted => Progress(lengths, writes[1..])
      case Again => Sending(0, 0, Full, writes[1..])
      case Broken => Sending(0, 0, WriteFailed, writes[1..])
      case Wrote(n) =>
        if n < lengths[0] then Sending(0, n, Full, writes[1..])
        else Behind(1, Progress(lengths[1..], writes[1..]))
  }

  function Behind(whole: nat, p: Sending): Sending {
    p.(whole := whole + p.whole)
  }

  function Sum(lengths: seq<nat>): nat {
    if lengths == [] then 0 else lengths[0] + Sum(lengths[1..])
  }

  /** The bytes that go out. */
  function Bytes(lengths: seq<nat>, p: Sending): nat
    requires p.whole <= |lengths|
  {
    Sum(lengths[..p.whole]) + p.part
  }

  function Lengths(list: seq<Buf>): (l: seq<nat>)
    requires InBounds(list)
    ensures |l| == |list|
  {
    if list == [] then [] else assert list[0] in list; [Rest(list[0])] + Lengths(Tail(list))
  }

  /** The list after it: the whole messages are gone and the next one is cut. */
  function Unwritten(list: seq<Buf>, p: Sending): seq<Buf> {
    if p.whole >= |list| then [] else Advanced(list[p.whole..], p.part)
  }

  function Advanced(list: seq<Buf>, n: nat): seq<Buf>
    requires list != []
  {
    [Buf(list[0].msg, list[0].off + n)] + list[1..]
  }

  /** The outcome the loop stopped at: a broken write, a short one or a full descriptor, or there was none left. */
  lemma {:induction false} StoppedBy(lengths: seq<nat>, writes: seq<Write>)
    ensures var p := Progress(lengths, writes);
            && |p.left| <= |writes| && p.left == writes[|writes| - |p.left|..]
            && (p.stop == WriteFailed ==> |p.left| < |writes| && writes[|writes| - |p.left| - 1] == Broken)
            && (p.stop == Full ==>
                  || (p.left == [] && p.part == 0)
                  || (|p.left| < |writes| && writes[|writes| - |p.left| - 1] == Again && p.part == 0)
                  || (|p.left| < |writes| && writes[|writes| - |p.left| - 1] == Wrote(p.part)
                      && p.part < lengths[p.whole]))
    decreases |writes|
  {
    if lengths != [] && writes != [] {
      if writes[0] == Interrupted {
        StoppedBy(lengths, writes[1..]);
      } else if writes[0].Wrote? && writes[0].n >= lengths[0] {
        StoppedBy(lengths[1..], writes[1..]);
      }
    }
  }

  /** A descriptor that takes every message whole gets them all. */
  lemma {:induction false} AllGoOut(lengths: seq<nat>, writes: seq<Write>)
    requires |lengths| <= |writes| && forall i :: 0 <= i < |lengths| ==> writes[i].Wrote? && writes[i].n >= lengths[i]
    ensures Progress(lengths, writes) == Sending(|lengths|, 0, AllOut, writes[|lengths|..])
    ensures Bytes(lengths, Progress(lengths, writes)) == Sum(lengths)
  {
    if lengths != [] { AllGoOut(lengths[1..], writes[1..]); }
    assert lengths[..|lengths|] == lengths;
  }

  lemma {:induction false} SumSplits(lengths: seq<nat>, k: nat)
    requires k <= |lengths|
    ensures Sum(lengths) == Sum(lengths[..k]) + Sum(lengths[k..])
  {
    if k == 0 {
      assert lengths[..0] == [] && lengths[0..] == lengths;
    } else {
      SumSplits(lengths[1..], k - 1);
      assert lengths[..k][1..] == lengths[1..][..k - 1] && lengths[k..] == lengths[1..][k - 1..];
    }
  }

  lemma SumUpTo(lengths: seq<nat>, k: nat)
    requires k < |lengths|
    ensures Sum(lengths[..k + 1]) == Sum(lengths[..k]) + lengths[k]
  {
    SumSplits(lengths[..k + 1], k);
    assert lengths[..k + 1][..k] == lengths[..k] && lengths[..k + 1][k..] == [lengths[k]];
    assert [lengths[k]][1..] == [];
  }

  lemma {:induction false} BacklogLength(list: seq<Buf>)
    requires InBounds(list)
    ensures |Backlog(list)| == Sum(Lengths(list))
  {
    if list != [] {
      assert list[0] in list;
      BacklogLength(Tail(list));
      assert Lengths(list)[1..] == Lengths(Tail(list));
    }
  }

  // ---------------------------------------------------------------------------
  // The type of the socket, and when SOCKET_CLOSE is raised

  /** What decides how a socket goes on: its type, and whether the service has closed it. */
  datatype Phase = Phase(kind: Kind, closing: bool)

  datatype Event =
    | CloseRequest(now: bool)   // close_socket; shutdown, or nothing left to send
    | ReadZero(quiet: bool)     // the remote end has shut down; whether nothing is left to send
    | Eof                       // the remote end has hung up
    | WriteBroken               // a write failed: close_write
    | Drained                   // send_buffer_ has emptied both lists
    | ConnectDone(ok: bool)     // report_connect; connected, and disabling the write event has not failed
    | Start(fails: bool)        // resume_socket; whether enabling the read event fails

  predicate Live(k: Kind) {
    k !in {Connecting, Invalid}
  }

  /** The type after an event, and what the service is told. */
  function After(p: Phase, e: Event): (Phase, Code) {
    match e
    case CloseRequest(now) =>
      if p.kind == Invalid then (p, Ignore)
      else if now || p.kind == HalfWrite then (p.(kind := Invalid), if p.kind == HalfRead then Ignore else Closed)
      else (Phase(HalfRead, true), if p.kind == HalfRead then Ignore else Closed)
    case ReadZero(quiet) =>
      if !Live(p.kind) then (p, Ignore)
      else if p.closing then (if quiet || p.kind == HalfWrite then p.(kind := Invalid) else p, Ignore)
      else if p.kind == HalfRead then (p, Ignore)
      else if p.kind == HalfWrite then (p.(kind := Invalid), Closed)
      else (p.(kind := HalfRead), Closed)
    case Eof => if !Live(p.kind) then (p, Ignore) else (p.(kind := Invalid), if p.kind == HalfRead then Ignore else Closed)
    case WriteBroken =>
      if !Live(p.kind) then (p, Ignore)
      else if p.closing || p.kind == HalfRead then (p.(kind := Invalid), Reset)
      else if p.kind == HalfWrite then (p, Reset)
      else (p.(kind := HalfWrite), Error)
    case Drained => if Live(p.kind) && p.closing then (p.(kind := Invalid), Ignore) else (p, Ignore)
    case ConnectDone(ok) =>
      if p.kind != Connecting then (p, Ignore)
      else if ok then (p.(kind := Connected), Opened) else (p.(kind := Invalid), Error)
    case Start(fails) =>
      if p.kind in {Invalid, HalfRead} || fails then (p, Error)
      else if p.kind == Paccept then (p.(kind := Connected), Opened)
      else if p.kind == Connected then (p, Opened)
      else (p, Ignore)
  }

  function PhaseAfter(p: Phase, events: seq<Event>): Phase {
    if events == [] then p else After(PhaseAfter(p, events[..|events| - 1]), events[|events| - 1]).0
  }

  /** How often SOCKET_CLOSE has been raised. */
  function Closes(p: Phase, events: seq<Event>): nat {
    if events == [] then 0
    else
      var init, last := events[..|events| - 1], events[|events| - 1];
      Closes(p, init) + if After(PhaseAfter(p, init), last).1 == Closed then 1 else 0
  }

  predicate ConnectFailed(events: seq<Event>) {
    exists i :: 0 <= i < |events| && events[i] == ConnectDone(false)
  }

  /**
    Over the life of a socket id SOCKET_CLOSE is raised at most once: once exactly when the
    socket is half closed for reading, not at all while it is open, and a socket that is gone
    without it failed to connect.
   */
  lemma {:induction false} CloseRaisedOnce(p: Phase, events: seq<Event>)
    requires p.kind in {Connecting, Paccept, Connected} && !p.closing
    ensures var q, n := PhaseAfter(p, events), Closes(p, events);
            && n <= 1
            && (q.kind == HalfRead ==> n == 1)
            && (q.kind !in {HalfRead, Invalid} ==> n == 0 && !q.closing)
            && (q.kind == Invalid && n == 0 ==> ConnectFailed(events))
  {
    if events != [] {
      var init, last := events[..|events| - 1], events[|events| - 1];
      CloseRaisedOnce(p, init);
      if ConnectFailed(init) {
        var i :| 0 <= i < |init| && init[i] == ConnectDone(false);
        assert events[i] == ConnectDone(false);
      }
      if last == ConnectDone(false) { assert ConnectFailed(events); }
    }
  }

  /** What a write loop that stops does to the type of the socket, and what the service is told: resets are kept quiet. */
  function Stopped(p: Phase, stop: Stop): (Phase, Code) {
    if stop != WriteFailed then (p, Ignore)
    else var (q, code) := After(p, WriteBroken); (q, if code == Error then Error else Ignore)
  }

  /** A cut head of the low list becomes the high list. */
  function Raised(low: seq<Buf>, part: nat): (seq<Buf>, seq<Buf>) {
    if part > 0 && low != [] then (low[..1], low[1..]) else ([], low)
  }

  /** Both lists, the high one first: the bytes that go out, why it stops, and the lists after it. */
  function OutOfBoth(high: seq<nat>, low: seq<nat>, writes: seq<Write>): nat {
    var p := Progress(high, writes);
    Bytes(high, p) + if p.stop == AllOut then Bytes(low, Progress(low, p.left)) else 0
  }

  function StopOfBoth(high: seq<nat>, low: seq<nat>, writes: seq<Write>): Stop {
    var p := Progress(high, writes);
    if p.stop == AllOut then Progress(low, p.left).stop else p.stop
  }

  function ListsAfter(high: seq<Buf>, low: seq<Buf>, writes: seq<Write>): (seq<Buf>, seq<Buf>)
    requires InBounds(high) && InBounds(low)
  {
    var p := Progress(Lengths(high), writes);
    if p.stop != AllOut then (Unwritten(high, p), low)
    else var q := Progress(Lengths(low), p.left); Raised(Unwritten(low, q), q.part)
  }

  /** The wire holds the first bytes of what was to go, as many as the two loops write. */
  ghost predicate Sent(high: seq<Buf>, low: seq<Buf>, writes: seq<Write>, before: seq<byte>, now: seq<byte>)
    requires InBounds(high) && InBounds(low)
  {
    var n := OutOfBoth(Lengths(high), Lengths(low), writes);
    n <= |Backlog(high) + Backlog(low)| && now == before + (Backlog(high) + Backlog(low))[..n]
  }

  /** How send_buffer_ ends: with step 4 only when both lists are empty. */
  function Ending(p: Phase, warned: int, stop: Stop, eventFails: bool): (Phase, int, Code) {
    if stop != AllOut then var (q, r) := Stopped(p, stop); (q, warned, r)
    else
      var r := if p.closing then Ignore else if eventFails then Error else if warned > 0 then Warning else Ignore;
      (After(p, Drained).0, if r == Warning then 0 else warned, r)
  }

  // ---------------------------------------------------------------------------
  // The socket

  /** struct wb_list */
  class WriteList {
    var items: seq<Buf>

    constructor ()
      ensures items == []
    {
      items := [];
    }
  }

  class Socket {
    const high: WriteList
    const low: WriteList
    var kind: Kind
    var closing: bool
    var wbSize: int
    var warnSize: int
    var dw: Option<Buf>
    ghost var wire: seq<byte>   // the bytes written to the descriptor
    ghost var closes: nat       // how often SOCKET_CLOSE was raised
    ghost var errors: nat       // how often an error has ended the connection or its writing

    constructor (kind: Kind)
      requires kind in {Connecting, Paccept, Connected}
      ensures Valid() && fresh(high) && fresh(low) && this.kind == kind && wire == [] && closes == 0 && errors == 0
    {
      high := new WriteList();
      low := new WriteList();
      this.kind := kind;
      closing := false;
      wbSize, warnSize := 0, 0;
      dw := None;
      wire, closes, errors := [], 0, 0;
    }

    ghost predicate ListsOk()
      reads this, high, low
    {
      && high != low && InBounds(high.items) && InBounds(low.items)
      && (kind != Invalid ==> wbSize == |Backlog(high.items)| + |Backlog(low.items)|)
      && (kind == Invalid ==> high.items == [] && low.items == [])
    }

    /** SOCKET_CLOSE and the type tell the same story: half closed for reading means raised once. */
    ghost predicate EventsOk()
      reads this`kind, this`closing, this`closes, this`errors
    {
      && closes <= 1
      && (kind == HalfRead ==> closes == 1)
      && (kind !in {HalfRead, Invalid} ==> closes == 0)
      && (kind == Invalid ==> closes == 1 || errors > 0)
      && (closing ==> closes == 1 && kind in {HalfRead, Invalid})
      && (kind == HalfWrite ==> errors > 0)
    }

    ghost predicate Valid()
      reads this, high, low
    {
      && ListsOk() && EventsOk() && Whole(low.items)
      && (dw.Some? ==> dw.value.off <= |dw.value.msg.data|)
    }

    /** All bytes the thread has written or still has to write, in order. */
    ghost function Outgoing(): seq<byte>
      requires InBounds(high.items) && InBounds(low.items)
      reads this, high, low
    {
      wire + Backlog(high.items) + Backlog(low.items)
    }

    function PhaseOf(): Phase
      reads this
    {
      Phase(kind, closing)
    }

    /** force_close */
    method ForceClose()
      modifies this`kind, this`dw, high, low
      ensures old(kind) == Invalid ==> dw == old(dw) && high.items == old(high.items) && low.items == old(low.items)
      ensures old(kind) != Invalid ==> dw == None && high.items == [] && low.items == []
      ensures kind == Invalid
    {
      if kind == Invalid {
        return;
      }
      high.items, low.items := [], [];
      kind := Invalid;
      dw := None;
    }

    /** close_write */
    method CloseWrite() returns (r: Code)
      requires ListsOk() && EventsOk() && kind != Invalid
      modifies this`kind, this`dw, this`errors, high, low
      ensures ListsOk() && EventsOk()
      ensures Live(old(kind)) ==> (PhaseOf(), r) == After(old(PhaseOf()), WriteBroken)
      ensures kind in {HalfWrite, Invalid} && (r == Error ==> kind == HalfWrite) && r in {Error, Reset}
      ensures kind != Invalid ==> high.items == old(high.items) && low.items == old(low.items) && dw == old(dw)
      ensures kind == Invalid ==> dw == None
    {
      if closing {
        ForceClose();
        return Reset;
      }
      if kind == HalfRead {
        ForceClose();
        return Reset;
      }
      if kind == HalfWrite {
        return Reset;
      }
      kind := HalfWrite;
      errors := errors + 1;
      return Error;
    }

    /** One write of the head of a list: send_list_tcp between two looks at the list. */
    method WriteHead(list: WriteList, n: nat) returns (whole: bool)
      requires ListsOk() && (list == high || list == low) && list.items != [] && kind != Invalid
      requires n <= Rest(list.items[0])
      modifies this`wbSize, this`wire, list
      ensures ListsOk() && list.items == Shortened(old(list.items), n) && whole == (n == old(Rest(list.items[0])))
      ensures wire + Backlog(list.items) == old(wire + Backlog(list.items)) && old(wire) <= wire
      ensures |wire| == old(|wire|) + n
      ensures Whole(old(list.items)) ==> if whole then Whole(list.items) else Whole(list.items[1..])
    {
      hide Backlog, Whole, InBounds;
      ghost var before := list.items;
      var b := list.items[0];
      BacklogShortened(before, n);
      TailWhole(before);
      ghost var sent := Backlog(before)[..n];
      whole := n == Rest(b);
      assert !whole ==> ([Buf(b.msg, b.off + n)] + before[1..])[1..] == before[1..];
      list.items := if whole then list.items[1..] else [Buf(b.msg, b.off + n)] + list.items[1..];
      wire := wire + sent;
      wbSize := wbSize - n;
      Moved(old(wire), sent, Backlog(list.items));
    }

    lemma LowIsLeft()
      requires InBounds(high.items) && InBounds(low.items)
      ensures high.items == [] ==> Outgoing() == wire + Backlog(low.items)
      ensures low.items == [] ==> Outgoing() == wire + Backlog(high.items) && Whole(low.items)
      ensures Outgoing() == (wire + Backlog(high.items)) + Backlog(low.items)
    {}

    /** The other list. */
    function Other(list: WriteList): WriteList {
      if list == high then low else high
    }

    /** send_list_tcp: write until the list is empty, the socket is full, or an error closes it for writing. */
    method SendListTcp(list: WriteList, writes: seq<Write>) returns (r: Code, left: seq<Write>)
      requires ListsOk() && EventsOk() && (list == high || list == low) && Live(kind)
      modifies this`kind, this`dw, this`errors, this`wbSize, this`wire, high, low
      ensures ListsOk() && EventsOk() && r in {Ignore, Error, Reset}
      ensures r != Ignore ==> (PhaseOf(), r) == After(old(PhaseOf()), WriteBroken)
      ensures Grown(old(list.items), writes, old(wire), wire)
      ensures var p := Progress(old(Lengths(list.items)), writes);
              && left == p.left && (r == Ignore <==> p.stop != WriteFailed)
              && (kind != Invalid ==> list.items == Unwritten(old(list.items), p))
      ensures kind != Invalid ==> wire + Backlog(list.items) == old(wire + Backlog(list.items))
      ensures kind != Invalid ==> dw == old(dw) && Other(list).items == old(Other(list).items)
      ensures r == Ignore ==> kind == old(kind) && errors == old(errors)
      ensures r != Ignore ==> kind in {HalfWrite, Invalid} && (r == Error ==> kind == HalfWrite)
      ensures kind == Invalid ==> dw == None
      ensures kind != Invalid && Whole(old(list.items)) ==> list.items == [] || Whole(list.items[1..])
      ensures kind != Invalid && Whole(old(list.items)) && r != Ignore ==> Whole(list.items)
    {
      hide Backlog, Rest, Whole, Lengths, Progress, Sum, InBounds, Grown, Unwritten, Shortened;
      ghost var items, backlog := list.items, Backlog(list.items);
      ghost var lengths, done := Lengths(items), 0;
      left := writes;
      LoopStarts(items);
      while list.items != []
        invariant ListsOk() && EventsOk() && kind == old(kind) && dw == old(dw) && errors == old(errors)
        invariant wire + Backlog(list.items) == old(wire) + backlog && old(wire) <= wire
        invariant done <= |items| && list.items == items[done..]
        invariant |wire| == |old(wire)| + Sum(lengths[..done])
        invariant Progress(lengths, writes) == Behind(done, Progress(Lengths(list.items), left))
        invariant Other(list).items == old(Other(list).items)
        invariant Whole(old(list.items)) ==> Whole(list.items)
        decreases |left|
      {
        TailWhole(list.items);
        NextTurn(items, done, left);
        var w := if left == [] then Again else left[0];
        left := if left == [] then [] else left[1..];
        match w
        case Interrupted =>
        case Again =>
          GrownBy(items, writes, done, 0, old(wire), wire, list.items);
          return Ignore, left;
        case Broken =>
          GrownBy(items, writes, done, 0, old(wire), wire, list.items);
          r := CloseWrite();
          return r, left;
        case Wrote(accepted) =>
          var size := Rest(list.items[0]);
          var k := if accepted < size then accepted else size;
          HeadFits(list.items);
          var whole := WriteHead(list, k);
          ShortenedAt(items, done, k);
          if !whole {
            GrownBy(items, writes, done, k, old(wire), wire, list.items);
            return Ignore, left;
          }
          done := done + 1;
      }
      NothingToSend(left);
      GrownBy(items, writes, done, 0, old(wire), wire, []);
      r := Ignore;
    }

    /** raise_uncomplete: the head of the low list becomes the high list, which is empty. */
    method RaiseUncomplete()
      requires ListsOk() && low.items != [] && high.items == [] && Whole(low.items[1..])
      modifies high, low
      ensures ListsOk() && Whole(low.items) && Outgoing() == old(Outgoing())
      ensures high.items == old(low.items)[..1] && low.items == old(low.items)[1..]
    {
      var b := low.items[0];
      SplitHead(low.items);
      low.items := low.items[1..];
      high.items := [b];
    }

    /** send_buffer_, steps 2 and 3: the low list, when the high list is empty. `go` when both are empty after it. */
    method SendLowList(writes: seq<Write>) returns (r: Code, go: bool)
      requires Valid() && Live(kind) && high.items == []
      modifies this`kind, this`dw, this`errors, this`wbSize, this`wire, high, low
      ensures Valid()
      ensures var p := Progress(old(Lengths(low.items)), writes);
              && Grown(old(low.items), writes, old(wire), wire)
              && (PhaseOf(), r) == Stopped(old(PhaseOf()), p.stop) && (go <==> p.stop == AllOut)
              && (kind != Invalid ==> (high.items, low.items) == Raised(Unwritten(old(low.items), p), p.part))
      ensures kind != Invalid ==> Outgoing() == old(Outgoing()) && dw == old(dw)
      ensures kind == Invalid ==> dw == None
    {
      hide Backlog, Whole, Rest, EventsOk, InBounds, Lengths, Progress, Bytes;
      var left;
      LowIsLeft();
      ghost var items := low.items;
      r, left := SendListTcp(low, writes);
      LowIsLeft();
      WholeAgain(low.items);
      HeadWhole(items);
      if r != Ignore {
        return if r == Error then Error else Ignore, false;
      }
      if low.items != [] && low.items[0].off != 0 {
        RaiseUncomplete();
        return Ignore, false;
      }
      return Ignore, low.items == [];
    }

    /** send_buffer_, step 4: both lists are empty. */
    method BothListsEmpty(eventFails: bool) returns (r: Code)
      requires Valid() && Live(kind) && high.items == [] && low.items == []
      modifies this`kind, this`dw, this`errors, this`warnSize, high, low
      ensures Valid() && high.items == [] && low.items == []
      ensures PhaseOf() == After(old(PhaseOf()), Drained).0 && dw == if closing then None else old(dw)
      ensures r == if closing then Ignore else if eventFails then Error else if old(warnSize) > 0 then Warning else Ignore
      ensures warnSize == if r == Warning then 0 else old(warnSize)
      ensures errors == old(errors) + if r == Error then 1 else 0
    {
      NoBacklog();
      assert wbSize == 0;
      if closing {
        ForceClose();
        return Ignore;
      }
      if eventFails {
        errors := errors + 1;
        return Error;
      }
      if warnSize > 0 {
        warnSize := 0;
        return Warning;
      }
      return Ignore;
    }

    /** send_buffer_: the high list as far as possible, then the low list. */
    method SendBufferLocked(writes: seq<Write>, eventFails: bool) returns (r: Code)
      requires Valid() && Live(kind)
      modifies this`kind, this`dw, this`errors, this`wbSize, this`warnSize, this`wire, high, low
      ensures Valid()
      ensures Sent(old(high.items), old(low.items), writes, old(wire), wire)
      ensures (PhaseOf(), warnSize, r) ==
              Ending(old(PhaseOf()), old(warnSize),
                     StopOfBoth(old(Lengths(high.items)), old(Lengths(low.items)), writes), eventFails)
      ensures kind != Invalid ==> (high.items, low.items) == ListsAfter(old(high.items), old(low.items), writes)
      ensures kind != Invalid ==> Outgoing() == old(Outgoing()) && dw == old(dw)
      ensures kind == Invalid ==> dw == None
    {
      hide Backlog, Whole, Rest, EventsOk, InBounds, Lengths, Progress, Bytes;
      hide Unwritten, Grown, Sent, ListsAfter, StopOfBoth;
      ghost var first, second, before := high.items, low.items, wire;
      var left, go;
      r, left := SendListTcp(high, writes);
      HighStops(first, second, writes, before, wire);
      HighEmptied(first, second, writes);
      LowIsLeft();
      NoBacklog();
      if r != Ignore {
        return if r == Error then Error else Ignore;
      }
      if high.items == [] {
        ghost var mid := wire;
        NothingOut(left, mid);
        if low.items != [] {
          r, go := SendLowList(left);
          LowFollows(first, second, writes, before, mid, wire);
          LowIsLeft();
          if !go {
            return;
          }
        } else {
          LowFollows(first, second, writes, before, mid, mid);
        }
        r := BothListsEmpty(eventFails);
      }
    }

    /** send_buffer: under the lock, what a direct write left over goes in front of the high list. */
    method SendBuffer(locked: bool, writes: seq<Write>, eventFails: bool) returns (r: Code)
      requires Valid() && Live(kind)
      modifies this`kind, this`dw, this`errors, this`wbSize, this`warnSize, this`wire, high, low
      ensures Valid()
      ensures !locked ==> unchanged(this) && unchanged(high) && unchanged(low) && r == Ignore
      ensures locked ==>
                var first, low0 := old(First()), old(low.items);
                && dw == None
                && Sent(first, low0, writes, old(wire), wire)
                && (PhaseOf(), warnSize, r) ==
                   Ending(old(PhaseOf()), old(warnSize), StopOfBoth(Lengths(first), Lengths(low0), writes), eventFails)
                && (kind != Invalid ==>
                      Outgoing() == old(Owed()) && (high.items, low.items) == ListsAfter(first, low0, writes))
    {
      hide Backlog, Whole, Rest, EventsOk, InBounds, Lengths, Progress, Sent, ListsAfter, StopOfBoth, Ending;
      if !locked {
        return Ignore;
      }
      ghost var first := First();
      if dw.Some? {
        TakeLeftOver();
      }
      assert high.items == first;
      r := SendBufferLocked(writes, eventFails);
    }

    /** Everything the peer is still to get, with the rest of a direct write first. */
    ghost function Owed(): seq<byte>
      requires Valid()
      reads this, high, low
    {
      wire + (if dw.Some? then dw.value.msg.data[dw.value.off..] else []) + Backlog(high.items) + Backlog(low.items)
    }

    /** The high list with the rest of a direct write in front. */
    ghost function First(): (l: seq<Buf>)
      requires Valid()
      reads this, high, low
      ensures InBounds(l)
    {
      (if dw.Some? then [dw.value] else []) + high.items
    }

    method TakeLeftOver()
      requires Valid() && kind != Invalid && dw.Some?
      modifies this`dw, this`wbSize, high
      ensures Valid() && dw == None && Outgoing() == old(Owed()) && high.items == old(First())
    {
      var b := dw.value;
      BacklogHead(b, high.items);
      high.items := [b] + high.items;
      wbSize := wbSize + Rest(b);
      dw := None;
      ghost var rest, queued := b.msg.data[b.off..], old(Backlog(high.items));
      assert wire + (rest + queued) == wire + rest + queued;
    }

    predicate Refuses()
      reads this`kind, this`closing
    {
      kind in {Invalid, HalfWrite, Paccept} || closing
    }

    /**
      send_socket: queue a message, in the high list when both are empty; warn when too much is
      waiting. Into empty lists it also enables the write event, which may fail.
     */
    method SendSocket(m: Msg, eventFails: bool) returns (r: Code)
      requires Valid()
      modifies this`wbSize, this`warnSize, high, low
      ensures Valid()
      ensures Refuses() ==> r == Ignore && Outgoing() == old(Outgoing()) && wbSize == old(wbSize)
      ensures r == Error <==> !Refuses() && eventFails && old(high.items == [] && low.items == [])
      ensures !Refuses() ==>
                && wbSize == old(wbSize) + |m.data|
                && (if m.low && old(high.items != [] || low.items != [])
                    then high.items == old(high.items) && low.items == old(low.items) + [Buf(m, 0)]
                    else high.items == old(high.items) + [Buf(m, 0)] && low.items == old(low.items))
                && (r == Warning <==> r != Error && wbSize >= WARNING_SIZE && wbSize >= old(warnSize))
                && warnSize == (if r != Warning then old(warnSize)
                                else if old(warnSize) == 0 then 2 * WARNING_SIZE else 2 * old(warnSize))
    {
      if Refuses() {
        return Ignore;
      }
      var empty := high.items == [] && low.items == [];
      Append(m, m.low && !empty);
      if empty && eventFails {
        return Error;
      }
      if wbSize >= WARNING_SIZE && wbSize >= warnSize {
        warnSize := if warnSize == 0 then 2 * WARNING_SIZE else 2 * warnSize;
        return Warning;
      }
      return Ignore;
    }

    /** append_sendbuffer and append_sendbuffer_low */
    method Append(m: Msg, toLow: bool)
      requires Valid() && kind != Invalid
      modifies this`wbSize, high, low
      ensures Valid() && wbSize == old(wbSize) + |m.data|
      ensures if toLow then high.items == old(high.items) && low.items == old(low.items) + [Buf(m, 0)]
              else high.items == old(high.items) + [Buf(m, 0)] && low.items == old(low.items)
    {
      var b := Buf(m, 0);
      if toLow {
        BacklogPush(low.items, b);
        BufsPush(low.items, b);
        low.items := low.items + [b];
      } else {
        BacklogPush(high.items, b);
        high.items := high.items + [b];
      }
      wbSize := wbSize + |m.data|;
    }

    /** close_socket; `now` is request->shutdown or what nomore_sending_data finds of lists, dw_buffer and sending. */
    method CloseSocket(now: bool) returns (r: Code)
      requires Valid()
      modifies this`kind, this`closing, this`dw, this`closes, high, low
      ensures Valid() && (PhaseOf(), r) == After(old(PhaseOf()), CloseRequest(now))
      ensures closes == old(closes) + if r == Closed then 1 else 0
    {
      if kind == Invalid {
        return Ignore;
      }
      var shutdownRead := kind == HalfRead;
      if now || kind == HalfWrite {
        r := if shutdownRead then Ignore else Closed;
        ForceClose();
        closes := closes + if shutdownRead then 0 else 1;
        return;
      }
      closing := true;
      if !shutdownRead {
        kind := HalfRead;
        closes := closes + 1;
        return Closed;
      }
      return Ignore;
    }

    /** forward_message_tcp when read() returns 0; `quiet` is what nomore_sending_data finds. */
    method ReadEnd(quiet: bool) returns (r: Code)
      requires Valid() && Live(kind)
      modifies this`kind, this`dw, this`closes, high, low
      ensures Valid() && (PhaseOf(), r) == After(old(PhaseOf()), ReadZero(quiet))
      ensures closes == old(closes) + if r == Closed then 1 else 0
    {
      if closing {
        if quiet || kind == HalfWrite {
          ForceClose();
        }
        return Ignore;
      }
      if kind == HalfRead {
        return Ignore;
      }
      if kind == HalfWrite {
        ForceClose();
      } else {
        kind := HalfRead;
      }
      closes := closes + 1;
      return Closed;
    }

    /** The remote end has hung up: the last case of socket_server_poll. */
    method HangUp() returns (r: Code)
      requires Valid() && Live(kind)
      modifies this`kind, this`dw, this`closes, high, low
      ensures Valid() && (PhaseOf(), r) == After(old(PhaseOf()), Eof)
      ensures closes == old(closes) + if r == Closed then 1 else 0
    {
      var halfclose := kind == HalfRead;
      ForceClose();
      if !halfclose {
        closes := closes + 1;
        return Closed;
      }
      return Ignore;
    }

    /** report_connect */
    method ReportConnect(ok: bool) returns (r: Code)
      requires Valid() && kind == Connecting
      modifies this`kind, this`dw, this`errors, high, low
      ensures Valid() && (PhaseOf(), r) == After(old(PhaseOf()), ConnectDone(ok))
    {
      if !ok {
        ForceClose();
        errors := errors + 1;
        return Error;
      }
      kind := Connected;
      return Opened;
    }

    /** resume_socket */
    method Resume(eventFails: bool) returns (r: Code)
      requires Valid()
      modifies this`kind
      ensures Valid() && (PhaseOf(), r) == After(old(PhaseOf()), Start(eventFails))
    {
      if kind == Invalid {
        return Error;
      }
      if kind == HalfRead {
        return Error;
      }
      if eventFails {
        return Error;
      }
      if kind == Paccept {
        kind := Connected;
        return Opened;
      } else if kind == Connected {
        return Opened;
      }
      return Ignore;
    }
  }

  lemma HeadWhole(items: seq<Buf>)
    ensures Whole(items) ==> forall i :: 0 <= i < |items| ==> items[i].off == 0
  {}

  /** The wire has grown by the first bytes of the list, as many as go out. */
  ghost predicate Grown(items: seq<Buf>, writes: seq<Write>, before: seq<byte>, now: seq<byte>)
    requires InBounds(items)
  {
    var n := Bytes(Lengths(items), Progress(Lengths(items), writes));
    n <= |Backlog(items)| && now == before + Backlog(items)[..n]
  }

  lemma HighStops(high: seq<Buf>, low: seq<Buf>, writes: seq<Write>, before: seq<byte>, now: seq<byte>)
    requires InBounds(high) && InBounds(low) && Grown(high, writes, before, now)
    ensures var p := Progress(Lengths(high), writes);
            p.stop != AllOut ==>
              && Sent(high, low, writes, before, now) && StopOfBoth(Lengths(high), Lengths(low), writes) == p.stop
              && ListsAfter(high, low, writes) == (Unwritten(high, p), low) && Unwritten(high, p) != []
  {
    hide Backlog, Lengths, Progress, InBounds, Sum;
    var n := OutOfBoth(Lengths(high), Lengths(low), writes);
    if n <= |Backlog(high)| { assert (Backlog(high) + Backlog(low))[..n] == Backlog(high)[..n]; }
  }

  lemma HighEmptied(high: seq<Buf>, low: seq<Buf>, writes: seq<Write>)
    requires InBounds(high) && InBounds(low)
    ensures var p := Progress(Lengths(high), writes);
            p.stop == AllOut ==>
              var q := Progress(Lengths(low), p.left);
              && Unwritten(high, p) == [] && StopOfBoth(Lengths(high), Lengths(low), writes) == q.stop
              && ListsAfter(high, low, writes) == Raised(Unwritten(low, q), q.part)
              && (q.stop == AllOut ==> Unwritten(low, q) == [] && q.part == 0)
  {
    hide Lengths, Progress, InBounds;
  }

  lemma LowFollows(high: seq<Buf>, low: seq<Buf>, writes: seq<Write>, before: seq<byte>, mid: seq<byte>, now: seq<byte>)
    requires InBounds(high) && InBounds(low) && Grown(high, writes, before, mid)
    requires var p := Progress(Lengths(high), writes); p.stop == AllOut && Grown(low, p.left, mid, now)
    ensures Sent(high, low, writes, before, now)
  {
    hide Backlog, Progress, InBounds, Lengths, Sum;
    BacklogLength(high);
    assert Lengths(high)[..|high|] == Lengths(high);
    var n := OutOfBoth(Lengths(high), Lengths(low), writes);
    assert Backlog(high)[..|Backlog(high)|] == Backlog(high);
    assert (Backlog(high) + Backlog(low))[..n] == Backlog(high) + Backlog(low)[..n - |Backlog(high)|];
  }

  lemma NothingOut(left: seq<Write>, wire: seq<byte>)
    ensures InBounds([]) && Grown([], left, wire, wire) && Progress(Lengths([]), left) == Sending(0, 0, AllOut, left)
  {
    assert wire + [] == wire && Lengths([])[..0] == [];
  }

  lemma GrownBy(items: seq<Buf>, writes: seq<Write>, done: nat, part: nat, before: seq<byte>, now: seq<byte>,
                queued: seq<Buf>)
    requires InBounds(items) && done <= |items| && InBounds(queued)
    requires var p := Progress(Lengths(items), writes); p.whole == done && p.part == part
    requires |now| == |before| + Sum(Lengths(items)[..done]) + part
    requires before <= now && now + Backlog(queued) == before + Backlog(items)
    ensures Grown(items, writes, before, now)
    ensures Unwritten(items, Progress(Lengths(items), writes))
         == if done == |items| then [] else Advanced(items[done..], part)
    ensures done < |items| ==> Advanced(items[done..], 0) == items[done..]
  {
    hide Backlog, Lengths, Progress, Sum, InBounds;
    var n := |now| - |before|;
    assert (now + Backlog(queued))[..|now|] == now;
    assert (before + Backlog(items))[..|before| + n] == before + Backlog(items)[..n];
  }

  lemma ShortenedAt(items: seq<Buf>, done: nat, k: nat)
    requires done < |items| && k <= Rest(items[done])
    ensures k < Rest(items[done]) ==> Shortened(items[done..], k) == Advanced(items[done..], k)
    ensures k == Rest(items[done]) ==> Shortened(items[done..], k) == items[done + 1..]
  {}

  lemma LoopStarts(items: seq<Buf>)
    requires InBounds(items)
    ensures items[0..] == items && Sum(Lengths(items)[..0]) == 0
    ensures forall p: Sending :: Behind(0, p) == p
  {}

  lemma NothingToSend(left: seq<Write>)
    ensures Lengths([]) == [] && Progress([], left) == Sending(0, 0, AllOut, left)
  {}

  /** One turn of the loop takes one outcome of write(). */
  lemma NextTurn(items: seq<Buf>, done: nat, left: seq<Write>)
    requires InBounds(items) && done < |items|
    ensures InBounds(items[done..])
    ensures var lengths, length := Lengths(items), Rest(items[done]);
            && length >= 0 && Sum(lengths[..done + 1]) == Sum(lengths[..done]) + length
    ensures InBounds(items[done + 1..])
    ensures var p, length := Progress(Lengths(items[done..]), left), Rest(items[done]);
            match (if left == [] then Again else left[0])
            case Interrupted => p == Progress(Lengths(items[done..]), left[1..])
            case Again => p == Sending(0, 0, Full, if left == [] then [] else left[1..])
            case Broken => p == Sending(0, 0, WriteFailed, left[1..])
            case Wrote(n) =>
              if n < length then p == Sending(0, n, Full, left[1..])
              else p == Behind(1, Progress(Lengths(items[done + 1..]), left[1..]))
  {
    assert forall b :: b in items[done..] ==> b in items;
    assert items[done] in items && Tail(items[done..]) == items[done + 1..];
    assert Lengths(items[done..])[1..] == Lengths(items[done + 1..]);
    LengthAt(items, done);
    SumUpTo(Lengths(items), done);
  }

  lemma {:induction false} LengthAt(items: seq<Buf>, k: nat)
    requires InBounds(items) && k < |items|
    ensures Lengths(items)[k] == Rest(items[k])
  {
    if k > 0 {
      LengthAt(Tail(items), k - 1);
      assert Tail(items)[k - 1] == items[k];
    }
  }

  lemma TailWhole(list: seq<Buf>)
    requires list != []
    ensures Whole(list) ==> Whole(list[1..])
  {
    assert forall b :: b in list[1..] ==> b in list;
  }

  lemma HeadFits(list: seq<Buf>)
    requires list != [] && InBounds(list)
    ensures Rest(list[0]) >= 0
  {
    assert list[0] in list;
  }

  lemma SplitHead(list: seq<Buf>)
    requires list != [] && InBounds(list)
    ensures InBounds([list[0]]) && InBounds(list[1..]) && Backlog([list[0]]) + Backlog(list[1..]) == Backlog(list)
  {
    assert list[0] in list && Tail(list) == list[1..];
    assert Tail([list[0]]) == [];
  }

  lemma NoBacklog()
    ensures Backlog([]) == []
  {}

  lemma Moved(wire: seq<byte>, sent: seq<byte>, rest: seq<byte>)
    ensures (wire + sent) + rest == wire + (sent + rest)
  {}

  lemma BacklogHead(b: Buf, list: seq<Buf>)
    requires InBounds(list) && b.off <= |b.msg.data|
    ensures InBounds([b] + list) && Backlog([b] + list) == b.msg.data[b.off..] + Backlog(list)
  {
    BufsHead(b, list);
    assert Tail([b] + list) == list;
  }

  lemma WholeAgain(list: seq<Buf>)
    ensures list == [] || (Whole(list[1..]) && list[0].off == 0) ==> Whole(list)
  {
    if list != [] { assert forall b :: b in list ==> b == list[0] || b in list[1..]; }
  }
}
