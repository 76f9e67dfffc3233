/**
  The hierarchical timing wheel of skynet_timer.c, and the proof that it is a calendar.

  The wheel has 256 near lists, one per tick, and four levels of 64 lists, each entry of
  which covers Span(level) ticks; the clock is 32 bits wide and wraps. The invariant is
  that every list of the wheel holds exactly those pending events, in the order they were
  added, that `add_node` would put there at the current time.

  A `struct link_list` is modelled by the sequence of its nodes.
 */
module TimerWheel {

  import opened Basics
  import opened Calendar

  const WRAP := 0x1_0000_0000
  const MAX_DELAY := 0x7fff_ffff

  datatype Node = Node(expire: uint32, event: Event)

  /** A list of the wheel: T->near[idx] or T->t[level][idx]. */
  datatype Slot = Near(idx: int) | Far(level: int, idx: int) {
    predicate InRange() {
      match this
      case Near(i) => 0 <= i < 256
      case Far(l, i) => 0 <= l < 4 && 0 <= i < 64
    }

    function Level(): int {
      if Near? then -1 else level
    }
  }

  /** How many ticks one list of t[level] covers: 1 << (TIME_NEAR_SHIFT + level * TIME_LEVEL_SHIFT). */
  function Span(level: int): (n: int)
    requires 0 <= level < 4
    ensures n > 0
  {
    if level == 0 then 0x100 else if level == 1 then 0x4000 else if level == 2 then 0x10_0000 else 0x400_0000
  }

  /** x | (m - 1), for m a power of two. */
  function OrMask(x: uint32, m: int): int
    requires m > 0
  {
    x - x % m + (m - 1)
  }

  /** x >> (TIME_NEAR_SHIFT + level * TIME_LEVEL_SHIFT): which list of t[level] tick x falls in. */
  function Block(x: int, level: int): int
    requires 0 <= level < 4
    decreases level
  {
    if level == 0 then x / 0x100 else Block(x, level - 1) / 64
  }

  /** The list that holds tick `due` when the clock shows `now`, both counted without wrapping. */
  function SlotAt(due: int, now: int): (s: Slot)
    ensures s.InRange()
  {
    if Block(due, 0) == Block(now, 0) then Near(due % 0x100)
    else if Block(due, 1) == Block(now, 1) then Far(0, Block(due, 0) % 64)
    else if Block(due, 2) == Block(now, 2) then Far(1, Block(due, 1) % 64)
    else if Block(due, 3) == Block(now, 3) then Far(2, Block(due, 2) % 64)
    else Far(3, Block(due, 3) % 64)
  }

  /** The pending entries filed in one list, in the order they were added. */
  function Filed(pending: seq<Entry>, s: Slot, now: int): seq<Node> {
    if pending == [] then []
    else
      var last := pending[|pending| - 1];
      Filed(pending[..|pending| - 1], s, now)
      + if SlotAt(last.due, now) == s then [Node(last.due % WRAP, last.event)] else []
  }

  /** The nodes of a list that `add_node` puts into list s at a given 32-bit time, in order. */
  function Refiled(nodes: seq<Node>, s: Slot, time: uint32): seq<Node> {
    if nodes == [] then []
    else
      var last := nodes[|nodes| - 1];
      Refiled(nodes[..|nodes| - 1], s, time) + if SlotAt(last.expire, time) == s then [last] else []
  }

  /** Every pending event is due in the next 2^31 ticks, the present tick included or not. */
  ghost predicate DueWithin(pending: seq<Entry>, from: int, now: int) {
    forall e :: e in pending ==> from <= e.due <= now + MAX_DELAY
  }

  // ---------------------------------------------------------------------------
  // Arithmetic of the digits

  lemma Blocks(x: int)
    ensures Block(x, 0) == x / 0x100
    ensures Block(x, 1) == Block(x, 0) / 64
    ensures Block(x, 2) == Block(x, 1) / 64
    ensures Block(x, 3) == Block(x, 2) / 64
  {}

  /** Block(x, level) really is a division by the span of the level. */
  lemma {:induction false} BlockIsQuotient(x: int, level: int)
    requires 0 <= level < 4
    ensures Block(x, level) == x / Span(level)
  {
    Blocks(x);
    assert x / 0x100 / 64 == x / 0x4000;
    assert x / 0x4000 / 64 == x / 0x10_0000;
    assert x / 0x10_0000 / 64 == x / 0x400_0000;
  }

  lemma BlocksWrap(x: int)
    ensures Block(x, 0) == Block(x % 0x1_0000_0000, 0) + x / 0x1_0000_0000 * 0x100_0000
    ensures Block(x, 1) == Block(x % 0x1_0000_0000, 1) + x / 0x1_0000_0000 * 0x4_0000
    ensures Block(x, 2) == Block(x % 0x1_0000_0000, 2) + x / 0x1_0000_0000 * 0x1000
    ensures Block(x, 3) == Block(x % 0x1_0000_0000, 3) + x / 0x1_0000_0000 * 0x40
  {
    Blocks(x);
    Blocks(x % 0x1_0000_0000);
  }

  lemma WrapKeepsDigits(x: int)
    ensures x % 0x1_0000_0000 % 0x100 == x % 0x100
    ensures forall l :: 0 <= l < 4 ==> Block(x % 0x1_0000_0000, l) % 64 == Block(x, l) % 64
  {
    BlocksWrap(x);
    var q := x / 0x1_0000_0000;
    AddMod64(Block(x % 0x1_0000_0000, 0), q * 0x4_0000);
    AddMod64(Block(x % 0x1_0000_0000, 1), q * 0x1000);
    AddMod64(Block(x % 0x1_0000_0000, 2), q * 0x40);
    AddMod64(Block(x % 0x1_0000_0000, 3), q);
  }

  lemma AddMod64(a: int, m: int)
    ensures (a + 64 * m) % 64 == a % 64
  {}

  lemma WrapKeepsEquality(due: int, now: int)
    requires 0 <= now <= due <= now + MAX_DELAY
    ensures forall l :: 0 <= l < 4 ==>
              (Block(due % 0x1_0000_0000, l) == Block(now % 0x1_0000_0000, l) <==> Block(due, l) == Block(now, l))
  {
    var e, f := due % 0x1_0000_0000, now % 0x1_0000_0000;
    var q, r := due / 0x1_0000_0000, now / 0x1_0000_0000;
    BlocksWrap(due);
    BlocksWrap(now);
    BlocksBelow(e);
    BlocksBelow(f);
    if q != r {
      assert q == r + 1 && f - e > MAX_DELAY;
      BlocksApart(e, f);
      hide Block;
      assert q == r + 1;
      assert q * 0x100_0000 == r * 0x100_0000 + 0x100_0000;
      assert q * 0x4_0000 == r * 0x4_0000 + 0x4_0000;
      assert q * 0x1000 == r * 0x1000 + 0x1000;
      assert q * 0x40 == r * 0x40 + 0x40;
    }
  }

  lemma BlocksBelow(x: uint32)
    ensures 0 <= Block(x, 0) < 0x100_0000 && 0 <= Block(x, 1) < 0x4_0000
    ensures 0 <= Block(x, 2) < 0x1000 && 0 <= Block(x, 3) < 0x40
  {
    Blocks(x);
  }

  lemma BlocksApart(x: uint32, y: uint32)
    requires y - x > MAX_DELAY
    ensures forall l :: 0 <= l < 4 ==> Block(x, l) < Block(y, l)
  {
    Blocks(x);
    Blocks(y);
    assert Block(x, 3) < Block(y, 3);
    assert Block(x, 2) < Block(y, 2);
    assert Block(x, 1) < Block(y, 1);
  }

  /** The 32-bit clock cannot be told from an unbounded one while delays stay below 2^31. */
  lemma WrapKeepsSlot(due: int, now: int)
    requires 0 <= now <= due <= now + MAX_DELAY
    ensures SlotAt(due % WRAP, now % WRAP) == SlotAt(due, now)
  {
    hide Block;
    WrapKeepsEquality(due, now);
    WrapKeepsDigits(due);
  }

  /** The list that timer_shift takes apart when the clock reaches n, a multiple of 256. */
  function ShiftSource(n: int): (s: Slot)
    ensures s.InRange() && s.Far?
  {
    if Block(n, 0) % 64 != 0 then Far(0, Block(n, 0) % 64)
    else if Block(n, 1) % 64 != 0 then Far(1, Block(n, 1) % 64)
    else if Block(n, 2) % 64 != 0 then Far(2, Block(n, 2) % 64)
    else Far(3, Block(n, 3) % 64)
  }

  /** Advancing the clock from n carries out of the digit below `level + 1`. */
  predicate CarriesFrom(n: int, level: int)
    requires 0 <= level < 4
  {
    Block(n + 1, level) == Block(n, level) + 1 && Block(n + 1, level) % 64 == 0
  }

  lemma BlocksStep(now: int, due: int)
    requires 0 <= now < due <= now + MAX_DELAY
    ensures Block(now + 1, 0) == Block(now, 0) + if (now + 1) % 0x100 == 0 then 1 else 0
    ensures forall l :: 0 < l < 4 ==> 
              Block(now + 1, l) == Block(now, l) + (if CarriesFrom(now, l - 1) then 1 else 0)
    ensures forall l :: 0 <= l < 4 ==> Block(now + 1, l) <= Block(due, l)
    ensures Block(due, 3) <= Block(now + 1, 3) + 32
  {
    Blocks(now); Blocks(now + 1); Blocks(due);
  }

  /**
    One tick changes the list of an event only if that list is the one timer_shift takes
    apart; and when it does take one apart, every lower list is empty, because no event
    can still be waiting in the block of ticks that has just ended.
   */
  lemma Carry(due: int, now: int)
    requires 0 <= now < due <= now + MAX_DELAY
    ensures (now + 1) % 0x100 != 0 ==> SlotAt(due, now + 1) == SlotAt(due, now)
    ensures (now + 1) % 0x100 == 0 ==>
              var src := ShiftSource(now + 1);
              if SlotAt(due, now) == src then SlotAt(due, now + 1).Level() < src.level
              else SlotAt(due, now + 1) == SlotAt(due, now) && SlotAt(due, now).Level() >= src.level
  {
    BlocksStep(now, due);
    Blocks(now); Blocks(now + 1); Blocks(due);
  }

  // ---------------------------------------------------------------------------
  // The lists

  lemma RefiledPush(nodes: seq<Node>, x: Node, s: Slot, time: uint32)
    ensures Refiled(nodes + [x], s, time)
         == Refiled(nodes, s, time) + if SlotAt(x.expire, time) == s then [x] else []
  {
    assert (nodes + [x])[..|nodes|] == nodes;
  }

  lemma FiledPush(pending: seq<Entry>, x: Entry, s: Slot, now: int)
    ensures Filed(pending + [x], s, now)
         == Filed(pending, s, now) + if SlotAt(x.due, now) == s then [Node(x.due % WRAP, x.event)] else []
  {
    assert (pending + [x])[..|pending|] == pending;
  }

  /** A tick whose low digit does not wrap leaves every list as it is. */
  lemma {:induction false} QuietTick(pending: seq<Entry>, s: Slot, now: nat)
    requires DueWithin(pending, now + 1, now) && (now + 1) % 0x100 != 0
    ensures Filed(pending, s, now + 1) == Filed(pending, s, now)
  {
    if pending != [] {
      var init, last := pending[..|pending| - 1], pending[|pending| - 1];
      QuietTick(init, s, now);
      Carry(last.due, now);
    }
  }

  /** The nodes that timer_shift puts into list s when the clock leaves `now`. */
  function Moved(pending: seq<Entry>, s: Slot, now: nat): seq<Node> {
    Refiled(Filed(pending, ShiftSource(now + 1), now), s, (now + 1) % WRAP)
  }

  lemma MovedPush(pending: seq<Entry>, x: Entry, s: Slot, now: nat)
    requires now < x.due <= now + MAX_DELAY
    ensures Moved(pending + [x], s, now) == Moved(pending, s, now) +
              if SlotAt(x.due, now) == ShiftSource(now + 1) && SlotAt(x.due, now + 1) == s
              then [Node(x.due % WRAP, x.event)] else []
  {
    hide SlotAt, ShiftSource, Refiled, Filed;
    var src := ShiftSource(now + 1);
    var list, node := Filed(pending, src, now), Node(x.due % WRAP, x.event);
    FiledPush(pending, x, src, now);
    WrapKeepsSlot(x.due, now + 1);
    if SlotAt(x.due, now) == src {
      RefiledPush(list, node, s, (now + 1) % WRAP);
    } else {
      assert list + [] == list;
    }
  }

  /** Below the level taken apart every list was empty, and gets what is moved into it. */
  lemma {:induction false} LowListsRefilled(pending: seq<Entry>, s: Slot, now: nat)
    requires DueWithin(pending, now + 1, now) && (now + 1) % 0x100 == 0
    requires s.Level() < ShiftSource(now + 1).level
    ensures Filed(pending, s, now) == []
    ensures Filed(pending, s, now + 1) == Moved(pending, s, now)
  {
    if pending != [] {
      var init, last := pending[..|pending| - 1], pending[|pending| - 1];
      LowListsRefilled(init, s, now);
      Carry(last.due, now);
      MovedPush(init, last, s, now);
      assert pending == init + [last];
      hide SlotAt, ShiftSource, Moved;
    }
  }

  /** From that level up nothing is moved in, and every list but the source stays. */
  lemma {:induction false} HighListsKept(pending: seq<Entry>, s: Slot, now: nat)
    requires DueWithin(pending, now + 1, now) && (now + 1) % 0x100 == 0
    requires s.Level() >= ShiftSource(now + 1).level
    ensures Moved(pending, s, now) == []
    ensures Filed(pending, s, now + 1) == if s == ShiftSource(now + 1) then [] else Filed(pending, s, now)
  {
    if pending != [] {
      hide SlotAt, ShiftSource, Moved;
      var init, last := pending[..|pending| - 1], pending[|pending| - 1];
      assert pending == init + [last] && last in pending;
      HighListsKept(init, s, now);
      Carry(last.due, now);
      MovedPush(init, last, s, now);
    }
  }

  /**
    A tick that wraps the low digit: re-adding the nodes of one list, in order, rebuilds
    all lists. No list is both refilled and still holding older nodes, so order is kept.
   */
  lemma Redistribute(pending: seq<Entry>, s: Slot, now: nat)
    requires DueWithin(pending, now + 1, now) && (now + 1) % 0x100 == 0
    ensures Filed(pending, s, now) == [] || Moved(pending, s, now) == []
    ensures Filed(pending, s, now + 1)
         == (if s == ShiftSource(now + 1) then [] else Filed(pending, s, now)) + Moved(pending, s, now)
  {
    if s.Level() < ShiftSource(now + 1).level {
      LowListsRefilled(pending, s, now);
    } else {
      HighListsKept(pending, s, now);
    }
  }

  /** The near list of the present tick holds exactly the events due now. */
  lemma {:induction false} NearListIsDue(pending: seq<Entry>, now: nat, s: Slot)
    requires DueWithin(pending, now, now)
    ensures Events(Filed(pending, Near(now % 0x100), now)) == EventsAt(pending, now)
    ensures Filed(Without(pending, now), s, now)
         == if s == Near(now % 0x100) then [] else Filed(pending, s, now)
  {
    if pending != [] {
      var init, last := pending[..|pending| - 1], pending[|pending| - 1];
      var near := Filed(init, Near(now % 0x100), now);
      hide SlotAt;
      NearListIsDue(init, now, s);
      SlotOfNow(last.due, now);
      if last.due != now {
        FiledPush(Without(init, now), last, s, now);
        assert near + [] == near;
      } else {
        assert (near + [Node(last.due % WRAP, last.event)])[..|near|] == near;
        assert Without(pending, now) == Without(init, now);
      }
    }
  }

  lemma SlotOfNow(due: nat, now: nat)
    requires now <= due
    ensures SlotAt(due, now) == Near(now % 0x100) <==> due == now
  {
    Blocks(due);
  }

  function Events(nodes: seq<Node>): seq<Event> {
    if nodes == [] then [] else Events(nodes[..|nodes| - 1]) + [nodes[|nodes| - 1].event]
  }

  // ---------------------------------------------------------------------------
  // The wheel itself

  /** struct timer. */
  class Wheel {
    const near: array<seq<Node>>
    const t: array2<seq<Node>>
    var time: uint32
    var current: nat        // centiseconds since the wheel was created
    var currentPoint: nat   // the monotonic clock at the last update

    ghost var now: nat              // the clock, counted without wrapping
    ghost var pending: seq<Entry>   // what a calendar would hold

    ghost predicate Shape()
    {
      near.Length == 256 && t.Length0 == 4 && t.Length1 == 64
    }

    ghost function ListAt(s: Slot): seq<Node>
      requires Shape() && s.InRange()
      reads near, t
    {
      match s
      case Near(i) => near[i]
      case Far(l, i) => t[l, i]
    }

    /** Each list is exactly the part of `pending` filed there; everything is due from `from` on. */
    ghost predicate WheelFrom(from: int)
      reads this, near, t
    {
      && Shape()
      && time == now % WRAP
      && DueWithin(pending, from, now)
      && forall s: Slot | s.InRange() :: ListAt(s) == Filed(pending, s, now)
    }

    ghost predicate Valid()
      reads this, near, t
    {
      WheelFrom(now + 1)
    }

    ghost function Abs(): Calendar
      reads this
    {
      Calendar(now, pending)
    }

    /** skynet_timer_init; the two clocks are what systime and gettime give. */
    constructor (current0: nat, point: nat)
      ensures Valid() && fresh(near) && fresh(t)
      ensures Abs() == Calendar(0, []) && current == current0 && currentPoint == point
    {
      near := new seq<Node>[256](_ => []);
      t := new seq<Node>[4, 64]((_, _) => []);
      time := 0;
      current := current0;
      currentPoint := point;
      now := 0;
      pending := [];
    }

    /** add_node: append a node to the list its expiry selects at the current time. */
    method AddNode(node: Node)
      requires Shape()
      modifies near, t
      ensures forall s: Slot | s.InRange() ::
                ListAt(s) == old(ListAt(s)) + if SlotAt(node.expire, time) == s then [node] else []
    {
      var expire, now32 := node.expire, time;
      MaskComparesBlocks(expire, now32);
      if OrMask(expire, 0x100) == OrMask(now32, 0x100) {
        near[expire % 0x100] := near[expire % 0x100] + [node];
      } else {
        var i, mask := 0, 0x4000;
        while i < 3
          invariant 0 <= i <= 3
          invariant i < 3 ==> mask == Span(i + 1)
          invariant forall l :: 0 <= l <= i ==> Block(expire, l) != Block(now32, l)
        {
          if OrMask(expire, mask) == OrMask(now32, mask) {
            break;
          }
          mask := mask * 64;
          i := i + 1;
        }
        BlockIsQuotient(expire, i);
        var idx := expire / Span(i) % 64;
        t[i, idx] := t[i, idx] + [node];
      }
    }

    /** timer_add, under the spin lock. */
    method TimerAdd(event: Event, delay: nat, ghost from: int)
      requires WheelFrom(from) && from <= now + 1 && 1 <= delay <= MAX_DELAY
      modifies this`pending, near, t
      ensures WheelFrom(from) && Abs() == Add(old(Abs()), delay, event)
    {
      hide SlotAt, Filed;
      ClockAdd(now, delay);
      AddNode(Node((time + delay) % WRAP, event));
      WrapKeepsSlot(now + delay, now);
      ghost var before := pending;
      pending := pending + [Entry(now + delay, event)];
      forall s: Slot | s.InRange()
        ensures ListAt(s) == Filed(pending, s, now)
      {
        FiledPush(before, Entry(now + delay, event), s, now);
      }
    }

    /** move_list: take one far list and add its nodes again, in order. */
    method MoveList(level: int, idx: int)
      requires Shape() && Far(level, idx).InRange()
      modifies near, t
      ensures forall s: Slot | s.InRange() ::
                ListAt(s) == (if s == Far(level, idx) then [] else old(ListAt(s)))
                             + Refiled(old(ListAt(Far(level, idx))), s, time)
    {
      hide SlotAt, Refiled;
      RefiledNone(time);
      var current := t[level, idx];
      t[level, idx] := [];
      var k := 0;
      while k < |current|
        invariant 0 <= k <= |current|
        invariant forall s: Slot | s.InRange() ::
                    ListAt(s) == (if s == Far(level, idx) then [] else old(ListAt(s)))
                                 + Refiled(current[..k], s, time)
      {
        AddNode(current[k]);
        assert current[..k + 1] == current[..k] + [current[k]];
        forall s: Slot | s.InRange()
          ensures ListAt(s) == (if s == Far(level, idx) then [] else old(ListAt(s)))
                               + Refiled(current[..k + 1], s, time)
        {
          RefiledPush(current[..k], current[k], s, time);
          ConcatAssociates(if s == Far(level, idx) then [] else old(ListAt(s)), Refiled(current[..k], s, time),
                           if SlotAt(current[k].expire, time) == s then [current[k]] else []);
        }
        k := k + 1;
      }
      assert current[..k] == current;
    }

    /** timer_shift: advance the clock and take apart the list its carry uncovers. */
    method TimerShift()
      requires Valid()
      modifies this`time, this`now, near, t
      ensures now == old(now) + 1 && WheelFrom(now)
    {
      hide SlotAt, Filed, Refiled, Block, ShiftSource;
      ghost var was := now;
      ClockAdd(now, 1);
      time := (time + 1) % WRAP;
      now := now + 1;
      var ct := time;
      WrapKeepsDigits(now);
      if ct == 0 {
        ZeroTime();
        MoveList(3, 0);
        forall s: Slot | s.InRange() ensures ListAt(s) == Filed(pending, s, now) {
          Redistribute(pending, s, was);
        }
      } else {
        var mask, rest, i := 0x100, ct / 0x100, 0;
        BlockStart(ct);
        while ct % mask == 0
          invariant 0 <= i < 4 && mask == Span(i) && rest == Block(ct, i)
          invariant forall l :: 0 <= l < i ==> Block(ct, l) % 64 == 0
          invariant i > 0 ==> ct % 0x100 == 0 && ct % mask == 0
          invariant forall s: Slot | s.InRange() :: ListAt(s) == Filed(pending, s, was)
          modifies near, t
          decreases 4 - i
        {
          var idx := rest % 64;
          if idx != 0 {
            SourceOf(now, ct, i);
            MoveList(i, idx);
            forall s: Slot | s.InRange() ensures ListAt(s) == Filed(pending, s, now) {
              Redistribute(pending, s, was);
            }
            break;
          }
          ZeroDigit(ct, i);
          mask := mask * 64;
          rest := rest / 64;
          i := i + 1;
        }
        if ct % 0x100 != 0 {
          forall s: Slot | s.InRange() ensures ListAt(s) == Filed(pending, s, now) {
            QuietTick(pending, s, was);
          }
        }
      }
    }

    /** What other threads do through timer_add while the lock is released. */
    method AddWindow(window: seq<Request>)
      requires Valid()
      requires forall r :: r in window ==> 1 <= r.delay <= MAX_DELAY
      modifies this`pending, near, t
      ensures Valid() && Abs() == AddAll(old(Abs()), window)
    {
      var k := 0;
      while k < |window|
        invariant 0 <= k <= |window|
        invariant Valid() && Abs() == AddAll(old(Abs()), window[..k])
      {
        TimerAdd(window[k].event, window[k].delay, now + 1);
        assert window[..k + 1][..k] == window[..k];
        k := k + 1;
      }
      assert window[..k] == window;
    }

    /**
      timer_execute: dispatch the list of the present tick. The lock is released while it
      is dispatched; `window` is what other threads add through timer_add meanwhile.
     */
    method TimerExecute(window: seq<Request>) returns (fired: seq<Event>)
      requires WheelFrom(now)
      requires forall r :: r in window ==> 1 <= r.delay <= MAX_DELAY
      modifies this`pending, near, t
      ensures Valid() && fired == EventsAt(old(pending), now)
      ensures Abs() == var rest := Calendar(now, Without(old(pending), now));
                       if fired == [] then rest else AddAll(rest, window)
    {
      hide SlotAt, Filed, EventsAt, Without, Events;
      var idx := time % 0x100;
      fired := [];
      NearListNow();
      while near[idx] != []
        invariant idx == now % 0x100
        invariant if fired == [] then WheelFrom(now) && pending == old(pending)
                  else Valid() && fired == EventsAt(old(pending), now)
        invariant near[idx] == [] ==>
                    Abs() == var rest := Calendar(now, Without(old(pending), now));
                             if fired == [] then rest else AddAll(rest, window)
        decreases |near[idx]|
      {
        NearListNow();
        if fired != [] { NearEmpty(); }
        var current := near[idx];
        near[idx] := [];
        TakeDue();
        fired := fired + Events(current);
        AddWindow(window);
        NearEmpty();
      }
      NearListNow();
    }

    /** The near list of the present tick is what is due now. */
    lemma NearListNow()
      requires WheelFrom(now)
      ensures Events(near[now % 0x100]) == EventsAt(pending, now)
      ensures near[now % 0x100] == [] <==> EventsAt(pending, now) == []
      ensures near[now % 0x100] == [] ==> Without(pending, now) == pending && Valid()
    {
      WrapKeepsDigits(now);
      NearListIsDue(pending, now, Near(now % 0x100));
      assert ListAt(Near(now % 0x100)) == Filed(pending, Near(now % 0x100), now);
      EventsNonEmpty(near[now % 0x100]);
      if near[now % 0x100] == [] {
        NothingDue(pending, now);
      }
    }

    /** With nothing due now, the near list of the present tick is empty. */
    lemma NearEmpty()
      requires Valid()
      ensures near[now % 0x100] == []
    {
      EventsAtNone(pending, now);
      NearListIsDue(pending, now, Near(now % 0x100));
      assert ListAt(Near(now % 0x100)) == Filed(pending, Near(now % 0x100), now);
    }

    /** Once the near list of the present tick is cleared, the rest of the wheel is the rest of the calendar. */
    ghost method TakeDue()
      requires Shape() && time == now % WRAP && DueWithin(pending, now, now) && near[now % 0x100] == []
      requires forall s: Slot | s.InRange() && s != Near(now % 0x100) :: ListAt(s) == Filed(pending, s, now)
      modifies this`pending
      ensures Valid() && pending == Without(old(pending), now)
    {
      hide SlotAt, Filed, Without, EventsAt;
      ghost var before := pending;
      pending := Without(pending, now);
      forall s: Slot | s.InRange() ensures ListAt(s) == Filed(pending, s, now) {
        NearListIsDue(before, now, s);
      }
      WithoutSpec(before, now, now);
    }

    /** timer_update: one tick. Only its second timer_execute can dispatch anything. */
    method TimerUpdate(window: seq<Request>) returns (fired: seq<Event>)
      requires Valid()
      requires forall r :: r in window ==> 1 <= r.delay <= MAX_DELAY
      modifies this`time, this`now, this`pending, near, t
      ensures Valid() && fired == Fired(old(Abs()))
      ensures Abs() == if fired == [] then Tick(old(Abs())) else AddAll(Tick(old(Abs())), window)
    {
      hide SlotAt, Filed, EventsAt, Without;
      var early := TimerExecute([]);
      EventsAtNone(old(pending), now);
      TimerShift();
      fired := TimerExecute(window);
    }

    /** One timer_update, and what other threads add before the next one. */
    method UpdateThenAdds(window: seq<Request>, between: seq<Request>) returns (events: seq<Event>)
      requires Valid()
      requires forall r :: r in window || r in between ==> 1 <= r.delay <= MAX_DELAY
      modifies this`time, this`now, this`pending, near, t
      ensures Valid()
      ensures var ops := OpsOfUpdate(events, window, between);
              Abs() == Run(old(Abs()), ops) && [events] == Output(old(Abs()), ops)
    {
      hide WheelFrom, Run, Output, Updates;
      ghost var c := Abs();
      events := TimerUpdate(window);
      AddWindow(between);
      TickThenAdds(c, if events == [] then [] else window, between);
    }

    /**
      skynet_updatetime: one timer_update per centisecond since the last call, none when the
      clock went back. windows(i) is what other threads add while update i dispatches, and
      between(i) what they add after it and before the next one.

      The k-th update dispatches what is due then of the events that were pending and of those
      that were added meanwhile, and the wheel is left as these calls one after the other leave it.
     */
    method UpdateTime(cp: nat, windows: nat -> seq<Request>, between: nat -> seq<Request>)
      returns (fired: seq<seq<Event>>)
      requires Valid()
      requires forall i, r :: r in windows(i) || r in between(i) ==> 1 <= r.delay <= MAX_DELAY
      modifies this, near, t
      ensures Valid() && currentPoint == cp
      ensures |fired| == if cp < old(currentPoint) then 0 else (cp - old(currentPoint)) % WRAP
      ensures current == old(current) + |fired|
      ensures Abs() == Run(old(Abs()), OpsOf(fired, windows, between))
      ensures forall k :: 0 <= k < |fired| ==>
                fired[k] == EventsAt(old(pending) + Scheduled(old(now), fired, windows, between), old(now) + 1 + k)
    {
      hide Run, Output, Updates, EventsAt, Without, Filed, SlotAt, OpsOfUpdate, Scheduled;
      RunNone(Abs());
      fired := [];
      var from := currentPoint;
      currentPoint := cp;
      if cp >= from {
        var diff := (cp - from) % WRAP;
        current := current + diff;
        var i := 0;
        while i < diff
          invariant 0 <= i <= diff && |fired| == i
          invariant Valid() && currentPoint == cp && current == old(current) + diff
          invariant Abs() == Run(old(Abs()), OpsOf(fired, windows, between))
          invariant fired == Output(old(Abs()), OpsOf(fired, windows, between))
        {
          var events := UpdateThenAdds(windows(i), between(i));
          RunConcat(old(Abs()), OpsOf(fired, windows, between), OpsOfUpdate(events, windows(i), between(i)));
          assert (fired + [events])[..i] == fired;
          fired := fired + [events];
          i := i + 1;
        }
      }
      DispatchedOnTime(old(Abs()), fired, windows, between);
    }

    /** timer_add or timer_update, whatever comes next. */
    method Call(op: Op) returns (fired: seq<seq<Event>>)
      requires Valid() && (op.AddOp? ==> 1 <= op.delay <= MAX_DELAY)
      modifies this`time, this`now, this`pending, near, t
      ensures Valid() && Abs() == Run(old(Abs()), [op]) && fired == Output(old(Abs()), [op])
    {
      hide SlotAt, Filed, EventsAt, Without;
      RunOne(Abs(), op);
      match op
      case AddOp(delay, event) =>
        TimerAdd(event, delay, now + 1);
        fired := [];
      case UpdateOp =>
        var events := TimerUpdate([]);
        fired := [events];
    }

    /** skynet_timeout: a positive delay goes through the wheel, any other is answered at once. */
    method Timeout(event: Event, delay: int) returns (immediate: bool)
      requires Valid() && delay <= MAX_DELAY
      modifies this`pending, near, t
      ensures Valid() && immediate == (delay <= 0)
      ensures Abs() == if delay <= 0 then old(Abs()) else Add(old(Abs()), delay, event)
    {
      immediate := delay <= 0;
      if !immediate {
        TimerAdd(event, delay, now + 1);
      }
    }
  }

  lemma BlockStart(x: int)
    ensures Block(x, 0) == x / 0x100 && forall l :: 0 < l < 4 ==> Block(x, l) == Block(x, l - 1) / 64
  {}

  lemma SourceOf(n: nat, ct: uint32, level: int)
    requires ct == n % 0x1_0000_0000 && 0 <= level < 4
    requires forall l :: 0 <= l < level ==> Block(ct, l) % 64 == 0
    requires Block(ct, level) % 64 != 0
    ensures ShiftSource(n) == Far(level, Block(ct, level) % 64)
  {
    WrapKeepsDigits(n);
  }

  lemma ClockAdd(now: nat, d: nat)
    ensures (now % WRAP + d) % WRAP == (now + d) % WRAP
  {
    var q, r := now / 0x1_0000_0000, now % 0x1_0000_0000;
    assert now + d == q * 0x1_0000_0000 + (r + d);
  }

  lemma RefiledNone(time: uint32)
    ensures forall s: Slot :: Refiled([], s, time) == []
  {}

  lemma ZeroTime()
    ensures forall n: int :: n % 0x1_0000_0000 == 0 ==> n % 0x100 == 0 && ShiftSource(n) == Far(3, 0)
  {
    forall n: int | n % 0x1_0000_0000 == 0
      ensures n % 0x100 == 0 && ShiftSource(n) == Far(3, 0)
    {
      WrapKeepsDigits(n);
    }
  }

  lemma ZeroDigit(x: uint32, level: int)
    requires 0 <= level < 4 && x != 0
    requires x % Span(level) == 0 && Block(x, level) % 64 == 0
    ensures level < 3 && x % Span(level + 1) == 0 && x % 0x100 == 0
  {
    BlockIsQuotient(x, level);
    var q := Block(x, level);
    hide Block;
    DivisibleBy256(q);
    Widen(q / 64);
  }

  lemma DivisibleBy256(q: int)
    ensures 0x100 * q % 0x100 == 0 && 0x4000 * q % 0x100 == 0 && 0x10_0000 * q % 0x100 == 0
  {
    assert 0x4000 * q == 0x100 * (64 * q) && 0x10_0000 * q == 0x100 * (0x1000 * q);
  }

  lemma Widen(r: int)
    ensures 0x100 * (64 * r) % 0x4000 == 0
    ensures 0x4000 * (64 * r) % 0x10_0000 == 0
    ensures 0x10_0000 * (64 * r) % 0x400_0000 == 0
  {}

  lemma EventsNonEmpty(nodes: seq<Node>)
    ensures Events(nodes) == [] <==> nodes == []
  {}

  lemma NothingDue(p: seq<Entry>, tick: nat)
    requires EventsAt(p, tick) == []
    ensures Without(p, tick) == p && forall e :: e in p ==> e.due != tick
  {
    hide EventsAt, Without;
    forall e | e in p ensures e.due != tick {
      InEventsAt(p, e.due, e.event);
    }
    EventsAtNone(p, tick);
  }

  /** Comparing two times after setting their low bits compares the blocks they fall in. */
  lemma MaskComparesBlocks(x: uint32, y: uint32)
    ensures forall l :: 0 <= l < 4 ==> (OrMask(x, Span(l)) == OrMask(y, Span(l)) <==> Block(x, l) == Block(y, l))
  {
    forall l | 0 <= l < 4
      ensures OrMask(x, Span(l)) == OrMask(y, Span(l)) <==> Block(x, l) == Block(y, l)
    {
      BlockIsQuotient(x, l);
      BlockIsQuotient(y, l);
    }
  }

  /** An update that dispatches `events`, the adds while it does, and those after it. */
  function OpsOfUpdate(events: seq<Event>, window: seq<Request>, between: seq<Request>): seq<Op> {
    [UpdateOp] + AddOps(if events == [] then [] else window) + AddOps(between)
  }

  /** All calls made while updates dispatch these events. */
  function OpsOf(fired: seq<seq<Event>>, windows: nat -> seq<Request>, between: nat -> seq<Request>): seq<Op> {
    if fired == [] then []
    else
      var i := |fired| - 1;
      OpsOf(fired[..i], windows, between) + OpsOfUpdate(fired[i], windows(i), between(i))
  }

  /** What requests made at one time are due. */
  function Due(now: nat, requests: seq<Request>): seq<Entry> {
    seq(|requests|, i requires 0 <= i < |requests| => Entry(now + requests[i].delay, requests[i].event))
  }

  /** The events those calls add: update i makes the clock now + 1 + i. */
  function Scheduled(now: nat, fired: seq<seq<Event>>, windows: nat -> seq<Request>, between: nat -> seq<Request>)
    : seq<Entry>
  {
    if fired == [] then []
    else
      var i := |fired| - 1;
      Scheduled(now, fired[..i], windows, between)
      + Due(now + 1 + i, if fired[i] == [] then [] else windows(i)) + Due(now + 1 + i, between(i))
  }

  lemma {:induction false} AddsScheduled(now: nat, requests: seq<Request>)
    ensures Schedule(now, AddOps(requests)) == Due(now, requests) && Updates(AddOps(requests)) == 0
  {
    if requests != [] {
      var init, last := requests[..|requests| - 1], requests[|requests| - 1];
      AddsScheduled(now, init);
      ScheduleConcat(now, AddOps(init), [AddOp(last.delay, last.event)]);
      assert [AddOp(last.delay, last.event)][1..] == [];
      assert Schedule(now, [AddOp(last.delay, last.event)]) == [Entry(now + last.delay, last.event)];
      assert Due(now, requests) == Due(now, init) + [Entry(now + last.delay, last.event)];
    }
  }

  lemma UpdateScheduled(now: nat, events: seq<Event>, window: seq<Request>, between: seq<Request>)
    ensures Schedule(now, OpsOfUpdate(events, window, between))
         == Due(now + 1, if events == [] then [] else window) + Due(now + 1, between)
    ensures Updates(OpsOfUpdate(events, window, between)) == 1
  {
    hide AddOps, Due;
    var during := if events == [] then [] else window;
    AddsScheduled(now + 1, during);
    AddsScheduled(now + 1, between);
    ScheduleConcat(now, [UpdateOp] + AddOps(during), AddOps(between));
    ScheduleConcat(now, [UpdateOp], AddOps(during));
    assert [UpdateOp][1..] == [];
    assert Schedule(now, [UpdateOp]) == [] && Updates([UpdateOp]) == 1;
  }

  lemma {:induction false} CallsScheduled(now: nat, fired: seq<seq<Event>>, windows: nat -> seq<Request>,
                                          between: nat -> seq<Request>)
    ensures Schedule(now, OpsOf(fired, windows, between)) == Scheduled(now, fired, windows, between)
    ensures Updates(OpsOf(fired, windows, between)) == |fired|
  {
    hide OpsOfUpdate, Due, Schedule, Updates, OpsOf, Scheduled;
    LastUpdate(now, fired, windows, between);
    if fired != [] {
      var i := |fired| - 1;
      var during := if fired[i] == [] then [] else windows(i);
      CallsScheduled(now, fired[..i], windows, between);
      UpdateScheduled(now + i, fired[i], windows(i), between(i));
      ScheduleConcat(now, OpsOf(fired[..i], windows, between), OpsOfUpdate(fired[i], windows(i), between(i)));
      ConcatAssociates(Scheduled(now, fired[..i], windows, between), Due(now + 1 + i, during),
                       Due(now + 1 + i, between(i)));
    }
  }

  lemma LastUpdate(now: nat, fired: seq<seq<Event>>, windows: nat -> seq<Request>, between: nat -> seq<Request>)
    ensures fired == [] ==>
              Schedule(now, OpsOf(fired, windows, between)) == [] == Scheduled(now, fired, windows, between)
              && Updates(OpsOf(fired, windows, between)) == 0
    ensures fired != [] ==>
              var i := |fired| - 1;
              && OpsOf(fired, windows, between)
              == OpsOf(fired[..i], windows, between) + OpsOfUpdate(fired[i], windows(i), between(i))
              && Scheduled(now, fired, windows, between)
              == Scheduled(now, fired[..i], windows, between)
                 + Due(now + 1 + i, if fired[i] == [] then [] else windows(i)) + Due(now + 1 + i, between(i))
  {}

  lemma {:induction false} DelaysOf(fired: seq<seq<Event>>, windows: nat -> seq<Request>, between: nat -> seq<Request>)
    requires forall i, r :: r in windows(i) || r in between(i) ==> r.delay > 0
    ensures Delays(OpsOf(fired, windows, between))
  {
    if fired != [] {
      var i := |fired| - 1;
      DelaysOf(fired[..i], windows, between);
      RunAdds(Calendar(0, []), windows(i));
      RunAdds(Calendar(0, []), between(i));
      forall op | op in OpsOf(fired, windows, between) && op.AddOp? ensures op.delay > 0 {
        if op !in OpsOf(fired[..i], windows, between) {
          assert Request(op.delay, op.event) in windows(i) || Request(op.delay, op.event) in between(i);
        }
      }
    }
  }

  lemma DispatchedOnTime(c: Calendar, fired: seq<seq<Event>>, windows: nat -> seq<Request>, between: nat -> seq<Request>)
    requires fired == Output(c, OpsOf(fired, windows, between)) && AllAfter(c.pending, c.now)
    requires forall i, r :: r in windows(i) || r in between(i) ==> r.delay > 0
    ensures forall k :: 0 <= k < |fired| ==>
              fired[k] == EventsAt(c.pending + Scheduled(c.now, fired, windows, between), c.now + 1 + k)
  {
    hide EventsAt, Output, OpsOf, Schedule, Scheduled;
    CallsScheduled(c.now, fired, windows, between);
    DelaysOf(fired, windows, between);
    forall k | 0 <= k < |fired|
      ensures fired[k] == EventsAt(c.pending + Scheduled(c.now, fired, windows, between), c.now + 1 + k)
    {
      RunDispatchesOnTime(c, OpsOf(fired, windows, between), k);
    }
  }

  /** One update and the adds up to the next one, as a run of calendar operations. */
  lemma TickThenAdds(c: Calendar, window: seq<Request>, between: seq<Request>)
    ensures var ops := [UpdateOp] + AddOps(window) + AddOps(between);
            && Run(c, ops) == AddAll(AddAll(Tick(c), window), between)
            && Output(c, ops) == [Fired(c)]
  {
    hide EventsAt, Without;
    RunOne(c, UpdateOp);
    RunAdds(Tick(c), window);
    RunAdds(AddAll(Tick(c), window), between);
    RunConcat(c, [UpdateOp], AddOps(window));
    RunConcat(c, [UpdateOp] + AddOps(window), AddOps(between));
  }

  /**
    Any interleaving of calls of timer_add and timer_update on a new wheel: update k + 1
    dispatches exactly the events due at tick k + 1, in the order they were added.
   */
  method RunCalls(ops: seq<Op>) returns (fired: seq<seq<Event>>)
    requires forall op :: op in ops && op.AddOp? ==> 1 <= op.delay <= MAX_DELAY
    ensures |fired| == Updates(ops)
    ensures forall k: nat :: k < Updates(ops) ==> fired[k] == EventsAt(Schedule(0, ops), k + 1)
  {
    hide EventsAt, Without, Filed, SlotAt, Schedule, Run, Output, Updates;
    var wheel := new Wheel(0, 0);
    var start := Calendar(0, []);
    fired := [];
    var i := 0;
    NoCalls(start, ops);
    while i < |ops|
      invariant 0 <= i <= |ops| && fresh(wheel) && fresh(wheel.near) && fresh(wheel.t) && wheel.Valid()
      invariant wheel.Abs() == Run(start, ops[..i]) && fired == Output(start, ops[..i])
    {
      var events := wheel.Call(ops[i]);
      RunConcat(start, ops[..i], [ops[i]]);
      assert ops[..i] + [ops[i]] == ops[..i + 1];
      fired := fired + events;
      i := i + 1;
    }
    assert ops[..i] == ops;
    OutputLength(start, ops);
    forall k: nat | k < Updates(ops) ensures fired[k] == EventsAt(Schedule(0, ops), k + 1) {
      RunDispatchesOnTime(start, ops, k);
      assert [] + Schedule(0, ops) == Schedule(0, ops);
    }
  }

  lemma NoCalls(c: Calendar, ops: seq<Op>)
    ensures Run(c, ops[..0]) == c && Output(c, ops[..0]) == []
  {}
}
