/**
  The handle table of skynet_handle.c: contexts in a slot array whose size is a power of two,
  and names in a sorted array. Each method is one section under the write or the read lock.
  An entry carries the handle of its context, stored when it is registered.
 */
module HandleTable {

  import opened Basics

  type Name = seq<char>

  const HANDLE_MASK := 0xff_ffff
  const DEFAULT_SLOT_SIZE := 4
  const MAX_SLOT_SIZE := 0x4000_0000

  datatype Entry = Free | Live(handle: uint32, ctx: nat)

  datatype Named = Named(name: Name, handle: uint32)

  /** What becomes of a name: added, refused as taken, or the assertion on the size of the array fails. */
  datatype Naming = Added | Taken | TooMany

  // ---------------------------------------------------------------------------
  // Slots

  /** The sizes the table goes through: the powers of two from 4 to 2^24. */
  predicate SlotSize(n: int) {
    n == 0x4 || n == 0x8 || n == 0x10 || n == 0x20 || n == 0x40 || n == 0x80 || n == 0x100 || n == 0x200
    || n == 0x400 || n == 0x800 || n == 0x1000 || n == 0x2000 || n == 0x4000 || n == 0x8000 || n == 0x10000 || n == 0x20000
    || n == 0x40000 || n == 0x80000 || n == 0x100000 || n == 0x200000 || n == 0x400000 || n == 0x800000 || n == 0x1000000
  }

  lemma SizeDivides(n: int)
    requires SlotSize(n)
    ensures 4 <= n <= 0x100_0000 && 0x100_0000 % n == 0
  {}

  /** handle & (slot_size - 1) */
  function SlotOf(handle: nat, size: nat): (s: nat)
    requires size > 0
    ensures s < size
  {
    handle % size
  }

  lemma LowBitsDecide(low: nat, harbor: nat, size: nat)
    requires SlotSize(size)
    ensures SlotOf(low + harbor * 0x100_0000, size) == SlotOf(low, size)
  {
    SizeDivides(size);
    hide SlotSize;
    var q := 0x100_0000 / size;
    assert 0x100_0000 == size * q;
    assert low + harbor * 0x100_0000 == low + size * (q * harbor);
    ModShift(low, size, q * harbor);
  }

  lemma ModShift(x: int, n: nat, k: int)
    requires n > 0
    ensures (x + n * k) % n == x % n
  {
    assert x == n * (x / n) + x % n;
    assert x + n * k == n * (x / n + k) + x % n;
    Remainder(x + n * k, n, x / n + k, x % n);
  }

  /** Handles in different slots stay in different slots when the table doubles. */
  lemma DoublingSeparates(h1: nat, h2: nat, size: nat)
    requires size > 0 && SlotOf(h1, 2 * size) == SlotOf(h2, 2 * size)
    ensures SlotOf(h1, size) == SlotOf(h2, size)
  {
    HalfOf(h1, size);
    HalfOf(h2, size);
  }

  lemma HalfOf(h: nat, size: nat)
    requires size > 0
    ensures SlotOf(h, size) == SlotOf(SlotOf(h, 2 * size), size)
  {
    var r := h % (2 * size);
    assert h == 2 * size * (h / (2 * size)) + r;
    assert h == r + size * (2 * (h / (2 * size)));
    ModShift(r, size, 2 * (h / (2 * size)));
  }

  lemma Doubles(size: nat)
    requires SlotSize(size) && 2 * size - 1 <= HANDLE_MASK
    ensures SlotSize(2 * size)
  {}

  /** The i-th handle skynet_handle_register tries: from `index` up to HANDLE_MASK, then from 1. */
  function Tried(index: nat, i: nat): int {
    if index + i <= HANDLE_MASK then index + i
    else if index + i <= 2 * HANDLE_MASK then index + i - HANDLE_MASK
    else 1
  }

  /** One of the first i handles tried belongs in this slot. */
  ghost predicate Looked(index: nat, i: nat, slot: nat, size: nat)
    requires size > 0 && index > 0
  {
    exists j: nat :: j < i && SlotOf(Tried(index, j), size) == slot
  }

  lemma LookedAt(index: nat, v: nat, size: nat)
    requires 1 <= index <= HANDLE_MASK + 1 && 0 < size <= HANDLE_MASK + 1
    requires 1 <= v <= HANDLE_MASK && if v >= index then v < index + size else v <= index + size - HANDLE_MASK - 1
    ensures Looked(index, size, SlotOf(v, size), size)
  {
    hide SlotOf;
    var j: nat := if v >= index then v - index else v + HANDLE_MASK - index;
    assert Tried(index, j) == v;
  }

  /** A whole round looks at every slot but, perhaps, slot 0. */
  lemma WholeRound(index: nat, size: nat, slot: nat)
    requires SlotSize(size) && 1 <= index <= HANDLE_MASK + 1 && 0 < slot < size
    ensures Looked(index, size, slot, size)
  {
    SizeDivides(size);
    hide SlotSize, Looked, SlotOf;
    if index + size <= HANDLE_MASK + 1 {
      RoundTo(index, slot, size);
      LookedAt(index, index + (slot - index) % size, size);
    } else {
      LastStretch(slot, size);
      Small(slot, size);
      var v := HANDLE_MASK + 1 - size + slot;
      LookedAt(index, if v >= index then v else slot, size);
    }
  }

  /** Whether a round of a table that can still grow looks at slot 0: it does not wrap, or wraps at once. */
  predicate TriesZero(index: nat, size: nat) {
    size < 0x100_0000 && (index + size <= HANDLE_MASK + 1 || index == HANDLE_MASK + 1)
  }

  /** Slot 0 is looked at exactly then: a round that wraps on its way skips it. */
  lemma ZeroLooked(index: nat, size: nat)
    requires SlotSize(size) && 1 <= index <= HANDLE_MASK + 1
    ensures Looked(index, size, 0, size) <==> TriesZero(index, size)
  {
    SizeDivides(size);
    hide SlotSize;
    if TriesZero(index, size) {
      hide Looked;
      if index == HANDLE_MASK + 1 {
        Self(size);
        LookedAt(index, size, size);
      } else {
        RoundTo(index, 0, size);
        LookedAt(index, index + (0 - index) % size, size);
      }
    } else if Looked(index, size, 0, size) {
      var j: nat :| j < size && SlotOf(Tried(index, j), size) == 0;
      NotMultiple(Tried(index, j), size);
    }
  }

  lemma Self(size: nat)
    requires size > 0
    ensures SlotOf(size, size) == 0
  {}

  /** Neither the numbers below the size nor those in the last stretch before 2^24 are multiples of it. */
  lemma NotMultiple(v: int, size: nat)
    requires 0 < size && 0x100_0000 % size == 0
    requires 0 < v < size || 0x100_0000 - size < v < 0x100_0000
    ensures v % size != 0
  {
    if v < size {
      Small(v, size);
    } else {
      Multiple(size);
      var q := 0x100_0000 / size - 1;
      Remainder(v, size, q, v - size * q);
    }
  }

  /** What makes a round fail: every slot it looks at is taken. */
  ghost predicate RoundFails(slots: seq<Entry>, index: nat) {
    && (forall s :: 0 < s < |slots| ==> slots[s].Live?)
    && (slots != [] && TriesZero(index, |slots|) ==> slots[0].Live?)
  }

  lemma FailedRound(slots: seq<Entry>, index: nat)
    requires SlotSize(|slots|) && 1 <= index <= HANDLE_MASK + 1
    requires forall s :: 0 <= s < |slots| && Looked(index, |slots|, s, |slots|) ==> slots[s].Live?
    ensures RoundFails(slots, index)
  {
    SizeDivides(|slots|);
    hide SlotSize, Looked, TriesZero;
    ZeroLooked(index, |slots|);
    forall s | 0 < s < |slots| ensures slots[s].Live? {
      WholeRound(index, |slots|, s);
    }
  }

  lemma FoundRound(slots: seq<Entry>, index: nat, i: nat)
    requires SlotSize(|slots|) && 1 <= index <= HANDLE_MASK + 1 && i < |slots|
    requires slots[SlotOf(Tried(index, i), |slots|)] == Free
    ensures !RoundFails(slots, index)
  {
    SizeDivides(|slots|);
    hide SlotSize, TriesZero, SlotOf, Tried;
    ZeroLooked(index, |slots|);
  }

  /**
    A table that is doubled although slot 0 is free: of the four handles tried, none belongs
    in slot 0.
   */
  lemma SlotZeroSkipped()
    ensures var slots := [Free, Live(1, 0), Live(2, 1), Live(3, 2)];
            var index := 0xff_fffd;
            && Holds(slots, map[1 := 0, 2 := 1, 3 := 2]) && HandlesOk(map[1 := 0, 2 := 1, 3 := 2], 0)
            && seq(4, i requires i >= 0 => Tried(index, i)) == [0xff_fffd, 0xff_fffe, 0xff_ffff, 1]
            && slots[0] == Free && RoundFails(slots, index)
  {
  }

  lemma Multiple(size: nat)
    requires size > 0 && 0x100_0000 % size == 0
    ensures size * (0x100_0000 / size - 1) == 0x100_0000 - size
  {
    var q := 0x100_0000 / size;
    assert 0x100_0000 == size * q;
  }

  lemma LastStretch(slot: nat, size: nat)
    requires slot < size && 0x100_0000 % size == 0
    ensures SlotOf(0x100_0000 - size + slot, size) == slot
  {
    Multiple(size);
    Small(slot, size);
    ModShift(slot, size, 0x100_0000 / size - 1);
  }

  lemma Small(x: nat, n: nat)
    requires x < n
    ensures x % n == x && SlotOf(x, n) == x
  {}

  lemma RoundTo(index: nat, slot: nat, size: nat)
    requires slot < size
    ensures 0 <= (slot - index) % size < size && SlotOf(index + (slot - index) % size, size) == slot
  {
    var d := slot - index;
    assert d == size * (d / size) + d % size;
    assert index + d % size == slot + size * (-(d / size));
    ModShift(slot, size, -(d / size));
    Small(slot, size);
  }

  // ---------------------------------------------------------------------------
  // Names

  /** strcmp */
  function Compare(a: Name, b: Name): int {
    if a == [] then (if b == [] then 0 else -1)
    else if b == [] then 1
    else if a[0] < b[0] then -1
    else if a[0] > b[0] then 1
    else Compare(a[1..], b[1..])
  }

  lemma {:induction false} CompareEqual(a: Name, b: Name)
    ensures Compare(a, b) == 0 <==> a == b
    ensures Compare(a, b) == -Compare(b, a)
  {
    if a != [] && b != [] {
      CompareEqual(a[1..], b[1..]);
      assert a == [a[0]] + a[1..] && b == [b[0]] + b[1..];
    }
  }

  lemma {:induction false} CompareOrders(a: Name, b: Name, c: Name)
    requires Compare(a, b) < 0 && Compare(b, c) < 0
    ensures Compare(a, c) < 0
  {
    if a != [] && b != [] && c != [] && a[0] == b[0] == c[0] {
      CompareOrders(a[1..], b[1..], c[1..]);
    }
  }

  ghost predicate Sorted(names: seq<Named>) {
    forall i, j :: 0 <= i < j < |names| ==> Compare(names[i].name, names[j].name) < 0
  }

  /** The handle of a name, or 0. */
  function HandleOf(names: seq<Named>, name: Name): uint32 {
    if names == [] then 0 else if names[0].name == name then names[0].handle else HandleOf(names[1..], name)
  }

  lemma {:induction false} HandleAt(names: seq<Named>, name: Name, i: nat)
    requires Sorted(names) && i < |names| && names[i].name == name
    ensures HandleOf(names, name) == names[i].handle
  {
    CompareEqual(names[0].name, name);
    if i > 0 { HandleAt(names[1..], name, i - 1); }
  }

  lemma {:induction false} NoHandle(names: seq<Named>, name: Name)
    requires forall i :: 0 <= i < |names| ==> names[i].name != name
    ensures HandleOf(names, name) == 0
  {
    if names != [] { NoHandle(names[1..], name); }
  }

  /** The names without those of one handle, in order. */
  function Without(names: seq<Named>, handle: uint32): seq<Named> {
    if names == [] then []
    else
      var last := names[|names| - 1];
      Without(names[..|names| - 1], handle) + if last.handle == handle then [] else [last]
  }

  lemma WithoutNext(names: seq<Named>, i: nat, handle: uint32)
    requires i < |names|
    ensures Without(names[..i + 1], handle)
         == Without(names[..i], handle) + if names[i].handle == handle then [] else [names[i]]
  {
    assert names[..i + 1][..i] == names[..i];
  }

  lemma NoneDropped(names: seq<Named>, handle: uint32)
    ensures Without(names[..0], handle) == []
  {}

  lemma {:induction false} WithoutMember(names: seq<Named>, handle: uint32, x: Named)
    ensures x in Without(names, handle) <==> x in names && x.handle != handle
    ensures |Without(names, handle)| <= |names|
  {
    if names != [] {
      WithoutMember(names[..|names| - 1], handle, x);
      assert names == names[..|names| - 1] + [names[|names| - 1]];
    }
  }

  lemma {:induction false} WithoutSorted(names: seq<Named>, handle: uint32)
    requires Sorted(names)
    ensures Sorted(Without(names, handle))
  {
    if names != [] {
      var init, last := names[..|names| - 1], names[|names| - 1];
      WithoutSorted(init, handle);
      forall x | x in Without(init, handle) ensures Compare(x.name, last.name) < 0 {
        WithoutMember(init, handle, x);
      }
    }
  }

  /** A name inserted where it belongs. */
  lemma InsertedSorted(names: seq<Named>, before: nat, x: Named)
    requires Sorted(names) && before <= |names|
    requires forall i :: 0 <= i < before ==> Compare(names[i].name, x.name) < 0
    requires forall i :: before <= i < |names| ==> Compare(x.name, names[i].name) < 0
    ensures Sorted(Inserted(names, before, x))
  {}

  // ---------------------------------------------------------------------------
  // struct handle_storage

  /** A table of entries holds exactly the live contexts, each in the slot of its handle. */
  ghost predicate Holds(slot: seq<Entry>, live: map<uint32, nat>) {
    && slot != []
    && (forall i :: 0 <= i < |slot| && slot[i].Live? ==>
          slot[i].handle in live && live[slot[i].handle] == slot[i].ctx && SlotOf(slot[i].handle, |slot|) == i)
    && (forall h :: h in live ==> slot[SlotOf(h, |slot|)] == Live(h, live[h]))
  }

  /** Live handles name the local harbor and are not 0 in their low 24 bits. */
  ghost predicate HandlesOk(live: map<uint32, nat>, harbor: nat) {
    forall h :: h in live ==> h / 0x100_0000 == harbor && h % 0x100_0000 != 0
  }

  lemma HoldsRegistered(slot: seq<Entry>, live: map<uint32, nat>, handle: uint32, ctx: nat)
    requires Holds(slot, live) && slot[SlotOf(handle, |slot|)] == Free
    ensures handle !in live
    ensures Holds(slot[SlotOf(handle, |slot|) := Live(handle, ctx)], live[handle := ctx])
  {
    hide SlotOf;
  }

  lemma HoldsRetired(slot: seq<Entry>, live: map<uint32, nat>, handle: uint32)
    requires Holds(slot, live) && handle in live
    ensures Holds(slot[SlotOf(handle, |slot|) := Free], live - {handle})
  {
    hide SlotOf;
  }

  /** Some live handle is in the slot of v. */
  ghost predicate Taken(live: map<uint32, nat>, v: nat, size: nat)
    requires size > 0
  {
    exists h :: h in live && SlotOf(h, size) == SlotOf(v, size)
  }

  /** The first number of the round from `index` on whose slot is free. */
  ghost predicate FirstFree(live: map<uint32, nat>, index: nat, size: nat, low: nat)
    requires size > 0 && index > 0
  {
    exists i: nat :: i < size && low == Tried(index, i) && !Taken(live, low, size)
                     && forall j: nat :: j < i ==> Taken(live, Tried(index, j), size)
  }

  lemma TakenSlot(slots: seq<Entry>, live: map<uint32, nat>, v: nat)
    requires Holds(slots, live)
    ensures slots[SlotOf(v, |slots|)].Live? <==> Taken(live, v, |slots|)
  {
    hide SlotOf;
    var e := slots[SlotOf(v, |slots|)];
    if e.Live? { assert e.handle in live; }
  }

  lemma FoundFirst(slots: seq<Entry>, live: map<uint32, nat>, index: nat, low: nat)
    requires Holds(slots, live) && index > 0
    requires exists i: nat :: i < |slots| && low == Tried(index, i) && slots[SlotOf(low, |slots|)] == Free
                              && forall j: nat :: j < i ==> slots[SlotOf(Tried(index, j), |slots|)].Live?
    ensures FirstFree(live, index, |slots|, low)
  {
    hide Holds, SlotOf, Taken;
    var i: nat :| i < |slots| && low == Tried(index, i) && slots[SlotOf(low, |slots|)] == Free
                  && forall j: nat :: j < i ==> slots[SlotOf(Tried(index, j), |slots|)].Live?;
    TakenSlot(slots, live, low);
    forall j: nat | j < i ensures Taken(live, Tried(index, j), |slots|) {
      TakenSlot(slots, live, Tried(index, j));
    }
  }

  class Storage {
    const harbor: nat
    var handleIndex: nat
    var slotSize: nat
    var slot: array<Entry>
    var nameCap: nat
    var nameCount: nat
    var name: array<Named>
    ghost var live: map<uint32, nat>

    ghost predicate SlotsOk()
      reads this, slot
    {
      && SlotSize(slotSize) && slot.Length == slotSize && 1 <= handleIndex <= HANDLE_MASK + 1 && harbor < 256
      && Holds(slot[..], live) && HandlesOk(live, harbor)
    }

    ghost predicate NamesOk()
      reads this, name
    {
      nameCount <= nameCap == name.Length && nameCap > 0 && Sorted(name[..nameCount])
    }

    /** skynet_handle_init */
    constructor (harbor: nat)
      ensures SlotsOk() && NamesOk() && live == map[] && nameCount == 0 && this.harbor == harbor % 256
      ensures handleIndex == 1 && slotSize == DEFAULT_SLOT_SIZE
      ensures fresh(slot) && fresh(name)
    {
      this.harbor := harbor % 256;
      handleIndex := 1;
      slotSize := DEFAULT_SLOT_SIZE;
      slot := new Entry[DEFAULT_SLOT_SIZE](_ => Free);
      nameCap, nameCount := 2, 0;
      name := new Named[2](_ => Named([], 0));
      live := map[];
    }

    /** One round of skynet_handle_register: the first handle from handle_index on whose slot is free. */
    method FindFree() returns (found: Option<nat>)
      requires SlotsOk()
      ensures found.Some? ==> 1 <= found.value <= HANDLE_MASK && slot[SlotOf(found.value, slotSize)] == Free
      ensures found.Some? ==>
                exists i: nat :: i < slotSize && found.value == Tried(handleIndex, i)
                                 && forall j: nat :: j < i ==> slot[SlotOf(Tried(handleIndex, j), slotSize)].Live?
      ensures found.None? <==> RoundFails(slot[..], handleIndex)
    {
      hide Holds, HandlesOk, SlotSize, SlotOf, RoundFails;
      SizeDivides(slotSize);
      var handle, i := handleIndex, 0;
      while i < slotSize
        invariant 0 <= i <= slotSize
        invariant i < slotSize ==>
                    handle == Tried(handleIndex, i) || (handle == HANDLE_MASK + 1 && Tried(handleIndex, i) == 1)
        invariant forall j: nat :: j < i ==> slot[SlotOf(Tried(handleIndex, j), slotSize)].Live?
      {
        if handle > HANDLE_MASK {
          handle := 1;
        }
        if slot[SlotOf(handle, slotSize)] == Free {
          FoundRound(slot[..], handleIndex, i);
          return Some(handle);
        }
        i := i + 1;
        handle := handle + 1;
      }
      FailedRound(slot[..], handleIndex);
      return None;
    }

    /** The table with twice as many slots. */
    method Double()
      requires SlotsOk() && 2 * slotSize - 1 <= HANDLE_MASK
      modifies this`slot, this`slotSize
      ensures SlotsOk() && slotSize == 2 * old(slotSize) && fresh(slot)
      ensures !RoundFails(slot[..], handleIndex)
    {
      hide SlotOf, SlotSize, HandlesOk, RoundFails;
      Doubles(slotSize);
      SizeDivides(slotSize);
      var size := 2 * slotSize;
      var newSlot := new Entry[size](_ => Free);
      ghost var was := slot[..];
      var i := 0;
      while i < slotSize
        invariant 0 <= i <= slotSize && slot[..] == was && slot == old(slot) && slotSize == old(slotSize)
        invariant Moved(newSlot[..], was, i)
        modifies newSlot
      {
        if slot[i].Live? {
          var hash := SlotOf(slot[i].handle, size);
          MovedNext(newSlot[..], was, live, i);
          assert newSlot[hash] == Free;
          ghost var now := newSlot[..];
          newSlot[hash] := slot[i];
          assert newSlot[..] == now[hash := was[i]];
        } else {
          MovedFree(newSlot[..], was, i);
        }
        i := i + 1;
      }
      MovedAll(newSlot[..], was, live);
      RoomAfterDoubling(newSlot[..], was, live, handleIndex);
      slot := newSlot;
      slotSize := size;
    }

    /**
      skynet_handle_register. The table doubles, once, exactly when the round fails; at 2^24
      slots, where every handle but 0 is then live, the code's assertion fails.
     */
    method Register(ctx: nat) returns (r: Option<uint32>)
      requires SlotsOk()
      modifies this`slot, this`slotSize, this`handleIndex, this`live, slot
      ensures SlotsOk() && (slot == old(slot) || fresh(slot))
      ensures r.Some? ==> r.value !in old(live) && r.value % 0x100_0000 != 0 && r.value / 0x100_0000 == harbor
      ensures r.Some? ==> live == old(live)[r.value := ctx]
      ensures r.Some? ==>
                var low := r.value % 0x100_0000;
                FirstFree(old(live), old(handleIndex), slotSize, low) && handleIndex == low + 1
      ensures r.None? ==> live == old(live) && handleIndex == old(handleIndex)
      ensures r.None? <==> old(RoundFails(slot[..], handleIndex)) && old(slotSize) == 0x100_0000
      ensures slotSize == if old(RoundFails(slot[..], handleIndex)) && r.Some? then 2 * old(slotSize) else old(slotSize)
    {
      hide Holds, HandlesOk, SlotSize, SlotOf, RoundFails, FirstFree;
      while true
        invariant SlotsOk() && live == old(live) && (slot == old(slot) || fresh(slot)) && handleIndex == old(handleIndex)
        invariant if slotSize == old(slotSize) then slot == old(slot) && slot[..] == old(slot[..])
                  else slotSize == 2 * old(slotSize) && !RoundFails(slot[..], handleIndex)
                       && old(RoundFails(slot[..], handleIndex))
        decreases 0x100_0000 - slotSize
      {
        SizeDivides(slotSize);
        var found := FindFree();
        if found.Some? {
          var low := found.value;
          var handle: uint32 := low + harbor * 0x100_0000;
          FoundFirst(slot[..], live, handleIndex, low);
          TableRegistered(slot[..], live, harbor, low, ctx);
          ghost var was := slot[..];
          slot[SlotOf(low, slotSize)] := Live(handle, ctx);
          assert slot[..] == was[SlotOf(low, slotSize) := Live(handle, ctx)];
          handleIndex := low + 1;
          live := live[handle := ctx];
          return Some(handle);
        }
        if 2 * slotSize - 1 > HANDLE_MASK {
          LargestSize(slotSize);
          return None;
        }
        Double();
      }
    }

    /** skynet_handle_grab: the context, when the handle is the one registered in its slot. */
    method Grab(handle: uint32) returns (ctx: Option<nat>)
      requires SlotsOk()
      ensures ctx == if handle in live then Some(live[handle]) else None
    {
      SizeDivides(slotSize);
      var e := slot[SlotOf(handle, slotSize)];
      hide SlotOf, SlotSize;
      if e.Live? && e.handle == handle {
        return Some(e.ctx);
      }
      return None;
    }

    /** skynet_handle_retire: free the slot and drop the names of the handle. */
    method Retire(handle: uint32) returns (ctx: Option<nat>)
      requires SlotsOk() && NamesOk()
      modifies this`live, this`nameCount, slot, name
      ensures SlotsOk() && NamesOk()
      ensures ctx == if handle in old(live) then Some(old(live)[handle]) else None
      ensures live == old(live) - {handle}
      ensures name[..nameCount] == if ctx.Some? then Without(old(name[..nameCount]), handle) else old(name[..nameCount])
    {
      hide SlotSize, Sorted;
      ctx := Grab(handle);
      if ctx.None? {
        assert live == live - {handle};
        return;
      }
      SizeDivides(slotSize);
      HoldsRetired(slot[..], live, handle);
      ghost var was := slot[..];
      slot[SlotOf(handle, slotSize)] := Free;
      assert slot[..] == was[SlotOf(handle, slotSize) := Free];
      live := live - {handle};
      DropNames(handle);
    }

    /** The loop that takes the names of a retired handle out of the array. */
    method DropNames(handle: uint32)
      requires NamesOk()
      modifies this`nameCount, name
      ensures NamesOk() && name[..nameCount] == Without(old(name[..nameCount]), handle)
    {
      hide Sorted, Without;
      ghost var all := name[..nameCount];
      var i, j, n := 0, 0, nameCount;
      NoneDropped(all, handle);
      while i < n
        invariant 0 <= j <= i <= n == |all| <= name.Length
        invariant name[..j] == Without(all[..i], handle)
        invariant name[i..n] == all[i..]
        modifies name
      {
        assert name[i] == name[i..n][0] == all[i];
        WithoutNext(all, i, handle);
        ghost var rest := name[i..n];
        if name[i].handle != handle {
          name[j] := name[i];
          j := j + 1;
        }
        assert name[i + 1..n] == rest[1..] == all[i + 1..];
        i := i + 1;
      }
      nameCount := j;
      assert all[..n] == all;
      WithoutSorted(all, handle);
    }

    /** The binary search shared by skynet_handle_findname and _insert_name: the name, or where it belongs. */
    method Search(wanted: Name) returns (found: bool, at: nat)
      requires NamesOk()
      ensures at <= nameCount && (found ==> at < nameCount && name[at].name == wanted)
      ensures !found ==> forall i :: 0 <= i < at ==> Compare(name[i].name, wanted) < 0
      ensures !found ==> forall i :: at <= i < nameCount ==> Compare(wanted, name[i].name) < 0
    {
      var begin, end := 0, nameCount - 1;
      while begin <= end
        invariant 0 <= begin <= end + 1 <= nameCount
        invariant forall i :: 0 <= i < begin ==> Compare(name[i].name, wanted) < 0
        invariant forall i :: end < i < nameCount ==> Compare(wanted, name[i].name) < 0
        decreases end - begin
      {
        var mid := (begin + end) / 2;
        var c := Compare(name[mid].name, wanted);
        CompareEqual(name[mid].name, wanted);
        if c == 0 {
          return true, mid;
        }
        ghost var names := name[..nameCount];
        if c < 0 {
          BelowToo(names, mid, wanted);
          assert forall i :: 0 <= i <= mid ==> names[i] == name[i];
          begin := mid + 1;
        } else {
          AboveToo(names, mid, wanted);
          assert forall i :: mid <= i < nameCount ==> names[i] == name[i];
          end := mid - 1;
        }
      }
      return false, begin;
    }

    /** skynet_handle_findname */
    method FindName(wanted: Name) returns (handle: uint32)
      requires NamesOk()
      ensures handle == HandleOf(name[..nameCount], wanted)
    {
      var found, at := Search(wanted);
      ghost var names := name[..nameCount];
      if found {
        HandleAt(names, wanted, at);
        return name[at].handle;
      }
      assert forall i :: 0 <= i < |names| ==> names[i] == name[i];
      NotThere(names, at, wanted);
      NoHandle(names, wanted);
      return 0;
    }

    /** The names copied into an array with room for twice as many, with a gap at an index. */
    method Widen(before: nat)
      requires nameCount <= nameCap == name.Length && nameCap > 0 && before <= nameCount
      modifies this`name, this`nameCap
      ensures nameCap == name.Length == 2 * old(nameCap) && fresh(name)
      ensures forall j :: 0 <= j < before ==> name[j] == old(name[j])
      ensures forall j :: before <= j < nameCount ==> name[j + 1] == old(name[j])
    {
      var wider := new Named[nameCap * 2](_ => Named([], 0));
      var i := 0;
      while i < before
        invariant 0 <= i <= before
        invariant forall j :: 0 <= j < i ==> wider[j] == name[j]
        modifies wider
      {
        wider[i] := name[i];
        i := i + 1;
      }
      while i < nameCount
        invariant before <= i <= nameCount
        invariant forall j :: 0 <= j < before ==> wider[j] == name[j]
        invariant forall j :: before <= j < i ==> wider[j + 1] == name[j]
        modifies wider
      {
        wider[i + 1] := name[i];
        i := i + 1;
      }
      ghost var was := name;
      nameCap := nameCap * 2;
      name := wider;
      assert forall j :: before <= j < nameCount ==> name[j + 1] == was[j];
    }

    /** The names from an index on moved up by one. */
    method ShiftUp(before: nat)
      requires before <= nameCount < name.Length
      modifies name
      ensures forall j :: 0 <= j < before ==> name[j] == old(name[j])
      ensures forall j :: before <= j < nameCount ==> name[j + 1] == old(name[j])
    {
      var i := nameCount;
      while i > before
        invariant before <= i <= nameCount
        invariant forall j :: 0 <= j < i ==> name[j] == old(name[j])
        invariant forall j :: i <= j < nameCount ==> name[j + 1] == old(name[j])
      {
        name[i] := name[i - 1];
        i := i - 1;
      }
    }

    /**
      _insert_name_before: make room at an index, in an array of twice the size when this one is
      full, unless that is over the limit.
     */
    method InsertBefore(x: Named, before: nat) returns (ok: bool)
      requires nameCount <= nameCap == name.Length && nameCap > 0 && before <= nameCount
      modifies this`name, this`nameCap, this`nameCount, name
      ensures nameCap == name.Length && (name == old(name) || fresh(name))
      ensures ok <==> old(nameCount) < old(nameCap) || 2 * old(nameCap) <= MAX_SLOT_SIZE
      ensures nameCap == if ok && old(nameCount) == old(nameCap) then 2 * old(nameCap) else old(nameCap)
      ensures ok ==> nameCount == old(nameCount) + 1 <= nameCap
      ensures ok ==> name[..nameCount] == Inserted(old(name[..nameCount]), before, x)
      ensures !ok ==> nameCount == old(nameCount) && name[..nameCount] == old(name[..nameCount])
    {
      ghost var names := name[..nameCount];
      if nameCount >= nameCap {
        if 2 * nameCap > MAX_SLOT_SIZE {
          return false;
        }
        Widen(before);
      } else {
        ShiftUp(before);
      }
      name[before] := x;
      nameCount := nameCount + 1;
      InsertedAt(names, before, x, name[..nameCount]);
      return true;
    }

    /** skynet_handle_namehandle */
    method NameHandle(handle: uint32, wanted: Name) returns (r: Naming)
      requires NamesOk()
      modifies this`name, this`nameCap, this`nameCount, name
      ensures NamesOk()
      ensures r != Taken <==> forall x :: x in old(name[..nameCount]) ==> x.name != wanted
      ensures r == TooMany ==> old(nameCount) == old(nameCap) && 2 * old(nameCap) > MAX_SLOT_SIZE
      ensures r == Added ==> old(nameCount) < old(nameCap) || 2 * old(nameCap) <= MAX_SLOT_SIZE
      ensures r != Added ==> name[..nameCount] == old(name[..nameCount])
      ensures r == Added ==>
                exists i :: 0 <= i <= |old(name[..nameCount])|
                            && name[..nameCount] == Inserted(old(name[..nameCount]), i, Named(wanted, handle))
    {
      hide Sorted, Inserted;
      var found, before := Search(wanted);
      ghost var names := name[..nameCount];
      assert forall i :: 0 <= i < |names| ==> names[i] == name[i];
      if found {
        assert names[before] in names;
        return Taken;
      }
      NotThere(names, before, wanted);
      InsertedSorted(names, before, Named(wanted, handle));
      var ok := InsertBefore(Named(wanted, handle), before);
      return if ok then Added else TooMany;
    }
  }

  function Inserted(names: seq<Named>, before: nat, x: Named): seq<Named>
    requires before <= |names|
  {
    names[..before] + [x] + names[before..]
  }

  lemma InsertedAt(names: seq<Named>, before: nat, x: Named, now: seq<Named>)
    requires before <= |names| && |now| == |names| + 1 && now[before] == x
    requires forall j :: 0 <= j < before ==> now[j] == names[j]
    requires forall j :: before <= j < |names| ==> now[j + 1] == names[j]
    ensures now == Inserted(names, before, x)
  {
    var s := Inserted(names, before, x);
    forall k | 0 <= k < |now| ensures now[k] == s[k] {
      if k > before { assert now[k - 1 + 1] == names[k - 1]; }
    }
  }

  /** Between the names below and above it, a name is not there. */
  lemma NotThere(names: seq<Named>, at: nat, wanted: Name)
    requires at <= |names|
    requires forall i :: 0 <= i < at ==> Compare(names[i].name, wanted) < 0
    requires forall i :: at <= i < |names| ==> Compare(wanted, names[i].name) < 0
    ensures forall i :: 0 <= i < |names| ==> names[i].name != wanted
  {
    forall i | 0 <= i < |names| ensures names[i].name != wanted {
      CompareEqual(names[i].name, wanted);
    }
  }

  lemma LargestSize(n: nat)
    requires SlotSize(n) && 2 * n - 1 > HANDLE_MASK
    ensures n == 0x100_0000
  {}

  lemma HandlesOkRegistered(live: map<uint32, nat>, harbor: nat, low: nat, ctx: nat)
    requires HandlesOk(live, harbor) && 1 <= low <= HANDLE_MASK && harbor < 256
    ensures HandlesOk(live[low + harbor * 0x100_0000 := ctx], harbor)
  {}

  lemma TableRegistered(slot: seq<Entry>, live: map<uint32, nat>, harbor: nat, low: nat, ctx: nat)
    requires SlotSize(|slot|) && Holds(slot, live) && HandlesOk(live, harbor) && harbor < 256
    requires 1 <= low <= HANDLE_MASK && slot[SlotOf(low, |slot|)] == Free
    ensures var handle := low + harbor * 0x100_0000;
            && handle !in live && handle % 0x100_0000 == low && handle / 0x100_0000 == harbor
            && Holds(slot[SlotOf(low, |slot|) := Live(handle, ctx)], live[handle := ctx])
            && HandlesOk(live[handle := ctx], harbor)
  {
    hide Holds, HandlesOk, SlotSize, SlotOf;
    SizeDivides(|slot|);
    LowBitsDecide(low, harbor, |slot|);
    HoldsRegistered(slot, live, low + harbor * 0x100_0000, ctx);
    HandlesOkRegistered(live, harbor, low, ctx);
  }

  /** The entries of the first i slots are in the new table, and nothing else is. */
  ghost predicate Moved(now: seq<Entry>, was: seq<Entry>, i: nat) {
    && was != [] && |now| == 2 * |was| && i <= |was|
    && (forall k :: 0 <= k < |now| && now[k].Live? ==>
          var j := SlotOf(now[k].handle, |was|); j < i && now[k] == was[j] && SlotOf(now[k].handle, |now|) == k)
    && (forall j :: 0 <= j < i && was[j].Live? ==> now[SlotOf(was[j].handle, |now|)] == was[j])
  }

  lemma MovedNext(now: seq<Entry>, was: seq<Entry>, live: map<uint32, nat>, i: nat)
    requires Moved(now, was, i) && Holds(was, live) && i < |was| && was[i].Live?
    ensures now[SlotOf(was[i].handle, |now|)] == Free
    ensures Moved(now[SlotOf(was[i].handle, |now|) := was[i]], was, i + 1)
  {
    var hash := SlotOf(was[i].handle, |now|);
    assert SlotOf(was[i].handle, |was|) == i;
    if now[hash].Live? { DoublingSeparates(now[hash].handle, was[i].handle, |was|); }
    hide SlotOf;
  }

  lemma MovedFree(now: seq<Entry>, was: seq<Entry>, i: nat)
    requires Moved(now, was, i) && i < |was| && was[i] == Free
    ensures Moved(now, was, i + 1)
  {
    hide SlotOf;
  }

  lemma MovedAll(now: seq<Entry>, was: seq<Entry>, live: map<uint32, nat>)
    requires Moved(now, was, |was|) && Holds(was, live)
    ensures Holds(now, live)
  {
    hide SlotOf;
  }

  /** Of two new slots that were one slot before, one is free. */
  lemma RoomAfterDoubling(now: seq<Entry>, was: seq<Entry>, live: map<uint32, nat>, index: nat)
    requires Holds(now, live) && Holds(was, live) && |now| == 2 * |was| && |was| > 1
    ensures !RoundFails(now, index)
  {
    var n := |was|;
    ModShift(1, n, 1);
    Small(1, n);
    if now[1].Live? {
      HalfOf(now[1].handle, n);
      if now[n + 1].Live? {
        HalfOf(now[n + 1].handle, n);
      }
    }
    hide SlotOf;
  }

  lemma BelowToo(names: seq<Named>, mid: nat, wanted: Name)
    requires Sorted(names) && mid < |names| && Compare(names[mid].name, wanted) < 0
    ensures forall i :: 0 <= i <= mid ==> Compare(names[i].name, wanted) < 0
  {
    forall i | 0 <= i < mid ensures Compare(names[i].name, wanted) < 0 {
      CompareOrders(names[i].name, names[mid].name, wanted);
    }
  }

  lemma AboveToo(names: seq<Named>, mid: nat, wanted: Name)
    requires Sorted(names) && mid < |names| && Compare(wanted, names[mid].name) < 0
    ensures forall i :: mid <= i < |names| ==> Compare(wanted, names[i].name) < 0
  {
    forall i | mid < i < |names| ensures Compare(wanted, names[i].name) < 0 {
      CompareOrders(wanted, names[mid].name, names[i].name);
    }
  }

  // ---------------------------------------------------------------------------
  // A whole run

  datatype Call = RegisterCall(ctx: nat) | RetireCall(handle: uint32)

  function Registers(calls: seq<Call>): nat {
    if calls == [] then 0
    else Registers(calls[..|calls| - 1]) + if calls[|calls| - 1].RegisterCall? then 1 else 0
  }

  /** The numbers are tried in a circle from 1 to HANDLE_MASK. */
  lemma Circle(index: nat, i: nat)
    requires 1 <= index <= HANDLE_MASK + 1 && i <= HANDLE_MASK
    ensures Tried(index, i) == 1 + (index - 1 + i) % HANDLE_MASK
  {
    var x := index - 1 + i;
    if x < HANDLE_MASK {
      Remainder(x, HANDLE_MASK, 0, x);
    } else if x < 2 * HANDLE_MASK {
      Remainder(x, HANDLE_MASK, 1, x - HANDLE_MASK);
    } else {
      Remainder(x, HANDLE_MASK, 2, x - 2 * HANDLE_MASK);
    }
  }

  lemma Further(at: nat, i: nat)
    requires i <= HANDLE_MASK
    ensures Tried(2 + at % HANDLE_MASK, i) == 1 + (at + 1 + i) % HANDLE_MASK
  {
    Circle(2 + at % HANDLE_MASK, i);
    ModShift(at % HANDLE_MASK + 1 + i, HANDLE_MASK, at / HANDLE_MASK);
  }

  /** The same number twice on the circle is a whole turn away. */
  lemma WholeTurn(p: nat, q: nat)
    requires p < q && p % HANDLE_MASK == q % HANDLE_MASK
    ensures q - p >= HANDLE_MASK
  {
    assert p / HANDLE_MASK < q / HANDLE_MASK;
  }

  /** Each registration ends further on the circle, by one number for each slot at most. */
  ghost predicate Steps(at: seq<nat>, size: nat) {
    forall k :: 0 < k < |at| ==> at[k - 1] < at[k] <= at[k - 1] + size
  }

  lemma {:induction false} StepsAdd(at: seq<nat>, size: nat, i: nat, j: nat)
    requires Steps(at, size) && i <= j < |at|
    ensures at[i] + (j - i) <= at[j] <= at[i] + (j - i) * size
  {
    if i < j {
      StepsAdd(at, size, i, j - 1);
      assert (j - i) * size == (j - 1 - i) * size + size;
    }
  }

  /** Where the next round starts. */
  function NextIndex(at: seq<nat>): nat {
    if at == [] then 1 else 2 + at[|at| - 1] % HANDLE_MASK
  }

  lemma FirstIndex(size: nat)
    ensures NextIndex([]) == 1 && Steps([], size)
  {}

  lemma NextPlace(at: seq<nat>, index: nat, size: nat, live: map<uint32, nat>, low: nat) returns (p: nat)
    requires index == NextIndex(at) && 0 < size <= HANDLE_MASK + 1 && FirstFree(live, index, size, low) && Steps(at, size)
    ensures low == 1 + p % HANDLE_MASK && Steps(at + [p], size)
  {
    hide Taken;
    var i: nat :| i < size && low == Tried(index, i);
    if at == [] {
      p := i;
      Circle(1, i);
    } else {
      p := at[|at| - 1] + 1 + i;
      Further(at[|at| - 1], i);
    }
  }

  method RegisterNext(table: Storage, ctx: nat, ghost at: seq<nat>) returns (r: Option<uint32>, ghost further: seq<nat>)
    requires table.SlotsOk() && Steps(at, table.slotSize) && table.handleIndex == NextIndex(at)
    modifies table`slot, table`slotSize, table`handleIndex, table`live, table.slot
    ensures table.SlotsOk() && (table.slot == old(table.slot) || fresh(table.slot))
    ensures Steps(further, table.slotSize) && table.handleIndex == NextIndex(further)
    ensures r.None? ==> further == at && table.slotSize == 0x100_0000
    ensures r.Some? ==>
              |further| == |at| + 1 && further[..|at|] == at
              && r.value == 1 + further[|at|] % HANDLE_MASK + table.harbor * 0x100_0000
  {
    hide Holds, HandlesOk, SlotSize, RoundFails, FirstFree, Steps;
    ghost var index, live, size := table.handleIndex, table.live, table.slotSize;
    r := table.Register(ctx);
    further := at;
    SizeDivides(table.slotSize);
    MoreSlots(at, size, table.slotSize);
    if r.Some? {
      ghost var p := NextPlace(at, index, table.slotSize, live, r.value % 0x100_0000);
      further := at + [p];
    }
  }

  lemma MoreSlots(at: seq<nat>, size: nat, larger: nat)
    requires Steps(at, size) && size <= larger
    ensures Steps(at, larger)
  {}

  /**
    Any calls of skynet_handle_register and skynet_handle_retire on a new table. at[k] counts the
    numbers tried before handle k was found: a handle comes back only when the round has gone through
    all 0xFFFFFF of them, whatever was retired, and so only after many other registrations.
   */
  method RunCalls(harbor: nat, calls: seq<Call>)
    returns (handles: seq<uint32>, size: nat, ok: bool, ghost at: seq<nat>)
    ensures if ok then |handles| == Registers(calls) else size == 0x100_0000
    ensures |at| == |handles| && SlotSize(size) && Steps(at, size)
    ensures forall k :: 0 <= k < |handles| ==> handles[k] == 1 + at[k] % HANDLE_MASK + harbor % 256 * 0x100_0000
    ensures forall i, j :: 0 <= i < j < |handles| && handles[i] == handles[j] ==>
              at[j] - at[i] >= HANDLE_MASK && (j - i) * size >= HANDLE_MASK
  {
    hide Holds, HandlesOk, SlotSize, Sorted, Without, Steps, NextIndex;
    FirstIndex(DEFAULT_SLOT_SIZE);
    var table := new Storage(harbor);
    handles, at, ok := [], [], true;
    var n := 0;
    assert calls[..0] == [];
    while n < |calls|
      invariant 0 <= n <= |calls| && |at| == |handles|
      invariant ok && |handles| == Registers(calls[..n])
      invariant fresh(table) && fresh(table.slot) && fresh(table.name) && table.SlotsOk() && table.NamesOk()
      invariant table.harbor == harbor % 256 && Steps(at, table.slotSize)
      invariant table.handleIndex == NextIndex(at)
      invariant forall k :: 0 <= k < |handles| ==> handles[k] == 1 + at[k] % HANDLE_MASK + harbor % 256 * 0x100_0000
      decreases |calls| - n
    {
      assert calls[..n + 1][..n] == calls[..n];
      match calls[n] {
        case RegisterCall(ctx) =>
          var r;
          r, at := RegisterNext(table, ctx, at);
          if r.None? {
            ok := false;
            break;
          }
          handles := handles + [r.value];
        case RetireCall(handle) =>
          var ctx := table.Retire(handle);
      }
      n := n + 1;
    }
    assert ok ==> calls[..n] == calls;
    size := table.slotSize;
    forall i, j | 0 <= i < j < |handles| && handles[i] == handles[j]
      ensures at[j] - at[i] >= HANDLE_MASK && (j - i) * size >= HANDLE_MASK
    {
      StepsAdd(at, size, i, j);
      WholeTurn(at[i], at[j]);
    }
  }
}
