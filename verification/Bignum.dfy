/**
  The multi-word integers of dtoa.c, with 32-bit words and 64-bit intermediate results
  (Pack_32 and ULLong). A Bigint keeps its words in an array, least significant first; its
  value is the number they spell in base 2^32.
 */
module Bignum {

  import opened Basics

  function Pow(i: nat): (p: nat)
    ensures p > 0
  {
    if i == 0 then 1 else 0x1_0000_0000 * Pow(i - 1)
  }

  /** The number spelled by some words. */
  function Val(s: seq<uint32>): nat {
    if s == [] then 0 else Val(s[..|s| - 1]) + s[|s| - 1] * Pow(|s| - 1)
  }

  function Exp2(k: nat): (p: nat)
    ensures p > 0
  {
    if k == 0 then 1 else 2 * Exp2(k - 1)
  }

  function Exp5(k: nat): (p: nat)
    ensures p > 0
  {
    if k == 0 then 1 else 5 * Exp5(k - 1)
  }

  function Times(a: int, b: int): int {
    a * b
  }

  // ---------------------------------------------------------------------------
  // Words and values

  lemma ValPush(s: seq<uint32>, w: uint32)
    ensures Val(s + [w]) == Val(s) + w * Pow(|s|)
  {
    assert (s + [w])[..|s|] == s;
  }

  lemma {:induction false} ValBound(s: seq<uint32>)
    ensures Val(s) < Pow(|s|)
  {
    if s != [] {
      var n := |s| - 1;
      ValBound(s[..n]);
      TopWord(s[n], Pow(n));
    }
  }

  lemma TopWord(w: uint32, p: nat)
    ensures p + w * p <= 0x1_0000_0000 * p
  {
    assert (w + 1) * p <= 0x1_0000_0000 * p by { Monotone(w + 1, 0x1_0000_0000, p); }
  }

  lemma Monotone(a: int, b: int, p: nat)
    requires a <= b
    ensures a * p <= b * p
  {}

  lemma {:induction false} PowAdd(i: nat, j: nat)
    ensures Pow(i + j) == Pow(i) * Pow(j)
  {
    if i > 0 {
      PowAdd(i - 1, j);
      assert 0x1_0000_0000 * (Pow(i - 1) * Pow(j)) == 0x1_0000_0000 * Pow(i - 1) * Pow(j);
    }
  }

  lemma {:induction false} PowGrows(i: nat, j: nat)
    requires i <= j
    ensures Pow(i) <= Pow(j)
  {
    if i < j { PowGrows(i, j - 1); }
  }

  /** Words that are zero at the top add nothing. */
  lemma {:induction false} ValTrim(s: seq<uint32>, n: nat)
    requires n <= |s| && forall i :: n <= i < |s| ==> s[i] == 0
    ensures Val(s) == Val(s[..n])
  {
    if n < |s| {
      ValTrim(s[..|s| - 1], n);
      assert s[..|s| - 1][..n] == s[..n];
    } else {
      assert s[..n] == s;
    }
  }

  lemma {:induction false} ValZeros(s: seq<uint32>)
    requires forall i :: 0 <= i < |s| ==> s[i] == 0
    ensures Val(s) == 0
  {
    ValTrim(s, 0);
  }

  /** The top word bounds the value on both sides. */
  lemma TopBounds(s: seq<uint32>)
    requires s != []
    ensures s[|s| - 1] * Pow(|s| - 1) <= Val(s) < (s[|s| - 1] + 1) * Pow(|s| - 1)
  {
    var n := |s| - 1;
    ValBound(s[..n]);
    assert (s[n] + 1) * Pow(n) == s[n] * Pow(n) + Pow(n);
  }

  /** Of two numbers without leading zeros the one with more words is larger. */
  lemma LongerIsLarger(s: seq<uint32>, t: seq<uint32>)
    requires |s| > |t| && s[|s| - 1] != 0
    ensures Val(s) > Val(t)
  {
    TopBounds(s);
    ValBound(t);
    PowGrows(|t|, |s| - 1);
    Monotone(1, s[|s| - 1], Pow(|s| - 1));
  }

  /** The highest word that differs decides. */
  lemma {:induction false} HighestDifference(s: seq<uint32>, t: seq<uint32>, j: nat)
    requires j < |s| == |t| && s[j] < t[j] && forall i :: j < i < |s| ==> s[i] == t[i]
    ensures Val(s) < Val(t)
  {
    var n := |s| - 1;
    if j == n {
      TopBounds(s);
      TopBounds(t);
      Monotone(s[n] + 1, t[n], Pow(n));
    } else {
      HighestDifference(s[..n], t[..n], j);
    }
  }

  // ---------------------------------------------------------------------------
  // One word of a product, a difference, a shift

  /** Splitting a product word: what stays and what is carried. */
  lemma Split64(y: uint64)
    ensures y == y % 0x1_0000_0000 + 0x1_0000_0000 * (y / 0x1_0000_0000)
    ensures 0 <= y / 0x1_0000_0000 < 0x1_0000_0000
  {}

  lemma Product(x: uint32, m: uint32, carry: uint32)
    ensures x * m + carry < 0x1_0000_0000_0000_0000
  {
    Monotone(x, 0xFFFF_FFFF, m);
  }

  /** The 64-bit difference of one word, and the bit that says whether it went below zero. */
  function Minus64(x: uint32, y: uint32, borrow: nat): uint64
    requires borrow <= 1
  {
    (x - y - borrow) % 0x1_0000_0000_0000_0000
  }

  lemma BorrowBit(x: uint32, y: uint32, borrow: nat)
    requires borrow <= 1
    ensures var z := Minus64(x, y, borrow);
            var borrow' := z / 0x1_0000_0000 % 2;
            borrow' <= 1 && z % 0x1_0000_0000 == x - y - borrow + 0x1_0000_0000 * borrow'
  {
    var d := x - y - borrow;
    if d < 0 {
      assert Minus64(x, y, borrow) == d + 0x1_0000_0000_0000_0000;
      assert (d + 0x1_0000_0000_0000_0000) / 0x1_0000_0000 == 0xFFFF_FFFF;
    }
  }

  /** One step of a carry loop, seen in base 2^32: (low + carry * p) grows by one word. */
  lemma CarryStep(low: int, w: int, carry': int, x: int, m: int, carry: int, p: int, src: int, a: int)
    requires low + carry * p == m * src + a
    requires w + 0x1_0000_0000 * carry' == x * m + carry
    ensures low + w * p + carry' * (0x1_0000_0000 * p) == m * (src + x * p) + a
  {
    assert w * p + carry' * (0x1_0000_0000 * p) == (w + 0x1_0000_0000 * carry') * p;
    assert (x * m + carry) * p == m * (x * p) + carry * p;
    assert m * (src + x * p) == m * src + m * (x * p);
  }

  /** The words below i are those of m * was + a, short of a carry; the others are as they were. */
  ghost predicate Scaled(now: seq<uint32>, was: seq<uint32>, i: nat, m: uint32, a: uint32, carry: uint32) {
    && i <= |now| == |was| && now[i..] == was[i..]
    && Val(now[..i]) + carry * Pow(i) == m * Val(was[..i]) + a
  }

  lemma NothingScaled(was: seq<uint32>, m: uint32, a: uint32)
    ensures Scaled(was, was, 0, m, a, a)
  {}

  lemma ScaledStep(now: seq<uint32>, was: seq<uint32>, i: nat, m: uint32, a: uint32, carry: uint32, y: uint64)
    requires Scaled(now, was, i, m, a, carry) && i < |was| && y == now[i] * m + carry
    ensures y / 0x1_0000_0000 < 0x1_0000_0000
    ensures Scaled(now[i := y % 0x1_0000_0000], was, i + 1, m, a, y / 0x1_0000_0000)
  {
    var next := now[i := y % 0x1_0000_0000];
    Split64(y);
    assert now[i] == was[i];
    CarryStep(Val(now[..i]), y % 0x1_0000_0000, y / 0x1_0000_0000, was[i], m, carry, Pow(i), Val(was[..i]), a);
    ValAt(was, i);
    ValAt(next, i);
    assert next[..i] == now[..i];
    assert next[i + 1..] == was[i + 1..] by {
      forall j | i + 1 <= j < |was| ensures next[j] == was[j] { assert now[j] == now[i..][j - i]; }
    }
  }

  lemma ValAt(s: seq<uint32>, i: nat)
    requires i < |s|
    ensures Val(s[..i + 1]) == Val(s[..i]) + s[i] * Pow(i)
  {
    assert s[..i + 1] == s[..i] + [s[i]];
    ValPush(s[..i], s[i]);
  }

  /** One step of a subtraction: two borrows, from the product and from the difference, add up. */
  lemma BorrowStep(low: int, w: int, lo: int, ys: int, x: int, sw: int, q: int, carry: int, borrow: int,
                   carry': int, borrow': int,
                   p: int, src: int, sub: int)
    requires low + q * sub == src + (carry + borrow) * p
    requires ys == sw * q + carry && ys == lo + 0x1_0000_0000 * carry'
    requires w == x - lo - borrow + 0x1_0000_0000 * borrow'
    ensures (low + w * p) + q * (sub + sw * p) == (src + x * p) + (carry' + borrow') * (0x1_0000_0000 * p)
  {
    var left := w + q * sw;
    assert left == x - carry - borrow + 0x1_0000_0000 * (carry' + borrow');
    assert left * p == x * p - (carry + borrow) * p + (carry' + borrow') * (0x1_0000_0000 * p) by {
      assert left * p == x * p - (carry + borrow) * p + (0x1_0000_0000 * (carry' + borrow')) * p;
    }
    assert left * p == w * p + q * (sw * p);
    assert q * (sub + sw * p) == q * sub + q * (sw * p);
  }

  /** The quotient of two top words, the divisor's rounded up. */
  function Guess(bt: uint32, st: uint32): uint32 {
    bt / (st + 1)
  }

  lemma GuessBounds(bt: uint32, st: uint32)
    ensures Guess(bt, st) * (st + 1) <= bt && bt + 1 <= (Guess(bt, st) + 1) * (st + 1)
  {
    var q := Guess(bt, st);
    assert bt == q * (st + 1) + bt % (st + 1);
    assert (q + 1) * (st + 1) == q * (st + 1) + (st + 1);
  }

  lemma SmallQuotient(bt: uint32, st: nat, q: nat)
    requires 0x800_0000 <= st && q * (st + 1) <= bt
    ensures q < 32 && q + 1 <= st
  {
    if q >= 32 {
      Monotone(32, q, st + 1);
    }
  }

  /** The guess is the true quotient or one less. */
  lemma QuotientEstimate(b: nat, s: nat, bt: nat, st: nat, p: nat, q: nat)
    requires bt * p <= b < (bt + 1) * p && st * p <= s < (st + 1) * p
    requires q * (st + 1) <= bt && bt + 1 <= (q + 1) * (st + 1) && q + 1 <= st
    ensures q * s <= b < (q + 2) * s
  {
    GuessNotTooLarge(b, s, bt, st, p, q);
    GuessNotTooSmall(b, s, bt, st, p, q);
  }

  lemma GuessNotTooLarge(b: nat, s: nat, bt: nat, st: nat, p: nat, q: nat)
    requires bt * p <= b && s < (st + 1) * p && q * (st + 1) <= bt
    ensures q * s <= b
  {
    Monotone(s, (st + 1) * p, q);
    Monotone(q * (st + 1), bt, p);
    assert q * ((st + 1) * p) == (q * (st + 1)) * p;
  }

  lemma GuessNotTooSmall(b: nat, s: nat, bt: nat, st: nat, p: nat, q: nat)
    requires b < (bt + 1) * p && st * p <= s && bt + 1 <= (q + 1) * (st + 1) && q + 1 <= st
    ensures b < (q + 2) * s
  {
    assert (q + 1) * (st + 1) == (q + 1) * st + (q + 1) <= (q + 1) * st + st == (q + 2) * st;
    Monotone(bt + 1, (q + 2) * st, p);
    assert ((q + 2) * st) * p == (q + 2) * (st * p);
    Monotone(st * p, s, q + 2);
  }

  // ---------------------------------------------------------------------------
  // Loops over words

  /** The carry loop of multadd over the first n words. */
  method MultiplyWords(x: array<uint32>, n: nat, m: uint32, a: uint32) returns (carry: uint32)
    requires 0 < n <= x.Length && m > 0
    modifies x
    ensures Scaled(x[..], old(x[..]), n, m, a, carry)
    ensures old(x[n - 1]) != 0 ==> x[n - 1] != 0 || carry != 0
  {
    hide Scaled;
    ghost var was: seq<uint32> := x[..];
    var i := 0;
    carry := a;
    NothingScaled(was, m, a);
    while i < n
      invariant 0 <= i <= n
      invariant Scaled(x[..], was, i, m, a, carry)
      invariant i == n && was[n - 1] != 0 ==> x[n - 1] != 0 || carry != 0
    {
      Product(x[i], m, carry);
      var y: uint64 := x[i] * m + carry;
      ghost var now: seq<uint32> := x[..];
      TopStays(now, was, i, m, a, carry, y);
      ScaledStep(now, was, i, m, a, carry, y);
      var low, high: uint32 := y % 0x1_0000_0000, y / 0x1_0000_0000;
      x[i], carry := low, high;
      assert x[..] == now[i := low];
      i := i + 1;
    }
  }

  /** The words below i are those of was - q * s, short of a debt to the next word. */
  ghost predicate Reduced(now: seq<uint32>, was: seq<uint32>, s: seq<uint32>, i: nat, q: uint32, debt: nat) {
    && i <= |now| == |was| && i <= |s| && now[i..] == was[i..]
    && Val(now[..i]) + q * Val(s[..i]) == Val(was[..i]) + debt * Pow(i)
  }

  lemma NothingReduced(was: seq<uint32>, s: seq<uint32>, q: uint32)
    ensures Reduced(was, was, s, 0, q, 0)
  {}

  lemma ReducedStep(now: seq<uint32>, was: seq<uint32>, s: seq<uint32>, i: nat, q: uint32, carry: uint32,
                    borrow: nat, ys: uint64)
    requires borrow <= 1 && Reduced(now, was, s, i, q, carry + borrow) && i < |was| && i < |s| && ys == s[i] * q + carry
    ensures var z := Minus64(now[i], ys % 0x1_0000_0000, borrow);
            Reduced(now[i := z % 0x1_0000_0000], was, s, i + 1, q, ys / 0x1_0000_0000 + z / 0x1_0000_0000 % 2)
  {
    var lo: uint32 := ys % 0x1_0000_0000;
    var z := Minus64(now[i], lo, borrow);
    var next := now[i := z % 0x1_0000_0000];
    Split64(ys);
    BorrowBit(now[i], lo, borrow);
    assert now[i] == was[i];
    BorrowStep(Val(now[..i]), z % 0x1_0000_0000, lo, ys, was[i], s[i], q, carry, borrow,
               ys / 0x1_0000_0000, z / 0x1_0000_0000 % 2,
               Pow(i), Val(was[..i]), Val(s[..i]));
    ValAt(was, i);
    ValAt(s, i);
    ValAt(next, i);
    assert next[..i] == now[..i];
    assert next[i + 1..] == was[i + 1..] by {
      forall j | i + 1 <= j < |was| ensures next[j] == was[j] { assert now[j] == now[i..][j - i]; }
    }
  }

  /** The loop of quorem that takes q * s from x, word by word. */
  method SubtractMultiple(x: array<uint32>, s: array<uint32>, n: nat, q: uint32) returns (ghost debt: nat)
    requires x != s && n <= x.Length && n <= s.Length
    modifies x
    ensures Reduced(x[..], old(x[..]), s[..], n, q, debt)
  {
    hide Reduced;
    ghost var was: seq<uint32> := x[..];
    ghost var sub: seq<uint32> := s[..];
    var i, carry: uint32, borrow := 0, 0, 0;
    NothingReduced(was, sub, q);
    while i < n
      invariant 0 <= i <= n && 0 <= borrow <= 1
      invariant Reduced(x[..], was, sub, i, q, carry + borrow)
    {
      Product(s[i], q, carry);
      var ys: uint64 := s[i] * q + carry;
      Split64(ys);
      ghost var now: seq<uint32> := x[..];
      ReducedStep(now, was, sub, i, q, carry, borrow, ys);
      var z := Minus64(x[i], ys % 0x1_0000_0000, borrow);
      var low: uint32 := z % 0x1_0000_0000;
      x[i], carry, borrow := low, ys / 0x1_0000_0000, z / 0x1_0000_0000 % 2;
      assert x[..] == now[i := low];
      i := i + 1;
    }
    debt := carry + borrow;
  }

  /** When the product was not too large nothing is owed at the end. */
  lemma NoDebt(now: seq<uint32>, was: seq<uint32>, s: seq<uint32>, n: nat, q: uint32, debt: nat)
    requires Reduced(now, was, s, n, q, debt) && q * Val(s[..n]) <= Val(was[..n])
    ensures Val(now[..n]) == Val(was[..n]) - q * Val(s[..n])
  {
    ValBound(now[..n]);
    if debt > 0 { Monotone(1, debt, Pow(n)); }
  }

  // ---------------------------------------------------------------------------
  // struct Bigint

  class Bigint {
    var k: nat
    var x: array<uint32>
    var wds: nat
    var sign: bool

    /** No leading zero word, except that zero may be one zero word or none. */
    ghost predicate Valid()
      reads this, x
    {
      && x.Length == Exp2(k) && wds <= x.Length
      && (wds == 0 ==> x[0] == 0) && (wds > 1 ==> x[wds - 1] != 0)
    }

    ghost function Value(): nat
      requires wds <= x.Length
      reads this, x
    {
      Val(x[..wds])
    }

    /** Balloc: room for 2^k words, with whatever they hold. */
    constructor Balloc(k: nat)
      ensures this.k == k && wds == 0 && !sign && fresh(x) && x.Length == Exp2(k)
    {
      this.k := k;
      x := new uint32[Exp2(k)];
      wds := 0;
      sign := false;
    }

    /** i2b */
    constructor I2b(i: uint32)
      ensures Valid() && Value() == i && wds == 1 && !sign && fresh(x)
    {
      k := 1;
      x := new uint32[2];
      wds := 1;
      sign := false;
      new;
      x[0] := i;
      assert Exp2(1) == 2 * Exp2(0);
      assert x[..1] == [] + [i];
      ValPush([], i);
    }

    /** Bcopy into a number with room for twice as many words. */
    method Grow()
      requires wds <= x.Length == Exp2(k)
      modifies this`x, this`k
      ensures fresh(x) && k == old(k) + 1 && x.Length == Exp2(k)
      ensures x[..wds] == old(x[..wds]) && wds < x.Length
    {
      var wider := new uint32[Exp2(k + 1)];
      var i := 0;
      while i < wds
        invariant 0 <= i <= wds && x == old(x) && k == old(k) && x[..] == old(x[..])
        invariant wider[..i] == x[..i]
        modifies wider
      {
        wider[i] := x[i];
        i := i + 1;
      }
      x := wider;
      k := k + 1;
    }

    /** multadd: multiply by m and add a, growing by one word when a carry is left. */
    method MultAdd(m: uint32, a: uint32)
      requires Valid() && m > 0 && (wds == 0 ==> a == 0)
      modifies this, x
      ensures Valid() && Value() == old(Value()) * m + a
      ensures x == old(x) || fresh(x)
      ensures old(wds) <= wds
    {
      ghost var was: seq<uint32> := x[..];
      var carry := MultiplyWords(x, if wds == 0 then 1 else wds, m, a);
      assert was[..wds] == old(x[..wds]) && x[..][..wds] == x[..wds];
      if wds == 0 {
        ValZeros([]);
        assert [0][..1] == [0] == was[..1] && Val([0]) == 0;
        assert Val(x[..][..1]) + carry * Pow(1) == 0;
        ZeroWord(x[0], carry);
      } else if carry != 0 {
        PushCarry(carry);
      }
    }

    /** Drop the zero words below and at index n. */
    method Trim(n: nat)
      requires n < x.Length == Exp2(k) && x[n] == 0
      modifies this`wds
      ensures Valid() && Value() == Val(x[..n + 1]) && wds <= n
    {
      ghost var all := x[..n + 1];
      wds := n;
      var top := n - 1;
      while top > 0 && x[top] == 0
        invariant top == wds - 1 && -1 <= top < n
        invariant forall i :: wds <= i <= n ==> all[i] == 0
      {
        wds := wds - 1;
        top := top - 1;
      }
      ValTrim(all, wds);
      assert all[..wds] == x[..wds];
    }

    /** The first n words, without leading zeros; zero has none. */
    method SetLength(n: nat)
      requires 0 < n <= x.Length == Exp2(k)
      modifies this`wds
      ensures Valid() && Value() == Val(x[..n])
    {
      ghost var all := x[..n];
      wds := n;
      while wds > 0 && x[wds - 1] == 0
        invariant wds <= n && forall i :: wds <= i < n ==> all[i] == 0
      {
        wds := wds - 1;
      }
      ValTrim(all, wds);
      assert all[..wds] == x[..wds];
    }

    /** Append a last word. */
    method PushCarry(carry: uint32)
      requires wds <= x.Length == Exp2(k) && carry != 0
      modifies this, x
      ensures Valid() && Value() == old(Value()) + carry * Pow(old(wds))
      ensures wds == old(wds) + 1 && (x == old(x) || fresh(x))
    {
      ghost var low := x[..wds];
      if wds >= x.Length {
        Grow();
      }
      ValPush(low, carry);
      x[wds] := carry;
      assert x[..wds + 1] == low + [carry];
      wds := wds + 1;
    }
  }

  /** The product of two words that are not zero is not zero. */
  lemma TopStays(now: seq<uint32>, was: seq<uint32>, i: nat, m: uint32, a: uint32, carry: uint32, y: uint64)
    requires Scaled(now, was, i, m, a, carry) && i < |was| && y == now[i] * m + carry && m > 0
    ensures now[i] == was[i] && (was[i] != 0 ==> y % 0x1_0000_0000 != 0 || y / 0x1_0000_0000 != 0)
  {
    if now[i] > 0 { Monotone(1, now[i], m); }
  }

  lemma ZeroWord(w: uint32, carry: uint32)
    requires Val([w]) + carry * Pow(1) == 0
    ensures w == 0 && carry == 0
  {
    ValPush([], w);
    assert [] + [w] == [w] && Pow(1) == 0x1_0000_0000 * Pow(0);
  }

  /** cmp: negative, zero or positive as a is less than, equal to or greater than b. */
  method Cmp(a: Bigint, b: Bigint) returns (r: int)
    requires a.Valid() && b.Valid()
    requires (a.wds == 0 ==> b.Value() > 0) && (b.wds == 0 ==> a.Value() > 0)
    ensures r < 0 <==> a.Value() < b.Value()
    ensures r > 0 <==> a.Value() > b.Value()
  {
    ghost var s: seq<uint32>, t: seq<uint32> := a.x[..a.wds], b.x[..b.wds];
    r := a.wds - b.wds;
    if r != 0 {
      CompareLengths(s, t);
      return;
    }
    var i := a.wds;
    while i > 0
      invariant 0 <= i <= |s|
      invariant forall j :: i <= j < |s| ==> s[j] == t[j]
    {
      i := i - 1;
      if a.x[i] != b.x[i] {
        if a.x[i] < b.x[i] { HighestDifference(s, t, i); } else { HighestDifference(t, s, i); }
        return if a.x[i] < b.x[i] then -1 else 1;
      }
    }
    assert s == t;
    return 0;
  }

  /** Numbers of different lengths, the longer without a leading zero unless it is one zero word. */
  lemma CompareLengths(s: seq<uint32>, t: seq<uint32>)
    requires |s| != |t|
    requires |s| > 1 ==> s[|s| - 1] != 0
    requires |t| > 1 ==> t[|t| - 1] != 0
    requires (s == [] ==> Val(t) > 0) && (t == [] ==> Val(s) > 0)
    ensures |s| < |t| <==> Val(s) < Val(t)
    ensures |s| > |t| <==> Val(s) > Val(t)
  {
    if |s| > |t| {
      if |s| > 1 { LongerIsLarger(s, t); }
    } else {
      if |t| > 1 { LongerIsLarger(t, s); }
    }
  }

  /** A number below ten times S has no more words than S when the top word of S has four leading zero bits. */
  lemma NoMoreWords(b: seq<uint32>, s: seq<uint32>)
    requires s != [] && s[|s| - 1] < 0x1000_0000 && (|b| > 1 ==> b[|b| - 1] != 0)
    requires Val(b) < 10 * Val(s)
    ensures |b| <= |s|
  {
    if |b| > |s| {
      TopBounds(s);
      TopBounds(b);
      PowGrows(|s|, |b| - 1);
      Monotone(1, b[|b| - 1], Pow(|b| - 1));
      Monotone(s[|s| - 1] + 1, 0x1000_0000, Pow(|s| - 1));
    }
  }

  /** quorem: divide by S in place, for a quotient of one digit. */
  method Quorem(b: Bigint, S: Bigint) returns (q: nat)
    requires b.Valid() && S.Valid() && b != S && b.x != S.x
    requires S.wds > 0 && 0x800_0000 <= S.x[S.wds - 1] < 0x1000_0000
    requires b.Value() < 10 * S.Value()
    modifies b`wds, b.x
    ensures b.Valid() && b.wds <= S.wds
    ensures old(b.Value()) == q * S.Value() + b.Value() && b.Value() < S.Value()
  {
    hide Val, Pow, Guess;
    var n := S.wds;
    ghost var sv: seq<uint32>, bv: seq<uint32> := S.x[..n], b.x[..b.wds];
    NoMoreWords(bv, sv);
    if b.wds < n {
      LongerIsLarger(sv, bv);
      return 0;
    }
    n := n - 1;
    q := Guess(b.x[n], S.x[n]);
    FirstGuess(bv, sv);
    if q != 0 {
      TakeMultiple(b, S, n, q);
    }
    OneMore(Val(bv), q, Val(sv));
    var c := Cmp(b, S);
    if c >= 0 {
      if b.wds < n + 1 { LongerIsLarger(sv, b.x[..b.wds]); }
      TakeMultiple(b, S, n, 1);
      q := q + 1;
    }
  }

  lemma FirstGuess(b: seq<uint32>, s: seq<uint32>)
    requires |b| == |s| > 0 && 0x800_0000 <= s[|s| - 1]
    ensures var q := Guess(b[|b| - 1], s[|s| - 1]);
            q * Val(s) <= Val(b) < (q + 2) * Val(s)
    ensures Val(s) > 0
  {
    hide Val, Pow, Guess;
    var n := |s| - 1;
    var q := Guess(b[n], s[n]);
    TopBounds(b);
    TopBounds(s);
    GuessBounds(b[n], s[n]);
    SmallQuotient(b[n], s[n], q);
    QuotientEstimate(Val(b), Val(s), b[n], s[n], Pow(n), q);
    Monotone(1, s[n], Pow(n));
  }

  lemma OneMore(b: int, q: int, s: int)
    ensures b - q * s - s == b - (q + 1) * s && (q + 2) * s == q * s + 2 * s
  {}

  /** Take q * S from b and drop the leading zero words. */
  method TakeMultiple(b: Bigint, S: Bigint, n: nat, q: uint32)
    requires b.Valid() && S.Valid() && b != S && b.x != S.x
    requires b.wds == S.wds == n + 1 && q * S.Value() <= b.Value()
    modifies b`wds, b.x
    ensures b.Valid() && b.wds <= n + 1 && b.Value() == old(b.Value()) - q * S.Value()
  {
    ghost var was, sub: seq<uint32> := b.x[..], S.x[..];
    ghost var debt := SubtractMultiple(b.x, S.x, n + 1, q);
    assert was[..n + 1] == old(b.x[..n + 1]) && sub[..n + 1] == S.x[..n + 1] && b.x[..][..n + 1] == b.x[..n + 1];
    NoDebt(b.x[..], was, sub, n + 1, q, debt);
    if b.x[n] == 0 {
      b.Trim(n);
    }
  }

  // ---------------------------------------------------------------------------
  // Shifting left

  lemma {:induction false} Exp2Add(i: nat, j: nat)
    ensures Exp2(i + j) == Exp2(i) * Exp2(j)
  {
    if i > 0 {
      Exp2Add(i - 1, j);
      Associates(2, Exp2(i - 1), Exp2(j));
    }
  }

  lemma Associates(a: int, b: int, c: int)
    ensures a * (b * c) == (a * b) * c
  {}

  lemma Exp2Word()
    ensures Exp2(32) == 0x1_0000_0000
  {
    assert Exp2(8) == 0x100;
    Exp2Add(8, 8);
    Exp2Add(16, 16);
  }

  lemma {:induction false} PowExp2(n: nat)
    ensures Pow(n) == Exp2(32 * n)
  {
    if n > 0 {
      PowExp2(n - 1);
      Exp2Word();
      Exp2Add(32, 32 * (n - 1));
    }
  }

  /** The bits of x that stay in its word when it is shifted left by k, and those that leave it. */
  function ShiftedIn(x: uint32, k: nat): int {
    x * Exp2(k) % 0x1_0000_0000
  }

  function ShiftedOut(x: uint32, k: nat): int
    requires k <= 32
  {
    x / Exp2(32 - k)
  }

  lemma SplitByHalves(x: uint32, p: nat, q: nat)
    requires p > 0 && q > 0 && q * p == 0x1_0000_0000
    ensures 0 <= x / q < p
    ensures x * p == 0x1_0000_0000 * (x / q) + (x % q) * p && (x % q) * p + p <= 0x1_0000_0000
  {
    var d, r := x / q, x % q;
    assert x == q * d + r;
    assert (q * d + r) * p == (q * p) * d + r * p;
    Monotone(r + 1, q, p);
    assert (r + 1) * p == r * p + p;
    if d >= p { Monotone(p, d, q); }
  }

  lemma ModOfSum(d: int, r: int)
    requires 0 <= r < 0x1_0000_0000
    ensures (0x1_0000_0000 * d + r) % 0x1_0000_0000 == r && (0x1_0000_0000 * d + r) / 0x1_0000_0000 == d
  {}

  /** The word `x << k | z`, whose low k bits come from z, and the bits that leave make up x * 2^k + z. */
  lemma ShiftWord(x: uint32, k: nat, z: nat)
    requires 0 < k < 32 && z < Exp2(k)
    ensures 0 <= ShiftedOut(x, k) < Exp2(k)
    ensures 0 <= ShiftedIn(x, k) && ShiftedIn(x, k) + z < 0x1_0000_0000
    ensures x * Exp2(k) + z == (ShiftedIn(x, k) + z) + 0x1_0000_0000 * ShiftedOut(x, k)
  {
    Exp2Word();
    Exp2Add(32 - k, k);
    hide Exp2;
    ShiftParts(x, Exp2(k), Exp2(32 - k));
  }

  lemma ShiftParts(x: uint32, p: nat, q: nat)
    requires p > 0 && q > 0 && q * p == 0x1_0000_0000
    ensures 0 <= x / q < p
    ensures 0 <= x * p % 0x1_0000_0000 && x * p % 0x1_0000_0000 + p <= 0x1_0000_0000
    ensures x * p == x * p % 0x1_0000_0000 + 0x1_0000_0000 * (x / q)
  {
    SplitByHalves(x, p, q);
    ModOfSum(x / q, (x % q) * p);
  }

  /** The words of out from n on are those of src shifted left, short of the bits z. */
  ghost predicate ShiftedBy(out: seq<uint32>, src: seq<uint32>, n: nat, i: nat, m: nat, z: nat) {
    && n + i <= |out| && i <= |src|
    && Val(out[..n + i]) + z * Pow(n + i) == m * (Val(src[..i]) * Pow(n))
  }

  lemma Spread(v: int, w: int, pi: int, pn: int)
    ensures (v + w * pi) * pn == v * pn + w * (pi * pn)
  {}

  lemma ShiftedByStep(out: seq<uint32>, src: seq<uint32>, n: nat, i: nat, m: nat, z: nat, w: uint32, z': nat)
    requires ShiftedBy(out, src, n, i, m, z) && n + i < |out| && i < |src|
    requires src[i] * m + z == w + 0x1_0000_0000 * z'
    ensures ShiftedBy(out[n + i := w], src, n, i + 1, m, z')
  {
    hide Val, Pow;
    var next := out[n + i := w];
    ValAt(next, n + i);
    assert next[..n + i] == out[..n + i];
    ValAt(src, i);
    PowAdd(i, n);
    Spread(Val(src[..i]), src[i], Pow(i), Pow(n));
    CarryStep(Val(out[..n + i]), w, z', src[i], m, z, Pow(n + i), Val(src[..i]) * Pow(n), 0);
    PowNext(n + i);
  }

  lemma PowNext(i: nat)
    ensures Pow(i + 1) == 0x1_0000_0000 * Pow(i)
  {}

  lemma NothingShifted(out: seq<uint32>, src: seq<uint32>, n: nat, m: nat)
    requires n <= |out| && forall i :: 0 <= i < n ==> out[i] == 0
    ensures ShiftedBy(out, src, n, 0, m, 0)
  {
    ValZeros(out[..n]);
  }

  /** The loop of lshift for a shift that is not a multiple of 32. */
  method ShiftWords(out: array<uint32>, src: array<uint32>, n: nat, w: nat, k: nat) returns (z: uint32)
    requires out != src && n + w <= out.Length && 0 < w <= src.Length && 0 < k < 32 && src[w - 1] != 0
    requires forall i :: 0 <= i < n ==> out[i] == 0
    modifies out
    ensures ShiftedBy(out[..], src[..], n, w, Exp2(k), z)
    ensures out[n + w - 1] != 0 || z != 0
  {
    ghost var words: seq<uint32> := src[..];
    hide ShiftedBy, Exp2, ShiftedIn, ShiftedOut;
    NothingShifted(out[..], words, n, Exp2(k));
    z := 0;
    var i := 0;
    while i < w
      invariant 0 <= i <= w && z < Exp2(k)
      invariant ShiftedBy(out[..], words, n, i, Exp2(k), z)
      invariant i == w ==> out[n + w - 1] != 0 || z != 0
    {
      ShiftWord(src[i], k, z);
      ghost var was: seq<uint32> := out[..];
      var low: uint32, high: uint32 := ShiftedIn(src[i], k) + z, ShiftedOut(src[i], k);
      ShiftedByStep(was, words, n, i, Exp2(k), z, low, high);
      if src[i] != 0 { Monotone(1, src[i], Exp2(k)); }
      out[n + i] := low;
      assert out[..] == was[n + i := low];
      z := high;
      i := i + 1;
    }
  }

  /** The loop of lshift for a shift by whole words. */
  method CopyWords(out: array<uint32>, src: array<uint32>, n: nat, w: nat)
    requires out != src && n + w <= out.Length && w <= src.Length
    requires forall i :: 0 <= i < n ==> out[i] == 0
    modifies out
    ensures ShiftedBy(out[..], src[..], n, w, 1, 0)
    ensures w > 0 ==> out[n + w - 1] == src[w - 1]
  {
    ghost var words: seq<uint32> := src[..];
    hide ShiftedBy;
    NothingShifted(out[..], words, n, 1);
    var i := 0;
    while i < w
      invariant 0 <= i <= w
      invariant ShiftedBy(out[..], words, n, i, 1, 0)
      invariant i > 0 ==> out[n + i - 1] == src[i - 1]
    {
      ghost var was: seq<uint32> := out[..];
      ShiftedByStep(was, words, n, i, 1, 0, src[i], 0);
      out[n + i] := src[i];
      assert out[..] == was[n + i := src[i]];
      i := i + 1;
    }
  }

  /** Balloc of at least `size` words, doubling from the size class k0; the first n words are set to zero. */
  method BallocFor(k0: nat, size: nat, n: nat) returns (b: Bigint)
    requires n <= size
    ensures fresh(b) && fresh(b.x) && size <= b.x.Length == Exp2(b.k) && b.wds == 0 && !b.sign
    ensures forall j :: 0 <= j < n ==> b.x[j] == 0
  {
    var k1, i := k0, Exp2(k0);
    while size > i
      invariant i == Exp2(k1)
      decreases size - i
    {
      k1 := k1 + 1;
      i := 2 * i;
    }
    b := new Bigint.Balloc(k1);
    i := 0;
    while i < n
      invariant 0 <= i <= n
      invariant forall j :: 0 <= j < i ==> b.x[j] == 0
      modifies b.x
    {
      b.x[i] := 0;
      i := i + 1;
    }
  }

  /** lshift: a new number, b shifted left by k bits. */
  method LShift(b: Bigint, k: nat) returns (b1: Bigint)
    requires b.Valid() && b.Value() > 0
    ensures fresh(b1) && fresh(b1.x) && b1.Valid() && b1.wds > 0 && !b1.sign
    ensures b1.Value() == b.Value() * Exp2(k)
  {
    hide Val, Pow, Exp2, ShiftedBy;
    ghost var words: seq<uint32> := b.x[..];
    assert words[..b.wds] == b.x[..b.wds];
    NonZero(words[..b.wds]);
    var n := k / 32;
    var w := n + b.wds;
    b1 := BallocFor(b.k, w + 1, n);
    if k % 32 != 0 {
      var z := ShiftWords(b1.x, b.x, n, b.wds, k % 32);
      ShiftResult(b1.x[..], words, n, b.wds, k, z);
      ghost var low: seq<uint32> := b1.x[..w];
      assert b1.x[..][..w] == low;
      b1.x[w] := z;
      assert b1.x[..w] == low && b1.x[..w + 1] == low + [z];
      ValPush(low, z);
      b1.wds := if z != 0 then w + 1 else w;
    } else {
      CopyWords(b1.x, b.x, n, b.wds);
      ShiftByWords(b1.x[..], words, n, b.wds, k);
      assert b1.x[..][..w] == b1.x[..w];
      b1.wds := w;
    }
  }

  lemma NonZero(s: seq<uint32>)
    requires Val(s) > 0 && (|s| > 1 ==> s[|s| - 1] != 0)
    ensures s != [] && s[|s| - 1] != 0
  {
    if |s| == 1 {
      ValPush([], s[0]);
      assert s == [] + [s[0]];
    }
  }

  lemma ShiftResult(out: seq<uint32>, src: seq<uint32>, n: nat, w: nat, k: nat, z: nat)
    requires n == k / 32 && ShiftedBy(out, src, n, w, Exp2(k % 32), z)
    ensures Val(out[..n + w]) + z * Pow(n + w) == Val(src[..w]) * Exp2(k)
  {
    PowExp2(n);
    Exp2Add(32 * n, k % 32);
    assert 32 * n + k % 32 == k;
    hide Val, Pow, Exp2;
    Regroup(Exp2(k % 32), Val(src[..w]), Pow(n));
  }

  lemma ShiftByWords(out: seq<uint32>, src: seq<uint32>, n: nat, w: nat, k: nat)
    requires n == k / 32 && k % 32 == 0 && ShiftedBy(out, src, n, w, 1, 0)
    ensures Val(out[..n + w]) == Val(src[..w]) * Exp2(k)
  {
    assert Exp2(0) == 1;
    ShiftResult(out, src, n, w, k, 0);
  }

  lemma Regroup(a: int, v: int, p: int)
    ensures a * (v * p) == v * (p * a)
  {}

  // ---------------------------------------------------------------------------
  // Products

  /** The words of now from j on have y times the words of a below i added to those of was, short of a carry. */
  ghost predicate Added(now: seq<uint32>, was: seq<uint32>, a: seq<uint32>, j: nat, i: nat, y: uint32, carry: uint32) {
    && j + i <= |now| == |was| && i <= |a| && now[j + i..] == was[j + i..]
    && Val(now[..j + i]) + carry * Pow(j + i) == Val(was[..j + i]) + y * (Val(a[..i]) * Pow(j))
  }

  lemma NothingAdded(was: seq<uint32>, a: seq<uint32>, j: nat, y: uint32)
    requires j <= |was|
    ensures Added(was, was, a, j, 0, y, 0)
  {}

  lemma ProductAndWord(x: uint32, m: uint32, w: uint32, carry: uint32)
    ensures x * m + w + carry < 0x1_0000_0000_0000_0000
  {
    Monotone(x, 0xFFFF_FFFF, m);
  }

  lemma AddedStep(now: seq<uint32>, was: seq<uint32>, a: seq<uint32>, j: nat, i: nat, y: uint32, carry: uint32,
                  z: uint64)
    requires Added(now, was, a, j, i, y, carry) && j + i < |was| && i < |a| && z == a[i] * y + now[j + i] + carry
    ensures z / 0x1_0000_0000 < 0x1_0000_0000
    ensures Added(now[j + i := z % 0x1_0000_0000], was, a, j, i + 1, y, z / 0x1_0000_0000)
  {
    hide Val, Pow;
    var p := Pow(j + i);
    var w: uint32 := z % 0x1_0000_0000;
    var next := now[j + i := w];
    Split64(z);
    assert now[j + i] == now[j + i..][0] == was[j + i];
    assert next[j + i + 1..] == was[j + i + 1..] by {
      forall t | j + i + 1 <= t < |was| ensures next[t] == was[t] { assert now[t] == now[j + i..][t - j - i]; }
    }
    ValAt(next, j + i);
    assert next[..j + i] == now[..j + i];
    ValAt(was, j + i);
    ValAt(a, i);
    PowAdd(i, j);
    Spread(Val(a[..i]), a[i], Pow(i), Pow(j));
    PowNext(j + i);
    AddStep(w, z / 0x1_0000_0000, a[i], y, was[j + i], carry, p, Val(a[..i]) * Pow(j));
  }

  lemma AddStep(w: int, carry': int, x: int, y: int, below: int, carry: int, p: int, sum: int)
    requires w + 0x1_0000_0000 * carry' == x * y + below + carry
    ensures w * p + carry' * (0x1_0000_0000 * p) == below * p + carry * p + y * (sum + x * p) - y * sum
  {
    assert w * p + carry' * (0x1_0000_0000 * p) == (w + 0x1_0000_0000 * carry') * p;
    assert (x * y + below + carry) * p == y * (x * p) + below * p + carry * p;
  }

  /** The inner loop of mult: add y times the first n words of a to the words of c from j on. */
  method AddMultiple(c: array<uint32>, a: array<uint32>, n: nat, j: nat, y: uint32) returns (carry: uint32)
    requires c != a && j + n <= c.Length && n <= a.Length
    modifies c
    ensures Added(c[..], old(c[..]), a[..], j, n, y, carry)
  {
    hide Added;
    ghost var was: seq<uint32>, words: seq<uint32> := c[..], a[..];
    NothingAdded(was, words, j, y);
    carry := 0;
    var i := 0;
    while i < n
      invariant 0 <= i <= n
      invariant Added(c[..], was, words, j, i, y, carry)
    {
      ProductAndWord(a[i], y, c[j + i], carry);
      var z: uint64 := a[i] * y + c[j + i] + carry;
      ghost var now: seq<uint32> := c[..];
      AddedStep(now, was, words, j, i, y, carry, z);
      var low: uint32, high: uint32 := z % 0x1_0000_0000, z / 0x1_0000_0000;
      c[j + i], carry := low, high;
      assert c[..] == now[j + i := low];
      i := i + 1;
    }
  }

  /** The words of c hold a times the words of b below j; those above are still zero. */
  ghost predicate Multiplied(c: seq<uint32>, a: seq<uint32>, b: seq<uint32>, j: nat) {
    && |c| == |a| + |b| && j <= |b|
    && Val(c[..|a| + j]) == Times(Val(a), Val(b[..j]))
    && forall t :: |a| + j <= t < |c| ==> c[t] == 0
  }

  lemma NothingMultiplied(c: seq<uint32>, a: seq<uint32>, b: seq<uint32>)
    requires |c| == |a| + |b| && forall t :: 0 <= t < |c| ==> c[t] == 0
    ensures Multiplied(c, a, b, 0)
  {
    ValZeros(c[..|a|]);
    assert b[..0] == [];
  }

  lemma MultipliedZero(c: seq<uint32>, a: seq<uint32>, b: seq<uint32>, j: nat)
    requires Multiplied(c, a, b, j) && j < |b| && b[j] == 0
    ensures Multiplied(c, a, b, j + 1)
  {
    hide Val, Pow;
    ValAt(b, j);
    ValAt(c, |a| + j);
  }

  lemma MultipliedStep(was: seq<uint32>, now: seq<uint32>, a: seq<uint32>, b: seq<uint32>, j: nat, carry: uint32)
    requires Multiplied(was, a, b, j) && j < |b| && Added(now, was, a, j, |a|, b[j], carry)
    ensures Multiplied(now[|a| + j := carry], a, b, j + 1)
  {
    hide Val, Pow;
    var next := now[|a| + j := carry];
    ValAt(next, |a| + j);
    assert next[..|a| + j] == now[..|a| + j];
    ValAt(b, j);
    assert a[..|a|] == a;
    ProductStep(Val(a), Val(b[..j]), b[j], Pow(j));
    forall t | |a| + j + 1 <= t < |next| ensures next[t] == 0 {
      assert now[t] == now[|a| + j..][t - |a| - j] == was[|a| + j..][t - |a| - j];
    }
  }

  lemma ProductStep(a: int, b: int, y: int, p: int)
    ensures a * (b + y * p) == a * b + y * (a * p)
  {}

  /** The loops of mult, over words. */
  method MultiplyInto(c: array<uint32>, a: array<uint32>, wa: nat, b: array<uint32>, wb: nat)
    requires c != a && c != b && wa <= a.Length && wb <= b.Length && wa + wb <= c.Length
    requires forall t :: 0 <= t < wa + wb ==> c[t] == 0
    modifies c
    ensures Val(c[..wa + wb]) == Val(a[..wa]) * Val(b[..wb])
  {
    hide Multiplied, Added, Val, Pow;
    ghost var x: seq<uint32>, y: seq<uint32> := a[..wa], b[..wb];
    NothingMultiplied(c[..wa + wb], x, y);
    var j := 0;
    while j < wb
      invariant 0 <= j <= wb
      invariant Multiplied(c[..wa + wb], x, y, j)
    {
      ghost var was: seq<uint32> := c[..wa + wb];
      if b[j] != 0 {
        ghost var all: seq<uint32> := c[..];
        var carry := AddMultiple(c, a, wa, j, b[j]);
        ghost var now: seq<uint32> := c[..wa + wb];
        AddedWithin(c[..], all, a[..], j, wa, b[j], carry, wa + wb);
        MultipliedStep(was, now, x, y, j, carry);
        c[wa + j] := carry;
        assert c[..wa + wb] == now[wa + j := carry];
      } else {
        MultipliedZero(was, x, y, j);
      }
      j := j + 1;
    }
    MultipliedAll(c[..wa + wb], x, y);
  }

  lemma MultipliedAll(c: seq<uint32>, a: seq<uint32>, b: seq<uint32>)
    requires Multiplied(c, a, b, |b|)
    ensures Val(c) == Times(Val(a), Val(b))
  {
    hide Val;
    assert c[..|a| + |b|] == c;
    assert b[..|b|] == b;
  }

  /** Only the words in use matter. */
  lemma AddedWithin(now: seq<uint32>, was: seq<uint32>, a: seq<uint32>, j: nat, i: nat, y: uint32,
                    carry: uint32, n: nat)
    requires Added(now, was, a, j, i, y, carry) && j + i <= n <= |was|
    ensures Added(now[..n], was[..n], a[..i], j, i, y, carry)
  {
    assert now[..n][..j + i] == now[..j + i] && was[..n][..j + i] == was[..j + i] && a[..i][..i] == a[..i];
    assert now[..n][j + i..] == now[j + i..][..n - j - i] == was[..n][j + i..];
  }

  /** Room for a product of `size` words, all zero: the size class k, or the next one. */
  method BallocZeros(k: nat, size: nat) returns (c: Bigint)
    requires size <= 2 * Exp2(k)
    ensures fresh(c) && fresh(c.x) && size <= c.x.Length == Exp2(c.k) && c.wds == 0 && !c.sign
    ensures forall t :: 0 <= t < size ==> c.x[t] == 0
  {
    assert Exp2(k + 1) == 2 * Exp2(k);
    c := new Bigint.Balloc(if size > Exp2(k) then k + 1 else k);
    var i := 0;
    while i < size
      invariant 0 <= i <= size
      invariant forall t :: 0 <= t < i ==> c.x[t] == 0
      modifies c.x
    {
      c.x[i] := 0;
      i := i + 1;
    }
  }

  /** mult: a new number, the product. */
  method Mult(a0: Bigint, b0: Bigint) returns (c: Bigint)
    requires a0.Valid() && b0.Valid() && a0.wds > 0 && b0.wds > 0
    ensures fresh(c) && fresh(c.x) && c.Valid() && !c.sign && c.Value() == a0.Value() * b0.Value()
    ensures a0.Value() > 0 && b0.Value() > 0 ==> c.wds > 0
  {
    hide Val, Pow, Exp2;
    var a, b := a0, b0;
    if a.wds < b.wds {
      a, b := b, a;
    }
    var wc := a.wds + b.wds;
    c := BallocZeros(a.k, wc);
    MultiplyInto(c.x, a.x, a.wds, b.x, b.wds);
    c.SetLength(wc);
    Commutes(a.Value(), b.Value());
    ZeroTimes(a.x[..a.wds], b.x[..b.wds], c.x[..c.wds]);
  }

  lemma Commutes(a: int, b: int)
    ensures a * b == b * a
  {}

  lemma ZeroTimes(a: seq<uint32>, b: seq<uint32>, c: seq<uint32>)
    requires Val(c) == Val(a) * Val(b)
    ensures Val(a) > 0 && Val(b) > 0 ==> c != []
  {
    if Val(a) > 0 && Val(b) > 0 { Monotone(1, Val(a), Val(b)); }
  }

  // ---------------------------------------------------------------------------
  // Differences

  /** The lowest i words of b, or all of them. */
  function Low(b: seq<uint32>, i: nat): seq<uint32> {
    if i <= |b| then b[..i] else b
  }

  function WordOf(b: seq<uint32>, i: nat): uint32 {
    if i < |b| then b[i] else 0
  }

  /** The words of c below i are those of a - b, short of a borrow. */
  ghost predicate Subtracted(c: seq<uint32>, a: seq<uint32>, b: seq<uint32>, i: nat, borrow: nat) {
    && i <= |c| && i <= |a|
    && Val(c[..i]) + Val(Low(b, i)) == Val(a[..i]) + Times(borrow, Pow(i))
  }

  lemma LowStep(b: seq<uint32>, i: nat)
    ensures Val(Low(b, i + 1)) == Val(Low(b, i)) + WordOf(b, i) * Pow(i)
  {
    if i < |b| { ValAt(b, i); } else if i == |b| { assert b[..i] == b; }
  }

  lemma SubtractedStep(c: seq<uint32>, a: seq<uint32>, b: seq<uint32>, i: nat, borrow: nat)
    requires borrow <= 1 && Subtracted(c, a, b, i, borrow) && i < |c| && i < |a|
    ensures var z := Minus64(a[i], WordOf(b, i), borrow);
            Subtracted(c[i := z % 0x1_0000_0000], a, b, i + 1, z / 0x1_0000_0000 % 2)
  {
    hide Val, Pow, Low, WordOf, Minus64;
    var w := WordOf(b, i);
    var z := Minus64(a[i], w, borrow);
    var low: uint32, borrow' := z % 0x1_0000_0000, z / 0x1_0000_0000 % 2;
    BorrowBit(a[i], w, borrow);
    BorrowOne(Val(c[..i]), low, a[i], w, borrow, borrow', Pow(i), Val(a[..i]), Val(Low(b, i)));
    ValAt(a, i);
    ValAt(c[i := low], i);
    assert c[i := low][..i] == c[..i];
    LowStep(b, i);
    PowNext(i);
  }

  lemma BorrowOne(low: int, w: int, x: int, y: int, borrow: int, borrow': int, p: int, src: int, sub: int)
    requires low + sub == src + borrow * p && w == x - y - borrow + 0x1_0000_0000 * borrow'
    ensures (low + w * p) + (sub + y * p) == (src + x * p) + borrow' * (0x1_0000_0000 * p)
  {
    assert w * p == x * p - y * p - borrow * p + borrow' * (0x1_0000_0000 * p);
  }

  lemma NothingSubtracted(c: seq<uint32>, a: seq<uint32>, b: seq<uint32>)
    ensures Subtracted(c, a, b, 0, 0)
  {}

  /** a is the larger, so nothing is borrowed at the end. */
  lemma SubtractedAll(c: seq<uint32>, a: seq<uint32>, b: seq<uint32>, borrow: nat)
    requires |c| == |a| >= |b| && Subtracted(c, a, b, |a|, borrow) && Val(b) <= Val(a)
    ensures Val(c) == Val(a) - Val(b)
  {
    hide Times, Low;
    var n := |a|;
    var p, vc, va, vb := Pow(n), Val(c), Val(a), Val(b);
    assert vc + vb == va + Times(borrow, p) by {
      TakeAll(c, n);
      TakeAll(a, n);
      LowAll(b, n);
    }
    assert vc < p by { ValBound(c); }
    TimesPositive(borrow, p);
  }

  lemma TakeAll(s: seq<uint32>, n: nat)
    requires n == |s|
    ensures s[..n] == s
  {}

  lemma LowAll(b: seq<uint32>, n: nat)
    requires |b| <= n
    ensures Low(b, n) == b
  {
    if n == |b| { TakeAll(b, n); }
  }

  lemma TimesPositive(a: nat, b: nat)
    ensures if a == 0 then Times(a, b) == 0 else Times(a, b) >= b
  {
    if a > 0 { Monotone(1, a, b); }
  }

  /** The loops of diff. */
  method SubtractInto(c: array<uint32>, a: array<uint32>, wa: nat, b: array<uint32>, wb: nat)
    requires c != a && c != b && wb <= wa <= a.Length && wa <= c.Length && 0 < wb <= b.Length
    requires Val(b[..wb]) <= Val(a[..wa])
    modifies c
    ensures Val(c[..wa]) == Val(a[..wa]) - Val(b[..wb])
  {
    hide Subtracted, Val, Pow;
    ghost var x: seq<uint32>, y: seq<uint32> := a[..wa], b[..wb];
    NothingSubtracted(c[..wa], x, y);
    var i, borrow := 0, 0;
    while i < wb
      invariant 0 <= i <= wb && 0 <= borrow <= 1
      invariant Subtracted(c[..wa], x, y, i, borrow)
    {
      ghost var was: seq<uint32> := c[..wa];
      SubtractedStep(was, x, y, i, borrow);
      var z := Minus64(a[i], b[i], borrow);
      var low: uint32 := z % 0x1_0000_0000;
      c[i], borrow := low, z / 0x1_0000_0000 % 2;
      assert c[..wa] == was[i := low];
      i := i + 1;
    }
    while i < wa
      invariant wb <= i <= wa && 0 <= borrow <= 1
      invariant Subtracted(c[..wa], x, y, i, borrow)
    {
      ghost var was: seq<uint32> := c[..wa];
      SubtractedStep(was, x, y, i, borrow);
      var z := Minus64(a[i], 0, borrow);
      var low: uint32 := z % 0x1_0000_0000;
      c[i], borrow := low, z / 0x1_0000_0000 % 2;
      assert c[..wa] == was[i := low];
      i := i + 1;
    }
    SubtractedAll(c[..wa], x, y, borrow);
  }

  /** diff: a new number, the distance between a and b, and whether a is the smaller. */
  method Diff(a0: Bigint, b0: Bigint) returns (c: Bigint)
    requires a0.Valid() && b0.Valid() && a0.wds > 0 && b0.wds > 0
    ensures fresh(c) && fresh(c.x) && c.Valid()
    ensures c.sign <==> a0.Value() < b0.Value()
    ensures c.Value() == if c.sign then b0.Value() - a0.Value() else a0.Value() - b0.Value()
  {
    hide Val, Pow;
    var order := Cmp(a0, b0);
    if order == 0 {
      c := new Bigint.Balloc(0);
      c.wds := 1;
      c.x[0] := 0;
      assert c.x[..1] == [0];
      ValZeros([0]);
      return;
    }
    var a, b := a0, b0;
    if order < 0 {
      a, b := b, a;
    }
    if a.wds < b.wds { LongerIsLarger(b.x[..b.wds], a.x[..a.wds]); }
    c := new Bigint.Balloc(a.k);
    c.sign := order < 0;
    SubtractInto(c.x, a.x, a.wds, b.x, b.wds);
    c.SetLength(a.wds);
  }
}
