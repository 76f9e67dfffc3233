/**
  The digit generation of dtoa.c in mode 2, on exact integers: scaling of numerator and
  denominator, the digit loop over quorem, and the final rounding in the digit buffer.
 */
module Dtoa {

  import opened Basics
  import opened Bignum

  function Exp10(k: nat): (p: nat)
    ensures p > 0
  {
    if k == 0 then 1 else 10 * Exp10(k - 1)
  }

  // ---------------------------------------------------------------------------
  // Rounding

  /** n / d rounded to the nearest integer, a tie to the even one. */
  function RoundHalfEven(n: nat, d: nat): nat
    requires d > 0
  {
    n / d + if 2 * (n % d) > d || (2 * (n % d) == d && (n / d) % 2 == 1) then 1 else 0
  }

  function Distance(a: int, b: int): nat {
    if a < b then b - a else a - b
  }

  lemma Quotients(n: nat, d: nat, q: nat, r: nat)
    requires d > 0 && n == q * d + r && r < d
    ensures n / d == q && n % d == r
  {
    var q' := n / d;
    assert n == q' * d + n % d;
    if q < q' { Monotone(q + 1, q', d); }
    if q' < q { Monotone(q' + 1, q, d); }
  }

  /** RoundHalfEven is the nearest integer, and of two equally near ones the even one. */
  lemma RoundsToNearest(n: nat, d: nat, m: int)
    requires d > 0
    ensures var r := RoundHalfEven(n, d);
            && Distance(n, r * d) <= Distance(n, m * d)
            && (m != r && Distance(n, r * d) == Distance(n, m * d) ==> r % 2 == 0)
  {
    var q, rest := n / d, n % d;
    assert n == q * d + rest;
    assert (q + 1) * d == q * d + d;
    var r := RoundHalfEven(n, d);
    if m < q {
      MonotoneInt(m, q - 1, d);
      assert (q - 1) * d == q * d - d;
    } else if m > q + 1 {
      MonotoneInt(q + 2, m, d);
      assert (q + 2) * d == q * d + 2 * d;
    }
  }

  lemma MonotoneInt(a: int, b: int, p: nat)
    requires a <= b
    ensures a * p <= b * p
  {}

  lemma RoundedFrom(n: nat, d: nat, q: nat, r: nat)
    requires d > 0 && n == q * d + r && r < d
    ensures RoundHalfEven(n, d) == q + if 2 * r > d || (2 * r == d && q % 2 == 1) then 1 else 0
  {
    Quotients(n, d, q, r);
  }

  /** Rounding depends on the ratio only. */
  lemma RoundScaled(n: nat, d: nat, c: nat)
    requires d > 0 && c > 0
    ensures c * d > 0 && RoundHalfEven(c * n, c * d) == RoundHalfEven(n, d)
  {
    var q, r := n / d, n % d;
    ScaledDivision(n, d, c, q, r);
    CompareScaled(2 * r, d, c);
    hide RoundHalfEven;
    RoundedFrom(c * n, c * d, q, c * r);
    RoundedFrom(n, d, q, r);
  }

  lemma ScaledDivision(n: nat, d: nat, c: nat, q: nat, r: nat)
    requires d > 0 && c > 0 && q == n / d && r == n % d
    ensures n == q * d + r && 0 < c * d && c * r < c * d && c * n == q * (c * d) + c * r && 2 * (c * r) == c * (2 * r)
  {
    assert n == q * d + r;
    ScaleSum(c, q, d, r);
    CompareScaled(d, r, c);
    CompareScaled(d, 0, c);
  }

  lemma ScaleSum(c: nat, q: nat, d: nat, r: nat)
    ensures c * (q * d + r) == q * (c * d) + c * r
  {}

  lemma CompareScaled(a: int, b: int, c: nat)
    requires c > 0
    ensures c * a > c * b <==> a > b
    ensures c * a == c * b <==> a == b
  {
    if a > b { MonotoneInt(b + 1, a, c); }
    if a < b { MonotoneInt(a + 1, b, c); }
  }

  // ---------------------------------------------------------------------------
  // The digit buffer: characters '0' (48) to '9' (57)

  predicate IsDigits(s: seq<int>) {
    forall i :: 0 <= i < |s| ==> 48 <= s[i] <= 57
  }

  /** The number a run of digits spells. */
  function Number(s: seq<int>): int {
    if s == [] then 0 else Number(s[..|s| - 1]) * 10 + (s[|s| - 1] - 48)
  }

  lemma NumberAt(s: seq<int>, i: nat)
    requires i < |s|
    ensures Number(s[..i + 1]) == Number(s[..i]) * 10 + (s[i] - 48)
  {
    assert s[..i + 1][..i] == s[..i];
  }

  lemma {:induction false} NumberNonNegative(s: seq<int>)
    requires IsDigits(s)
    ensures Number(s) >= 0
  {
    if s != [] { NumberNonNegative(s[..|s| - 1]); }
  }

  /** A decimal without leading or trailing zeros. */
  ghost predicate Clean(s: seq<int>) {
    s != [] && IsDigits(s) && s[0] != 48 && s[|s| - 1] != 48
  }

  /** The number of digits left when the nines at the end are dropped. */
  ghost predicate NinesDropped(all: seq<int>, n: nat) {
    n <= |all| && Number(all) + 1 == (Number(all[..n]) + 1) * Exp10(|all| - n)
  }

  lemma NoneDropped(all: seq<int>)
    ensures NinesDropped(all, |all|)
  {
    assert all[..|all|] == all && Exp10(0) == 1;
  }

  lemma NineDropped(all: seq<int>, n: nat)
    requires 0 < n && NinesDropped(all, n) && all[n - 1] == 57
    ensures NinesDropped(all, n - 1)
  {
    NumberAt(all, n - 1);
    NineTurnsOver(Number(all[..n - 1]), Exp10(|all| - n));
  }

  /** Raising the digit before the nines. */
  lemma DigitRaised(all: seq<int>, n: nat, now: seq<int>)
    requires 0 < n && NinesDropped(all, n) && |now| == n && now[..n - 1] == all[..n - 1] && now[n - 1] == all[n - 1] + 1
    ensures Number(now) * Exp10(|all| - n) == Number(all) + 1
  {
    NumberAt(all, n - 1);
  }

  lemma AllNines(all: seq<int>)
    requires NinesDropped(all, 0)
    ensures Number(all) + 1 == Exp10(|all|)
  {}

  /** The loop after `roundoff`: add one to the last digit, dropping the nines it turns over. */
  method RoundOff(s: array<int>, len: nat) returns (n: nat, carry: bool)
    requires 0 < len <= s.Length && IsDigits(s[..len]) && s[0] != 48
    modifies s
    ensures n <= len && Clean(s[..n])
    ensures carry ==> s[..n] == [49] && Number(old(s[..len])) + 1 == Exp10(len)
    ensures !carry ==> Number(s[..n]) * Exp10(len - n) == Number(old(s[..len])) + 1
  {
    hide Number, Exp10, NinesDropped;
    ghost var all := s[..len];
    NoneDropped(all);
    n := len;
    while s[n - 1] == 57
      invariant 0 < n <= len && s[..len] == all && NinesDropped(all, n)
      decreases n
    {
      assert all[n - 1] == 57;
      NineDropped(all, n);
      n := n - 1;
      if n == 0 {
        AllNines(all);
        s[0] := 49;
        assert s[..1] == [49];
        return 1, true;
      }
    }
    ghost var init := s[..n - 1];
    assert init == all[..n - 1] && s[n - 1] == all[n - 1];
    s[n - 1] := s[n - 1] + 1;
    assert s[..n - 1] == init == all[..n - 1] && s[..n][..n - 1] == s[..n - 1];
    DigitRaised(all, n, s[..n]);
    return n, false;
  }

  lemma NineTurnsOver(init: int, p: int)
    ensures (init * 10 + 9 + 1) * p == (init + 1) * (10 * p)
  {}

  ghost predicate ZerosDropped(all: seq<int>, n: nat) {
    n <= |all| && Number(all[..n]) * Exp10(|all| - n) == Number(all)
  }

  lemma NoZeroDropped(all: seq<int>)
    ensures ZerosDropped(all, |all|)
  {
    assert all[..|all|] == all && Exp10(0) == 1;
  }

  lemma ZeroDropped(all: seq<int>, n: nat)
    requires 0 < n && ZerosDropped(all, n) && all[n - 1] == 48
    ensures ZerosDropped(all, n - 1)
  {
    NumberAt(all, n - 1);
    ZeroMoves(Number(all[..n - 1]), Exp10(|all| - n));
  }

  lemma ZeroMoves(init: int, p: int)
    ensures init * 10 * p == init * (10 * p)
  {}

  /** The loop that drops trailing zeros when the digits stay as they are. */
  method TrimZeros(s: array<int>, len: nat) returns (n: nat)
    requires 0 < len <= s.Length && IsDigits(s[..len]) && s[0] != 48
    ensures n <= len && Clean(s[..n])
    ensures Number(s[..n]) * Exp10(len - n) == Number(s[..len])
  {
    hide Number, Exp10, ZerosDropped;
    ghost var all := s[..len];
    NoZeroDropped(all);
    n := len;
    while s[n - 1] == 48
      invariant 0 < n <= len && ZerosDropped(all, n)
      decreases n
    {
      assert all[n - 1] == 48;
      ZeroDropped(all, n);
      n := n - 1;
    }
    assert all[..n] == s[..n];
    ZerosGone(all, n);
  }

  lemma ZerosGone(all: seq<int>, n: nat)
    requires ZerosDropped(all, n)
    ensures n <= |all| && Number(all[..n]) * Exp10(|all| - n) == Number(all)
  {}

  // ---------------------------------------------------------------------------
  // The digit loop

  /** `!b->x[0] && b->wds <= 1` */
  lemma ZeroTest(b: Bigint)
    requires b.Valid()
    ensures b.x[0] == 0 && b.wds <= 1 <==> b.Value() == 0
  {
    if b.wds == 1 {
      ValPush([], b.x[0]);
      assert b.x[..1] == [] + [b.x[0]];
    } else if b.wds > 1 {
      TopBounds(b.x[..b.wds]);
      Monotone(1, b.x[b.wds - 1], Pow(b.wds - 1));
    }
  }

  /** After i digits: what they spell, and the remainder, make up num * 10^(i - 1). */
  ghost predicate Divided(num: nat, den: nat, i: nat, digits: int, rest: nat) {
    0 < i && num * Exp10(i - 1) == digits * den + rest
  }

  /** Before digit i: b is what it will be divided from. */
  ghost predicate Dividing(num: nat, den: nat, i: nat, digits: int, b: nat) {
    0 < i && num * Exp10(i - 1) == digits * 10 * den + b
  }

  lemma FirstDividing(num: nat, den: nat)
    ensures Dividing(num, den, 1, Number([]), num)
  {
    assert Exp10(0) == 1;
  }

  lemma DivideDigit(num: nat, den: nat, i: nat, digits: int, b: nat, q: int, rest: nat)
    requires Dividing(num, den, i, digits, b) && b == q * den + rest
    ensures Divided(num, den, i, digits * 10 + q, rest)
  {
    assert (digits * 10 + q) * den == digits * 10 * den + q * den;
  }

  lemma NextDigit(num: nat, den: nat, i: nat, digits: int, rest: nat)
    requires Divided(num, den, i, digits, rest)
    ensures Dividing(num, den, i + 1, digits, rest * 10)
  {
    var p := Exp10(i - 1);
    assert Exp10(i) == 10 * p;
    assert num * (10 * p) == 10 * (num * p) && digits * 10 * den == 10 * (digits * den);
  }

  /** A quotient of a number below ten times the divisor is a digit. */
  lemma IsDigit(b: nat, den: nat, q: nat, rest: nat)
    requires b == q * den + rest && rest < den && b < 10 * den
    ensures q <= 9 && (q == 0 <==> b < den)
  {
    if q > 9 { Monotone(10, q, den); }
    if q > 0 { Monotone(1, q, den); }
  }

  /** The digits found so far, rounded as the remainder says, are num / den to that many digits. */
  lemma DividedRounds(num: nat, den: nat, i: nat, digits: nat, rest: nat)
    requires Divided(num, den, i, digits, rest) && rest < den
    ensures RoundHalfEven(num * Exp10(i - 1), den)
         == digits + if 2 * rest > den || (2 * rest == den && digits % 2 == 1) then 1 else 0
  {
    RoundedFrom(num * Exp10(i - 1), den, digits, rest);
  }

  /** A division that comes out even needs no more digits. */
  lemma DividedExactly(num: nat, den: nat, i: nat, digits: nat, ilim: nat)
    requires Divided(num, den, i, digits, 0) && i <= ilim && den > 0
    ensures RoundHalfEven(num * Exp10(ilim - 1), den) == digits * Exp10(ilim - i)
  {
    Exp10Add(i - 1, ilim - i);
    var p, q := Exp10(i - 1), Exp10(ilim - i);
    hide Exp10;
    TimesAcross(num, p, q, digits, den);
    RoundedFrom(num * Exp10(ilim - 1), den, digits * q, 0);
  }

  lemma TimesAcross(num: int, p: int, q: int, digits: int, den: int)
    requires num * p == digits * den
    ensures num * (p * q) == digits * q * den
  {
    assert num * (p * q) == num * p * q;
    assert digits * den * q == digits * q * den;
  }

  lemma {:induction false} Exp10Add(i: nat, j: nat)
    ensures Exp10(i + j) == Exp10(i) * Exp10(j)
  {
    if i > 0 {
      Exp10Add(i - 1, j);
      assert 10 * (Exp10(i - 1) * Exp10(j)) == 10 * Exp10(i - 1) * Exp10(j);
    }
  }

  /** What the digits of the buffer say about num / den, rounded to ilim digits; `carry` when it reaches 10. */
  ghost predicate Rounded(s: seq<int>, carry: bool, num: nat, den: nat, ilim: nat) {
    && den > 0 && 0 < |s| <= ilim && Clean(s) && (carry ==> s == [49])
    && RoundHalfEven(num * Exp10(ilim - 1), den) == if carry then Exp10(ilim) else Number(s) * Exp10(ilim - |s|)
  }

  lemma RoundedExactly(s: seq<int>, num: nat, den: nat, ilim: nat)
    requires 0 < |s| <= ilim && Clean(s) && den > 0 && Divided(num, den, |s|, Number(s), 0)
    ensures Rounded(s, false, num, den, ilim)
  {
    NumberNonNegative(s);
    DividedExactly(num, den, |s|, Number(s), ilim);
  }

  /** The buffer at the end of the loop. */
  ghost predicate AllDigits(all: seq<int>, num: nat, den: nat, rest: nat) {
    && all != [] && IsDigits(all) && all[0] != 48 && rest < den
    && Divided(num, den, |all|, Number(all), rest)
  }

  /** Whether the last digit goes up: by the remainder, a tie by the digit's parity. */
  predicate Up(rest: nat, den: nat, q: int) {
    2 * rest > den || (2 * rest == den && (48 + q) % 2 == 1)
  }

  lemma RoundedAt(all: seq<int>, now: seq<int>, carry: bool, num: nat, den: nat, rest: nat)
    requires AllDigits(all, num, den, rest) && 0 < |now| <= |all| && Clean(now) && (carry ==> now == [49])
    requires var n := Number(all) + if Up(rest, den, all[|all| - 1] - 48) then 1 else 0;
             n == if carry then Exp10(|all|) else Number(now) * Exp10(|all| - |now|)
    ensures Rounded(now, carry, num, den, |all|)
  {
    hide Number, Clean, Divided, IsDigits;
    NumberNonNegative(all);
    DividedRounds(num, den, |all|, Number(all), rest);
    LastDigitParity(all);
    hide RoundHalfEven, Exp10;
  }

  lemma LastDigitParity(all: seq<int>)
    requires all != []
    ensures Number(all) % 2 == all[|all| - 1] % 2
  {
    hide Number;
    assert all[..|all|] == all;
    NumberAt(all, |all| - 1);
    TensAreEven(Number(all[..|all| - 1]), all[|all| - 1]);
  }

  lemma TensAreEven(tens: int, digit: int)
    ensures (tens * 10 + (digit - 48)) % 2 == digit % 2
  {}

  /** The last digit of the buffer is rounded as the remainder b of the division says. */
  method RoundLast(b: Bigint, S: Bigint, s: array<int>, ilim: nat, q: nat, ghost num: nat) returns (len: nat,
                   carry: bool)
    requires b.Valid() && S.Valid() && S.wds > 0 && 0 < b.Value() && 0 < ilim <= s.Length && s[ilim - 1] == 48 + q
    requires AllDigits(s[..ilim], num, S.Value(), b.Value())
    modifies s
    ensures len <= s.Length && Rounded(s[..len], carry, num, old(S.Value()), ilim)
  {
    ghost var all, rest, den := s[..ilim], b.Value(), S.Value();
    hide Val, Pow, Divided, Rounded, Number, Exp10;
    var twice := LShift(b, 1);
    assert twice.Value() == 2 * rest by { assert Exp2(1) == 2 * Exp2(0); }
    var j := Cmp(twice, S);
    if j > 0 || (j == 0 && (48 + q) % 2 == 1) {
      len, carry := RoundOff(s, ilim);
    } else {
      len := TrimZeros(s, ilim);
      carry := false;
    }
    RoundedAt(all, s[..len], carry, num, den, rest);
  }

  /** One quotient digit into the buffer. */
  method OneDigit(b: Bigint, S: Bigint, s: array<int>, i: nat, ghost num: nat) returns (q: nat)
    requires b.Valid() && S.Valid() && b != S && b.x != S.x
    requires S.wds > 0 && 0x800_0000 <= S.x[S.wds - 1] < 0x1000_0000
    requires 0 < i <= s.Length && b.Value() < 10 * S.Value()
    requires Dividing(num, S.Value(), i, Number(s[..i - 1]), b.Value())
    modifies b`wds, b.x, s
    ensures b.Valid() && b.Value() < S.Value() && q <= 9 && (q == 0 <==> old(b.Value()) < old(S.Value()))
    ensures q == 0 ==> b.Value() == old(b.Value())
    ensures s[..i - 1] == old(s[..i - 1]) && s[i - 1] == 48 + q
    ensures S.Valid() && S.Value() == old(S.Value()) && S.x[..] == old(S.x[..])
    ensures Divided(num, S.Value(), i, Number(s[..i]), b.Value())
  {
    hide Val, Pow, Number, Exp10, Divided, Dividing;
    ghost var before, b0, den := s[..i - 1], b.Value(), S.Value();
    q := Quorem(b, S);
    IsDigit(b0, den, q, b.Value());
    DivideDigit(num, den, i, Number(before), b0, q, b.Value());
    s[i - 1] := 48 + q;
    assert s[..i][..i - 1] == before && s[..i][..i] == s[..i];
    NumberAt(s[..i], i - 1);
  }

  /** The digit loop of mode 2 and the rounding after it. */
  method Digits(b: Bigint, S: Bigint, s: array<int>, ilim: nat) returns (len: nat, carry: bool)
    requires b.Valid() && S.Valid() && b != S && b.x != S.x
    requires S.wds > 0 && 0x800_0000 <= S.x[S.wds - 1] < 0x1000_0000
    requires S.Value() <= b.Value() < 10 * S.Value()
    requires 0 < ilim <= s.Length
    modifies b, b.x, s
    ensures len <= s.Length && Rounded(s[..len], carry, old(b.Value()), old(S.Value()), ilim)
  {
    hide Val, Pow, Number, Exp10, Divided, Dividing, Rounded;
    ghost var num, den := b.Value(), S.Value();
    FirstDividing(num, den);
    assert s[..0] == [];
    var i, q := 1, 0;
    while true
      invariant 1 <= i <= ilim && b.Valid() && b.x != S.x && (b.x == old(b.x) || fresh(b.x))
      invariant S.Valid() && S.Value() == den && 0x800_0000 <= S.x[S.wds - 1] < 0x1000_0000
      invariant 0 < b.Value() < 10 * den
      invariant i == 1 ==> b.Value() >= den
      invariant IsDigits(s[..i - 1]) && (i > 1 ==> s[0] != 48)
      invariant Dividing(num, den, i, Number(s[..i - 1]), b.Value())
      decreases ilim - i
    {
      q := OneDigit(b, S, s, i, num);
      ZeroTest(b);
      if b.x[0] == 0 && b.wds <= 1 {
        RoundedExactly(s[..i], num, den, ilim);
        return i, false;
      }
      if i >= ilim {
        break;
      }
      NextDigit(num, den, i, Number(s[..i]), b.Value());
      b.MultAdd(10, 0);
      i := i + 1;
    }
    len, carry := RoundLast(b, S, s, ilim, q, num);
  }

  // ---------------------------------------------------------------------------
  // Scaling

  /** hi0bits: the number of leading zero bits. Each mask test asks whether x is below a power of two. */
  method Hi0Bits(x0: uint32) returns (k: nat)
    ensures x0 == 0 ==> k == 32
    ensures x0 > 0 ==> k < 32 && 0x8000_0000 <= x0 * Exp2(k) < 0x1_0000_0000
  {
    hide Exp2;
    Exp2Small();
    k := 0;
    var x: int := x0;
    if x < 0x1_0000 {
      ShiftMore(x0, k, 16, 0x1_0000);
      k := 16;
      x := x * 0x1_0000;
    }
    if x < 0x100_0000 {
      ShiftMore(x0, k, 8, 0x100);
      k := k + 8;
      x := x * 0x100;
    }
    if x < 0x1000_0000 {
      ShiftMore(x0, k, 4, 0x10);
      k := k + 4;
      x := x * 0x10;
    }
    if x < 0x4000_0000 {
      ShiftMore(x0, k, 2, 4);
      k := k + 2;
      x := x * 4;
    }
    if x < 0x8000_0000 {
      ShiftMore(x0, k, 1, 2);
      k := k + 1;
      if x < 0x4000_0000 {
        return 32;
      }
    }
  }

  lemma Exp2Small()
    ensures Exp2(0) == 1 && Exp2(1) == 2 && Exp2(2) == 4 && Exp2(4) == 0x10 && Exp2(8) == 0x100 && Exp2(16) == 0x1_0000
  {
    Exp2Add(8, 8);
  }

  lemma ShiftMore(x: nat, k: nat, j: nat, p: nat)
    requires Exp2(j) == p
    ensures x * Exp2(k + j) == x * Exp2(k) * p
  {
    Exp2Add(k, j);
    assert x * (Exp2(k) * p) == x * Exp2(k) * p;
  }

  /** v shifted left by t has a top word in [2^27, 2^28), word n. */
  predicate TopWordAt(v: nat, t: nat, n: nat) {
    0x800_0000 * Pow(n) <= v * Exp2(t) < 0x1000_0000 * Pow(n)
  }

  /** dshift: how far to shift b, to be shifted by p2 as well, so that its top word has four leading zero bits. */
  method DShift(b: Bigint, p2: nat) returns (rv: nat, ghost n: nat)
    requires b.Valid() && b.Value() > 0
    ensures rv < 32 && TopWordAt(b.Value(), p2 + rv, n)
  {
    NonZero(b.x[..b.wds]);
    hide Val, Pow, Exp2, TopWordAt;
    var h: int := Hi0Bits(b.x[b.wds - 1]);
    var d := h - 4;
    if p2 > 0 {
      d := d - p2;
    }
    rv := d % 32;
    ghost var c := WholeWords(d);
    n := b.wds - 1 + c;
    ShiftedBits(b.x[..b.wds], h, p2 + rv, c);
  }

  lemma WholeWords(d: int) returns (c: nat)
    requires d < 32
    ensures 0 <= d % 32 < 32 && d % 32 == d + 32 * c
  {
    c := -(d / 32);
  }

  lemma ShiftedBits(s: seq<uint32>, h: nat, t: nat, c: nat)
    requires s != [] && h < 32 && 0x8000_0000 <= s[|s| - 1] * Exp2(h) < 0x1_0000_0000 && t + 4 == h + 32 * c
    ensures TopWordAt(Val(s), t, |s| - 1 + c)
  {
    hide Val, Pow, Exp2;
    var m := |s| - 1;
    var e, f, p, r := Exp2(h), Exp2(t), Pow(m), Pow(c);
    TopBounds(s);
    WordFills(s[m], h);
    BitsOfValue(Val(s), s[m], e, p);
    Exp2Small();
    Exp2Add(t, 4);
    Exp2Add(h, 32 * c);
    PowExp2(c);
    PowAdd(m, c);
    BitsShifted(Val(s), e, f, p, r);
  }

  lemma WordFills(w: uint32, h: nat)
    requires h < 32 && w * Exp2(h) < 0x1_0000_0000
    ensures (w + 1) * Exp2(h) <= 0x1_0000_0000
  {
    Exp2Word();
    Exp2Add(32 - h, h);
    if w + 1 > Exp2(32 - h) { Monotone(Exp2(32 - h), w, Exp2(h)); }
    Monotone(w + 1, Exp2(32 - h), Exp2(h));
  }

  lemma BitsOfValue(v: nat, w: nat, e: nat, p: nat)
    requires w * p <= v < (w + 1) * p && e > 0 && 0x8000_0000 <= w * e && (w + 1) * e <= 0x1_0000_0000
    ensures 0x8000_0000 * p <= v * e < 0x1_0000_0000 * p
  {
    Monotone(0x8000_0000, w * e, p);
    Monotone(w * p, v, e);
    assert w * e * p == w * p * e;
    Monotone((w + 1) * e, 0x1_0000_0000, p);
    Monotone(v + 1, (w + 1) * p, e);
    assert (w + 1) * e * p == (w + 1) * p * e;
  }

  lemma BitsShifted(v: nat, e: nat, f: nat, p: nat, r: nat)
    requires 0x8000_0000 * p <= v * e < 0x1_0000_0000 * p && f * 0x10 == e * r && r > 0
    ensures 0x800_0000 * (p * r) <= v * f < 0x1000_0000 * (p * r)
  {
    Monotone(0x8000_0000 * p, v * e, r);
    Monotone(v * e + 1, 0x1_0000_0000 * p, r);
    assert v * e * r == v * (e * r) == v * f * 0x10;
    assert 0x8000_0000 * p * r == 0x8000_0000 * (p * r) && 0x1_0000_0000 * p * r == 0x1_0000_0000 * (p * r);
  }

  /** With such a value, a number without leading zeros has such a top word. */
  lemma TopWordIs(s: seq<uint32>, n: nat)
    requires s != [] && s[|s| - 1] != 0 && 0x800_0000 * Pow(n) <= Val(s) < 0x1000_0000 * Pow(n)
    ensures |s| == n + 1 && 0x800_0000 <= s[n] < 0x1000_0000
  {
    var m := |s| - 1;
    TopBounds(s);
    Monotone(1, s[m], Pow(m));
    if m < n {
      PowGrows(m + 1, n);
      ValBound(s);
    } else if m > n {
      PowGrows(n + 1, m);
    } else {
      if s[m] >= 0x1000_0000 { Monotone(0x1000_0000, s[m], Pow(m)); }
      if s[m] < 0x800_0000 { Monotone(s[m] + 1, 0x800_0000, Pow(m)); }
    }
  }

  // Powers of five.

  function Power(x: nat, k: nat): nat {
    if k == 0 then 1 else x * Power(x, k - 1)
  }

  lemma {:induction false} Exp5Add(i: nat, j: nat)
    ensures Exp5(i + j) == Exp5(i) * Exp5(j)
  {
    if i > 0 {
      Exp5Add(i - 1, j);
      Associates(5, Exp5(i - 1), Exp5(j));
    }
  }

  lemma Exp5Small()
    ensures Exp5(0) == 1 && Exp5(1) == 5 && Exp5(2) == 25 && Exp5(3) == 125 && Exp5(4) == 625
  {}

  lemma {:induction false} PowersOf625(k: nat)
    ensures Power(625, k) == Exp5(4 * k)
  {
    if k > 0 {
      PowersOf625(k - 1);
      Exp5Small();
      Exp5Add(4, 4 * (k - 1));
    }
  }

  lemma TwoFactors(x: nat, k: nat)
    requires k >= 2
    ensures Power(x, k) == x * (x * Power(x, k - 2))
  {
    assert Power(x, k - 1) == x * Power(x, k - 2);
  }

  lemma OneFactor(x: nat, k: nat)
    requires k > 0
    ensures Power(x, k) == x * Power(x, k - 1)
  {}

  /** One bit of the exponent: square the base, and multiply when the bit is set. */
  lemma {:induction false} PowerHalves(x: nat, k: nat)
    ensures Power(x, k) == Power(x * x, k / 2) * if k % 2 == 1 then x else 1
  {
    if k >= 2 {
      PowerHalves(x, k - 2);
      TwoFactors(x, k);
      Associates(x, x, Power(x, k - 2));
      var r := Power(x * x, (k - 2) / 2);
      Associates(x * x, r, if k % 2 == 1 then x else 1);
      OneFactor(x * x, k / 2);
      hide Power;
    } else if k == 1 {
      assert Power(x, 1) == x * Power(x, 0);
    }
  }

  /** The bits of the exponent still to be seen make up the rest of the product. */
  ghost predicate Owed(all: nat, b: nat, p: nat, k: nat) {
    all == b * Power(p, k)
  }

  lemma OwedStep(all: nat, b: nat, p: nat, k: nat)
    requires Owed(all, b, p, k)
    ensures Owed(all, if k % 2 == 1 then b * p else b, p * p, k / 2)
    ensures k == 1 ==> all == b * p
  {
    PowerHalves(p, k);
    var r := Power(p * p, k / 2);
    assert b * (r * p) == b * p * r;
    assert Power(p, 1) == p * Power(p, 0);
  }

  lemma OwedAtFirst(v: nat, b: nat, k: nat)
    requires b == v * Exp5(k % 4)
    ensures Owed(v * Exp5(k), b, 625, k / 4)
  {
    PowersOf625(k / 4);
    Exp5Add(k % 4, 4 * (k / 4));
    assert k % 4 + 4 * (k / 4) == k;
    assert v * (Exp5(k % 4) * Exp5(4 * (k / 4))) == v * Exp5(k % 4) * Exp5(4 * (k / 4));
  }

  lemma Positive(a: nat, b: nat)
    requires a > 0 && b > 0
    ensures a * b > 0
  {}

  lemma HasWords(b: Bigint)
    requires b.Valid() && b.Value() > 0
    ensures b.wds > 0
  {}

  /** pow5mult: b times 5^k, by squaring 5^4; the powers are computed afresh, not kept in p5s. */
  method Pow5Mult(b0: Bigint, k0: nat) returns (b: Bigint)
    requires b0.Valid() && b0.Value() > 0
    modifies b0, b0.x
    ensures b.Valid() && b.Value() == old(b0.Value()) * Exp5(k0)
    ensures b == b0 || fresh(b)
    ensures b.x == old(b0.x) || fresh(b.x)
  {
    hide Val, Pow, Exp5, Owed;
    Exp5Small();
    ghost var v := b0.Value();
    ghost var all := v * Exp5(k0);
    b := b0;
    var k := k0;
    if k % 4 != 0 {
      b.MultAdd(if k % 4 == 1 then 5 else if k % 4 == 2 then 25 else 125, 0);
    }
    OwedAtFirst(v, b.Value(), k);
    k := k / 4;
    if k == 0 {
      NothingOwed(all, b.Value(), 625);
      return;
    }
    var p5 := new Bigint.I2b(625);
    while true
      invariant k > 0 && b.Valid() && p5.Valid() && b.Value() > 0 && p5.Value() > 0
      invariant fresh(p5) && fresh(p5.x) && (b == b0 || fresh(b)) && (b.x == old(b0.x) || fresh(b.x))
      invariant Owed(all, b.Value(), p5.Value(), k)
      decreases k
    {
      var done;
      b, p5, done := Squaring(b, p5, k, all);
      k := k / 2;
      if done {
        break;
      }
    }
  }

  /** One turn of the loop: multiply if the bit is set, and square unless it was the last one. */
  method Squaring(b0: Bigint, p0: Bigint, k: nat, ghost all: nat) returns (b: Bigint, p5: Bigint, done: bool)
    requires k > 0 && b0.Valid() && p0.Valid() && b0.Value() > 0 && p0.Value() > 0
    requires Owed(all, b0.Value(), p0.Value(), k)
    ensures b.Valid() && p5.Valid() && (b == b0 || (fresh(b) && fresh(b.x))) && (p5 == p0 || (fresh(p5) && fresh(p5.x)))
    ensures done == (k == 1)
    ensures if done then b.Value() == all else b.Value() > 0 && p5.Value() > 0 && Owed(all, b.Value(), p5.Value(), k / 2)
  {
    hide Val, Pow, Exp5, Owed;
    b, p5 := b0, p0;
    HasWords(b);
    HasWords(p5);
    OwedStep(all, b.Value(), p5.Value(), k);
    Positive(b.Value(), p5.Value());
    Positive(p5.Value(), p5.Value());
    if k % 2 == 1 {
      b := Mult(b, p5);
    }
    done := k / 2 == 0;
    if !done {
      p5 := Mult(p5, p5);
    }
  }

  lemma NothingOwed(all: nat, b: nat, p: nat)
    requires Owed(all, b, p, 0)
    ensures all == b
  {}

  // ---------------------------------------------------------------------------
  // Mode 2 from numerator and denominator to the decimal point

  /** b / S is num / den. */
  ghost predicate SameRatio(b: nat, S: nat, num: nat, den: nat) {
    exists g: nat, c: nat :: g > 0 && c > 0 && Times(g, b) == Times(c, num) && Times(g, S) == Times(c, den)
  }

  lemma SameRatioOrder(b: nat, S: nat, num: nat, den: nat)
    requires SameRatio(b, S, num, den)
    ensures b < S <==> num < den
    ensures b < 10 * S <==> num < 10 * den
    ensures 10 * b < S <==> 10 * num < den
    ensures SameRatio(10 * b, S, 10 * num, den)
  {
    var g: nat, c: nat :| g > 0 && c > 0 && Times(g, b) == Times(c, num) && Times(g, S) == Times(c, den);
    TenTimes(g, b);
    TenTimes(g, S);
    TenTimes(c, num);
    TenTimes(c, den);
    CompareTimes(S, b, g);
    CompareTimes(den, num, c);
    CompareTimes(10 * S, b, g);
    CompareTimes(10 * den, num, c);
    CompareTimes(S, 10 * b, g);
    CompareTimes(den, 10 * num, c);
  }

  lemma TenTimes(g: nat, b: nat)
    ensures Times(g, 10 * b) == 10 * Times(g, b)
  {}

  lemma CompareTimes(a: int, b: int, c: nat)
    requires c > 0
    ensures Times(c, a) > Times(c, b) <==> a > b
  {
    CompareScaled(a, b, c);
  }

  lemma RoundTimes(n: nat, p: nat, d: nat, c: nat)
    requires d > 0 && c > 0
    ensures Times(c, d) > 0 && RoundHalfEven(Times(Times(c, n), p), Times(c, d)) == RoundHalfEven(n * p, d)
  {
    RoundScaled(n * p, d, c);
    assert c * (n * p) == c * n * p;
  }

  lemma SameRatioRounds(b: nat, S: nat, num: nat, den: nat, p: nat)
    requires SameRatio(b, S, num, den) && S > 0 && den > 0
    ensures RoundHalfEven(b * p, S) == RoundHalfEven(num * p, den)
  {
    var g: nat, c: nat :| g > 0 && c > 0 && Times(g, b) == Times(c, num) && Times(g, S) == Times(c, den);
    RoundTimes(b, p, S, g);
    RoundTimes(num, p, den, c);
    hide RoundHalfEven, Times;
  }

  lemma RoundedRatio(s: seq<int>, carry: bool, b: nat, S: nat, num: nat, den: nat, ilim: nat)
    requires Rounded(s, carry, b, S, ilim) && SameRatio(b, S, num, den) && den > 0
    ensures Rounded(s, carry, num, den, ilim)
  {
    SameRatioRounds(b, S, num, den, Exp10(ilim - 1));
  }

  /** Taking i twos out of both sides and putting j back keeps the ratio. */
  lemma RatioKept(v: nat, b2: nat, b5: nat, s2: nat, s5: nat, i: nat, j: nat)
    requires i <= b2 && i <= s2
    ensures SameRatio(v * Exp5(b5) * Exp2(b2 - i + j), Exp5(s5) * Exp2(s2 - i + j),
                      v * Exp2(b2) * Exp5(b5), Exp2(s2) * Exp5(s5))
  {
    var g, c := Exp2(i), Exp2(j);
    Exp2Add(b2 - i, j);
    Exp2Add(s2 - i, j);
    Exp2Add(i, b2 - i);
    Exp2Add(i, s2 - i);
    Shuffle(g, c, v, Exp5(b5), Exp2(b2 - i));
    Shuffle(g, c, 1, Exp5(s5), Exp2(s2 - i));
    hide Exp2, Exp5;
    assert Times(g, v * Exp5(b5) * (Exp2(b2 - i) * c)) == Times(c, v * (g * Exp2(b2 - i)) * Exp5(b5));
    assert Times(g, Exp5(s5) * (Exp2(s2 - i) * c)) == Times(c, (g * Exp2(s2 - i)) * Exp5(s5));
  }

  lemma Shuffle(g: nat, c: nat, v: nat, f: nat, e: nat)
    ensures Times(g, v * f * (e * c)) == Times(c, v * (g * e) * f)
  {
    assert g * (v * f * (e * c)) == c * (v * (g * e) * f);
  }

  /** Shift left when there is something to shift by. */
  method ShiftIf(b: Bigint, k: nat) returns (b1: Bigint)
    requires b.Valid() && b.Value() > 0
    ensures b1.Valid() && b1.Value() == b.Value() * Exp2(k) && (b1 == b || (fresh(b1) && fresh(b1.x)))
  {
    if k > 0 {
      b1 := LShift(b, k);
    } else {
      b1 := b;
      assert Exp2(0) == 1;
    }
  }

  /**
    dtoa in mode 2 after the estimate k of the exponent: m * 2^b2 * 5^b5 over 2^s2 * 5^s5 is
    the value over 10^k, between 1 and 10, or between 1/10 and 10 when the estimate may be one
    too large (k_check). The digits are the value rounded half to even, `decpt` the place of
    the decimal point.
   */
  method Mode2(m: Bigint, b2: nat, b5: nat, s2: nat, s5: nat, k: int, kCheck: bool, ndigits: int, s: array<int>)
    returns (len: nat, decpt: int, ghost botched: bool, ghost carry: bool)
    requires m.Valid() && m.Value() > 0 && s.Length > 0 && ndigits <= s.Length
    requires var num, den := m.Value() * Exp2(b2) * Exp5(b5), Exp2(s2) * Exp5(s5);
             num < 10 * den && (if kCheck then den <= 10 * num else den <= num)
    modifies m, m.x, s
    ensures var num, den := old(m.Value()) * Exp2(b2) * Exp5(b5), Exp2(s2) * Exp5(s5);
            && botched == (kCheck && num < den)
            && len <= s.Length
            && Rounded(s[..len], carry, if botched then 10 * num else num, den, if ndigits <= 0 then 1 else ndigits)
            && decpt == k + 1 + (if carry then 1 else 0) - (if botched then 1 else 0)
  {
    ghost var v := m.Value();
    ghost var num, den := v * Exp2(b2) * Exp5(b5), Exp2(s2) * Exp5(s5);
    var ilim := if ndigits <= 0 then 1 else ndigits;
    hide Val, Pow, Exp2, Exp5, Rounded, SameRatio;
    var common := if b2 < s2 then b2 else s2;
    var b, S := Scale(m, b2 - common, b5, s2 - common, s5, v, num, den, common);
    SameRatioOrder(b.Value(), S.Value(), num, den);
    botched := kCheck && num < den;
    decpt := k + 1;
    ghost var top := if botched then 10 * num else num;
    if kCheck {
      var c := Cmp(b, S);
      if c < 0 {
        decpt := decpt - 1;
        b.MultAdd(10, 0);
      }
    }
    SameRatioOrder(b.Value(), S.Value(), top, den);
    ghost var bv, sv := b.Value(), S.Value();
    var turned;
    len, turned := Digits(b, S, s, ilim);
    carry := turned;
    RoundedRatio(s[..len], carry, bv, sv, top, den, ilim);
    if turned {
      decpt := decpt + 1;
    }
  }

  /** Multiply by a power of five when there is one. */
  method Fives(b0: Bigint, k: nat) returns (b: Bigint)
    requires b0.Valid() && b0.Value() > 0
    modifies b0, b0.x
    ensures b.Valid() && b.Value() == old(b0.Value()) * Exp5(k)
    ensures (b == b0 || fresh(b)) && (b.x == old(b0.x) || fresh(b.x))
  {
    if k > 0 {
      b := Pow5Mult(b0, k);
    } else {
      b := b0;
      assert Exp5(0) == 1;
    }
  }

  /** Shift both sides so that quorem can divide: i bits more than asked for. */
  method Align(b0: Bigint, S0: Bigint, b2: nat, s2: nat) returns (b: Bigint, S: Bigint, i: nat)
    requires b0.Valid() && S0.Valid() && b0.Value() > 0 && S0.Value() > 0 && b0 != S0 && b0.x != S0.x
    ensures b.Valid() && S.Valid() && b != S && b.x != S.x && S.wds > 0 && b.wds > 0
    ensures (S == S0 || (fresh(S) && fresh(S.x))) && (b == b0 || (fresh(b) && fresh(b.x)))
    ensures b.Value() == b0.Value() * Exp2(b2 + i) && S.Value() == S0.Value() * Exp2(s2 + i)
    ensures 0x800_0000 <= S.x[S.wds - 1] < 0x1000_0000
  {
    hide Val, Pow, Exp2;
    ghost var n;
    i, n := DShift(S0, s2);
    Positive(b0.Value(), Exp2(b2 + i));
    Positive(S0.Value(), Exp2(s2 + i));
    b := ShiftIf(b0, b2 + i);
    S := ShiftIf(S0, s2 + i);
    HasWords(b);
    HasWords(S);
    NonZero(S.x[..S.wds]);
    TopWordIs(S.x[..S.wds], n);
  }

  /** Multiply in the powers of five and two. */
  method Scale(m: Bigint, b2: nat, b5: nat, s2: nat, s5: nat, ghost v: nat, ghost num: nat, ghost den: nat,
               ghost common: nat)
    returns (b: Bigint, S: Bigint)
    requires m.Valid() && m.Value() == v > 0
    requires num == v * Exp2(b2 + common) * Exp5(b5) && den == Exp2(s2 + common) * Exp5(s5)
    modifies m, m.x
    ensures b.Valid() && S.Valid() && b != S && b.x != S.x && S.wds > 0 && b.wds > 0
    ensures fresh(S) && fresh(S.x) && (b == m || fresh(b)) && (b.x == old(m.x) || fresh(b.x))
    ensures 0x800_0000 <= S.x[S.wds - 1] < 0x1000_0000
    ensures SameRatio(b.Value(), S.Value(), num, den)
  {
    hide Val, Pow, Exp2, Exp5, SameRatio;
    var b0 := Fives(m, b5);
    var S0 := new Bigint.I2b(1);
    S0 := Fives(S0, s5);
    assert S0.Value() == Exp5(s5);
    Positive(v, Exp5(b5));
    var i;
    b, S, i := Align(b0, S0, b2, s2);
    RatioKept(v, b2 + common, b5, s2 + common, s5, common, i);
  }
}
