/**
  The key exchange of lua-crypt.c: multiplication and powers modulo the largest 64-bit prime in
  64-bit arithmetic, and the secret both sides derive.
 */
module DhExchange {

  import opened Basics
  import opened FixedWidth
  import opened Srp

  const P: nat := 0xffffffffffffffc5
  const WORD: nat := 0x1_0000_0000_0000_0000
  const G: uint64 := 5

  datatype Result<T> = Ok(value: T) | Err

  // ---------------------------------------------------------------------------
  // Facts modulo P

  lemma Below(x: int, r: int)
    requires Same(x, r, P) && 0 <= r < P
    ensures x % P == r
  {
    SameMod(x, r, P);
  }

  lemma ModsTimes(x: int, y: int)
    ensures (x % P) * (y % P) % P == x * y % P
  {
    ModSame(x, P);
    ModSame(y, P);
    SameTimes(x, x % P, y, y % P, P);
    SameMod(x * y, (x % P) * (y % P), P);
  }

  lemma {:induction false} ModsPow(x: int, e: nat)
    ensures Pow(x % P, e) % P == Pow(x, e) % P
  {
    ModSame(x, P);
    SamePow(x, x % P, e, P);
    SameMod(Pow(x, e), Pow(x % P, e), P);
  }

  /** 5 has an inverse modulo P. */
  lemma FiveDivides(q: int)
    requires 5 * q % P == 0
    ensures q % P == 0
  {
    var z := 5 * q / P;
    assert 5 * q == P * z;
    var k := 7378697629483820623;
    assert 5 * k == 1 + 2 * P;
    assert q == P * (k * z - 2 * q);
    SameBy(q, 0, P, k * z - 2 * q);
    Below(q, 0);
  }

  lemma {:induction false} PowersOfFive(e: nat)
    ensures Pow(5, e) % P != 0
  {
    if e > 0 {
      PowersOfFive(e - 1);
      if Pow(5, e) % P == 0 { FiveDivides(Pow(5, e - 1)); }
    }
  }

  // ---------------------------------------------------------------------------
  // The program

  /** What is still to be added to m while b is used up bit by bit. */
  ghost function Total(m: int, a: int, b: int): int { m + a * b }

  lemma NextBit(m: int, m': int, a: int, a': int, b: int)
    requires m' == (if b % 2 == 1 then m + a else m) || m' == (if b % 2 == 1 then m + a else m) - P
    requires a' == 2 * a || a' == 2 * a - P
    ensures Same(Total(m, a, b), Total(m', a', b / 2), P)
  {
    var h := b / 2;
    var k, l := if m' < (if b % 2 == 1 then m + a else m) then 1 else 0, if a' == 2 * a then 0 else 1;
    assert a * b == (2 * a) * h + a * (b % 2);
    assert (a' + P * l) * h == a' * h + P * (l * h);
    SameBy(Total(m, a, b), Total(m', a', h), P, k + l * h);
  }

  /** a may be P itself, which powmodp lets through. */
  method MulModP(a0: uint64, b0: uint64) returns (m: uint64)
    requires a0 <= P
    ensures m == a0 * b0 % P
  {
    hide Same, Total;
    var a: uint64, b: uint64 := a0, b0;
    m := 0;
    SameBy(Total(m, a, b), Total(m, a, b), P, 0);
    while b != 0
      invariant m < P && a <= P
      invariant Same(Total(0, a0, b0), Total(m, a, b), P)
      decreases b
    {
      ghost var m1, a1, b1 := m, a, b;
      if b % 2 == 1 {
        var t := P - a;
        if m >= t {
          m := m - t;
        } else {
          m := m + a;
        }
      }
      if a >= P - a {
        a := (a * 2 % WORD - P) % WORD;
      } else {
        a := a * 2;
      }
      b := b / 2;
      NextBit(m1, m, a1, a, b1);
      SameTrans(Total(0, a0, b0), Total(m1, a1, b1), Total(m, a, b), P);
    }
    Product(a0, b0, m, a);
  }

  lemma Product(a0: int, b0: int, m: int, a: int)
    requires 0 <= m < P && Same(Total(0, a0, b0), Total(m, a, 0), P)
    ensures m == a0 * b0 % P
  {
    assert Total(0, a0, b0) == a0 * b0 && Total(m, a, 0) == m;
    Below(a0 * b0, m);
  }

  method PowModP(a: uint64, b: uint64) returns (t: uint64)
    requires a <= P && b > 0
    ensures b == 1 ==> t == a
    ensures t <= P && (b > 1 ==> t < P)
    ensures IsPower(t, a, b)
    decreases b
  {
    hide IsPower;
    if b == 1 {
      FirstPower(a);
      return a;
    }
    t := PowModP(a, b / 2);
    ghost var h, half := b / 2, t;
    t := MulModP(t, t);
    PowersMultiply(a, half, h, half, h, t);
    if b % 2 != 0 {
      ghost var square := t;
      t := MulModP(t, a);
      FirstPower(a);
      PowersMultiply(a, square, h + h, a, 1, t);
    }
  }

  ghost predicate IsPower(t: int, a: int, e: nat) { t % P == Pow(a, e) % P }

  lemma FirstPower(a: int)
    ensures IsPower(a, a, 1)
  {
    PowOne(a);
  }

  lemma PowOne(a: int)
    ensures Pow(a, 1) == a
  {
    assert Pow(a, 0) == 1;
  }

  lemma PowersMultiply(a: int, x: int, e: nat, y: int, f: nat, t: int)
    requires IsPower(x, a, e) && IsPower(y, a, f) && t == x * y % P
    ensures IsPower(t, a, e + f)
  {
    hide Pow;
    PowAdd(a, e, f);
    ModsTimes(x, y);
    ModsTimes(Pow(a, e), Pow(a, f));
  }

  /** a^b % P, except that P^1 comes back as P: the guard lets a == P through unreduced. */
  method PowerModP(a: uint64, b: uint64) returns (r: uint64)
    requires b > 0
    ensures a == P && b == 1 ==> r == P
    ensures !(a == P && b == 1) ==> r == Pow(a, b) % P
  {
    var x := a;
    if x > P {
      x := x % P;
    }
    r := PowModP(x, b);
    hide Pow, IsPower;
    PowerOfRest(a, b, x, r);
  }

  lemma PowerOfRest(a: uint64, b: nat, x: nat, r: nat)
    requires b > 0 && x == if a > P then a % P else a
    requires IsPower(r, x, b) && r <= P && (b == 1 ==> r == x) && (b > 1 ==> r < P)
    ensures if a == P && b == 1 then r == P else r == Pow(a, b) % P
  {
    hide Pow;
    ModsPow(a, b);
    PowOne(x);
    if r < P { OwnRest(r); }
  }

  lemma OwnRest(r: nat)
    requires r < P
    ensures r % P == r
  {}

  /** b0 | b1 << 8 | b2 << 16 | b3 << 24 */
  function Quad(b0: int, b1: int, b2: int, b3: int): int {
    b0 + 0x100 * b1 + 0x1_0000 * b2 + 0x100_0000 * b3
  }

  /** The eight bytes of a Lua string as a number, word by word. */
  method Read64(x: seq<byte>) returns (n: uint64)
    requires |x| == 8
    ensures n == Unsigned(x)
  {
    var low := Quad(x[0], x[1], x[2], x[3]);
    var high := Quad(x[4], x[5], x[6], x[7]);
    FourBytes(x);
    FourBytes(x[4..]);
    assert x[4..][4..] == [];
    n := low + 0x1_0000_0000 * high;
  }

  lemma FourBytes(b: seq<byte>)
    requires |b| >= 4
    ensures Unsigned(b) == Quad(b[0], b[1], b[2], b[3]) + 0x1_0000_0000 * Unsigned(b[4..])
  {
    OneByte(b);
    OneByte(b[1..]);
    OneByte(b[2..]);
    OneByte(b[3..]);
    hide Unsigned;
    assert b[1..][1..] == b[2..] && b[2..][1..] == b[3..] && b[3..][1..] == b[4..];
  }

  lemma OneByte(b: seq<byte>)
    requires b != []
    ensures Unsigned(b) == b[0] + 256 * Unsigned(b[1..])
  {}

  /** push64 */
  method Push64(r: uint64) returns (s: seq<byte>)
    ensures s == Bytes(r, 8)
  {
    s := [];
    var i, n := 0, r;
    while i < 8
      invariant 0 <= i <= 8 && n >= 0 && s + Bytes(n, 8 - i) == Bytes(r, 8)
    {
      assert Bytes(n, 8 - i) == [n % 256] + Bytes(n / 256, 8 - i - 1);
      s := s + [n % 256];
      n := n / 256;
      i := i + 1;
    }
    assert s + Bytes(n, 0) == s;
  }

  /** ldhexchange */
  method DhExchangeKey(x: seq<byte>) returns (r: Result<seq<byte>>)
    ensures r == if |x| != 8 || Unsigned(x) == 0 then Err else Ok(Bytes(Pow(5, Unsigned(x)) % P, 8))
  {
    hide Bytes, Unsigned, Pow;
    if |x| != 8 {
      return Err;
    }
    var n := Read64(x);
    if n == 0 {
      return Err;
    }
    var p := PowerModP(G, n);
    var s := Push64(p);
    return Ok(s);
  }

  /** ldhsecret */
  method DhSecret(x: seq<byte>, y: seq<byte>) returns (r: Result<seq<byte>>)
    ensures r.Err? <==> |x| != 8 || |y| != 8 || Unsigned(x) == 0 || Unsigned(y) == 0
    ensures r.Ok? ==> var a, b := Unsigned(x), Unsigned(y);
                      r.value == Bytes(if a == P && b == 1 then P else Pow(a, b) % P, 8)
  {
    hide Bytes, Unsigned, Pow;
    if |x| != 8 || |y| != 8 {
      return Err;
    }
    var a := Read64(x);
    var b := Read64(y);
    if a == 0 || b == 0 {
      return Err;
    }
    var p := PowerModP(a, b);
    var s := Push64(p);
    return Ok(s);
  }

  /** Both sides derive the same secret, and the exchanged keys are always accepted. */
  method Agree(x: seq<byte>, y: seq<byte>) returns (client: seq<byte>, server: seq<byte>)
    requires |x| == |y| == 8 && Unsigned(x) != 0 && Unsigned(y) != 0
    ensures client == server == Bytes(Pow(5, Unsigned(x) * Unsigned(y)) % P, 8)
  {
    hide Pow, Bytes, Unsigned, Exp256;
    var a, b := Unsigned(x), Unsigned(y);
    Widths();
    var kx := DhExchangeKey(x);
    var ky := DhExchangeKey(y);
    PowersOfFive(a);
    PowersOfFive(b);
    BytesBack(Pow(5, a) % P, 8);
    BytesBack(Pow(5, b) % P, 8);
    var s := DhSecret(ky.value, x);
    var t := DhSecret(kx.value, y);
    client, server := s.value, t.value;
    SharedSecret(a, b);
    SharedSecret(b, a);
    Commute(a, b);
  }

  lemma SharedSecret(a: nat, b: nat)
    ensures Pow(Pow(5, a) % P, b) % P == Pow(5, a * b) % P
  {
    hide Pow;
    ModsPow(Pow(5, a), b);
    PowMul(5, a, b);
  }

  lemma Commute(x: int, y: int)
    ensures x * y == y * x
  {}
}
