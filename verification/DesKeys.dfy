/**
  The key schedule of the DES cipher in lua-crypt.c: from the eight bytes of a key to sixteen
  pairs of words, each word holding the six key bits of four S-boxes.
 */
module DesKeys {

  type Block = s: seq<bv8> | |s| == 8 witness seq(8, i => 0)

  type Subkeys = s: seq<bv32> | |s| == 32 witness seq(32, i => 0)

  /** GET_UINT32 */
  function Word(b0: bv8, b1: bv8, b2: bv8, b3: bv8): bv32 {
    ((b0 as bv32) << 24) | ((b1 as bv32) << 16) | ((b2 as bv32) << 8) | (b3 as bv32)
  }

  // ---------------------------------------------------------------------------
  // Permuted choice 1

  /** The table LHs: bit i of a nibble becomes bit 8 * i. */
  function Lhs(n: bv32): bv32 { (n & 1) | ((n & 2) << 7) | ((n & 4) << 14) | ((n & 8) << 21) }

  /** The table RHs: the same the other way round. */
  function Rhs(n: bv32): bv32 { ((n & 1) << 24) | ((n & 2) << 15) | ((n & 4) << 6) | ((n & 8) >> 3) }

  lemma Tables()
    ensures Lhs(0) == 0x00000000 && Lhs(1) == 0x00000001 && Lhs(2) == 0x00000100 && Lhs(3) == 0x00000101
    ensures Lhs(4) == 0x00010000 && Lhs(5) == 0x00010001 && Lhs(6) == 0x00010100 && Lhs(7) == 0x00010101
    ensures Lhs(8) == 0x01000000 && Lhs(9) == 0x01000001 && Lhs(10) == 0x01000100 && Lhs(11) == 0x01000101
    ensures Lhs(12) == 0x01010000 && Lhs(13) == 0x01010001 && Lhs(14) == 0x01010100 && Lhs(15) == 0x01010101
    ensures Rhs(0) == 0x00000000 && Rhs(1) == 0x01000000 && Rhs(2) == 0x00010000 && Rhs(3) == 0x01010000
    ensures Rhs(4) == 0x00000100 && Rhs(5) == 0x01000100 && Rhs(6) == 0x00010100 && Rhs(7) == 0x01010100
    ensures Rhs(8) == 0x00000001 && Rhs(9) == 0x01000001 && Rhs(10) == 0x00010001 && Rhs(11) == 0x01010001
    ensures Rhs(12) == 0x00000101 && Rhs(13) == 0x01000101 && Rhs(14) == 0x00010101 && Rhs(15) == 0x01010101
  {}

  /** The exchanges between the two words of the key. */
  function Mingle(h: bv32, l: bv32): (bv32, bv32) {
    var t := ((l >> 4) ^ h) & 0x0F0F0F0F;
    var (x, y) := (h ^ t, l ^ (t << 4));
    var u := (y ^ x) & 0x10101010;
    (x ^ u, y ^ u)
  }

  function GatherLeft(x: bv32): bv32 {
    ((Lhs(x & 0xF) << 3) | (Lhs((x >> 8) & 0xF) << 2)
     | (Lhs((x >> 16) & 0xF) << 1) | Lhs((x >> 24) & 0xF)
     | (Lhs((x >> 5) & 0xF) << 7) | (Lhs((x >> 13) & 0xF) << 6)
     | (Lhs((x >> 21) & 0xF) << 5) | (Lhs((x >> 29) & 0xF) << 4)) & 0x0FFFFFFF
  }

  function GatherRight(y: bv32): bv32 {
    ((Rhs((y >> 1) & 0xF) << 3) | (Rhs((y >> 9) & 0xF) << 2)
     | (Rhs((y >> 17) & 0xF) << 1) | Rhs((y >> 25) & 0xF)
     | (Rhs((y >> 4) & 0xF) << 7) | (Rhs((y >> 12) & 0xF) << 6)
     | (Rhs((y >> 20) & 0xF) << 5) | (Rhs((y >> 28) & 0xF) << 4)) & 0x0FFFFFFF
  }

  predicate IsHalf(x: bv32) { x & 0x0FFFFFFF == x }

  /** The two halves of 28 bits. */
  function Pc1(h: bv32, l: bv32): (bv32, bv32) {
    var (x, y) := Mingle(h, l);
    (GatherLeft(x), GatherRight(y))
  }

  /** The halves are laid out as in the table PC-1 of FIPS 46-3, eight bits to a row. */
  lemma Pc1IsTable(h: bv32, l: bv32, row: bv32, column: bv32)
    requires row < 4 && column < 8 && (row == 3 ==> column < 4)
    ensures var (x, y) := Pc1(h, l);
      && IsHalf(x) && IsHalf(y)
      && (x >> (27 - (8 * row + column))) & 1 == KeyBit(h, l, 57 + row - 8 * column)
      && (y >> (27 - (8 * row + column))) & 1 == KeyBit(h, l, (if row < 3 then 63 - row else 28) - 8 * column)
  {
    Pc1Left(h, l, row, column);
    Pc1Right(h, l, row, column);
    hide Mingle, GatherLeft, GatherRight, KeyBit;
  }

  lemma Pc1Left(h: bv32, l: bv32, row: bv32, column: bv32)
    requires row < 4 && column < 8 && (row == 3 ==> column < 4)
    ensures (GatherLeft(Mingle(h, l).0) >> (27 - (8 * row + column))) & 1 == KeyBit(h, l, 57 + row - 8 * column)
  {
    if row < 2 { Pc1LeftFirst(h, l, row, column); } else { Pc1LeftLast(h, l, row, column); }
    hide GatherLeft, Mingle, KeyBit;
  }

  lemma Pc1LeftFirst(h: bv32, l: bv32, row: bv32, column: bv32)
    requires row < 2 && column < 8
    ensures (GatherLeft(Mingle(h, l).0) >> (27 - (8 * row + column))) & 1 == KeyBit(h, l, 57 + row - 8 * column)
  {}

  lemma Pc1LeftLast(h: bv32, l: bv32, row: bv32, column: bv32)
    requires (row == 2 && column < 8) || (row == 3 && column < 4)
    ensures (GatherLeft(Mingle(h, l).0) >> (27 - (8 * row + column))) & 1 == KeyBit(h, l, 57 + row - 8 * column)
  {}

  lemma Pc1Right(h: bv32, l: bv32, row: bv32, column: bv32)
    requires row < 4 && column < 8 && (row == 3 ==> column < 4)
    ensures (GatherRight(Mingle(h, l).1) >> (27 - (8 * row + column))) & 1
         == KeyBit(h, l, (if row < 3 then 63 - row else 28) - 8 * column)
  {
    if row < 2 { Pc1RightFirst(h, l, row, column); } else { Pc1RightLast(h, l, row, column); }
    hide GatherRight, Mingle, KeyBit;
  }

  lemma Pc1RightFirst(h: bv32, l: bv32, row: bv32, column: bv32)
    requires row < 2 && column < 8
    ensures (GatherRight(Mingle(h, l).1) >> (27 - (8 * row + column))) & 1 == KeyBit(h, l, 63 - row - 8 * column)
  {}

  lemma Pc1RightLast(h: bv32, l: bv32, row: bv32, column: bv32)
    requires (row == 2 && column < 8) || (row == 3 && column < 4)
    ensures (GatherRight(Mingle(h, l).1) >> (27 - (8 * row + column))) & 1
         == KeyBit(h, l, (if row == 2 then 61 else 28) - 8 * column)
  {}

  /** Bit k of the key, numbered from 1 as the standard does. */
  function KeyBit(h: bv32, l: bv32, k: bv32): bv32
    requires 0 < k <= 64
  {
    if k <= 32 then (h >> (32 - k)) & 1 else (l >> (64 - k)) & 1
  }

  // ---------------------------------------------------------------------------
  // Sixteen rounds of rotation

  function Turn1(x: bv32): bv32 { ((x << 1) | (x >> 27)) & 0x0FFFFFFF }

  function Turn2(x: bv32): bv32 { ((x << 2) | (x >> 26)) & 0x0FFFFFFF }

  predicate TurnsOnce(i: nat) { i < 2 || i == 8 || i == 15 }

  /** A half after the first n rounds. */
  function Turned(x: bv32, n: nat): bv32 {
    if n == 0 then x
    else if TurnsOnce(n - 1) then Turn1(Turned(x, n - 1)) else Turn2(Turned(x, n - 1))
  }

  /** The bits the first n rounds rotate by. */
  function Turns(n: nat): nat {
    if n == 0 then 0 else Turns(n - 1) + if TurnsOnce(n - 1) then 1 else 2
  }

  function TurnedBy(x: bv32, k: nat): bv32 {
    if k == 0 then x else Turn1(TurnedBy(x, k - 1))
  }

  lemma TurnTwice(x: bv32)
    ensures Turn1(Turn1(x)) == Turn2(x)
  {}

  lemma {:induction false} TurnedInAll(x: bv32, n: nat)
    ensures Turned(x, n) == TurnedBy(x, Turns(n))
  {
    if n > 0 {
      TurnedInAll(x, n - 1);
      TurnTwice(Turned(x, n - 1));
      hide Turn1, Turn2;
    }
  }

  function Turn4(x: bv32): bv32 { ((x << 4) | (x >> 24)) & 0x0FFFFFFF }

  lemma FourTurns(x: bv32)
    requires IsHalf(x)
    ensures Turn1(Turn1(Turn1(Turn1(x)))) == Turn4(x)
  {}

  lemma WholeTurn(x: bv32)
    requires IsHalf(x)
    ensures Turn4(Turn4(Turn4(Turn4(Turn4(Turn4(Turn4(x))))))) == x
  {}

  lemma StaysHalf(x: bv32)
    requires IsHalf(x)
    ensures IsHalf(Turn4(x))
  {}

  lemma FourMore(x: bv32, k: nat)
    requires IsHalf(TurnedBy(x, k))
    ensures TurnedBy(x, k + 4) == Turn4(TurnedBy(x, k))
    ensures IsHalf(TurnedBy(x, k + 4))
  {
    hide Turn1, Turn4, IsHalf;
    FourTurns(TurnedBy(x, k));
    StaysHalf(TurnedBy(x, k));
    assert TurnedBy(x, k + 1) == Turn1(TurnedBy(x, k));
    assert TurnedBy(x, k + 2) == Turn1(TurnedBy(x, k + 1));
    assert TurnedBy(x, k + 3) == Turn1(TurnedBy(x, k + 2));
  }

  /** The sixteen rotations come to 28 bits: each half is back where it began. */
  lemma TurnedAround(x: bv32)
    requires IsHalf(x)
    ensures Turned(x, 16) == x
  {
    TurnedInAll(x, 16);
    assert Turns(2) == 2 && Turns(4) == 6 && Turns(6) == 10 && Turns(8) == 14;
    assert Turns(10) == 17 && Turns(12) == 21 && Turns(14) == 25 && Turns(16) == 28;
    assert TurnedBy(x, 0) == x;
    hide Turned, TurnedBy, Turn1, Turn4, Turns, IsHalf;
    FourMore(x, 0);
    FourMore(x, 4);
    FourMore(x, 8);
    FourMore(x, 12);
    FourMore(x, 16);
    FourMore(x, 20);
    FourMore(x, 24);
    WholeTurn(x);
  }

  // ---------------------------------------------------------------------------
  // Permuted choice 2

  function FirstWord(x: bv32, y: bv32): bv32 {
    ((x << 4) & 0x24000000) | ((x << 28) & 0x10000000)
    | ((x << 14) & 0x08000000) | ((x << 18) & 0x02080000)
    | ((x << 6) & 0x01000000) | ((x << 9) & 0x00200000)
    | ((x >> 1) & 0x00100000) | ((x << 10) & 0x00040000)
    | ((x << 2) & 0x00020000) | ((x >> 10) & 0x00010000)
    | ((y >> 13) & 0x00002000) | ((y >> 4) & 0x00001000)
    | ((y << 6) & 0x00000800) | ((y >> 1) & 0x00000400)
    | ((y >> 14) & 0x00000200) | (y & 0x00000100)
    | ((y >> 5) & 0x00000020) | ((y >> 10) & 0x00000010)
    | ((y >> 3) & 0x00000008) | ((y >> 18) & 0x00000004)
    | ((y >> 26) & 0x00000002) | ((y >> 24) & 0x00000001)
  }

  function SecondWord(x: bv32, y: bv32): bv32 {
    ((x << 15) & 0x20000000) | ((x << 17) & 0x10000000)
    | ((x << 10) & 0x08000000) | ((x << 22) & 0x04000000)
    | ((x >> 2) & 0x02000000) | ((x << 1) & 0x01000000)
    | ((x << 16) & 0x00200000) | ((x << 11) & 0x00100000)
    | ((x << 3) & 0x00080000) | ((x >> 6) & 0x00040000)
    | ((x << 15) & 0x00020000) | ((x >> 4) & 0x00010000)
    | ((y >> 2) & 0x00002000) | ((y << 8) & 0x00001000)
    | ((y >> 14) & 0x00000808) | ((y >> 9) & 0x00000400)
    | (y & 0x00000200) | ((y << 7) & 0x00000100)
    | ((y >> 7) & 0x00000020) | ((y >> 3) & 0x00000011)
    | ((y << 2) & 0x00000004) | ((y >> 21) & 0x00000002)
  }

  /** Bit k of the two halves, numbered from 1 as the standard does. */
  function HalfBit(x: bv32, y: bv32, k: bv32): bv32
    requires 0 < k <= 56
  {
    if k <= 28 then (x >> (28 - k)) & 1 else (y >> (56 - k)) & 1
  }

  function Six(x: bv32, y: bv32, a: bv32, b: bv32, c: bv32, d: bv32, e: bv32, f: bv32): bv32
    requires 0 < a <= 56 && 0 < b <= 56 && 0 < c <= 56 && 0 < d <= 56 && 0 < e <= 56 && 0 < f <= 56
  {
    (HalfBit(x, y, a) << 5) | (HalfBit(x, y, b) << 4) | (HalfBit(x, y, c) << 3)
    | (HalfBit(x, y, d) << 2) | (HalfBit(x, y, e) << 1) | HalfBit(x, y, f)
  }

  /** The bits for S-boxes 2, 4, 6 and 8: the even rows of the table PC-2 of FIPS 46-3. */
  lemma FirstWordIsTable(x: bv32, y: bv32)
    requires IsHalf(x) && IsHalf(y)
    ensures FirstWord(x, y) == (Six(x, y, 3, 28, 15, 6, 21, 10) << 24) | (Six(x, y, 16, 7, 27, 20, 13, 2) << 16)
                             | (Six(x, y, 30, 40, 51, 45, 33, 48) << 8) | Six(x, y, 46, 42, 50, 36, 29, 32)
  {}

  /** The bits for S-boxes 1, 3, 5 and 7: the odd rows. */
  lemma SecondWordIsTable(x: bv32, y: bv32)
    requires IsHalf(x) && IsHalf(y)
    ensures SecondWord(x, y) == (Six(x, y, 14, 17, 11, 24, 1, 5) << 24) | (Six(x, y, 23, 19, 12, 4, 26, 8) << 16)
                              | (Six(x, y, 41, 52, 31, 37, 47, 55) << 8) | Six(x, y, 44, 49, 39, 56, 34, 53)
  {}

  // ---------------------------------------------------------------------------
  // The schedule

  function Schedule(key: Block): Subkeys {
    var (x, y) := Pc1(Word(key[0], key[1], key[2], key[3]), Word(key[4], key[5], key[6], key[7]));
    seq(32, i requires 0 <= i < 32 => Subkey(x, y, i))
  }

  function Subkey(x: bv32, y: bv32, i: nat): bv32 {
    var u, v := Turned(x, i / 2 + 1), Turned(y, i / 2 + 1);
    if i % 2 == 0 then FirstWord(u, v) else SecondWord(u, v)
  }

  lemma PairOfSubkeys(x: bv32, y: bv32, n: nat)
    ensures Subkey(x, y, 2 * n) == FirstWord(Turned(x, n + 1), Turned(y, n + 1))
    ensures Subkey(x, y, 2 * n + 1) == SecondWord(Turned(x, n + 1), Turned(y, n + 1))
  {
    hide FirstWord, SecondWord, Turned;
  }

  lemma NextTurn(x: bv32, n: nat)
    ensures Turned(x, n + 1) == if TurnsOnce(n) then Turn1(Turned(x, n)) else Turn2(Turned(x, n))
  {
    hide Turn1, Turn2;
  }

  /** des_main_ks */
  method MainKs(sk: array<bv32>, key: seq<bv8>)
    requires sk.Length == 32 && |key| == 8
    modifies sk
    ensures sk[..] == Schedule(key)
  {
    hide Pc1, Turn1, Turn2, FirstWord, SecondWord, Word, Turned, Subkey;
    var p := Pc1(Word(key[0], key[1], key[2], key[3]), Word(key[4], key[5], key[6], key[7]));
    var x, y := p.0, p.1;
    NotTurned(x);
    NotTurned(y);
    var i := 0;
    while i < 16
      invariant 0 <= i <= 16 && x == Turned(p.0, i) && y == Turned(p.1, i)
      invariant forall k :: 0 <= k < 2 * i ==> sk[k] == Subkey(p.0, p.1, k)
    {
      NextTurn(p.0, i);
      NextTurn(p.1, i);
      if i < 2 || i == 8 || i == 15 {
        x := Turn1(x);
        y := Turn1(y);
      } else {
        x := Turn2(x);
        y := Turn2(y);
      }
      PairOfSubkeys(p.0, p.1, i);
      sk[2 * i] := FirstWord(x, y);
      sk[2 * i + 1] := SecondWord(x, y);
      i := i + 1;
    }
  }

  lemma NotTurned(x: bv32)
    ensures Turned(x, 0) == x
  {}
}
