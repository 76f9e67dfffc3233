/**
  The DES block cipher of lua-crypt.c, for any S-boxes, with its two padding modes, and the encode
  and decode calls built on it.
 */
module Des {

  import opened DesKeys

  /** The eight S-boxes, looked up with a masked index. */
  datatype Cipher = Cipher(
    sb1: bv32 -> bv32, sb2: bv32 -> bv32, sb3: bv32 -> bv32, sb4: bv32 -> bv32,
    sb5: bv32 -> bv32, sb6: bv32 -> bv32, sb7: bv32 -> bv32, sb8: bv32 -> bv32)

  // ---------------------------------------------------------------------------
  // The initial and final permutations

  function RotateLeft(x: bv32): bv32 { (x << 1) | (x >> 31) }

  function RotateRight(x: bv32): bv32 { (x << 31) | (x >> 1) }

  function Exchange4(x: bv32, y: bv32): (bv32, bv32) {
    var t := ((x >> 4) ^ y) & 0x0F0F0F0F;
    (x ^ (t << 4), y ^ t)
  }

  function Exchange16(x: bv32, y: bv32): (bv32, bv32) {
    var t := ((x >> 16) ^ y) & 0x0000FFFF;
    (x ^ (t << 16), y ^ t)
  }

  function Exchange2(x: bv32, y: bv32): (bv32, bv32) {
    var t := ((x >> 2) ^ y) & 0x33333333;
    (x ^ (t << 2), y ^ t)
  }

  function Exchange8(x: bv32, y: bv32): (bv32, bv32) {
    var t := ((x >> 8) ^ y) & 0x00FF00FF;
    (x ^ (t << 8), y ^ t)
  }

  function ExchangeOdd(x: bv32, y: bv32): (bv32, bv32) {
    var t := (x ^ y) & 0xAAAAAAAA;
    (x ^ t, y ^ t)
  }

  lemma Exchange4Undone(x: bv32, y: bv32)
    ensures var e := Exchange4(x, y); Exchange4(e.0, e.1) == (x, y)
  {}

  lemma Exchange16Undone(x: bv32, y: bv32)
    ensures var e := Exchange16(x, y); Exchange16(e.0, e.1) == (x, y)
  {}

  lemma Exchange2Undone(x: bv32, y: bv32)
    ensures var e := Exchange2(x, y); Exchange2(e.0, e.1) == (x, y)
  {}

  lemma Exchange8Undone(x: bv32, y: bv32)
    ensures var e := Exchange8(x, y); Exchange8(e.0, e.1) == (x, y)
  {}

  lemma ExchangeOddUndone(x: bv32, y: bv32)
    ensures var e := ExchangeOdd(x, y); ExchangeOdd(e.0, e.1) == (x, y)
  {}

  lemma RotatesUndo(x: bv32)
    ensures RotateRight(RotateLeft(x)) == x && RotateLeft(RotateRight(x)) == x
  {}

  /** The value DES_IP leaves in (X, Y). */
  function Ip(x: bv32, y: bv32): (bv32, bv32) {
    var (a4, b4) := Exchange4(x, y);
    var (a16, b16) := Exchange16(a4, b4);
    var (b2, a2) := Exchange2(b16, a16);
    var (b8, a8) := Exchange8(b2, a2);
    var (a, b) := ExchangeOdd(a8, RotateLeft(b8));
    (RotateLeft(a), b)
  }

  /** The value DES_FP leaves in (X, Y). */
  function Fp(x: bv32, y: bv32): (bv32, bv32) {
    var (a, b) := ExchangeOdd(RotateRight(x), y);
    var (b8, a8) := Exchange8(RotateRight(b), a);
    var (b2, a2) := Exchange2(b8, a8);
    var (a16, b16) := Exchange16(a2, b2);
    Exchange4(a16, b16)
  }

  lemma FpUndoesIp(x: bv32, y: bv32)
    ensures var e := Ip(x, y); Fp(e.0, e.1) == (x, y)
  {
    hide Exchange4, Exchange16, Exchange2, Exchange8, ExchangeOdd, RotateLeft, RotateRight;
    var (a4, b4) := Exchange4(x, y);
    var (a16, b16) := Exchange16(a4, b4);
    var (b2, a2) := Exchange2(b16, a16);
    var (b8, a8) := Exchange8(b2, a2);
    var (a, b) := ExchangeOdd(a8, RotateLeft(b8));
    RotatesUndo(a);
    RotatesUndo(b8);
    ExchangeOddUndone(a8, RotateLeft(b8));
    Exchange8Undone(b2, a2);
    Exchange2Undone(b16, a16);
    Exchange16Undone(a4, b4);
    Exchange4Undone(x, y);
  }

  lemma IpUndoesFp(x: bv32, y: bv32)
    ensures var e := Fp(x, y); Ip(e.0, e.1) == (x, y)
  {
    hide Exchange4, Exchange16, Exchange2, Exchange8, ExchangeOdd, RotateLeft, RotateRight;
    var (a, b) := ExchangeOdd(RotateRight(x), y);
    var (b8, a8) := Exchange8(RotateRight(b), a);
    var (b2, a2) := Exchange2(b8, a8);
    var (a16, b16) := Exchange16(a2, b2);
    ExchangeOddUndone(RotateRight(x), y);
    RotatesUndo(x);
    RotatesUndo(b);
    Exchange8Undone(RotateRight(b), a);
    Exchange2Undone(b8, a8);
    Exchange16Undone(a2, b2);
    Exchange4Undone(a16, b16);
  }

  // The permutation table itself, as FIPS 46-3 lays it out: eight rows of eight bits, numbered
  // from the most significant bit of the left word.

  function Join(x: bv32, y: bv32): bv64 { ((x as bv64) << 32) | (y as bv64) }

  function BitAt(w: bv64, k: bv64): bv64
    requires k < 64
  {
    (w >> (63 - k)) & 1
  }

  lemma IpIsTable(x: bv32, y: bv32, row: bv64, column: bv64)
    requires row < 8 && column < 8
    ensures var (a, b) := Ip(x, y);
      BitAt(Join(RotateRight(a), RotateRight(b)), 8 * row + column) ==
      BitAt(Join(x, y), (if row < 4 then 57 + 2 * row else 48 + 2 * row) - 8 * column)
  {
  }

  // ---------------------------------------------------------------------------
  // The sixteen rounds

  function XorFour(a: bv32, b: bv32, c: bv32, d: bv32): bv32 { a ^ b ^ c ^ d }

  // The four groups of six bits a word is looked up by.

  function Six0(t: bv32): bv32 { t & 0x3F }

  function Six1(t: bv32): bv32 { (t >> 8) & 0x3F }

  function Six2(t: bv32): bv32 { (t >> 16) & 0x3F }

  function Six3(t: bv32): bv32 { (t >> 24) & 0x3F }

  function EvenBoxes(c: Cipher, t: bv32): bv32 {
    XorFour(c.sb8(Six0(t)), c.sb6(Six1(t)), c.sb4(Six2(t)), c.sb2(Six3(t)))
  }

  function OddBoxes(c: Cipher, t: bv32): bv32 {
    XorFour(c.sb7(Six0(t)), c.sb5(Six1(t)), c.sb3(Six2(t)), c.sb1(Six3(t)))
  }

  function RotateRight4(x: bv32): bv32 { (x << 28) | (x >> 4) }

  function Xor(a: bv32, b: bv32): bv32 { a ^ b }

  /** What DES_ROUND xors into Y, for X and the two subkeys at SK. */
  function Mix(c: Cipher, k0: bv32, k1: bv32, x: bv32): bv32 {
    Xor(EvenBoxes(c, Xor(k0, x)), OddBoxes(c, Xor(k1, RotateRight4(x))))
  }

  // The bit selection table E of FIPS 46-3: six bits of the right half for each S-box, numbered
  // from 1 as the standard does. The program keeps the half rotated left by one.

  function Bit(r: bv32, k: bv32): bv32
    requires 0 < k <= 32
  {
    (r >> (32 - k)) & 1
  }

  function Selected(r: bv32, box: bv32): bv32
    requires 0 < box <= 8
  {
    (Bit(r, if box == 1 then 32 else 4 * box - 4) << 5) | (Bit(r, 4 * box - 3) << 4) | (Bit(r, 4 * box - 2) << 3)
    | (Bit(r, 4 * box - 1) << 2) | (Bit(r, 4 * box) << 1) | Bit(r, if box == 8 then 1 else 4 * box + 1)
  }

  lemma SelectedEven(r: bv32)
    ensures Six0(RotateLeft(r)) == Selected(r, 8) && Six1(RotateLeft(r)) == Selected(r, 6)
    ensures Six2(RotateLeft(r)) == Selected(r, 4) && Six3(RotateLeft(r)) == Selected(r, 2)
  {}

  lemma SelectedOdd(r: bv32)
    ensures Six0(RotateRight4(RotateLeft(r))) == Selected(r, 7) && Six1(RotateRight4(RotateLeft(r))) == Selected(r, 5)
    ensures Six2(RotateRight4(RotateLeft(r))) == Selected(r, 3) && Six3(RotateRight4(RotateLeft(r))) == Selected(r, 1)
  {}

  lemma Six0OfXor(k: bv32, x: bv32)
    ensures Six0(Xor(k, x)) == Xor(Six0(k), Six0(x))
  {}

  lemma Six1OfXor(k: bv32, x: bv32)
    ensures Six1(Xor(k, x)) == Xor(Six1(k), Six1(x))
  {}

  lemma Six2OfXor(k: bv32, x: bv32)
    ensures Six2(Xor(k, x)) == Xor(Six2(k), Six2(x))
  {}

  lemma Six3OfXor(k: bv32, x: bv32)
    ensures Six3(Xor(k, x)) == Xor(Six3(k), Six3(x))
  {}

  /**
    A round looks up each S-box at the six bits of its row of E, xored with its six bits of the
    subkeys: the first word of a round holds those of the boxes 2, 4, 6 and 8, the second the others.
   */
  lemma MixSelects(c: Cipher, k0: bv32, k1: bv32, r: bv32)
    ensures Mix(c, k0, k1, RotateLeft(r)) == Xor(
              XorFour(c.sb8(Xor(Six0(k0), Selected(r, 8))), c.sb6(Xor(Six1(k0), Selected(r, 6))),
                      c.sb4(Xor(Six2(k0), Selected(r, 4))), c.sb2(Xor(Six3(k0), Selected(r, 2)))),
              XorFour(c.sb7(Xor(Six0(k1), Selected(r, 7))), c.sb5(Xor(Six1(k1), Selected(r, 5))),
                      c.sb3(Xor(Six2(k1), Selected(r, 3))), c.sb1(Xor(Six3(k1), Selected(r, 1)))))
  {
    hide RotateLeft, RotateRight4, Selected, Xor, XorFour, Six0, Six1, Six2, Six3;
    SelectedEven(r);
    SelectedOdd(r);
    var x, y := RotateLeft(r), RotateRight4(RotateLeft(r));
    Six0OfXor(k0, x);
    Six1OfXor(k0, x);
    Six2OfXor(k0, x);
    Six3OfXor(k0, x);
    Six0OfXor(k1, y);
    Six1OfXor(k1, y);
    Six2OfXor(k1, y);
    Six3OfXor(k1, y);
  }

  /** The two halves after n rounds, the half the next round changes first. */
  function Rounds(c: Cipher, sk: Subkeys, n: nat, x: bv32, y: bv32): (bv32, bv32)
    requires n <= 16
  {
    if n == 0 then (x, y)
    else
      var (u, v) := Rounds(c, sk, n - 1, x, y);
      (v, Xor(u, Mix(c, sk[2 * n - 2], sk[2 * n - 1], v)))
  }

  /** The subkey array ldesdecode builds. */
  function Reversed(sk: Subkeys): Subkeys {
    seq(32, i requires 0 <= i < 32 => if i % 2 == 0 then sk[30 - i] else sk[32 - i])
  }

  lemma XorTwice(u: bv32, m: bv32)
    ensures Xor(Xor(u, m), m) == u
  {}

  lemma OneRound(c: Cipher, sk: Subkeys, n: nat, x: bv32, y: bv32)
    requires 0 < n <= 16
    ensures var (u, v) := Rounds(c, sk, n - 1, x, y);
            Rounds(c, sk, n, x, y) == (v, Xor(u, Mix(c, sk[2 * n - 2], sk[2 * n - 1], v)))
  {
    hide Mix;
  }

  lemma NoRounds(c: Cipher, sk: Subkeys, x: bv32, y: bv32)
    ensures Rounds(c, sk, 0, x, y) == (x, y)
  {}

  lemma PairReversed(sk: Subkeys, n: nat)
    requires 0 < n <= 16
    ensures Reversed(sk)[2 * n - 2] == sk[32 - 2 * n] && Reversed(sk)[2 * n - 1] == sk[33 - 2 * n]
  {}

  lemma XorAssoc(y: bv32, m: bv32, l: bv32)
    ensures Xor(Xor(y, m), l) == Xor(y, Xor(m, l))
  {}

  /** With the pairs of subkeys reversed, n rounds take back the last n of sixteen. */
  lemma {:induction false} RoundsReverse(c: Cipher, sk: Subkeys, n: nat, x: bv32, y: bv32)
    requires n <= 16
    ensures var (p, q) := Rounds(c, sk, 16, x, y);
            var (u, v) := Rounds(c, sk, 16 - n, x, y);
            Rounds(c, Reversed(sk), n, q, p) == (v, u)
  {
    hide Mix, Rounds, Reversed, Xor;
    var (p, q) := Rounds(c, sk, 16, x, y);
    if n == 0 {
      NoRounds(c, Reversed(sk), q, p);
    } else {
      RoundsReverse(c, sk, n - 1, x, y);
      var (u, v) := Rounds(c, sk, 16 - n, x, y);
      OneRound(c, sk, 17 - n, x, y);
      OneRound(c, Reversed(sk), n, q, p);
      PairReversed(sk, n);
      XorTwice(u, Mix(c, sk[32 - 2 * n], sk[33 - 2 * n], v));
    }
  }

  // ---------------------------------------------------------------------------
  // One block

  function LowByte(n: bv32): bv8 { (n & 0xFF) as bv8 }

  /** PUT_UINT32 */
  function Bytes(n: bv32): (b: seq<bv8>)
    ensures |b| == 4
  {
    [LowByte(n >> 24), LowByte(n >> 16), LowByte(n >> 8), LowByte(n)]
  }

  lemma WordOfBytes(n: bv32)
    ensures Word(LowByte(n >> 24), LowByte(n >> 16), LowByte(n >> 8), LowByte(n)) == n
  {}

  lemma BytesOfWord(b0: bv8, b1: bv8, b2: bv8, b3: bv8)
    ensures Bytes(Word(b0, b1, b2, b3)) == [b0, b1, b2, b3]
  {}

  /** The output of des_crypt. */
  function Crypt(c: Cipher, sk: Subkeys, b: Block): Block {
    var (x, y) := Ip(Word(b[0], b[1], b[2], b[3]), Word(b[4], b[5], b[6], b[7]));
    var (p, q) := Rounds(c, sk, 16, x, y);
    var (h, l) := Fp(q, p);
    Bytes(h) + Bytes(l)
  }

  lemma CryptWords(c: Cipher, sk: Subkeys, h: bv32, l: bv32)
    ensures |Bytes(h) + Bytes(l)| == 8
    ensures var (x, y) := Ip(h, l);
            var (p, q) := Rounds(c, sk, 16, x, y);
            var (h', l') := Fp(q, p);
            Crypt(c, sk, Bytes(h) + Bytes(l)) == Bytes(h') + Bytes(l')
  {
    hide Ip, Fp, Rounds, LowByte, Word;
    WordOfBytes(h);
    WordOfBytes(l);
  }

  lemma Spread(b: Block)
    ensures Bytes(Word(b[0], b[1], b[2], b[3])) + Bytes(Word(b[4], b[5], b[6], b[7])) == b
  {
    hide Word, Bytes;
    BytesOfWord(b[0], b[1], b[2], b[3]);
    BytesOfWord(b[4], b[5], b[6], b[7]);
  }

  /** Any subkeys: the block is back after a second pass with the pairs reversed. */
  lemma CryptReverses(c: Cipher, sk: Subkeys, b: Block)
    ensures Crypt(c, Reversed(sk), Crypt(c, sk, b)) == b
  {
    hide Ip, Fp, Rounds, LowByte, Word, Bytes, Crypt, Reversed;
    var h, l := Word(b[0], b[1], b[2], b[3]), Word(b[4], b[5], b[6], b[7]);
    Spread(b);
    CryptWords(c, sk, h, l);
    var (x, y) := Ip(h, l);
    var (p, q) := Rounds(c, sk, 16, x, y);
    var (h', l') := Fp(q, p);
    CryptWords(c, Reversed(sk), h', l');
    IpUndoesFp(q, p);
    RoundsReverse(c, sk, 16, x, y);
    NoRounds(c, sk, x, y);
    FpUndoesIp(h, l);
  }

  lemma ReversedTwice(sk: Subkeys)
    ensures Reversed(Reversed(sk)) == sk
  {}

  // ---------------------------------------------------------------------------
  // Texts and padding

  datatype Error = InvalidKeySize | InvalidPaddingMode | InvalidLength | InvalidText

  datatype Result<T> = Ok(value: T) | Err(error: Error)

  const PADDING_MODE_ISO7816_4 := 0
  const PADDING_MODE_PKCS7 := 1

  predicate KnownMode(mode: int) { mode == PADDING_MODE_ISO7816_4 || mode == PADDING_MODE_PKCS7 }

  function Padding(mode: int, n: nat): (s: seq<bv8>)
    requires KnownMode(mode) && 0 < n <= 8
    ensures |s| == n
  {
    if mode == PADDING_MODE_PKCS7 then seq(n, i => n as bv8)
    else seq(n, i => if i == 0 then 0x80 else 0)
  }

  function CryptAll(c: Cipher, sk: Subkeys, s: seq<bv8>): (r: seq<bv8>)
    requires |s| % 8 == 0
    ensures |r| == |s|
  {
    if s == [] then []
    else CryptAll(c, sk, s[..|s| - 8]) + Crypt(c, sk, s[|s| - 8..])
  }

  lemma {:induction false} CryptAllReverses(c: Cipher, sk: Subkeys, s: seq<bv8>)
    requires |s| % 8 == 0
    ensures CryptAll(c, Reversed(sk), CryptAll(c, sk, s)) == s
  {
    hide Crypt, Reversed;
    if s != [] {
      var n := |s| - 8;
      CryptAllReverses(c, sk, s[..n]);
      CryptReverses(c, sk, s[n..]);
      var r := CryptAll(c, sk, s);
      assert r[..n] == CryptAll(c, sk, s[..n]) && r[n..] == Crypt(c, sk, s[n..]);
      assert s == s[..n] + s[n..];
    }
  }

  /** What ldesencode returns. */
  function Ciphertext(c: Cipher, key: Block, text: seq<bv8>, mode: int): (r: seq<bv8>)
    requires KnownMode(mode)
    ensures |r| % 8 == 0 && |text| < |r| <= |text| + 8
  {
    CryptAll(c, Schedule(key), text + Padding(mode, 8 - |text| % 8))
  }

  ghost predicate EndsWith(s: seq<bv8>, mode: int, n: nat)
    requires KnownMode(mode)
  {
    0 < n <= 8 && n <= |s| && s[|s| - n..] == Padding(mode, n)
  }

  lemma CiphertextOf(c: Cipher, key: Block, text: seq<bv8>, mode: int, code: seq<bv8>)
    requires KnownMode(mode) && |code| % 8 == 0
    ensures Ciphertext(c, key, text, mode) == code <==>
            CryptAll(c, Reversed(Schedule(key)), code) == text + Padding(mode, 8 - |text| % 8)
  {
    hide CryptAll, Reversed, Padding, Schedule;
    var sk := Schedule(key);
    CryptAllReverses(c, sk, text + Padding(mode, 8 - |text| % 8));
    CryptAllReverses(c, Reversed(sk), code);
    ReversedTwice(sk);
  }

  lemma PaddedAs(plain: seq<bv8>, text: seq<bv8>, mode: int)
    requires KnownMode(mode) && |plain| % 8 == 0
    ensures plain == text + Padding(mode, 8 - |text| % 8) <==>
            |text| < |plain| <= |text| + 8 && text == plain[..|text|] && EndsWith(plain, mode, |plain| - |text|)
  {
    hide Padding;
    var p := Padding(mode, 8 - |text| % 8);
    if plain == text + p {
      assert plain[|text|..] == p;
    }
    if |text| < |plain| <= |text| + 8 && text == plain[..|text|] && EndsWith(plain, mode, |plain| - |text|) {
      assert |plain| - |text| == 8 - |text| % 8;
      assert plain == plain[..|text|] + plain[|text|..];
    }
  }

  // ---------------------------------------------------------------------------
  // The program

  /** DES_ROUND, the subkey pointer standing at `at`. */
  method Round(c: Cipher, sk: array<bv32>, at: nat, x: bv32, y0: bv32) returns (y: bv32)
    requires at + 1 < sk.Length
    ensures y == Xor(y0, Mix(c, sk[at], sk[at + 1], x))
  {
    hide EvenBoxes, OddBoxes, RotateRight4, Xor;
    var t := Xor(sk[at], x);
    y := Xor(y0, EvenBoxes(c, t));
    var u := Xor(sk[at + 1], RotateRight4(x));
    XorAssoc(y0, EvenBoxes(c, t), OddBoxes(c, u));
    y := Xor(y, OddBoxes(c, u));
  }

  /** Two rounds of des_crypt: DES_ROUND(Y, X); DES_ROUND(X, Y). */
  method TwoRounds(c: Cipher, sk: array<bv32>, ghost n: nat, at: nat, x0: bv32, y0: bv32,
                   ghost xs: bv32, ghost ys: bv32) returns (x: bv32, y: bv32)
    requires sk.Length == 32 && at == 2 * n && n <= 14 && (x0, y0) == Rounds(c, sk[..], n, xs, ys)
    ensures (x, y) == Rounds(c, sk[..], n + 2, xs, ys)
  {
    hide Mix, Rounds, Xor;
    OneRound(c, sk[..], n + 1, xs, ys);
    OneRound(c, sk[..], n + 2, xs, ys);
    x := Round(c, sk, at, y0, x0);
    y := Round(c, sk, at + 2, x, y0);
  }

  method SixteenRounds(c: Cipher, sk: array<bv32>, x0: bv32, y0: bv32) returns (x: bv32, y: bv32)
    requires sk.Length == 32
    ensures (x, y) == Rounds(c, sk[..], 16, x0, y0)
  {
    hide Rounds, Mix, Xor;
    NoRounds(c, sk[..], x0, y0);
    x, y := TwoRounds(c, sk, 0, 0, x0, y0, x0, y0);
    x, y := TwoRounds(c, sk, 2, 4, x, y, x0, y0);
    x, y := TwoRounds(c, sk, 4, 8, x, y, x0, y0);
    x, y := TwoRounds(c, sk, 6, 12, x, y, x0, y0);
    x, y := TwoRounds(c, sk, 8, 16, x, y, x0, y0);
    x, y := TwoRounds(c, sk, 10, 20, x, y, x0, y0);
    x, y := TwoRounds(c, sk, 12, 24, x, y, x0, y0);
    x, y := TwoRounds(c, sk, 14, 28, x, y, x0, y0);
  }

  method DesCrypt(c: Cipher, sk: array<bv32>, input: seq<bv8>, output: array<bv8>, to: nat)
    requires sk.Length == 32 && |input| == 8 && to + 8 <= output.Length
    modifies output
    ensures output[..] == old(output[..to]) + Crypt(c, sk[..], input) + old(output[to + 8..])
  {
    hide Rounds, Mix, Xor, Ip, Fp, LowByte, Word, Bytes;
    var x := Word(input[0], input[1], input[2], input[3]);
    var y := Word(input[4], input[5], input[6], input[7]);
    var p := Ip(x, y);
    x, y := SixteenRounds(c, sk, p.0, p.1);
    p := Fp(y, x);
    y, x := p.0, p.1;
    assert Crypt(c, sk[..], input) == Bytes(y) + Bytes(x);
    hide Crypt;
    PutWords(y, x, output, to);
  }

  method PutWords(y: bv32, x: bv32, b: array<bv8>, i: nat)
    requires i + 8 <= b.Length
    modifies b
    ensures b[..] == old(b[..i]) + (Bytes(y) + Bytes(x)) + old(b[i + 8..])
  {
    hide Bytes;
    ghost var front, back := b[..i], b[i + 8..];
    ghost var rest := b[i + 4..];
    PutWord(y, b, i);
    Parts(front, Bytes(y), rest);
    assert b[i + 8..] == back;
    PutWord(x, b, i + 4);
  }

  lemma Parts<T>(a: seq<T>, b: seq<T>, c: seq<T>)
    ensures (a + b + c)[..|a| + |b|] == a + b
  {}

  method PutWord(n: bv32, b: array<bv8>, i: nat)
    requires i + 4 <= b.Length
    modifies b
    ensures b[..] == old(b[..i]) + Bytes(n) + old(b[i + 4..])
  {
    hide LowByte;
    b[i] := LowByte(n >> 24);
    b[i + 1] := LowByte(n >> 16);
    b[i + 2] := LowByte(n >> 8);
    b[i + 3] := LowByte(n);
  }

  /** add_padding: the text from `at` on, then the padding. */
  method AddPadding(buf: array<bv8>, text: seq<bv8>, at: nat, mode: int) returns (r: Result<()>)
    requires buf.Length == 8 && at <= |text| && |text| - at < 8
    modifies buf
    ensures r == if KnownMode(mode) then Ok(()) else Err(InvalidPaddingMode)
    ensures r.Ok? ==> buf[..] == text[at..] + Padding(mode, 8 - (|text| - at))
  {
    if mode < 0 || mode >= 2 {
      return Err(InvalidPaddingMode);
    }
    var offset := |text| - at;
    forall k | 0 <= k < offset { buf[k] := text[at + k]; }
    if mode == PADDING_MODE_ISO7816_4 {
      buf[offset] := 0x80;
      forall k | offset < k < 8 { buf[k] := 0; }
    } else {
      var x := (8 - offset) as bv8;
      forall k | offset <= k < 8 { buf[k] := x; }
    }
    return Ok(());
  }

  method RemoveIso(buf: array<bv8>) returns (padding: int)
    requires buf.Length >= 8
    ensures 0 <= padding <= 8
    ensures forall n: nat | 0 < n <= 8 :: EndsWith(buf[..], PADDING_MODE_ISO7816_4, n) <==> padding == n
  {
    var last := buf.Length - 1;
    padding := 1;
    var i := 0;
    while i < 8
      invariant 0 <= i <= 8 && padding == i + 1 && last == buf.Length - 1 - i
      invariant forall k :: last < k < buf.Length ==> buf[k] == 0
    {
      var b := buf[last];
      if b == 0 {
        padding := padding + 1;
      } else if b == 0x80 {
        forall n: nat | 0 < n <= 8 ensures EndsWith(buf[..], PADDING_MODE_ISO7816_4, n) <==> padding == n {
          IsoEnds(buf[..], n);
        }
        return;
      } else {
        forall n: nat | 0 < n <= 8 ensures !EndsWith(buf[..], PADDING_MODE_ISO7816_4, n) { IsoEnds(buf[..], n); }
        return 0;
      }
      i := i + 1;
      last := last - 1;
    }
    forall n: nat | 0 < n <= 8 ensures !EndsWith(buf[..], PADDING_MODE_ISO7816_4, n) { IsoEnds(buf[..], n); }
    return 0;
  }

  lemma IsoEnds(s: seq<bv8>, n: nat)
    requires 0 < n <= 8 <= |s|
    ensures EndsWith(s, PADDING_MODE_ISO7816_4, n) <==>
            s[|s| - n] == 0x80 && forall k :: |s| - n < k < |s| ==> s[k] == 0
  {
    var p := Padding(PADDING_MODE_ISO7816_4, n);
    var e := s[|s| - n..];
    if e == p {
      assert e[0] == s[|s| - n];
      forall k | |s| - n < k < |s| ensures s[k] == 0 { assert s[k] == e[k - (|s| - n)]; }
    }
    if s[|s| - n] == 0x80 && (forall k :: |s| - n < k < |s| ==> s[k] == 0) {
      forall k | 0 <= k < n ensures e[k] == p[k] { assert e[k] == s[|s| - n + k]; }
    }
  }

  /** The byte at p, which may lie before the buffer. */
  function At(buf: seq<bv8>, before: int -> bv8, p: int): bv8
    requires p < |buf|
  {
    if p < 0 then before(p) else buf[p]
  }

  /** The last byte asks for more padding than the buffer holds, and all of the buffer agrees with it. */
  ghost predicate ReadsBefore(s: seq<bv8>)
    requires s != []
  {
    s[|s| - 1] as int > |s| && forall k :: 0 <= k < |s| ==> s[k] == s[|s| - 1]
  }

  /** `lowest` is the lowest index read; it is negative, before the buffer, exactly in this case. */
  method RemovePkcs7(buf: array<bv8>, before: int -> bv8) returns (padding: int, ghost lowest: int)
    requires buf.Length >= 8
    ensures 0 <= padding
    ensures lowest < 0 <==> ReadsBefore(buf[..])
    ensures forall n: nat | 0 < n <= 8 :: EndsWith(buf[..], PADDING_MODE_PKCS7, n) <==> padding == n
  {
    var last := buf.Length - 1;
    var b := buf[last];
    lowest := last;
    padding := b as int;
    var i := 1;
    while i < padding
      invariant 1 <= i && (i <= padding || i == 1) && last == buf.Length - i == lowest
      invariant padding == b as int
      invariant forall k :: 0 <= k < buf.Length && last <= k ==> buf[k] == b
    {
      last := last - 1;
      lowest := last;
      if At(buf[..], before, last) != b {
        forall n: nat | 0 < n <= 8 ensures !EndsWith(buf[..], PADDING_MODE_PKCS7, n) {
          Pkcs7Ends(buf[..], n);
        }
        padding := 0;
        return;
      }
      i := i + 1;
    }
    forall n: nat | 0 < n <= 8 ensures EndsWith(buf[..], PADDING_MODE_PKCS7, n) <==> padding == n {
      Pkcs7Ends(buf[..], n);
    }
  }

  /** Eight bytes 0xFF make it read before the buffer, and some eight bytes of cipher text decrypt to them. */
  lemma SomeTextReadsBefore(c: Cipher, key: Block)
    ensures var plain: seq<bv8> := [0xFF, 0xFF, 0xFF, 0xFF, 0xFF, 0xFF, 0xFF, 0xFF];
            && ReadsBefore(plain)
            && CryptAll(c, Reversed(Schedule(key)), CryptAll(c, Schedule(key), plain)) == plain
  {
    hide CryptAll, Schedule, Reversed;
    var plain: seq<bv8> := [0xFF, 0xFF, 0xFF, 0xFF, 0xFF, 0xFF, 0xFF, 0xFF];
    assert plain[7] as int == 255;
    CryptAllReverses(c, Schedule(key), plain);
  }

  /** Numbers up to 8 are bytes of that value. */
  lemma ByteOf(n: nat, b: bv8)
    requires n <= 8
    ensures n as bv8 == b <==> b as int == n
  {
  }

  lemma Pkcs7Ends(s: seq<bv8>, n: nat)
    requires 0 < n <= 8 <= |s|
    ensures EndsWith(s, PADDING_MODE_PKCS7, n) <==>
            s[|s| - 1] as int == n && forall k :: |s| - n <= k < |s| ==> s[k] == s[|s| - 1]
  {
    var p := Padding(PADDING_MODE_PKCS7, n);
    var e := s[|s| - n..];
    var b := s[|s| - 1];
    ByteOf(n, b);
    if e == p {
      assert e[n - 1] == b;
      forall k | |s| - n <= k < |s| ensures s[k] == b { assert s[k] == e[k - (|s| - n)]; }
    }
    if b as int == n && (forall k :: |s| - n <= k < |s| ==> s[k] == b) {
      forall k | 0 <= k < n ensures e[k] == p[k] { assert e[k] == s[|s| - n + k]; }
    }
  }

  /** remove_padding on the last byte of the buffer. */
  method RemovePadding(buf: array<bv8>, before: int -> bv8, mode: int) returns (r: Result<int>, ghost lowest: int)
    requires buf.Length >= 8
    ensures lowest < 0 <==> mode == PADDING_MODE_PKCS7 && ReadsBefore(buf[..])
    ensures !KnownMode(mode) ==> r == Err(InvalidPaddingMode)
    ensures KnownMode(mode) ==> r.Ok? && r.value >= 0
    ensures KnownMode(mode) ==> forall n: nat | 0 < n <= 8 :: EndsWith(buf[..], mode, n) <==> r.value == n
  {
    lowest := buf.Length;
    if mode < 0 || mode >= 2 {
      r := Err(InvalidPaddingMode);
      return;
    }
    var padding;
    if mode == PADDING_MODE_ISO7816_4 {
      padding := RemoveIso(buf);
    } else {
      padding, lowest := RemovePkcs7(buf, before);
    }
    r := Ok(padding);
  }

  /** des_key: fill the array with the subkeys of the key. */
  method DesKey(c: Cipher, key: seq<bv8>, sk: array<bv32>) returns (r: Result<()>)
    requires sk.Length == 32
    modifies sk
    ensures r == if |key| == 8 then Ok(()) else Err(InvalidKeySize)
    ensures |key| == 8 ==> sk[..] == Schedule(key)
  {
    if |key| != 8 {
      return Err(InvalidKeySize);
    }
    MainKs(sk, key);
    return Ok(());
  }

  method DesEncode(c: Cipher, key: seq<bv8>, text: seq<bv8>, mode: int) returns (r: Result<seq<bv8>>)
    ensures |key| != 8 ==> r == Err(InvalidKeySize)
    ensures |key| == 8 && !KnownMode(mode) ==> r == Err(InvalidPaddingMode)
    ensures |key| == 8 && KnownMode(mode) ==> r == Ok(Ciphertext(c, key, text, mode))
  {
    hide Crypt, CryptAll, Padding, Schedule;
    var sk := new bv32[32];
    var found := DesKey(c, key, sk);
    if found.Err? {
      return Err(found.error);
    }
    var chunksz := (|text| + 8) / 8 * 8;
    var buffer := new bv8[chunksz];
    var i := 0;
    NoBlocks(c, sk[..]);
    assert text[..0] == [] == buffer[..0];
    while i < |text| - 7
      invariant 0 <= i <= |text| && i % 8 == 0 && sk[..] == Schedule(key)
      invariant buffer[..i] == CryptAll(c, sk[..], text[..i])
      decreases |text| - i
    {
      DesCrypt(c, sk, text[i..i + 8], buffer, i);
      NextBlock(c, sk[..], text[..i], text[i..i + 8]);
      assert text[..i] + text[i..i + 8] == text[..i + 8];
      assert buffer[..i + 8] == CryptAll(c, sk[..], text[..i + 8]);
      i := i + 8;
    }
    var tail := new bv8[8];
    var added := AddPadding(tail, text, i, mode);
    if added.Err? {
      return Err(added.error);
    }
    ghost var front := buffer[..i];
    DesCrypt(c, sk, tail[..], buffer, i);
    NextBlock(c, sk[..], text[..i], tail[..]);
    assert text + Padding(mode, 8 - |text| % 8) == text[..i] + tail[..];
    assert buffer[..] == front + Crypt(c, sk[..], tail[..]);
    return Ok(buffer[..]);
  }

  lemma NoBlocks(c: Cipher, sk: Subkeys)
    ensures CryptAll(c, sk, []) == []
  {}

  lemma NextBlock(c: Cipher, sk: Subkeys, s: seq<bv8>, b: Block)
    requires |s| % 8 == 0
    ensures CryptAll(c, sk, s + b) == CryptAll(c, sk, s) + Crypt(c, sk, b)
  {
    hide Crypt;
    assert (s + b)[..|s|] == s && (s + b)[|s|..] == b;
  }

  /** ldesdecode; `lowest` is the lowest index of the decrypted text that is read. */
  method DesDecode(c: Cipher, key: seq<bv8>, text: seq<bv8>, mode: int, before: int -> bv8)
    returns (r: Result<seq<bv8>>, ghost lowest: int)
    ensures lowest < 0 <==> |key| == 8 && |text| % 8 == 0 && text != [] && mode == PADDING_MODE_PKCS7
                            && ReadsBefore(CryptAll(c, Reversed(Schedule(key)), text))
    ensures |key| != 8 ==> r == Err(InvalidKeySize)
    ensures |key| == 8 && (|text| % 8 != 0 || text == []) ==> r == Err(InvalidLength)
    ensures |key| == 8 && |text| % 8 == 0 && text != [] && !KnownMode(mode) ==> r == Err(InvalidPaddingMode)
    ensures |key| == 8 && |text| % 8 == 0 && text != [] && KnownMode(mode) && r.Err? ==> r.error == InvalidText
    ensures |key| == 8 && |text| % 8 == 0 && text != [] && KnownMode(mode) ==>
              forall t :: r == Ok(t) <==> Ciphertext(c, key, t, mode) == text
  {
    hide Crypt, CryptAll, Padding, EndsWith, Ciphertext, ReadsBefore, Schedule;
    lowest := 0;
    var esk := new bv32[32];
    var found := DesKey(c, key, esk);
    if found.Err? {
      r := Err(found.error);
      return;
    }
    var sk := Reverse(esk);
    if |text| % 8 != 0 || |text| == 0 {
      r := Err(InvalidLength);
      return;
    }
    var buffer := new bv8[|text|];
    var i := 0;
    NoBlocks(c, sk[..]);
    assert text[..0] == [] == buffer[..0];
    while i < |text|
      invariant 0 <= i <= |text| && i % 8 == 0 && sk[..] == Reversed(Schedule(key))
      invariant buffer[..i] == CryptAll(c, sk[..], text[..i])
    {
      DesCrypt(c, sk, text[i..i + 8], buffer, i);
      NextBlock(c, sk[..], text[..i], text[i..i + 8]);
      assert text[..i] + text[i..i + 8] == text[..i + 8];
      assert buffer[..i + 8] == CryptAll(c, sk[..], text[..i + 8]);
      i := i + 8;
    }
    assert text[..i] == text && buffer[..i] == buffer[..];
    var removed;
    removed, lowest := RemovePadding(buffer, before, mode);
    if removed.Err? {
      r := Err(removed.error);
      return;
    }
    var padding := removed.value;
    r := if padding <= 0 || padding > 8 then Err(InvalidText) else Ok(buffer[..|text| - padding]);
    Decodes(c, key, text, mode, buffer[..], padding, r);
  }

  /** The text without its padding is the only one whose encoding is `text`. */
  lemma Decodes(c: Cipher, key: Block, text: seq<bv8>, mode: int, plain: seq<bv8>, padding: int, r: Result<seq<bv8>>)
    requires KnownMode(mode) && |text| % 8 == 0 && plain == CryptAll(c, Reversed(Schedule(key)), text) && |plain| >= 8
    requires forall n: nat | 0 < n <= 8 :: EndsWith(plain, mode, n) <==> padding == n
    requires r == if padding <= 0 || padding > 8 then Err(InvalidText) else Ok(plain[..|plain| - padding])
    ensures forall t :: r == Ok(t) <==> Ciphertext(c, key, t, mode) == text
  {
    hide CryptAll, Padding, EndsWith, Ciphertext, Schedule, Reversed;
    forall t ensures r == Ok(t) <==> Ciphertext(c, key, t, mode) == text {
      CiphertextOf(c, key, t, mode, text);
      PaddedAs(plain, t, mode);
    }
  }

  method Reverse(esk: array<bv32>) returns (sk: array<bv32>)
    requires esk.Length == 32
    ensures fresh(sk) && sk.Length == 32 && sk[..] == Reversed(esk[..])
  {
    sk := new bv32[32];
    var i := 0;
    while i < 32
      invariant 0 <= i <= 32 && i % 2 == 0
      invariant forall k :: 0 <= k < i ==> sk[k] == if k % 2 == 0 then esk[30 - k] else esk[32 - k]
    {
      sk[i] := esk[30 - i];
      sk[i + 1] := esk[31 - i];
      i := i + 2;
    }
  }

  /** Decoding what was encoded gives the text back. */
  method EncodeThenDecode(c: Cipher, key: seq<bv8>, text: seq<bv8>, mode: int, before: int -> bv8)
    returns (r: Result<seq<bv8>>)
    requires |key| == 8 && KnownMode(mode)
    ensures r == Ok(text)
  {
    hide *;
    var code := DesEncode(c, key, text, mode);
    ghost var lowest;
    r, lowest := DesDecode(c, key, code.value, mode, before);
  }
}
