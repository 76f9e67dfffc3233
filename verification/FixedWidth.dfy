/** Numbers in a fixed count of bytes, least significant first. */
module FixedWidth {

  import opened Basics

  function Exp256(k: nat): (p: nat)
    ensures p > 0
  {
    if k == 0 then 1 else 256 * Exp256(k - 1)
  }

  /** The k low bytes of n, least significant first. */
  function Bytes(n: nat, k: nat): (b: seq<byte>)
    ensures |b| == k
  {
    if k == 0 then [] else [n % 256] + Bytes(n / 256, k - 1)
  }

  function Unsigned(b: seq<byte>): nat {
    if b == [] then 0 else b[0] + 256 * Unsigned(b[1..])
  }

  /** Two's complement in k bytes. */
  function Wrapped(n: int, k: nat): int {
    if n >= 0 then n else n + Exp256(k)
  }

  function Signed(b: seq<byte>): int {
    var n: int := Unsigned(b);
    if 2 * n >= Exp256(|b|) then n - Exp256(|b|) else n
  }

  lemma {:induction false} BytesBack(n: nat, k: nat)
    requires n < Exp256(k)
    ensures Unsigned(Bytes(n, k)) == n
  {
    if k > 0 {
      assert n / 256 < Exp256(k - 1);
      BytesBack(n / 256, k - 1);
      assert Bytes(n, k)[1..] == Bytes(n / 256, k - 1);
    }
  }

  lemma SignedBack(n: int, k: nat)
    requires 0 <= 2 * n + Exp256(k) && 2 * n < Exp256(k)
    ensures 0 <= Wrapped(n, k) < Exp256(k) && Signed(Bytes(Wrapped(n, k), k)) == n
  {
    BytesBack(Wrapped(n, k), k);
  }

  lemma Widths()
    ensures Exp256(1) == 0x100 && Exp256(2) == 0x1_0000 && Exp256(4) == 0x1_0000_0000
    ensures Exp256(8) == 0x1_0000_0000_0000_0000
  {
    assert Exp256(2) == 256 * Exp256(1) && Exp256(4) == 256 * (256 * Exp256(2));
    assert Exp256(8) == 256 * (256 * (256 * (256 * Exp256(4))));
  }

  lemma {:induction false} UnsignedBound(b: seq<byte>)
    ensures Unsigned(b) < Exp256(|b|)
  {
    if b != [] { UnsignedBound(b[1..]); }
  }
}
