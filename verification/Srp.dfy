/**
  SRP-6a as srp.c runs it between a client and a verifier, over any group (N, g) and any hash
  function. BIGNUMs are integers with mathematical remainder; random numbers are parameters;
  messages travel as big-endian bytes.
 */
module Srp {

  import opened Basics

  type Hash = seq<byte> -> seq<byte>

  // ---------------------------------------------------------------------------
  // Powers modulo N

  function Pow(x: int, e: nat): int {
    if e == 0 then 1 else x * Pow(x, e - 1)
  }

  /** BN_mod_exp */
  function ModExp(x: int, e: nat, n: nat): nat
    requires n > 0
  {
    Pow(x, e) % n
  }

  ghost predicate Same(x: int, y: int, n: nat) {
    exists k :: x == y + n * k
  }

  lemma SameBy(x: int, y: int, n: nat, k: int)
    requires x == y + n * k
    ensures Same(x, y, n)
  {}

  lemma ModSame(x: int, n: nat)
    requires n > 0
    ensures Same(x, x % n, n) && Same(x % n, x, n)
  {
    assert x == x % n + n * (x / n);
    SameBy(x, x % n, n, x / n);
    assert x % n == x + n * (-(x / n));
    SameBy(x % n, x, n, -(x / n));
  }

  lemma SameMod(x: int, y: int, n: nat)
    requires n > 0 && Same(x, y, n)
    ensures x % n == y % n
  {
    var k :| x == y + n * k;
    var q, r := y / n, y % n;
    assert y == n * q + r;
    assert x == n * (q + k) + r;
    Remainder(x, n, q + k, r);
  }

  lemma SameTrans(x: int, y: int, z: int, n: nat)
    requires Same(x, y, n) && Same(y, z, n)
    ensures Same(x, z, n)
  {
    var k :| x == y + n * k;
    var l :| y == z + n * l;
    assert x == z + n * (k + l);
    SameBy(x, z, n, k + l);
  }

  lemma SameTimes(x: int, y: int, a: int, b: int, n: nat)
    requires Same(x, y, n) && Same(a, b, n)
    ensures Same(x * a, y * b, n)
  {
    var k :| x == y + n * k;
    var l :| a == b + n * l;
    ProductOf(y, b, n, k, l);
    SameBy(x * a, y * b, n, y * l + k * b + n * (k * l));
  }

  lemma ProductOf(y: int, b: int, n: int, k: int, l: int)
    ensures (y + n * k) * (b + n * l) == y * b + n * (y * l + k * b + n * (k * l))
  {
    assert (y + n * k) * (b + n * l) == y * (b + n * l) + n * k * (b + n * l);
    assert n * k * (b + n * l) == n * (k * b) + n * (n * (k * l));
    assert y * (n * l) == n * (y * l);
  }

  lemma SamePlus(x: int, y: int, a: int, b: int, n: nat)
    requires Same(x, y, n) && Same(a, b, n)
    ensures Same(x + a, y + b, n) && Same(x - a, y - b, n)
  {
    var k :| x == y + n * k;
    var l :| a == b + n * l;
    assert n * (k + l) == n * k + n * l && n * (k - l) == n * k - n * l;
    SameBy(x + a, y + b, n, k + l);
    SameBy(x - a, y - b, n, k - l);
  }

  lemma {:induction false} SamePow(x: int, y: int, e: nat, n: nat)
    requires Same(x, y, n)
    ensures Same(Pow(x, e), Pow(y, e), n)
  {
    if e == 0 {
      SameBy(1, 1, n, 0);
    } else {
      SamePow(x, y, e - 1, n);
      SameTimes(x, y, Pow(x, e - 1), Pow(y, e - 1), n);
    }
  }

  lemma {:induction false} PowAdd(x: int, a: nat, b: nat)
    ensures Pow(x, a + b) == Pow(x, a) * Pow(x, b)
  {
    if a > 0 {
      PowAdd(x, a - 1, b);
      Assoc(x, Pow(x, a - 1), Pow(x, b));
    }
  }

  lemma Assoc(a: int, b: int, c: int)
    ensures a * (b * c) == a * b * c
  {}

  lemma {:induction false} PowMul(x: int, a: nat, b: nat)
    ensures Pow(Pow(x, a), b) == Pow(x, a * b)
  {
    if b > 0 {
      PowMul(x, a, b - 1);
      PowAdd(x, a, a * (b - 1));
      assert a * b == a + a * (b - 1);
    }
  }

  // ---------------------------------------------------------------------------
  // The secrets of the two sides

  /** B = kv + g^b, reduced modulo N only in RFC 5054 mode. */
  function Challenge(n: nat, g: nat, k: nat, v: nat, b: nat, rfc: bool): nat
    requires n > 0
  {
    if rfc then (k * v % n + ModExp(g, b, n)) % n else k * v + ModExp(g, b, n)
  }

  /** S = (A * v^u)^b */
  function ServerSecret(n: nat, A: nat, v: nat, u: nat, b: nat): nat
    requires n > 0
  {
    ModExp(A * ModExp(v, u, n), b, n)
  }

  /** S = (B - k * g^x)^(a + u * x) */
  function ClientSecret(n: nat, g: nat, B: nat, k: nat, x: nat, a: nat, u: nat): nat
    requires n > 0
  {
    ModExp(B - k * ModExp(g, x, n), a + u * x, n)
  }

  lemma ModExpSame(x: int, e: nat, n: nat)
    requires n > 0
    ensures Same(ModExp(x, e, n), Pow(x, e), n)
  {
    ModSame(Pow(x, e), n);
  }

  lemma Exponents(a: nat, x: nat, u: nat, b: nat)
    ensures (a + x * u) * b == b * (a + u * x)
  {}

  lemma ServerIs(n: nat, g: nat, a: nat, x: nat, u: nat, b: nat)
    requires n > 0
    ensures Same(Pow(ModExp(g, a, n) * ModExp(ModExp(g, x, n), u, n), b), Pow(g, b * (a + u * x)), n)
  {
    hide Same, Pow, ModExp;
    var A, v, e := ModExp(g, a, n), ModExp(g, x, n), x * u;
    ModExpSame(g, a, n);
    ModExpSame(g, x, n);
    ModExpSame(v, u, n);
    SamePow(v, Pow(g, x), u, n);
    PowMul(g, x, u);
    SameTrans(ModExp(v, u, n), Pow(v, u), Pow(g, e), n);
    SameTimes(A, Pow(g, a), ModExp(v, u, n), Pow(g, e), n);
    PowAdd(g, a, e);
    SamePow(A * ModExp(v, u, n), Pow(g, a + e), b, n);
    PowMul(g, a + e, b);
    Exponents(a, x, u, b);
  }

  /** What the client takes from B leaves g^b, in both modes. */
  lemma ChallengeLeaves(n: nat, g: nat, k: nat, x: nat, b: nat, rfc: bool)
    requires n > 0
    ensures Same(Challenge(n, g, k, ModExp(g, x, n), b, rfc) - k * ModExp(g, x, n), Pow(g, b), n)
  {
    var v, e := ModExp(g, x, n), ModExp(g, b, n);
    ModSame(Pow(g, b), n);
    if rfc {
      ModSame(k * v, n);
      ModSame(k * v % n + e, n);
      SameBy(e, e, n, 0);
      SamePlus(k * v % n, k * v, e, e, n);
      SameTrans((k * v % n + e) % n, k * v % n + e, k * v + e, n);
      SameBy(k * v, k * v, n, 0);
      SamePlus((k * v % n + e) % n, k * v + e, k * v, k * v, n);
      SameTrans((k * v % n + e) % n - k * v, e, Pow(g, b), n);
    }
  }

  /** Client and server compute the same premaster secret, for every group and every secret. */
  lemma SecretsAgree(n: nat, g: nat, k: nat, x: nat, a: nat, b: nat, u: nat, rfc: bool)
    requires n > 0
    ensures var v := ModExp(g, x, n);
            ClientSecret(n, g, Challenge(n, g, k, v, b, rfc), k, x, a, u) == ServerSecret(n, ModExp(g, a, n), v, u, b)
  {
    var v := ModExp(g, x, n);
    var base := Challenge(n, g, k, v, b, rfc) - k * v;
    var e := a + u * x;
    ChallengeLeaves(n, g, k, x, b, rfc);
    SamePow(base, Pow(g, b), e, n);
    PowMul(g, b, e);
    SameMod(Pow(base, e), Pow(g, b * e), n);
    ServerIs(n, g, a, x, u, b);
    SameMod(Pow(ModExp(g, a, n) * ModExp(v, u, n), b), Pow(g, b * e), n);
  }

  // ---------------------------------------------------------------------------
  // Numbers as bytes

  /** BN_bn2bin: big-endian, without leading zero bytes. */
  function Bin(n: nat): seq<byte> {
    if n == 0 then [] else Bin(n / 256) + [n % 256]
  }

  /** BN_bin2bn */
  function Num(b: seq<byte>): nat {
    if b == [] then 0 else Num(b[..|b| - 1]) * 256 + b[|b| - 1]
  }

  lemma {:induction false} NumBin(n: nat)
    ensures Num(Bin(n)) == n
  {
    if n > 0 {
      NumBin(n / 256);
      assert Bin(n)[..|Bin(n)| - 1] == Bin(n / 256);
    }
  }

  function Zeros(k: nat): seq<byte> {
    if k == 0 then [] else [0] + Zeros(k - 1)
  }

  /** A number in as many bytes as N has. */
  function Padded(x: nat, n: nat): seq<byte>
    requires |Bin(x)| <= |Bin(n)|
  {
    Zeros(|Bin(n)| - |Bin(x)|) + Bin(x)
  }

  // ---------------------------------------------------------------------------
  // The hashes

  /** H_nn_orig, or H_nn_rfc5054, which fails for numbers longer than N. */
  function HashTwo(h: Hash, n: nat, x: nat, y: nat, rfc: bool): Option<nat> {
    if !rfc then Some(Num(h(Bin(x) + Bin(y))))
    else if |Bin(x)| > |Bin(n)| || |Bin(y)| > |Bin(n)| then None
    else Some(Num(h(Padded(x, n) + Padded(y, n))))
  }

  /** calculate_x */
  function PrivateKey(h: Hash, s: nat, username: seq<byte>, password: seq<byte>, noUsername: bool): nat {
    Num(h(Bin(s) + h((if noUsername then [] else username) + [58] + password)))
  }

  function Xor(x: byte, y: byte): byte {
    ((x as bv8) ^ (y as bv8)) as int
  }

  function XorAll(a: seq<byte>, b: seq<byte>): seq<byte> {
    if a == [] || b == [] then [] else [Xor(a[0], b[0])] + XorAll(a[1..], b[1..])
  }

  /** calculate_M; it fails in RFC 5054 mode when g is longer than N. */
  function Proof(h: Hash, n: nat, g: nat, username: seq<byte>, s: nat, A: nat, B: nat, key: seq<byte>,
                 rfc: bool): Option<seq<byte>> {
    if rfc && |Bin(g)| > |Bin(n)| then None
    else
      var hg := h(if rfc then Padded(g, n) else Bin(g));
      Some(h(XorAll(h(Bin(n)), hg) + h(username) + Bin(s) + Bin(A) + Bin(B) + key))
  }

  /** calculate_H_AMK */
  function Answer(h: Hash, A: nat, M: seq<byte>, key: seq<byte>): seq<byte> {
    h(Bin(A) + M + key)
  }

  // ---------------------------------------------------------------------------
  // What the hashes depend on

  /** No two texts are known to give the same number. */
  ghost predicate CollisionFree(h: Hash) {
    forall a, b :: Num(h(a)) == Num(h(b)) ==> a == b
  }

  lemma NoCollision(h: Hash, a: seq<byte>, b: seq<byte>)
    requires CollisionFree(h) && Num(h(a)) == Num(h(b))
    ensures a == b
  {}

  /** There are such functions: a leading 1 keeps the leading zeros of what follows. */
  lemma SomeCollisionFree()
    ensures CollisionFree((b: seq<byte>) => [1] + b)
  {
    var h: Hash := b => [1] + b;
    forall a, b | Num(h(a)) == Num(h(b)) ensures a == b {
      LeadingOne(a, b);
    }
  }

  lemma {:induction false} LeadingOne(a: seq<byte>, b: seq<byte>)
    requires Num([1] + a) == Num([1] + b)
    ensures a == b
  {
    OneMoreByte(a);
    OneMoreByte(b);
    if a != [] && b != [] {
      LeadingOne(a[..|a| - 1], b[..|b| - 1]);
      assert a == a[..|a| - 1] + [a[|a| - 1]] && b == b[..|b| - 1] + [b[|b| - 1]];
    }
  }

  lemma {:induction false} OneMoreByte(a: seq<byte>)
    ensures Num([1] + a) >= 1
    ensures a == [] ==> Num([1] + a) == 1
    ensures a != [] ==> Num([1] + a) == Num([1] + a[..|a| - 1]) * 256 + a[|a| - 1] && Num([1] + a) >= 256
  {
    if a == [] {
      assert [1] + a == [1] && [1][..0] == [];
    } else {
      OneMoreByte(a[..|a| - 1]);
      assert ([1] + a)[..|a|] == [1] + a[..|a| - 1];
    }
  }

  lemma BinsDiffer(x: nat, y: nat)
    requires Bin(x) == Bin(y)
    ensures x == y
  {
    NumBin(x);
    NumBin(y);
  }

  lemma SameFront<T>(a: seq<T>, b: seq<T>, x: seq<T>, y: seq<T>)
    requires a + x == b + y && |a| == |b|
    ensures a == b && x == y
  {
    assert (a + x)[..|a|] == a && (b + y)[..|b|] == b;
    assert (a + x)[|a|..] == x && (b + y)[|b|..] == y;
  }

  lemma SameBack<T>(a: seq<T>, b: seq<T>, x: seq<T>)
    requires a + x == b + x
    ensures a == b
  {
    assert |a| == |a + x| - |x| == |b|;
    SameFront(a, b, x, x);
  }

  /** The private key depends on the password, on the salt and, unless it is left out, on the user name. */
  lemma KeyDepends(h: Hash, s: nat, s': nat, username: seq<byte>, username': seq<byte>, password: seq<byte>,
                   password': seq<byte>, noUsername: bool)
    requires CollisionFree(h)
    requires PrivateKey(h, s, username, password, noUsername) == PrivateKey(h, s', username', password', noUsername)
    ensures s == s' && username == username' ==> password == password'
    ensures username == username' && password == password' ==> s == s'
    ensures s == s' && password == password' && !noUsername ==> username == username'
  {
    hide CollisionFree, Bin;
    var front, front' := if noUsername then [] else username, if noUsername then [] else username';
    var t, t' := front + [58] + password, front' + [58] + password';
    NoCollision(h, Bin(s) + h(t), Bin(s') + h(t'));
    if s == s' {
      SameFront(Bin(s), Bin(s'), h(t), h(t'));
      NoCollision(h, t, t');
      if username == username' { SameFront(front + [58], front' + [58], password, password'); }
      if password == password' {
        SameBack(front + [58], front' + [58], password);
        SameBack(front, front', [58]);
      }
    } else if username == username' && password == password' {
      SameBack(Bin(s), Bin(s'), h(t));
      BinsDiffer(s, s');
    }
  }

  lemma {:induction false} NumZeros(k: nat, b: seq<byte>)
    ensures |Zeros(k)| == k && Num(Zeros(k) + b) == Num(b)
    decreases k, |b|
  {
    if b != [] {
      NumZeros(k, b[..|b| - 1]);
      assert (Zeros(k) + b)[..|Zeros(k) + b| - 1] == Zeros(k) + b[..|b| - 1];
    } else if k > 0 {
      NumZeros(k - 1, []);
      ZerosLast(k);
      assert Zeros(k) + [] == Zeros(k) && Zeros(k - 1) + [] == Zeros(k - 1);
      assert (Zeros(k - 1) + [0])[..k - 1] == Zeros(k - 1);
    }
  }

  lemma {:induction false} ZerosLast(k: nat)
    requires k > 0
    ensures Zeros(k) == Zeros(k - 1) + [0]
  {
    if k > 1 { ZerosLast(k - 1); }
  }

  lemma PaddedBack(x: nat, n: nat)
    requires |Bin(x)| <= |Bin(n)|
    ensures |Padded(x, n)| == |Bin(n)| && Num(Padded(x, n)) == x
  {
    NumZeros(|Bin(n)| - |Bin(x)|, Bin(x));
    NumBin(x);
  }

  /**
    u depends on A and on B. In RFC 5054 mode it depends on the pair; in the other mode only on
    their bytes laid end to end.
   */
  lemma HashDepends(h: Hash, n: nat, x: nat, y: nat, x': nat, y': nat, rfc: bool)
    requires CollisionFree(h) && HashTwo(h, n, x, y, rfc).Some? && HashTwo(h, n, x, y, rfc) == HashTwo(h, n, x', y', rfc)
    ensures rfc || x == x' || y == y' ==> x == x' && y == y'
    ensures !rfc ==> Bin(x) + Bin(y) == Bin(x') + Bin(y')
  {
    hide CollisionFree, Bin;
    if rfc {
      NoCollision(h, Padded(x, n) + Padded(y, n), Padded(x', n) + Padded(y', n));
      PaddedBack(x, n);
      PaddedBack(y, n);
      PaddedBack(x', n);
      PaddedBack(y', n);
      SameFront(Padded(x, n), Padded(x', n), Padded(y, n), Padded(y', n));
    } else {
      NoCollision(h, Bin(x) + Bin(y), Bin(x') + Bin(y'));
      if x == x' {
        SameFront(Bin(x), Bin(x'), Bin(y), Bin(y'));
        BinsDiffer(y, y');
      } else if y == y' {
        SameBack(Bin(x), Bin(x'), Bin(y));
        BinsDiffer(x, x');
      }
    }
  }

  /** Two pairs that the other mode does not tell apart, for any hash function. */
  lemma PairsConfused(h: Hash, n: nat)
    ensures HashTwo(h, n, 0x1, 0x203, false) == HashTwo(h, n, 0x102, 0x3, false)
  {
    assert Bin(0x1) == [1] && Bin(0x203) == [2, 3] && Bin(0x102) == [1, 2] && Bin(0x3) == [3];
    assert [1] + [2, 3] == [1, 2] + [3];
  }

  /** The proof depends on the key, and on the numbers and the name it is made for. */
  lemma ProofDepends(h: Hash, n: nat, g: nat, rfc: bool, username: seq<byte>, s: nat, A: nat, B: nat, key: seq<byte>,
                     username': seq<byte>, s': nat, A': nat, B': nat, key': seq<byte>)
    requires CollisionFree(h) && Proof(h, n, g, username, s, A, B, key, rfc).Some?
    requires Proof(h, n, g, username, s, A, B, key, rfc) == Proof(h, n, g, username', s', A', B', key', rfc)
    ensures (username, s, A, B) == (username', s', A', B') ==> key == key'
    ensures (username, s, A, key) == (username', s', A', key') ==> B == B'
    ensures (username, s, B, key) == (username', s', B', key') ==> A == A'
    ensures (username, A, B, key) == (username', A', B', key') ==> s == s'
    ensures (s, A, B, key) == (s', A', B', key') ==> username == username'
  {
    hide CollisionFree, Bin, XorAll, Num;
    var x := XorAll(h(Bin(n)), h(if rfc then Padded(g, n) else Bin(g)));
    var i, i' := h(username), h(username');
    var p, p' := Bin(s), Bin(s');
    var q, q' := Bin(A), Bin(A');
    var r, r' := Bin(B), Bin(B');
    hide Proof;
    ProofIs(h, n, g, username, s, A, B, key, rfc);
    ProofIs(h, n, g, username', s', A', B', key', rfc);
    NoCollision(h, x + i + p + q + r + key, x + i' + p' + q' + r' + key');
    if key != key' {
      if (i, p, q, r) == (i', p', q', r') { SameFront(x + i + p + q + r, x + i + p + q + r, key, key'); }
    } else {
      SameBack(x + i + p + q + r, x + i' + p' + q' + r', key);
      if r != r' {
        if (i, p, q) == (i', p', q') { SameFront(x + i + p + q, x + i + p + q, r, r'); }
      } else {
        SameBack(x + i + p + q, x + i' + p' + q', r);
        if q != q' {
          if (i, p) == (i', p') { SameFront(x + i + p, x + i + p, q, q'); }
        } else {
          SameBack(x + i + p, x + i' + p', q);
          if p != p' {
            if i == i' { SameFront(x + i, x + i, p, p'); }
          } else {
            SameBack(x + i, x + i', p);
            SameFront(x, x, i, i');
            NoCollision(h, username, username');
          }
        }
      }
    }
    if r == r' { BinsDiffer(B, B'); }
    if q == q' { BinsDiffer(A, A'); }
    if p == p' { BinsDiffer(s, s'); }
  }

  lemma ProofIs(h: Hash, n: nat, g: nat, username: seq<byte>, s: nat, A: nat, B: nat, key: seq<byte>, rfc: bool)
    requires Proof(h, n, g, username, s, A, B, key, rfc).Some?
    ensures var x := XorAll(h(Bin(n)), h(if rfc then Padded(g, n) else Bin(g)));
            Proof(h, n, g, username, s, A, B, key, rfc) == Some(h(x + h(username) + Bin(s) + Bin(A) + Bin(B) + key))
  {}

  /** What the server answers depends on each part too. */
  lemma AnswerDepends(h: Hash, A: nat, M: seq<byte>, key: seq<byte>, A': nat, M': seq<byte>, key': seq<byte>)
    requires CollisionFree(h) && Answer(h, A, M, key) == Answer(h, A', M', key')
    ensures (A, M) == (A', M') ==> key == key'
    ensures (A, key) == (A', key') ==> M == M'
    ensures (M, key) == (M', key') ==> A == A'
  {
    hide CollisionFree, Bin;
    NoCollision(h, Bin(A) + M + key, Bin(A') + M' + key');
    if (A, M) == (A', M') {
      SameFront(Bin(A) + M, Bin(A) + M, key, key');
    } else if key == key' {
      SameBack(Bin(A) + M, Bin(A') + M', key);
      if A == A' {
        SameFront(Bin(A), Bin(A), M, M');
      } else if M == M' {
        SameBack(Bin(A), Bin(A'), M);
        BinsDiffer(A, A');
      }
    }
  }

  // ---------------------------------------------------------------------------
  // The two sides

  /** srp_create_salted_verification_key */
  method CreateKey(h: Hash, n: nat, g: nat, username: seq<byte>, password: seq<byte>, s: nat)
    returns (bytesS: seq<byte>, bytesV: seq<byte>)
    requires n > 0
    ensures Num(bytesS) == s && Num(bytesV) == ModExp(g, PrivateKey(h, s, username, password, false), n)
  {
    var x := PrivateKey(h, s, username, password, false);
    var v := ModExp(g, x, n);
    bytesS, bytesV := Bin(s), Bin(v);
    NumBin(s);
    NumBin(v);
  }

  /** struct SRPVerifier */
  class Verifier {
    const h: Hash
    const n: nat
    const g: nat
    const username: seq<byte>
    const rfc: bool
    var authenticated: bool
    var M: seq<byte>
    var hAMK: seq<byte>
    var sessionKey: seq<byte>

    constructor (h: Hash, n: nat, g: nat, username: seq<byte>, rfc: bool)
      ensures this.h == h && this.n == n && this.g == g && this.username == username && this.rfc == rfc && !authenticated
    {
      this.h, this.n, this.g, this.username, this.rfc := h, n, g, username, rfc;
      authenticated := false;
      M, hAMK, sessionKey := [], [], [];
    }

    /** What the verifier holds after srp_verifier_new. */
    ghost predicate Ready(s: nat, A: nat, B: nat, S: nat)
      reads this
    {
      && sessionKey == h(Bin(S))
      && Proof(h, n, g, username, s, A, B, sessionKey, rfc) == Some(M)
      && hAMK == Answer(h, A, M, sessionKey)
    }

    /** srp_verifier_verify_session */
    method VerifySession(userM: seq<byte>) returns (bytesHAMK: Option<seq<byte>>)
      modifies this`authenticated
      ensures authenticated == (old(authenticated) || userM == M)
      ensures bytesHAMK == if userM == M then Some(hAMK) else None
    {
      if M == userM {
        authenticated := true;
        return Some(hAMK);
      }
      return None;
    }
  }

  /** Whether srp_verifier_new accepts A: not a multiple of N, and short enough for RFC 5054 mode. */
  predicate VerifierAccepts(h: Hash, n: nat, g: nat, v: nat, A: nat, b: nat, rfc: bool)
    requires n > 0
  {
    && A % n != 0
    && (var k := HashTwo(h, n, n, g, rfc);
        k.Some? && HashTwo(h, n, A, Challenge(n, g, k.value, v, b, rfc), rfc).Some?)
  }

  /** srp_verifier_new: null when a safety check or a hash fails. */
  method NewVerifier(h: Hash, n: nat, g: nat, username: seq<byte>, bytesS: seq<byte>, bytesV: seq<byte>,
                     bytesA: seq<byte>,
                     b: nat, rfc: bool)
    returns (ver: Verifier?, bytesB: seq<byte>)
    requires n > 0
    ensures ver != null <==> VerifierAccepts(h, n, g, Num(bytesV), Num(bytesA), b, rfc)
    ensures ver != null ==> fresh(ver) && !ver.authenticated && ver.h == h && ver.n == n && ver.g == g
                            && ver.username == username && ver.rfc == rfc
    ensures ver != null ==>
              var k := HashTwo(h, n, n, g, rfc).value;
              var A, v := Num(bytesA), Num(bytesV);
              var B := Challenge(n, g, k, v, b, rfc);
              var u := HashTwo(h, n, A, B, rfc).value;
              Num(bytesB) == B && ver.Ready(Num(bytesS), A, B, ServerSecret(n, A, v, u, b))
  {
    var s, v, A := Num(bytesS), Num(bytesV), Num(bytesA);
    ver, bytesB := null, [];
    var tmp1 := A % n;
    if tmp1 == 0 {
      return;
    }
    var k := HashTwo(h, n, n, g, rfc);
    if k.None? {
      return;
    }
    var B;
    var tmp2;
    if rfc {
      tmp1 := k.value * v % n;
      tmp2 := ModExp(g, b, n);
      B := (tmp1 + tmp2) % n;
    } else {
      tmp1 := k.value * v;
      tmp2 := ModExp(g, b, n);
      B := tmp1 + tmp2;
    }
    var u := HashTwo(h, n, A, B, rfc);
    if u.None? {
      return;
    }
    tmp1 := ModExp(v, u.value, n);
    tmp2 := A * tmp1;
    var S := ModExp(tmp2, b, n);
    var key := h(Bin(S));
    var M := Proof(h, n, g, username, s, A, B, key, rfc);
    if M.None? {
      return;
    }
    var w := new Verifier(h, n, g, username, rfc);
    w.sessionKey := key;
    w.M := M.value;
    w.hAMK := Answer(h, A, M.value, key);
    ver, bytesB := w, Bin(B);
    NumBin(B);
  }

  /** struct SRPUser */
  class User {
    const h: Hash
    const n: nat
    const g: nat
    const username: seq<byte>
    const password: seq<byte>
    const rfc: bool
    var noUsername: bool
    var authenticated: bool
    var a: nat
    var A: nat
    var S: nat
    var M: seq<byte>
    var hAMK: seq<byte>
    var sessionKey: seq<byte>

    /** srp_user_new */
    constructor (h: Hash, n: nat, g: nat, username: seq<byte>, password: seq<byte>, rfc: bool)
      ensures this.h == h && this.n == n && this.g == g && this.username == username && this.password == password
      ensures this.rfc == rfc && !noUsername && !authenticated
    {
      this.h, this.n, this.g, this.username, this.password, this.rfc := h, n, g, username, password, rfc;
      noUsername, authenticated := false, false;
      a, A, S := 0, 0, 0;
      M, hAMK, sessionKey := [], [], [];
    }

    /** srp_user_start_authentication; `random` is what BN_rand gives. */
    method StartAuthentication(random: nat) returns (bytesA: seq<byte>)
      requires n > 0
      modifies this`a, this`A
      ensures a == random && A == ModExp(g, a, n) && Num(bytesA) == A
    {
      a := random;
      A := ModExp(g, a, n);
      bytesA := Bin(A);
      NumBin(A);
    }

    /** Whether srp_user_process_challenge answers: the hashes do not fail, and neither B nor u is 0. */
    predicate Accepts(B: nat)
      reads this
    {
      ClientAccepts(h, n, g, A, B, rfc)
    }

    /** srp_user_process_challenge */
    method ProcessChallenge(bytesS: seq<byte>, bytesB: seq<byte>) returns (bytesM: Option<seq<byte>>)
      requires n > 0
      modifies this`S, this`M, this`hAMK, this`sessionKey
      ensures bytesM.Some? <==> Accepts(Num(bytesB))
      ensures bytesM.Some? ==>
                var s, B := Num(bytesS), Num(bytesB);
                var k, u := HashTwo(h, n, n, g, rfc).value, HashTwo(h, n, A, B, rfc).value;
                var x := PrivateKey(h, s, username, password, noUsername);
                && S == ClientSecret(n, g, B, k, x, a, u) && sessionKey == h(Bin(S))
                && Proof(h, n, g, username, s, A, B, sessionKey, rfc) == bytesM
                && hAMK == Answer(h, A, bytesM.value, sessionKey)
    {
      hide HashTwo, Proof, PrivateKey, ModExp, Answer, Bin, Num;
      var s, B := Num(bytesS), Num(bytesB);
      var u := HashTwo(h, n, A, B, rfc);
      if u.None? {
        return None;
      }
      var x := PrivateKey(h, s, username, password, noUsername);
      var k := HashTwo(h, n, n, g, rfc);
      if k.None? {
        return None;
      }
      if B == 0 || u.value == 0 {
        return None;
      }
      var tmp1: int := u.value * x;
      var tmp2 := a + tmp1;
      tmp1 := ModExp(g, x, n);
      var tmp3 := k.value * tmp1;
      tmp1 := B - tmp3;
      S := ModExp(tmp1, tmp2, n);
      sessionKey := h(Bin(S));
      var proof := Proof(h, n, g, username, s, A, B, sessionKey, rfc);
      ProofExists(h, n, g, username, s, A, B, sessionKey, rfc);
      M := if proof.Some? then proof.value else M;
      hAMK := Answer(h, A, M, sessionKey);
      return Some(M);
    }

    /** srp_user_verify_session */
    method VerifySession(bytesHAMK: seq<byte>)
      modifies this`authenticated
      ensures authenticated == (old(authenticated) || bytesHAMK == hAMK)
    {
      if hAMK == bytesHAMK {
        authenticated := true;
      }
    }
  }

  predicate ClientAccepts(h: Hash, n: nat, g: nat, A: nat, B: nat, rfc: bool) {
    B != 0 && HashesFit(h, n, g, A, B, rfc)
  }

  /** k and u can be computed, and u is not 0. */
  predicate HashesFit(h: Hash, n: nat, g: nat, A: nat, B: nat, rfc: bool) {
    && HashTwo(h, n, n, g, rfc).Some?
    && (var u := HashTwo(h, n, A, B, rfc); u.Some? && u.value != 0)
  }

  /** What section 2.5.3 of RFC 5054 asks of the client: to refuse every multiple of N. */
  predicate StandardAccepts(h: Hash, n: nat, g: nat, A: nat, B: nat, rfc: bool)
    requires n > 0
  {
    B % n != 0 && HashesFit(h, n, g, A, B, rfc)
  }

  /** The challenges the client answers and the standard refuses: the multiples of N other than 0. */
  lemma WronglyAccepted(h: Hash, n: nat, g: nat, A: nat, B: nat, rfc: bool)
    requires n > 0
    ensures ClientAccepts(h, n, g, A, B, rfc) && !StandardAccepts(h, n, g, A, B, rfc)
       <==> B != 0 && B % n == 0 && HashesFit(h, n, g, A, B, rfc)
    ensures StandardAccepts(h, n, g, A, B, rfc) ==> ClientAccepts(h, n, g, A, B, rfc)
  {
    hide HashesFit;
    if B == 0 { assert 0 % n == 0; }
  }

  /** One of them: B = N, for a hash that never gives 0. */
  lemma GroupAccepted(n: nat, g: nat, A: nat)
    requires n > 0
    ensures var h: Hash := _ => [1];
            ClientAccepts(h, n, g, A, n, false) && !StandardAccepts(h, n, g, A, n, false)
  {
    assert Num([1]) == Num([]) * 256 + 1;
  }

  /** When k can be computed the proof can. */
  lemma ProofExists(h: Hash, n: nat, g: nat, username: seq<byte>, s: nat, A: nat, B: nat, key: seq<byte>, rfc: bool)
    requires HashTwo(h, n, n, g, rfc).Some?
    ensures Proof(h, n, g, username, s, A, B, key, rfc).Some?
  {}

  /** Everything both sides check before they trust each other. */
  predicate ChecksPass(h: Hash, n: nat, g: nat, x: nat, a: nat, b: nat, rfc: bool)
    requires n > 0
  {
    var A, v := ModExp(g, a, n), ModExp(g, x, n);
    && A % n != 0
    && (var k := HashTwo(h, n, n, g, rfc);
        k.Some?
        && (var B := Challenge(n, g, k.value, v, b, rfc);
            B != 0 && (var u := HashTwo(h, n, A, B, rfc); u.Some? && u.value != 0)))
  }

  /** The premaster secrets of a client with private key y and a server whose verification key was made from x. */
  predicate SecretsMeet(h: Hash, n: nat, g: nat, x: nat, y: nat, a: nat, b: nat, rfc: bool)
    requires n > 0 && ChecksPass(h, n, g, x, a, b, rfc)
  {
    var A, v, k := ModExp(g, a, n), ModExp(g, x, n), HashTwo(h, n, n, g, rfc).value;
    var B := Challenge(n, g, k, v, b, rfc);
    var u := HashTwo(h, n, A, B, rfc).value;
    ClientSecret(n, g, B, k, y, a, u) == ServerSecret(n, A, v, u, b)
  }

  /** The hash of the server's premaster secret. */
  function SharedKey(h: Hash, n: nat, g: nat, x: nat, a: nat, b: nat, rfc: bool): seq<byte>
    requires n > 0 && ChecksPass(h, n, g, x, a, b, rfc)
  {
    var A, v, k := ModExp(g, a, n), ModExp(g, x, n), HashTwo(h, n, n, g, rfc).value;
    h(Bin(ServerSecret(n, A, v, HashTwo(h, n, A, Challenge(n, g, k, v, b, rfc), rfc).value, b)))
  }

  /**
    A whole session, between a server that stores the verification key of one password and a
    client who types another, or the same: for every group, salt, pair of secrets and hash function,
    in both modes. With the same password both sides authenticate exactly when the safety checks
    pass. With any two passwords, and a hash function without collisions, both authenticate exactly
    when they pass and the two premaster secrets are the same number; otherwise neither does.
    Sides that authenticate share the key.
   */
  method Session(h: Hash, n: nat, g: nat, username: seq<byte>, stored: seq<byte>, typed: seq<byte>, salt: nat, a: nat,
                 b: nat, rfc: bool)
    returns (userOk: bool, serverOk: bool, userKey: seq<byte>, serverKey: seq<byte>)
    requires n > 0
    ensures var x, y := PrivateKey(h, salt, username, stored, false), PrivateKey(h, salt, username, typed, false);
            && (stored == typed ==> userOk == serverOk == ChecksPass(h, n, g, x, a, b, rfc))
            && (CollisionFree(h) ==>
                  userOk == serverOk == (ChecksPass(h, n, g, x, a, b, rfc) && SecretsMeet(h, n, g, x, y, a, b, rfc)))
    ensures (userOk || serverOk) && (stored == typed || CollisionFree(h)) ==>
              userKey == serverKey == SharedKey(h, n, g, PrivateKey(h, salt, username, stored, false), a, b, rfc)
  {
    hide ModExp, HashTwo, PrivateKey, Proof, Answer, ClientSecret, ServerSecret, Challenge, Bin, CollisionFree;
    ghost var x := PrivateKey(h, salt, username, stored, false);
    userOk, serverOk, userKey, serverKey := false, false, [], [];
    var bytesS, bytesV := CreateKey(h, n, g, username, stored, salt);
    var user := new User(h, n, g, username, typed, rfc);
    var bytesA := user.StartAuthentication(a);
    var ver, bytesB := NewVerifier(h, n, g, username, bytesS, bytesV, bytesA, b, rfc);
    if ver == null {
      return;
    }
    var M := user.ProcessChallenge(bytesS, bytesB);
    if M.None? {
      return;
    }
    ghost var A, B := Num(bytesA), Num(bytesB);
    ghost var k, u := HashTwo(h, n, n, g, rfc).value, HashTwo(h, n, A, B, rfc).value;
    ghost var S := ServerSecret(n, A, ModExp(g, x, n), u, b);
    SecretsAgree(n, g, k, x, a, b, u, rfc);
    if CollisionFree(h) {
      if ver.M == M.value {
        ProofDepends(h, n, g, rfc, username, salt, A, B, user.sessionKey, username, salt, A, B, ver.sessionKey);
      }
      if user.sessionKey == ver.sessionKey {
        NoCollision(h, Bin(user.S), Bin(S));
        BinsDiffer(user.S, S);
      }
    }
    var bytesHAMK := ver.VerifySession(M.value);
    serverOk := ver.authenticated;
    if bytesHAMK.Some? {
      user.VerifySession(bytesHAMK.value);
    }
    userOk := user.authenticated;
    userKey, serverKey := user.sessionKey, ver.sessionKey;
  }
}
