/** What several of the models need: optional values, machine words, and two small facts. */
module Basics {

  datatype Option<T> = None | Some(value: T)

  type byte = n: int | 0 <= n < 256
  type uint32 = n: int | 0 <= n < 0x1_0000_0000
  type uint64 = n: int | 0 <= n < 0x1_0000_0000_0000_0000

  lemma {:induction false} SubsetSize<T>(a: set<T>, b: set<T>)
    requires a <= b
    ensures |a| <= |b|
  {
    if a != {} {
      var x :| x in a;
      SubsetSize(a - {x}, b - {x});
    }
  }

  /** Quotient and remainder are the only numbers of their kind. */
  lemma Remainder(x: int, n: nat, q: int, r: nat)
    requires n > 0 && x == n * q + r && r < n
    ensures x % n == r && x / n == q
  {
    var q' := x / n;
    assert x == n * q' + x % n;
    if q' < q { Less(n, q' + 1, q); }
    if q < q' { Less(n, q + 1, q'); }
  }

  lemma Less(n: nat, a: int, b: int)
    requires a <= b
    ensures n * a <= n * b && n * a == n * (a - 1) + n
  {}
}
