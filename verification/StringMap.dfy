/**
  The coalesced-chaining hash maps of pbc's map.c: slots in an array, and chains of slots
  linked by `next`, one more than an index, 0 for none. A new key whose home slot is taken
  goes to an empty slot that is linked in right behind the home slot, whatever key sits there.
  The hash function and the comparison of keys are parameters.
 */
module StringMap {

  import opened Basics

  datatype Slot<K, V> = Empty | Used(key: K, hash: nat, value: V, next: nat)

  // ---------------------------------------------------------------------------
  // Chains

  /** The slots visited from slot i on. */
  ghost predicate IsChain<K, V>(s: seq<Slot<K, V>>, i: nat, l: seq<nat>) {
    && l != [] && l[0] == i
    && (forall k :: 0 <= k < |l| ==> l[k] < |s| && s[l[k]].Used?)
    && (forall k :: 0 <= k < |l| - 1 ==> s[l[k]].next == l[k + 1] + 1)
    && s[l[|l| - 1]].next == 0
  }

  /** Slot i is reached from slot h. */
  ghost predicate Reached<K, V>(s: seq<Slot<K, V>>, h: nat, i: nat) {
    exists l :: IsChain(s, h, l) && i in l
  }

  lemma {:induction false} OneChain<K, V>(s: seq<Slot<K, V>>, i: nat, l: seq<nat>, m: seq<nat>)
    requires IsChain(s, i, l) && IsChain(s, i, m)
    ensures l == m
    decreases |l|
  {
    hide IsChain;
    SameHead(s, i, l, m);
    if |l| > 1 {
      Suffix(s, i, l, 1);
      Suffix(s, i, m, 1);
      OneChain(s, l[1], l[1..], m[1..]);
      assert l == [i] + l[1..] && m == [i] + m[1..];
    }
  }

  lemma SameHead<K, V>(s: seq<Slot<K, V>>, i: nat, l: seq<nat>, m: seq<nat>)
    requires IsChain(s, i, l) && IsChain(s, i, m)
    ensures l != [] && m != [] && l[0] == m[0] == i
    ensures (|l| == 1 <==> |m| == 1) && (|l| > 1 ==> l[1] == m[1])
  {
    if |l| > 1 { assert s[l[0]].next == l[1] + 1; }
    if |m| > 1 { assert s[m[0]].next == m[1] + 1; }
  }

  lemma Suffix<K, V>(s: seq<Slot<K, V>>, i: nat, l: seq<nat>, k: nat)
    requires IsChain(s, i, l) && k < |l|
    ensures IsChain(s, l[k], l[k..])
  {}

  /** A chain that ends never comes back to a slot. */
  lemma NoRepeat<K, V>(s: seq<Slot<K, V>>, i: nat, l: seq<nat>, p: nat, q: nat)
    requires IsChain(s, i, l) && p < q < |l|
    ensures l[p] != l[q]
  {
    if l[p] == l[q] {
      Suffix(s, i, l, p);
      Suffix(s, i, l, q);
      OneChain(s, l[p], l[p..], l[q..]);
      assert false;
    }
  }

  /** The map after a key has been put into an empty slot e and linked in behind slot h. */
  function LinkedIn<K, V>(s: seq<Slot<K, V>>, h: nat, e: nat, key: K, hash: nat, value: V): seq<Slot<K, V>>
    requires h < |s| && e < |s| && s[h].Used?
  {
    s[e := Used(key, hash, value, s[h].next)][h := s[h].(next := e + 1)]
  }

  /** A chain that does not pass through h is as it was. */
  lemma ChainUntouched<K, V>(s: seq<Slot<K, V>>, s': seq<Slot<K, V>>, i: nat, l: seq<nat>)
    requires IsChain(s, i, l) && |s'| == |s| && forall k :: 0 <= k < |l| ==> s'[l[k]] == s[l[k]]
    ensures IsChain(s', i, l)
  {}

  /** A chain that passes through h at place p goes on to e, and from there as before. */
  lemma ChainExtended<K, V>(s: seq<Slot<K, V>>, s': seq<Slot<K, V>>, i: nat, l: seq<nat>, p: nat, e: nat)
    requires IsChain(s, i, l) && p < |l| && e < |s'| == |s| && s'[e].Used? && s'[e].next == s[l[p]].next
    requires s'[l[p]].Used? && s'[l[p]].next == e + 1
    requires forall k :: 0 <= k < |l| && k != p ==> s'[l[k]] == s[l[k]]
    ensures IsChain(s', i, l[..p + 1] + [e] + l[p + 1..])
  {
    var m := l[..p + 1] + [e] + l[p + 1..];
    forall k | 0 <= k < |m| - 1 ensures s'[m[k]].next == m[k + 1] + 1 {
      if k > p + 1 {
        assert m[k] == l[k - 1] && m[k + 1] == l[k] && s[l[k - 1]].next == l[k] + 1;
      } else if k < p {
        assert m[k] == l[k] && m[k + 1] == l[k + 1] && s[l[k]].next == l[k + 1] + 1;
      } else if k == p + 1 {
        assert m[k] == e && m[k + 1] == l[p + 1] && s[l[p]].next == l[p + 1] + 1;
      } else {
        assert m[k] == l[p] && m[k + 1] == e;
      }
    }
    assert m[|m| - 1] == if p + 1 < |l| then l[|l| - 1] else e;
    forall k | 0 <= k < |m| ensures m[k] < |s'| && s'[m[k]].Used? {
      assert m[k] == if k <= p then l[k] else if k == p + 1 then e else l[k - 1];
    }
  }

  lemma OnlyOnce<K, V>(s: seq<Slot<K, V>>, i: nat, l: seq<nat>, p: nat)
    requires IsChain(s, i, l) && p < |l|
    ensures forall q :: 0 <= q < |l| && q != p ==> l[q] != l[p]
  {
    hide IsChain;
    forall q | 0 <= q < |l| && q != p ensures l[q] != l[p] {
      if q < p { NoRepeat(s, i, l, q, p); } else { NoRepeat(s, i, l, p, q); }
    }
  }

  lemma ChainKept<K, V>(s: seq<Slot<K, V>>, h: nat, e: nat, key: K, hash: nat, value: V, i: nat, l: seq<nat>)
    requires h < |s| && e < |s| && s[h].Used? && s[e].Empty? && IsChain(s, i, l)
    ensures forall x :: x in l ==> Reached(LinkedIn(s, h, e, key, hash, value), i, x)
    ensures h in l ==> Reached(LinkedIn(s, h, e, key, hash, value), i, e)
  {
    var s' := LinkedIn(s, h, e, key, hash, value);
    if h in l {
      var p :| 0 <= p < |l| && l[p] == h;
      ChainThrough(s, h, e, key, hash, value, i, l, p);
      StillIn(l, p, e);
      ChainReaches(s', i, l[..p + 1] + [e] + l[p + 1..]);
    } else {
      assert forall q :: 0 <= q < |l| ==> s'[l[q]] == s[l[q]];
      ChainUntouched(s, s', i, l);
      ChainReaches(s', i, l);
    }
    hide IsChain, LinkedIn, Reached;
  }

  lemma ChainReaches<K, V>(s: seq<Slot<K, V>>, i: nat, l: seq<nat>)
    requires IsChain(s, i, l)
    ensures forall x :: x in l ==> Reached(s, i, x)
  {
    hide IsChain;
  }

  lemma StillIn(l: seq<nat>, p: nat, e: nat)
    requires p < |l|
    ensures e in l[..p + 1] + [e] + l[p + 1..] && forall x :: x in l ==> x in l[..p + 1] + [e] + l[p + 1..]
  {
    assert l == l[..p + 1] + l[p + 1..];
  }

  lemma ChainThrough<K, V>(s: seq<Slot<K, V>>, h: nat, e: nat, key: K, hash: nat, value: V, i: nat, l: seq<nat>, p: nat)
    requires h < |s| && e < |s| && s[h].Used? && s[e].Empty? && IsChain(s, i, l) && p < |l| && l[p] == h
    ensures IsChain(LinkedIn(s, h, e, key, hash, value), i, l[..p + 1] + [e] + l[p + 1..])
  {
    OnlyOnce(s, i, l, p);
    assert forall q :: 0 <= q < |l| ==> l[q] != e;
    hide IsChain;
    ChainExtended(s, LinkedIn(s, h, e, key, hash, value), i, l, p, e);
  }

  /** Every key is reached from its home slot. */
  ghost predicate SlotsOk<K, V>(s: seq<Slot<K, V>>) {
    forall i {:trigger ReachedHome(s, i)} :: 0 <= i < |s| && s[i].Used? ==> ReachedHome(s, i)
  }

  ghost predicate ReachedHome<K, V>(s: seq<Slot<K, V>>, i: nat)
    requires i < |s| && s[i].Used?
  {
    Reached(s, Home(s, s[i].hash), i)
  }

  /** `hash_full % size`, or `hash_full & (cap - 1)` when cap is a power of two. */
  function Home<K, V>(s: seq<Slot<K, V>>, hash: nat): (h: nat)
    requires s != []
    ensures h < |s|
  {
    hash % |s|
  }

  lemma ReachedSelf<K, V>(s: seq<Slot<K, V>>, i: nat, x: nat, h: nat, e: nat, key: K, hash: nat, value: V)
    requires Reached(s, i, h) && h < |s| && e < |s| && s[h].Used? && s[e].Empty?
    ensures Reached(LinkedIn(s, h, e, key, hash, value), h, e)
  {
    var l :| IsChain(s, i, l) && h in l;
    var p :| 0 <= p < |l| && l[p] == h;
    Suffix(s, i, l, p);
    assert h == l[p..][0];
    hide IsChain, LinkedIn;
    ChainKept(s, h, e, key, hash, value, h, l[p..]);
  }

  lemma LinkKeeps<K, V>(s: seq<Slot<K, V>>, h: nat, e: nat, key: K, hash: nat, value: V)
    requires SlotsOk(s) && h < |s| && e < |s| && s[h].Used? && s[e].Empty? && Home(s, hash) == h
    ensures SlotsOk(LinkedIn(s, h, e, key, hash, value))
  {
    hide IsChain, Home;
    var s' := LinkedIn(s, h, e, key, hash, value);
    assert Home(s', hash) == h by { SameHome(s, s', hash); }
    forall i | 0 <= i < |s'| && s'[i].Used? ensures ReachedHome(s', i) {
      SameHome(s, s', s'[i].hash);
      if i == e {
        assert ReachedHome(s, h);
        ReachedSelf(s, Home(s, s[h].hash), e, h, e, key, hash, value);
      } else {
        assert s'[i].hash == s[i].hash;
        assert ReachedHome(s, i);
        var l :| IsChain(s, Home(s, s[i].hash), l) && i in l;
        ChainKept(s, h, e, key, hash, value, Home(s, s[i].hash), l);
      }
    }
  }

  lemma SameHome<K, V>(s: seq<Slot<K, V>>, s': seq<Slot<K, V>>, hash: nat)
    requires |s| == |s'| > 0
    ensures Home(s, hash) == Home(s', hash)
  {}

  lemma ReachedStill<K, V>(s: seq<Slot<K, V>>, h: nat, x: Slot<K, V>, from: nat, i: nat)
    requires h < |s| && s[h].Empty? && Reached(s, from, i)
    ensures Reached(s[h := x], from, i)
  {
    var l :| IsChain(s, from, l) && i in l;
    assert forall q :: 0 <= q < |l| ==> l[q] != h;
    ChainUntouched(s, s[h := x], from, l);
    hide IsChain;
  }

  lemma AloneInChain<K, V>(s: seq<Slot<K, V>>, h: nat)
    requires h < |s| && s[h].Used? && s[h].next == 0
    ensures Reached(s, h, h)
  {
    assert IsChain(s, h, [h]);
  }

  /** A key put into its home slot. */
  lemma HomeKeeps<K, V>(s: seq<Slot<K, V>>, h: nat, key: K, hash: nat, value: V)
    requires SlotsOk(s) && h < |s| && s[h].Empty? && Home(s, hash) == h
    ensures SlotsOk(s[h := Used(key, hash, value, 0)])
  {
    hide Home, IsChain, Reached;
    var x := Used(key, hash, value, 0);
    var s' := s[h := x];
    forall i | 0 <= i < |s'| && s'[i].Used? ensures ReachedHome(s', i) {
      SameHome(s, s', s'[i].hash);
      if i == h {
        AloneInChain(s', h);
      } else {
        assert ReachedHome(s, i);
        ReachedStill(s, h, x, Home(s, s[i].hash), i);
      }
    }
  }

  // ---------------------------------------------------------------------------
  // What the slots hold

  /** The slots hold exactly the bindings of m, key k in slot at[k], with its full hash. */
  ghost predicate Holds<K(!new), V>(s: seq<Slot<K, V>>, m: map<K, V>, at: map<K, nat>, digest: K -> nat) {
    && at.Keys == m.Keys
    && (forall k :: k in m ==> at[k] < |s| && s[at[k]].Used? && s[at[k]].key == k && s[at[k]].value == m[k])
    && (forall i :: 0 <= i < |s| && s[i].Used? ==> s[i].key in m && at[s[i].key] == i && s[i].hash == digest(s[i].key))
  }

  lemma SlotHeld<K(!new), V>(s: seq<Slot<K, V>>, m: map<K, V>, at: map<K, nat>, digest: K -> nat, i: nat)
    requires Holds(s, m, at, digest) && i < |s| && s[i].Used?
    ensures s[i].key in m && s[i].value == m[s[i].key] && s[i].hash == digest(s[i].key)
  {
    assert at[s[i].key] == i;
  }

  lemma NothingHeld<K(!new), V>(s: seq<Slot<K, V>>, digest: K -> nat)
    requires forall i :: 0 <= i < |s| ==> s[i].Empty?
    ensures Holds(s, map[], map[], digest) && SlotsOk(s)
  {}

  lemma HoldsAfterHome<K(!new), V>(s: seq<Slot<K, V>>, m: map<K, V>, at: map<K, nat>, digest: K -> nat, h: nat,
                                   key: K, value: V)
    requires Holds(s, m, at, digest) && key !in m && h < |s| && s[h].Empty?
    ensures Holds(s[h := Used(key, digest(key), value, 0)], m[key := value], at[key := h], digest)
  {}

  lemma HoldsAfterLink<K(!new), V>(s: seq<Slot<K, V>>, m: map<K, V>, at: map<K, nat>, digest: K -> nat, h: nat,
                                   e: nat, key: K, value: V)
    requires Holds(s, m, at, digest) && key !in m && h < |s| && e < |s| && s[h].Used? && s[e].Empty?
    ensures Holds(LinkedIn(s, h, e, key, digest(key), value), m[key := value], at[key := e], digest)
  {}

  /** The keys in the first n slots, all used. */
  ghost function KeysBelow<K, V>(s: seq<Slot<K, V>>, n: nat): set<K>
    requires n <= |s| && forall i :: 0 <= i < n ==> s[i].Used?
  {
    set i | 0 <= i < n :: s[i].key
  }

  /**
    A key inserted a second time, while there is room: the walk from its home slot finds the new
    value exactly when the old one is not in the home slot itself.
   */
  lemma InsertedTwice<K(!new), V>(s: seq<Slot<K, V>>, m: map<K, V>, at: map<K, nat>, digest: K -> nat, e: nat,
                                  key: K, value: V, l: seq<nat>)
    requires Holds(s, m, at, digest) && s != [] && e < |s| && s[e].Empty? && key in m
    requires IsChain(s, Home(s, digest(key)), l)
    ensures var h := Home(s, digest(key));
            var s' := LinkedIn(s, h, e, key, digest(key), value);
            && IsChain(s', h, [h, e] + l[1..])
            && s'[h].Used? && s'[e] == Used(key, digest(key), value, s[h].next)
            && (at[key] == h ==> s'[h].key == key && s'[h].value == m[key])
            && (at[key] != h ==> s'[h].key != key)
  {
    var h := Home(s, digest(key));
    var s' := LinkedIn(s, h, e, key, digest(key), value);
    OnlyOnce(s, h, l, 0);
    assert s'[h] == s[h].(next := e + 1) && forall k :: 0 <= k < |l| ==> s[l[k]].Used?;
    hide Home, LinkedIn;
    ChainExtended(s, s', h, l, 0, e);
    assert l[..1] + [e] + l[1..] == [h, e] + l[1..];
    hide IsChain;
  }

  /** When every slot is used there are as many bindings as slots. */
  lemma {:induction false} FullMeansMany<K(!new), V>(s: seq<Slot<K, V>>, m: map<K, V>, at: map<K, nat>,
                                                     digest: K -> nat, n: nat)
    requires Holds(s, m, at, digest) && n <= |s| && forall i :: 0 <= i < n ==> s[i].Used?
    ensures KeysBelow(s, n) <= m.Keys && |KeysBelow(s, n)| == n
  {
    if n > 0 {
      FullMeansMany(s, m, at, digest, n - 1);
      NewKey(s, m, at, digest, n - 1);
    }
  }

  /** The key of a slot is not in the slots before it. */
  lemma NewKey<K(!new), V>(s: seq<Slot<K, V>>, m: map<K, V>, at: map<K, nat>, digest: K -> nat, n: nat)
    requires Holds(s, m, at, digest) && n < |s| && forall i :: 0 <= i <= n ==> s[i].Used?
    ensures s[n].key !in KeysBelow(s, n) && KeysBelow(s, n + 1) == KeysBelow(s, n) + {s[n].key} && s[n].key in m
  {
    assert at[s[n].key] == n;
    assert forall i :: 0 <= i < n ==> at[s[i].key] == i;
    hide Holds;
  }

  /** With fewer bindings than slots some slot is empty. */
  lemma SomeEmpty<K(!new), V>(s: seq<Slot<K, V>>, m: map<K, V>, at: map<K, nat>, digest: K -> nat)
    requires Holds(s, m, at, digest) && |m| < |s|
    ensures exists i :: 0 <= i < |s| && s[i].Empty?
  {
    if forall i :: 0 <= i < |s| ==> s[i].Used? {
      FullMeansMany(s, m, at, digest, |s|);
      SubsetSize(KeysBelow(s, |s|), m.Keys);
      assert false;
    }
  }

  /** A chain that has been searched to its end without finding the key: the map does not have it. */
  lemma NotInChain<K(!new), V>(s: seq<Slot<K, V>>, m: map<K, V>, at: map<K, nat>, digest: K -> nat, key: K,
                               l: seq<nat>)
    requires Holds(s, m, at, digest) && SlotsOk(s) && s != [] && IsChain(s, Home(s, digest(key)), l)
    requires forall j :: 0 <= j < |l| ==> s[l[j]].key != key
    ensures key !in m
  {
    if key in m {
      var i := at[key];
      assert ReachedHome(s, i);
      var l2 :| IsChain(s, Home(s, s[i].hash), l2) && i in l2;
      OneChain(s, Home(s, digest(key)), l, l2);
    }
  }

  lemma HomeUsed<K(!new), V>(s: seq<Slot<K, V>>, m: map<K, V>, at: map<K, nat>, digest: K -> nat, key: K)
    requires Holds(s, m, at, digest) && SlotsOk(s) && s != [] && key in m
    ensures s[Home(s, digest(key))].Used?
  {
    var i := at[key];
    assert ReachedHome(s, i);
    var l :| IsChain(s, Home(s, s[i].hash), l) && i in l;
    assert l[0] == Home(s, digest(key));
  }

  lemma HomeEmpty<K(!new), V>(s: seq<Slot<K, V>>, m: map<K, V>, at: map<K, nat>, digest: K -> nat, key: K)
    requires Holds(s, m, at, digest) && SlotsOk(s) && s != [] && s[Home(s, digest(key))].Empty?
    ensures key !in m
  {
    hide Holds, SlotsOk;
    if key in m { HomeUsed(s, m, at, digest, key); }
  }

  /** The keys in the used ones of the first n slots. */
  ghost function UsedKeys<K, V>(s: seq<Slot<K, V>>, n: nat): set<K>
    requires n <= |s|
  {
    set i | 0 <= i < n && s[i].Used? :: s[i].key
  }

  lemma {:induction false} UsedKeysFew<K, V>(s: seq<Slot<K, V>>, n: nat)
    requires n <= |s|
    ensures |UsedKeys(s, n)| <= n
    ensures (exists i :: 0 <= i < n && s[i].Empty?) ==> |UsedKeys(s, n)| < n
  {
    if n > 0 {
      UsedKeysFew(s, n - 1);
      if s[n - 1].Empty? {
        assert UsedKeys(s, n) == UsedKeys(s, n - 1);
      } else {
        assert UsedKeys(s, n) == UsedKeys(s, n - 1) + {s[n - 1].key};
      }
    }
  }

  /** The bindings fit the slots, and as many bindings as slots leave none empty. */
  lemma FitsSlots<K(!new), V>(s: seq<Slot<K, V>>, m: map<K, V>, at: map<K, nat>, digest: K -> nat)
    requires Holds(s, m, at, digest)
    ensures |m| <= |s|
    ensures |m| == |s| ==> forall i :: 0 <= i < |s| ==> s[i].Used?
  {
    UsedKeysFew(s, |s|);
    assert UsedKeys(s, |s|) == m.Keys by {
      forall k | k in m.Keys ensures k in UsedKeys(s, |s|) {
        assert s[at[k]].key == k;
      }
    }
    assert |m.Keys| == |m|;
  }

  lemma AllUsed<K(!new), V>(s: seq<Slot<K, V>>, m: map<K, V>, at: map<K, nat>, digest: K -> nat)
    requires Holds(s, m, at, digest) && |m| == |s|
    ensures forall i :: 0 <= i < |s| ==> s[i].Used?
  {
    FitsSlots(s, m, at, digest);
  }

  /** The bindings of the first n slots. */
  ghost function Held<K, V>(s: seq<Slot<K, V>>, n: nat): map<K, V>
    requires n <= |s| && forall i :: 0 <= i < |s| ==> s[i].Used?
  {
    if n == 0 then map[] else Held(s, n - 1)[s[n - 1].key := s[n - 1].value]
  }

  lemma {:induction false} HeldBelow<K(!new), V>(s: seq<Slot<K, V>>, m: map<K, V>, at: map<K, nat>,
                                                 digest: K -> nat, n: nat)
    requires Holds(s, m, at, digest) && n <= |s| && forall j :: 0 <= j < |s| ==> s[j].Used?
    ensures forall k :: k in Held(s, n) <==> k in m && at[k] < n
    ensures forall k :: k in Held(s, n) ==> Held(s, n)[k] == m[k]
  {
    if n > 0 {
      HeldBelow(s, m, at, digest, n - 1);
      SlotHeld(s, m, at, digest, n - 1);
      assert at[s[n - 1].key] == n - 1;
    }
  }

  lemma NextKey<K(!new), V>(s: seq<Slot<K, V>>, m: map<K, V>, at: map<K, nat>, digest: K -> nat, i: nat)
    requires Holds(s, m, at, digest) && i < |s| && forall j :: 0 <= j < |s| ==> s[j].Used?
    ensures s[i].key !in Held(s, i) && Held(s, i + 1) == Held(s, i)[s[i].key := s[i].value]
    ensures s[i].hash == digest(s[i].key)
  {
    HeldBelow(s, m, at, digest, i);
    SlotHeld(s, m, at, digest, i);
    assert at[s[i].key] == i;
  }

  lemma HeldAll<K(!new), V>(s: seq<Slot<K, V>>, m: map<K, V>, at: map<K, nat>, digest: K -> nat)
    requires Holds(s, m, at, digest) && forall j :: 0 <= j < |s| ==> s[j].Used?
    ensures Held(s, |s|) == m && Held(s, 0) == map[]
  {
    HeldBelow(s, m, at, digest, |s|);
  }

  /** A used home slot begins a chain. */
  lemma HomeChain<K, V>(s: seq<Slot<K, V>>, h: nat) returns (l: seq<nat>)
    requires SlotsOk(s) && h < |s| && s[h].Used?
    ensures IsChain(s, h, l)
  {
    var from := Home(s, s[h].hash);
    assert ReachedHome(s, h);
    var all :| IsChain(s, from, all) && h in all;
    var p :| 0 <= p < |all| && all[p] == h;
    l := all[p..];
    Suffix(s, from, all, p);
  }

  lemma BeginChain<K, V>(s: seq<Slot<K, V>>, h: nat, l: seq<nat>)
    requires IsChain(s, h, l)
    ensures l != [] && l[0] == h
  {}

  lemma SlotUsed<K, V>(s: seq<Slot<K, V>>, h: nat, l: seq<nat>, k: nat)
    requires IsChain(s, h, l) && k < |l|
    ensures l[k] < |s| && s[l[k]].Used?
  {}

  lemma EndOfChain<K, V>(s: seq<Slot<K, V>>, h: nat, l: seq<nat>, k: nat)
    requires IsChain(s, h, l) && k < |l|
    ensures s[l[k]].next == 0 ==> k == |l| - 1
    ensures s[l[k]].next != 0 ==> k + 1 < |l| && l[k + 1] == s[l[k]].next - 1
  {
    if k < |l| - 1 { assert s[l[k]].next == l[k + 1] + 1; }
  }

  // ---------------------------------------------------------------------------
  // struct map_sp

  /** The map of pointers by string: cap slots, a power of two, doubled when they are all used. */
  class Map<K(==, !new), V> {
    const digest: K -> nat
    var cap: nat
    var size: nat
    var slot: array<Slot<K, V>>
    ghost var contents: map<K, V>
    ghost var at: map<K, nat>

    ghost predicate Valid()
      reads this, slot
    {
      && cap == slot.Length > 0 && size == |contents|
      && SlotsOk(slot[..]) && Holds(slot[..], contents, at, digest)
    }

    /** _pbcM_sp_new: the first power of two that is at least max. */
    constructor (max: int, digest: K -> nat)
      ensures Valid() && contents == map[] && this.digest == digest && fresh(slot) && max <= cap
    {
      this.digest := digest;
      var c := 1;
      while c < max
        invariant c > 0
      {
        c := c * 2;
      }
      cap, size := c, 0;
      slot := new Slot<K, V>[c](_ => Empty);
      contents, at := map[], map[];
    }

    /** The zeroed slots of _pbcM_si_new. */
    constructor OfSize(cap: nat, digest: K -> nat)
      requires cap > 0
      ensures Valid() && contents == map[] && this.digest == digest && fresh(slot) && this.cap == cap
    {
      this.digest := digest;
      this.cap, size := cap, 0;
      slot := new Slot<K, V>[cap](_ => Empty);
      contents, at := map[], map[];
    }

    /** The home slot of a key is free. */
    method PutHome(h: nat, key: K, hash: nat, value: V)
      requires Valid() && key !in contents && hash == digest(key) && h == Home(slot[..], hash) && slot[h].Empty?
      modifies this`size, this`contents, this`at, slot
      ensures Valid() && contents == old(contents)[key := value] && slot[h].Used? && slot[h].key == key
      ensures forall j :: 0 <= j < cap && old(slot[j]).Used? ==> slot[j].Used?
    {
      hide SlotsOk, Holds, IsChain, Reached, ReachedHome;
      HomeKeeps(slot[..], h, key, hash, value);
      HoldsAfterHome(slot[..], contents, at, digest, h, key, value);
      ghost var was := slot[..];
      slot[h] := Used(key, hash, value, 0);
      assert slot[..] == was[h := Used(key, hash, value, 0)];
      contents, at := contents[key := value], at[key := h];
      size := size + 1;
    }

    /** The first empty slot behind slot h, around the end. */
    method FindEmpty(h: nat) returns (empty: nat)
      requires Valid() && size < cap && h < cap && slot[h].Used?
      ensures empty < cap && slot[empty].Empty?
    {
      hide SlotsOk, Holds, IsChain, Reached, ReachedHome;
      SomeEmpty(slot[..], contents, at, digest);
      ghost var e :| 0 <= e < cap && slot[..][e].Empty?;
      empty := if h + 1 < cap then h + 1 else 0;
      ghost var left := if e > h then e - h - 1 else e + cap - h - 1;
      assert slot[e].Empty?;
      while slot[empty].Used?
        invariant 0 <= empty < cap && left >= 0
        invariant e == if empty + left < cap then empty + left else empty + left - cap
        decreases left
      {
        empty := if empty + 1 < cap then empty + 1 else 0;
        left := left - 1;
      }
    }

    /** The home slot is taken: an empty slot, linked in right behind it. */
    method PutLinked(h: nat, key: K, hash: nat, value: V) returns (empty: nat)
      requires Valid() && size < cap && key !in contents && hash == digest(key) && h == Home(slot[..], hash)
      requires slot[h].Used?
      modifies this`size, this`contents, this`at, slot
      ensures Valid() && contents == old(contents)[key := value]
      ensures empty < cap && slot[empty].Used? && slot[empty].key == key
    {
      hide SlotsOk, Holds, IsChain, Reached, ReachedHome;
      empty := FindEmpty(h);
      PutAt(h, empty, key, hash, value);
    }

    /** A key in an empty slot, linked in behind slot h. */
    method PutAt(h: nat, empty: nat, key: K, hash: nat, value: V)
      requires Valid() && key !in contents && hash == digest(key) && h == Home(slot[..], hash) && slot[h].Used?
      requires empty < cap && slot[empty].Empty?
      modifies this`size, this`contents, this`at, slot
      ensures Valid() && contents == old(contents)[key := value]
      ensures slot[empty].Used? && slot[empty].key == key
      ensures forall j :: 0 <= j < cap && old(slot[j]).Used? ==> slot[j].Used?
    {
      hide SlotsOk, Holds, IsChain, Reached, ReachedHome;
      LinkKeeps(slot[..], h, empty, key, hash, value);
      HoldsAfterLink(slot[..], contents, at, digest, h, empty, key, value);
      ghost var was := slot[..];
      slot[empty] := Used(key, hash, value, slot[h].next);
      slot[h] := slot[h].(next := empty + 1);
      assert slot[..] == LinkedIn(was, h, empty, key, hash, value);
      contents, at := contents[key := value], at[key := empty];
      size := size + 1;
    }

    /** One key of _pbcM_si_new: `empty` only moves forward, past used slots. */
    method InsertFrom(from: nat, key: K, value: V) returns (empty: nat)
      requires Valid() && size < cap && key !in contents && from <= cap && forall j :: 0 <= j < from ==> slot[j].Used?
      modifies this`size, this`contents, this`at, slot
      ensures Valid() && contents == old(contents)[key := value]
      ensures empty <= cap && forall j :: 0 <= j < empty ==> slot[j].Used?
    {
      hide SlotsOk, Holds, IsChain, Reached, ReachedHome;
      empty := from;
      var hash := digest(key);
      var h := hash % cap;
      assert h == Home(slot[..], hash);
      if slot[h].Empty? {
        PutHome(h, key, hash, value);
        return;
      }
      SomeEmpty(slot[..], contents, at, digest);
      ghost var e :| 0 <= e < cap && slot[..][e].Empty?;
      assert slot[e].Empty?;
      while slot[empty].Used?
        invariant empty <= e && forall j :: 0 <= j < empty ==> slot[j].Used?
        decreases cap - empty
      {
        empty := empty + 1;
      }
      PutAt(h, empty, key, hash, value);
    }

    /** _pbcM_sp_insert_hash while there is room. */
    method InsertWithRoom(key: K, hash: nat, value: V)
      requires Valid() && size < cap && key !in contents && hash == digest(key)
      modifies this`size, this`contents, this`at, slot
      ensures Valid() && contents == old(contents)[key := value]
    {
      hide SlotsOk, Holds, IsChain, Reached, ReachedHome;
      var h := hash % cap;
      assert h == Home(slot[..], hash);
      if slot[h].Empty? {
        PutHome(h, key, hash, value);
      } else {
        var empty := PutLinked(h, key, hash, value);
      }
    }

    /** _pbcM_sp_rehash: all slots are used; put their keys into twice as many. */
    method Rehash()
      requires Valid() && size == cap
      modifies this
      ensures Valid() && contents == old(contents) && cap == 2 * old(cap) && fresh(slot)
    {
      hide SlotsOk, Holds, IsChain, Reached, ReachedHome, Held;
      ghost var m := contents;
      ghost var place := at;
      var oldSlot := slot;
      var n := size;
      ghost var s := oldSlot[..];
      AllUsed(s, m, place, digest);
      HeldAll(s, m, place, digest);
      size := 0;
      cap := 2 * cap;
      slot := new Slot<K, V>[cap](_ => Empty);
      contents, at := map[], map[];
      NothingHeld(slot[..], digest);
      var i := 0;
      while i < n
        invariant 0 <= i <= n && Valid() && fresh(slot) && cap == 2 * n && size == i && oldSlot[..] == s
        invariant contents == Held(s, i)
      {
        NextKey(s, m, place, digest, i);
        InsertWithRoom(oldSlot[i].key, oldSlot[i].hash, oldSlot[i].value);
        i := i + 1;
      }
    }

    /** _pbcM_sp_insert, for a key that is not in the map yet. */
    method Insert(key: K, value: V)
      requires Valid() && key !in contents
      modifies this, slot
      ensures Valid() && contents == old(contents)[key := value]
      ensures cap == if old(size) < old(cap) then old(cap) else 2 * old(cap)
      ensures slot == old(slot) || fresh(slot)
    {
      hide SlotsOk, Holds, IsChain, Reached, ReachedHome;
      if cap <= size {
        FitsSlots(slot[..], contents, at, digest);
        Rehash();
      }
      InsertWithRoom(key, digest(key), value);
    }

    /** _pbcM_sp_query */
    method Query(key: K) returns (value: Option<V>)
      requires Valid()
      ensures value == if key in contents then Some(contents[key]) else None
    {
      hide SlotsOk, Holds, IsChain, Reached, ReachedHome;
      var found := Find(key);
      if found.None? {
        return None;
      }
      SlotHeld(slot[..], contents, at, digest, found.value);
      return Some(slot[found.value].value);
    }

    /** The walk from the home slot along the chain. */
    method Find(key: K) returns (found: Option<nat>)
      requires Valid()
      ensures found.None? <==> key !in contents
      ensures found.Some? ==> found.value < cap && slot[found.value].Used? && slot[found.value].key == key
    {
      hide SlotsOk, Holds, IsChain, Reached, ReachedHome;
      ghost var s := slot[..];
      var hash := digest(key);
      var i := hash % cap;
      assert i == Home(s, hash);
      if slot[i].Empty? {
        HomeEmpty(s, contents, at, digest, key);
        return None;
      }
      ghost var l := HomeChain(s, i);
      BeginChain(s, i, l);
      ghost var k := 0;
      while true
        invariant 0 <= k < |l| && i == l[k] && IsChain(s, Home(s, hash), l)
        invariant forall j :: 0 <= j < k ==> s[l[j]].key != key
        decreases |l| - k
      {
        SlotUsed(s, Home(s, hash), l, k);
        SlotHeld(s, contents, at, digest, i);
        if slot[i].hash == hash && slot[i].key == key {
          return Some(i);
        }
        if slot[i].next == 0 {
          EndOfChain(s, Home(s, hash), l, k);
          NotInChain(s, contents, at, digest, key, l);
          return None;
        }
        EndOfChain(s, Home(s, hash), l, k);
        i := slot[i].next - 1;
        k := k + 1;
      }
    }

    /** _pbcM_sp_query_insert: the slot of a key, put in with the null value if it was not there. */
    method QueryInsert(key: K, null_: V) returns (i: nat)
      requires Valid()
      modifies this, slot
      ensures Valid() && contents == if key in old(contents) then old(contents) else old(contents)[key := null_]
      ensures i < cap && slot[i].Used? && slot[i].key == key
      ensures slot == old(slot) || fresh(slot)
    {
      hide SlotsOk, Holds, IsChain, Reached, ReachedHome;
      var found := Find(key);
      if found.Some? {
        return found.value;
      }
      if cap <= size {
        FitsSlots(slot[..], contents, at, digest);
        Rehash();
      }
      var h := digest(key) % cap;
      assert h == Home(slot[..], digest(key));
      if slot[h].Empty? {
        PutHome(h, key, digest(key), null_);
        return h;
      }
      i := PutLinked(h, key, digest(key), null_);
    }
  }

  // The map of small tables built in one go: as many slots as keys.

  /** The bindings of a table. */
  function Bindings<K, V>(table: seq<(K, V)>): map<K, V> {
    if table == [] then map[]
    else Bindings(table[..|table| - 1])[table[|table| - 1].0 := table[|table| - 1].1]
  }

  ghost predicate DistinctKeys<K(!new), V>(table: seq<(K, V)>) {
    forall i, j :: 0 <= i < j < |table| ==> table[i].0 != table[j].0
  }

  lemma {:induction false} BindingKeys<K(!new), V>(table: seq<(K, V)>, n: nat)
    requires DistinctKeys(table) && n <= |table|
    ensures forall j :: n <= j < |table| ==> table[j].0 !in Bindings(table[..n])
    ensures n < |table| ==> Bindings(table[..n + 1]) == Bindings(table[..n])[table[n].0 := table[n].1]
    ensures |Bindings(table[..n])| == n
  {
    if n < |table| { assert table[..n + 1][..n] == table[..n]; }
    if n > 0 {
      assert table[..n][..n - 1] == table[..n - 1];
      BindingKeys(table, n - 1);
    }
  }

  /** _pbcM_si_new: a table with distinct keys; empty slots are looked for from the front, once. */
  method NewTable<K(==, !new), V>(table: seq<(K, V)>, digest: K -> nat) returns (m: Map<K, V>)
    requires table != [] && DistinctKeys(table)
    ensures fresh(m) && m.Valid() && m.cap == |table| && m.digest == digest
    ensures m.contents == Bindings(table)
  {
    hide SlotsOk, Holds, IsChain, Reached, ReachedHome, DistinctKeys, Bindings;
    m := new Map.OfSize(|table|, digest);
    var empty, i := 0, 0;
    assert table[..0] == [];
    NoBindings(table);
    while i < |table|
      invariant 0 <= i <= |table| && m.Valid() && fresh(m) && fresh(m.slot) && m.cap == |table| && m.digest == digest
      invariant 0 <= empty <= m.cap && forall j :: 0 <= j < empty ==> m.slot[j].Used?
      invariant m.contents == Bindings(table[..i])
    {
      BindingKeys(table, i);
      empty := m.InsertFrom(empty, table[i].0, table[i].1);
      i := i + 1;
    }
    assert table[..i] == table;
  }

  lemma NoBindings<K, V>(table: seq<(K, V)>)
    ensures Bindings(table[..0]) == map[]
  {}

  // ---------------------------------------------------------------------------
  // struct map_ip

  /** `(unsigned)id` */
  function Unsigned(id: int): nat {
    id % 0x1_0000_0000
  }

  /** The map of pointers by id: a plain array when the ids are small, else the hash table of NewTable. */
  class IdMap<V> {
    var values: array?<Option<V>>
    var table: Map?<int, V>
    ghost var contents: map<int, V>

    ghost predicate Valid()
      reads this, values, table, if table == null then {} else {table.slot}
    {
      if values != null then
        && (forall id :: 0 <= id < values.Length ==> values[id] == if id in contents then Some(contents[id]) else None)
        && (forall id :: id in contents ==> 0 <= id < values.Length)
      else table != null && table.Valid() && table.contents == contents
    }

    /** _pbcM_ip_new: an array unless an id is negative or more than twice the number of ids. */
    constructor (kvs: seq<(int, V)>)
      requires kvs != [] && DistinctKeys(kvs)
      ensures Valid() && contents == Bindings(kvs)
      ensures values != null <==> forall j :: 0 <= j < |kvs| ==> 0 <= kvs[j].0 <= |kvs| * 2
    {
      var max := kvs[0].0;
      var small := 0 <= max <= |kvs| * 2;
      var i := 1;
      while small && i < |kvs|
        invariant 1 <= i <= |kvs|
        invariant small ==> 0 <= max <= |kvs| * 2 && forall j :: 0 <= j < i ==> 0 <= kvs[j].0 <= max
        invariant !small ==> exists j :: 0 <= j < |kvs| && !(0 <= kvs[j].0 <= |kvs| * 2)
      {
        if kvs[i].0 < 0 {
          small := false;
        } else {
          if kvs[i].0 > max {
            max := kvs[i].0;
            small := max <= |kvs| * 2;
          }
          i := i + 1;
        }
      }
      contents := Bindings(kvs);
      values, table := null, null;
      new;
      assert kvs[..|kvs|] == kvs;
      if small {
        FillArray(kvs, max);
      } else {
        table := NewTable(kvs, Unsigned);
      }
    }

    method FillArray(kvs: seq<(int, V)>, max: nat)
      requires DistinctKeys(kvs) && contents == Bindings(kvs) && forall j :: 0 <= j < |kvs| ==> 0 <= kvs[j].0 <= max
      modifies this`values
      ensures values != null && Valid()
    {
      var a := new Option<V>[max + 1](_ => None);
      var i := 0;
      NoBindings(kvs);
      while i < |kvs|
        invariant 0 <= i <= |kvs|
        invariant forall id :: 0 <= id <= max ==> a[id] == Lookup(kvs, i, id)
        modifies a
      {
        BindingKeys(kvs, i);
        a[kvs[i].0] := Some(kvs[i].1);
        i := i + 1;
      }
      BindingRange(kvs, |kvs|, max);
      assert kvs[..|kvs|] == kvs;
      values := a;
    }

    /** _pbcM_ip_query */
    method Query(id: int) returns (value: Option<V>)
      requires Valid()
      ensures value == if id in contents then Some(contents[id]) else None
    {
      if values != null {
        if 0 <= id < values.Length {
          return values[id];
        }
        return None;
      }
      value := table.Query(id);
    }
  }

  function Lookup<V>(kvs: seq<(int, V)>, n: nat, id: int): Option<V>
    requires n <= |kvs|
  {
    if id in Bindings(kvs[..n]) then Some(Bindings(kvs[..n])[id]) else None
  }

  lemma {:induction false} BindingRange<V>(kvs: seq<(int, V)>, n: nat, max: int)
    requires n <= |kvs| && forall j :: 0 <= j < n ==> 0 <= kvs[j].0 <= max
    ensures forall id :: id in Bindings(kvs[..n]) ==> 0 <= id <= max
  {
    if n > 0 {
      assert kvs[..n][..n - 1] == kvs[..n - 1];
      BindingRange(kvs, n - 1, max);
    }
  }
}
