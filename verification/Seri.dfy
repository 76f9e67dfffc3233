/**
  The serializer of Lua values in lua-seri.c: the chain of 128-byte blocks it writes into,
  the encoding of each kind of value, and the decoder.

  A table is its array part, elements 1 to n, and its other pairs in the order lua_next gives
  them. Doubles and light userdata are eight bytes each. Numbers are stored little-endian.
 */
module Seri {

  import opened Basics
  import opened FixedWidth

  type int64 = n: int | -0x8000_0000_0000_0000 <= n < 0x8000_0000_0000_0000

  const BLOCK_SIZE := 128
  const MAX_COOKIE := 32
  const MAX_DEPTH := 32

  datatype Pair = Pair(key: Value, value: Value)

  datatype Value =
    | Nil
    | Boolean(flag: bool)
    | Integer(i: int64)
    | Real(bits: seq<byte>)
    | Pointer(bits: seq<byte>)
    | Text(chars: seq<byte>)
    | Table(items: seq<Value>, pairs: seq<Pair>)

  const TYPE_NIL := 0
  const TYPE_BOOLEAN := 1
  const TYPE_NUMBER := 2
  const TYPE_USERDATA := 3
  const TYPE_SHORT_STRING := 4
  const TYPE_LONG_STRING := 5
  const TYPE_TABLE := 6

  const NUMBER_ZERO := 0
  const NUMBER_BYTE := 1
  const NUMBER_WORD := 2
  const NUMBER_DWORD := 4
  const NUMBER_QWORD := 6
  const NUMBER_REAL := 8

  /** COMBINE_TYPE: the type in the low three bits, the cookie above. */
  function Combine(t: int, cookie: int): byte
    requires 0 <= t < 8 && 0 <= cookie < 32
  {
    t + 8 * cookie
  }

  // ---------------------------------------------------------------------------
  // The encoding

  /** wb_integer: the narrowest of the widths the decoder knows. */
  function EncodeInteger(v: int64): seq<byte> {
    Widths();
    if v == 0 then [Combine(TYPE_NUMBER, NUMBER_ZERO)]
    else if !(-0x8000_0000 <= v < 0x8000_0000) then [Combine(TYPE_NUMBER, NUMBER_QWORD)] + Bytes(Wrapped(v, 8), 8)
    else if v < 0 then [Combine(TYPE_NUMBER, NUMBER_DWORD)] + Bytes(Wrapped(v, 4), 4)
    else if v < 0x100 then [Combine(TYPE_NUMBER, NUMBER_BYTE)] + Bytes(v, 1)
    else if v < 0x1_0000 then [Combine(TYPE_NUMBER, NUMBER_WORD)] + Bytes(v, 2)
    else [Combine(TYPE_NUMBER, NUMBER_DWORD)] + Bytes(v, 4)
  }

  /** wb_string */
  function EncodeText(s: seq<byte>): seq<byte> {
    if |s| < MAX_COOKIE then [Combine(TYPE_SHORT_STRING, |s|)] + s
    else if |s| < 0x1_0000 then [Combine(TYPE_LONG_STRING, 2)] + Bytes(|s|, 2) + s
    else [Combine(TYPE_LONG_STRING, 4)] + Bytes(|s|, 4) + s
  }

  /** The head of a table with n elements: in the cookie, or as an integer behind it. */
  function TableHead(n: nat): seq<byte>
    requires n < 0x8000_0000
  {
    if n >= MAX_COOKIE - 1 then [Combine(TYPE_TABLE, MAX_COOKIE - 1)] + EncodeInteger(n) else [Combine(TYPE_TABLE, n)]
  }

  /** What the format can hold: eight-byte doubles and pointers, lengths that fit an int, no nil among the other pairs. */
  predicate Packable(v: Value) {
    match v
    case Real(bits) => |bits| == 8
    case Pointer(bits) => |bits| == 8
    case Text(chars) => |chars| < 0x8000_0000
    case Table(items, pairs) =>
      && |items| < 0x8000_0000
      && (forall x :: x in items ==> Packable(x))
      && (forall p :: p in pairs ==> Packable(p.key) && Packable(p.value) && p.key != Nil)
    case _ => true
  }

  function Encode(v: Value): seq<byte>
    requires Packable(v)
    decreases v
  {
    match v
    case Nil => [Combine(TYPE_NIL, 0)]
    case Boolean(flag) => [Combine(TYPE_BOOLEAN, if flag then 1 else 0)]
    case Integer(i) => EncodeInteger(i)
    case Real(bits) => [Combine(TYPE_NUMBER, NUMBER_REAL)] + bits
    case Pointer(bits) => [Combine(TYPE_USERDATA, 0)] + bits
    case Text(chars) => EncodeText(chars)
    case Table(items, pairs) => TableHead(|items|) + (EncodeAll(items) + (EncodePairs(pairs) + [Combine(TYPE_NIL, 0)]))
  }

  function EncodeAll(vs: seq<Value>): seq<byte>
    requires forall x :: x in vs ==> Packable(x)
    decreases vs
  {
    if vs == [] then [] else Encode(vs[0]) + EncodeAll(vs[1..])
  }

  function EncodePairs(ps: seq<Pair>): seq<byte>
    requires forall p :: p in ps ==> Packable(p.key) && Packable(p.value)
    decreases ps
  {
    if ps == [] then [] else EncodePair(ps[0]) + EncodePairs(ps[1..])
  }

  function EncodePair(p: Pair): seq<byte>
    requires Packable(p.key) && Packable(p.value)
    decreases p
  {
    Encode(p.key) + Encode(p.value)
  }

  // ---------------------------------------------------------------------------
  // The decoder

  /** rb_read: the next n bytes, or an error when there are fewer. */
  function Read(b: seq<byte>, n: nat): (r: Option<(seq<byte>, seq<byte>)>)
    ensures r.Some? ==> |r.value.0| == n && |r.value.1| == |b| - n
  {
    if |b| < n then None else Some((b[..n], b[n..]))
  }

  /** get_integer */
  function GetInteger(cookie: int, b: seq<byte>): (r: Option<(int64, seq<byte>)>)
    ensures r.Some? ==> |r.value.1| <= |b|
  {
    Widths();
    if cookie == NUMBER_ZERO then Some((0, b))
    else
      var width := match cookie case 1 => 1 case 2 => 2 case 4 => 4 case 6 => 8 case _ => 0;
      if width == 0 then None
      else match Read(b, width)
        case None => None
        case Some((n, rest)) =>
          UnsignedBound(n);
          Some((if width < 4 then Unsigned(n) else Signed(n), rest))
  }

  /** get_buffer after the length */
  function GetText(n: nat, b: seq<byte>): (r: Option<(Value, seq<byte>)>)
    ensures r.Some? ==> |r.value.1| <= |b|
  {
    match Read(b, n)
    case None => None
    case Some((chars, rest)) => Some((Text(chars), rest))
  }

  /** TYPE_LONG_STRING */
  function GetLongText(cookie: int, b: seq<byte>): (r: Option<(Value, seq<byte>)>)
    ensures r.Some? ==> |r.value.1| <= |b|
  {
    if cookie != 2 && cookie != 4 then None
    else match Read(b, cookie)
      case None => None
      case Some((n, rest)) => GetText(Unsigned(n), rest)
  }

  /** A 64-bit number stored in an int of 32 bits. */
  function Int32(n: int64): (r: int64)
    ensures -0x8000_0000 <= r < 0x8000_0000
  {
    (n + 0x8000_0000) % 0x1_0000_0000 - 0x8000_0000
  }

  /** The number of elements of a table: the cookie, or the integer that follows, cut to an int. */
  function GetSize(cookie: int, b: seq<byte>): (r: Option<(int64, seq<byte>)>)
    requires 0 <= cookie < 32
    ensures r.Some? ==> |r.value.1| <= |b|
  {
    if cookie != MAX_COOKIE - 1 then Some((cookie, b))
    else match Read(b, 1)
      case None => None
      case Some((t, rest)) =>
        if t[0] % 8 != TYPE_NUMBER || t[0] / 8 == NUMBER_REAL then None
        else match GetInteger(t[0] / 8, rest)
          case None => None
          case Some((n, b1)) => Some((Int32(n), b1))
  }

  /** push_value for everything but tables */
  function GetPlain(t: int, cookie: int, b: seq<byte>): (r: Option<(Value, seq<byte>)>)
    ensures r.Some? ==> |r.value.1| <= |b|
  {
    match t
    case 0 => Some((Nil, b))
    case 1 => Some((Boolean(cookie != 0), b))
    case 2 =>
      if cookie == NUMBER_REAL then
        (match Read(b, 8) case None => None case Some((bits, rest)) => Some((Real(bits), rest)))
      else
        (match GetInteger(cookie, b) case None => None case Some((n, rest)) => Some((Integer(n), rest)))
    case 3 => (match Read(b, 8) case None => None case Some((bits, rest)) => Some((Pointer(bits), rest)))
    case 4 => if cookie < 0 then None else GetText(cookie, b)
    case 5 => GetLongText(cookie, b)
    case _ => None
  }

  /** unpack_one and unpack_table */
  function Decode(b: seq<byte>): (r: Option<(Value, seq<byte>)>)
    ensures r.Some? ==> |r.value.1| < |b|
    decreases |b|, 0, 0
  {
    if b == [] then None
    else
      var t, cookie := b[0] % 8, b[0] / 8;
      if t != TYPE_TABLE then GetPlain(t, cookie, b[1..])
      else match GetSize(cookie, b[1..])
        case None => None
        case Some((n, b1)) =>
          match DecodeAll(n, b1)
          case None => None
          case Some((items, b2)) =>
            match DecodePairs(b2)
            case None => None
            case Some((pairs, rest)) => Some((Table(items, pairs), rest))
  }

  function DecodeAll(n: int, b: seq<byte>): (r: Option<(seq<Value>, seq<byte>)>)
    ensures r.Some? ==> |r.value.1| <= |b|
    decreases |b|, 1, n
  {
    if n <= 0 then Some(([], b))
    else match Decode(b)
      case None => None
      case Some((v, b1)) =>
        match DecodeAll(n - 1, b1)
        case None => None
        case Some((vs, rest)) => Some(([v] + vs, rest))
  }

  /** Pairs up to the nil that ends them. */
  function DecodePairs(b: seq<byte>): (r: Option<(seq<Pair>, seq<byte>)>)
    ensures r.Some? ==> |r.value.1| < |b|
    decreases |b|, 1, 0
  {
    match Decode(b)
    case None => None
    case Some((k, b1)) =>
      if k == Nil then Some(([], b1))
      else match Decode(b1)
        case None => None
        case Some((v, b2)) =>
          match DecodePairs(b2)
          case None => None
          case Some((ps, rest)) => Some(([Pair(k, v)] + ps, rest))
  }

  /** luaseri_unpack: values until the stream ends. */
  function Unpack(b: seq<byte>): Option<seq<Value>>
    decreases |b|
  {
    if b == [] then Some([])
    else match Decode(b)
      case None => None
      case Some((v, rest)) =>
        match Unpack(rest)
        case None => None
        case Some(vs) => Some([v] + vs)
  }

  // ---------------------------------------------------------------------------
  // Round trips

  lemma ReadBack(a: seq<byte>, rest: seq<byte>)
    ensures Read(a + rest, |a|) == Some((a, rest))
  {
    assert (a + rest)[..|a|] == a && (a + rest)[|a|..] == rest;
  }

  /** The width a cookie stands for, and how the bytes are read. */
  lemma WidthBack(cookie: int, k: nat, n: seq<byte>, v: int64, rest: seq<byte>)
    requires (cookie, k) in {(1, 1), (2, 2), (4, 4), (6, 8)} && |n| == k
    requires v == if k < 4 then Unsigned(n) else Signed(n)
    ensures GetInteger(cookie, n + rest) == Some((v, rest))
  {
    hide Unsigned, Signed;
    ReadBack(n, rest);
  }

  /** Whatever the decoder reads as v is no shorter than what wb_integer writes for it. */
  lemma IntegerNarrowest(cookie: int, b: seq<byte>, v: int64)
    requires GetInteger(cookie, b) == Some((v, []))
    ensures |EncodeInteger(v)| <= 1 + |b|
  {
    Widths();
    hide Bytes, Exp256, Unsigned;
    if cookie in {1, 2, 4, 6} {
      var width := if cookie == 6 then 8 else cookie;
      assert b[..width] == b;
      UnsignedBound(b);
    }
  }

  /** Nor is anything it reads as the string s behind a length of its own. */
  lemma TextNarrowest(cookie: int, b: seq<byte>, s: seq<byte>)
    requires GetLongText(cookie, b) == Some((Text(s), []))
    ensures |EncodeText(s)| <= 1 + |b|
  {
    Widths();
    hide Bytes, Exp256, Unsigned;
    UnsignedBound(b[..cookie]);
  }

  lemma IntegerBack(v: int64, rest: seq<byte>)
    ensures var b := EncodeInteger(v);
            && b != [] && b[0] % 8 == TYPE_NUMBER && b[0] / 8 != NUMBER_REAL
            && GetInteger(b[0] / 8, b[1..] + rest) == Some((v, rest))
  {
    Widths();
    hide Bytes, Exp256, Unsigned, Signed, GetInteger;
    var b := EncodeInteger(v);
    if v == 0 {
      ZeroBack(b[1..] + rest);
      assert b[1..] + rest == rest;
    } else if !(-0x8000_0000 <= v < 0x8000_0000) {
      SignedBack(v, 8);
      assert b[1..] == Bytes(Wrapped(v, 8), 8);
      WidthBack(6, 8, b[1..], v, rest);
    } else if v < 0 || v >= 0x1_0000 {
      SignedBack(v, 4);
      assert b[1..] == Bytes(Wrapped(v, 4), 4);
      WidthBack(4, 4, b[1..], v, rest);
    } else {
      var k := if v < 0x100 then 1 else 2;
      BytesBack(v, k);
      assert b[1..] == Bytes(v, k);
      WidthBack(k, k, b[1..], v, rest);
    }
  }

  lemma ZeroBack(b: seq<byte>)
    ensures GetInteger(NUMBER_ZERO, b) == Some((0, b))
  {}

  lemma TextBack(s: seq<byte>, rest: seq<byte>)
    requires |s| < 0x8000_0000
    ensures var b := EncodeText(s);
            b != [] && b[0] % 8 in {TYPE_SHORT_STRING, TYPE_LONG_STRING}
            && GetPlain(b[0] % 8, b[0] / 8, b[1..] + rest) == Some((Text(s), rest))
  {
    Widths();
    var b := EncodeText(s);
    ReadBack(s, rest);
    if |s| < MAX_COOKIE {
      assert b[1..] == s;
    } else {
      var k := if |s| < 0x1_0000 then 2 else 4;
      BytesBack(|s|, k);
      ReadBack(Bytes(|s|, k), s + rest);
      assert b[1..] + rest == Bytes(|s|, k) + (s + rest);
    }
  }

  lemma SizeBack(n: nat, rest: seq<byte>)
    requires n < 0x8000_0000
    ensures var b := TableHead(n);
            b != [] && b[0] % 8 == TYPE_TABLE && GetSize(b[0] / 8, b[1..] + rest) == Some((n, rest))
  {
    if n >= MAX_COOKIE - 1 {
      var e := EncodeInteger(n);
      IntegerBack(n, rest);
      assert TableHead(n)[1..] + rest == e[..1] + (e[1..] + rest);
      ReadBack(e[..1], e[1..] + rest);
    } else {
      assert TableHead(n)[1..] + rest == rest;
    }
  }

  /** What the decoder takes an eight-byte array size for: its low 32 bits, as a signed number. */
  lemma SizeTruncated(n: int64, rest: seq<byte>)
    ensures GetSize(MAX_COOKIE - 1, [Combine(TYPE_NUMBER, NUMBER_QWORD)] + (Bytes(Wrapped(n, 8), 8) + rest))
         == Some((Int32(n), rest))
    ensures Int32(n) == n <==> -0x8000_0000 <= n < 0x8000_0000
  {
    Widths();
    hide Bytes, Exp256, Unsigned, Signed, GetInteger;
    var size := Bytes(Wrapped(n, 8), 8);
    ReadBack([Combine(TYPE_NUMBER, NUMBER_QWORD)], size + rest);
    SignedBack(n, 8);
    WidthBack(6, 8, size, n, rest);
  }

  /** A stream no encoder writes: the size 2^32 + 1 is read as 1, and a table of one element comes back. */
  lemma {:induction false} SizeWraps(v: Value, rest: seq<byte>)
    requires Packable(v)
    ensures Decode([Combine(TYPE_TABLE, MAX_COOKIE - 1), Combine(TYPE_NUMBER, NUMBER_QWORD)]
                   + Bytes(0x1_0000_0001, 8) + Encode(v) + [Combine(TYPE_NIL, 0)] + rest)
         == Some((Table([v], []), rest))
  {
    Widths();
    hide Bytes, Exp256, Encode, GetSize;
    var n, e := Bytes(0x1_0000_0001, 8), Encode(v);
    var t := [Combine(TYPE_NIL, 0)] + rest;
    var b := [Combine(TYPE_TABLE, MAX_COOKIE - 1), Combine(TYPE_NUMBER, NUMBER_QWORD)]
             + n + Encode(v) + [Combine(TYPE_NIL, 0)] + rest;
    assert b[1..] == [Combine(TYPE_NUMBER, NUMBER_QWORD)] + (n + (e + t));
    SizeTruncated(0x1_0000_0001, e + t);
    ValueBack(v, t);
    AllSteps(1, e + t, v, t, [], t);
    assert [v] + [] == [v];
    PairsBack([], rest);
    assert EncodePairs([]) + t == t;
    TableSteps(b, [v], [], e + t, t, rest);
  }

  /** A value that is not a table: its byte of type and cookie, and the rest. */
  lemma {:induction false} PlainSteps(b: seq<byte>, v: Value, rest: seq<byte>)
    requires b != [] && b[0] % 8 != TYPE_TABLE && GetPlain(b[0] % 8, b[0] / 8, b[1..]) == Some((v, rest))
    ensures Decode(b) == Some((v, rest))
  {
    hide GetPlain;
  }

  lemma PlainBack(v: Value, rest: seq<byte>)
    requires Packable(v) && !v.Table?
    ensures var b := Encode(v);
            b != [] && b[0] % 8 != TYPE_TABLE && GetPlain(b[0] % 8, b[0] / 8, b[1..] + rest) == Some((v, rest))
  {
    hide GetInteger, EncodeInteger, EncodeText, GetText, Read;
    var b := Encode(v);
    match v
    case Integer(i) => IntegerBack(i, rest);
    case Text(chars) => TextBack(chars, rest);
    case Real(bits) =>
      ReadBack(bits, rest);
      assert b[1..] == bits;
    case Pointer(bits) =>
      ReadBack(bits, rest);
      assert b[1..] == bits;
    case Nil => assert b[1..] + rest == rest;
    case Boolean(flag) => assert b[1..] + rest == rest;
    case Table(_, _) =>
  }

  /** Decoding gives back the value and stops right behind it. */
  lemma {:induction false} ValueBack(v: Value, rest: seq<byte>)
    requires Packable(v)
    ensures Decode(Encode(v) + rest) == Some((v, rest))
    decreases v
  {
    if v.Table? {
      TableBack(v.items, v.pairs, rest);
    } else {
      hide Decode, GetPlain, Encode;
      var b := Encode(v);
      PlainBack(v, rest);
      assert (b + rest)[1..] == b[1..] + rest;
      PlainSteps(b + rest, v, rest);
    }
  }

  /** Decoding a table, part by part. */
  lemma TableSteps(b: seq<byte>, items: seq<Value>, pairs: seq<Pair>, b1: seq<byte>, b2: seq<byte>, rest: seq<byte>)
    requires b != [] && b[0] % 8 == TYPE_TABLE && GetSize(b[0] / 8, b[1..]) == Some((|items|, b1))
    requires DecodeAll(|items|, b1) == Some((items, b2)) && DecodePairs(b2) == Some((pairs, rest))
    ensures Decode(b) == Some((Table(items, pairs), rest))
  {
    hide DecodeAll, DecodePairs, GetSize;
  }

  lemma {:induction false} TableBack(items: seq<Value>, pairs: seq<Pair>, rest: seq<byte>)
    requires Packable(Table(items, pairs))
    ensures Decode(Encode(Table(items, pairs)) + rest) == Some((Table(items, pairs), rest))
    decreases Table(items, pairs), 0
  {
    hide Decode, DecodeAll, DecodePairs, GetSize, EncodeAll, EncodePairs, TableHead;
    var head, e, p := TableHead(|items|), EncodeAll(items), EncodePairs(pairs);
    var end := [Combine(TYPE_NIL, 0)];
    var b2 := p + (end + rest);
    var b1 := e + b2;
    var b := head + (e + (p + end)) + rest;
    SizeBack(|items|, b1);
    AllBack(items, b2);
    PairsBack(pairs, rest);
    assert b == head + b1;
    assert b[1..] == head[1..] + b1;
    TableSteps(b, items, pairs, b1, b2, rest);
  }

  lemma AllSteps(n: nat, b: seq<byte>, v: Value, b1: seq<byte>, vs: seq<Value>, rest: seq<byte>)
    requires n > 0 && Decode(b) == Some((v, b1)) && DecodeAll(n - 1, b1) == Some((vs, rest))
    ensures DecodeAll(n, b) == Some(([v] + vs, rest))
  {
    hide Decode;
  }

  lemma AllSplits(vs: seq<Value>, rest: seq<byte>)
    requires vs != [] && forall x :: x in vs ==> Packable(x)
    ensures EncodeAll(vs) + rest == Encode(vs[0]) + (EncodeAll(vs[1..]) + rest)
  {
    hide Encode;
  }

  lemma {:induction false} AllBack(vs: seq<Value>, rest: seq<byte>)
    requires forall x :: x in vs ==> Packable(x)
    ensures DecodeAll(|vs|, EncodeAll(vs) + rest) == Some((vs, rest))
    decreases vs
  {
    hide Decode, DecodeAll, Encode, EncodeAll, Packable;
    NoValues(rest);
    if vs != [] {
      var more := EncodeAll(vs[1..]) + rest;
      AllSplits(vs, rest);
      ValueBack(vs[0], more);
      AllBack(vs[1..], rest);
      AllSteps(|vs|, EncodeAll(vs) + rest, vs[0], more, vs[1..], rest);
      assert [vs[0]] + vs[1..] == vs;
    }
  }

  lemma NoValues(rest: seq<byte>)
    ensures DecodeAll(0, EncodeAll([]) + rest) == Some(([], rest))
  {
    assert EncodeAll([]) + rest == rest;
  }

  lemma PairSteps(b: seq<byte>, p: Pair, b1: seq<byte>, b2: seq<byte>, ps: seq<Pair>, rest: seq<byte>)
    requires Decode(b) == Some((p.key, b1)) && p.key != Nil && Decode(b1) == Some((p.value, b2))
    requires DecodePairs(b2) == Some((ps, rest))
    ensures DecodePairs(b) == Some(([p] + ps, rest))
  {
    hide Decode;
  }

  lemma {:induction false} PairBack(p: Pair, more: seq<byte>)
    requires Packable(p.key) && Packable(p.value)
    ensures Decode(Encode(p.key) + (Encode(p.value) + more)) == Some((p.key, Encode(p.value) + more))
    ensures Decode(Encode(p.value) + more) == Some((p.value, more))
    decreases p
  {
    hide Decode, Encode;
    ValueBack(p.key, Encode(p.value) + more);
    ValueBack(p.value, more);
  }

  lemma PairSplits(ps: seq<Pair>, end: seq<byte>)
    requires ps != [] && forall p :: p in ps ==> Packable(p.key) && Packable(p.value)
    ensures EncodePairs(ps) + end == Encode(ps[0].key) + (Encode(ps[0].value) + (EncodePairs(ps[1..]) + end))
  {
    hide Encode;
  }

  lemma {:induction false} PairsBack(ps: seq<Pair>, rest: seq<byte>)
    requires forall p :: p in ps ==> Packable(p.key) && Packable(p.value) && p.key != Nil
    ensures DecodePairs(EncodePairs(ps) + ([Combine(TYPE_NIL, 0)] + rest)) == Some((ps, rest))
    decreases ps
  {
    var end := [Combine(TYPE_NIL, 0)] + rest;
    hide Decode, DecodePairs, Encode, EncodePairs, Packable;
    NoPairs(rest);
    if ps != [] {
      var p := ps[0];
      var more := EncodePairs(ps[1..]) + end;
      PairSplits(ps, end);
      PairBack(p, more);
      PairsBack(ps[1..], rest);
      PairSteps(EncodePairs(ps) + end, p, Encode(p.value) + more, more, ps[1..], rest);
      assert [p] + ps[1..] == ps;
    }
  }

  lemma {:induction false} NoPairs(rest: seq<byte>)
    ensures DecodePairs(EncodePairs([]) + ([Combine(TYPE_NIL, 0)] + rest)) == Some(([], rest))
  {
    var end := [Combine(TYPE_NIL, 0)] + rest;
    assert EncodePairs([]) + end == end && end[1..] == rest;
    PlainSteps(end, Nil, rest);
  }

  /** Unpacking a packed list of values gives the list back. */
  lemma {:induction false} UnpackPack(vs: seq<Value>)
    requires forall x :: x in vs ==> Packable(x)
    ensures Unpack(EncodeAll(vs)) == Some(vs)
  {
    if vs != [] {
      ValueBack(vs[0], EncodeAll(vs[1..]));
      UnpackPack(vs[1..]);
      assert [vs[0]] + vs[1..] == vs;
    }
  }

  // ---------------------------------------------------------------------------
  // struct write_block and packing

  /** Whether every table is nested shallowly enough: pack_one fails below MAX_DEPTH. */
  predicate Fits(v: Value, depth: nat)
    decreases v
  {
    depth <= MAX_DEPTH && (v.Table? ==>
      && (forall x :: x in v.items ==> Fits(x, depth + 1))
      && (forall i :: 0 <= i < |v.pairs| ==> PairFits(v.pairs[i], depth + 1)))
  }

  predicate PairFits(p: Pair, depth: nat)
    decreases p
  {
    Fits(p.key, depth) && Fits(p.value, depth)
  }

  /** The bytes of full blocks, in chain order. */
  function Joined(blocks: seq<seq<byte>>): seq<byte> {
    if blocks == [] then [] else Joined(blocks[..|blocks| - 1]) + blocks[|blocks| - 1]
  }

  /** The chain: the full blocks, and the block being written. */
  class WriteBlock {
    ghost var full: seq<seq<byte>>
    var blocks: seq<array<byte>>
    var current: array<byte>
    var len: nat
    var ptr: nat

    ghost predicate Valid()
      reads this, blocks, current
    {
      && current.Length == BLOCK_SIZE && ptr <= BLOCK_SIZE && current !in blocks
      && |blocks| == |full| && len == BLOCK_SIZE * |blocks| + ptr
      && (forall i :: 0 <= i < |blocks| ==> blocks[i].Length == BLOCK_SIZE && blocks[i][..] == full[i])
    }

    ghost function Contents(): seq<byte>
      requires Valid()
      reads this, blocks, current
    {
      Joined(full) + current[..ptr]
    }

    /** wb_init */
    constructor ()
      ensures Valid() && Contents() == [] && fresh(current) && blocks == []
    {
      full, blocks := [], [];
      current := new byte[BLOCK_SIZE](_ => 0);
      len, ptr := 0, 0;
    }

    /** The end of the block is reached: chain another one. */
    method NextBlock()
      requires Valid() && ptr == BLOCK_SIZE
      modifies this`full, this`blocks, this`current, this`ptr
      ensures Valid() && ptr == 0 && fresh(current) && Contents() == old(Contents()) && len == old(len)
      ensures blocks == old(blocks) + [old(current)]
    {
      assert current[..ptr] == current[..];
      assert (full + [current[..]])[..|full|] == full;
      full := full + [current[..]];
      blocks := blocks + [current];
      current := new byte[BLOCK_SIZE](_ => 0);
      ptr := 0;
    }

    /** memcpy into the block being written. */
    method Copy(buf: seq<byte>)
      requires Valid() && ptr + |buf| <= BLOCK_SIZE
      modifies this`ptr, this`len, current
      ensures Valid() && Contents() == old(Contents()) + buf && ptr == old(ptr) + |buf|
    {
      ghost var before := current[..ptr];
      var i := 0;
      while i < |buf|
        invariant 0 <= i <= |buf| && ptr == old(ptr) && len == old(len)
        invariant current[..ptr + i] == before + buf[..i]
        modifies current
      {
        current[ptr + i] := buf[i];
        i := i + 1;
      }
      ptr := ptr + |buf|;
      len := len + |buf|;
      assert buf[..|buf|] == buf;
    }

    /** Fill the rest of the block and chain another one. */
    method FillBlock(part: seq<byte>)
      requires Valid() && ptr + |part| == BLOCK_SIZE
      modifies this, current
      ensures Valid() && ptr == 0 && Contents() == old(Contents()) + part && fresh(current)
    {
      Copy(part);
      NextBlock();
    }

    /** wb_push: append some bytes, filling blocks as it goes. */
    method Push(buf: seq<byte>)
      requires Valid()
      modifies this, current
      ensures Valid() && Contents() == old(Contents()) + buf
      ensures current == old(current) || fresh(current)
    {
      hide Joined;
      var at := 0;
      if ptr == BLOCK_SIZE {
        NextBlock();
      }
      while |buf| - at > BLOCK_SIZE - ptr
        invariant Valid() && ptr < BLOCK_SIZE && (current == old(current) || fresh(current))
        invariant 0 <= at <= |buf| && Contents() == old(Contents()) + buf[..at]
        decreases |buf| - at
      {
        var copy := BLOCK_SIZE - ptr;
        FillBlock(buf[at..at + copy]);
        SliceOn(old(Contents()), buf, at, copy);
        at := at + copy;
      }
      Copy(buf[at..]);
      SliceOn(old(Contents()), buf, at, |buf| - at);
    }

    /** Everything of one kind of value but tables, as pack_one writes it. */
    method PushPlain(v: Value)
      requires Valid() && Packable(v) && !v.Table?
      modifies this, current
      ensures Valid() && Contents() == old(Contents()) + Encode(v)
      ensures current == old(current) || fresh(current)
    {
      hide Joined, Bytes, Exp256;
      match v
      case Nil => Push([Combine(TYPE_NIL, 0)]);
      case Boolean(flag) => Push([Combine(TYPE_BOOLEAN, if flag then 1 else 0)]);
      case Integer(i) => PushInteger(i);
      case Text(chars) => PushText(chars);
      case Real(bits) =>
        Push([Combine(TYPE_NUMBER, NUMBER_REAL)]);
        Push(bits);
        Chained(old(Contents()), [Combine(TYPE_NUMBER, NUMBER_REAL)], bits);
      case Pointer(bits) =>
        Push([Combine(TYPE_USERDATA, 0)]);
        Push(bits);
        Chained(old(Contents()), [Combine(TYPE_USERDATA, 0)], bits);
    }

    /** A byte of type and cookie, then the number in k bytes. */
    method PushTagged(tag: byte, n: nat, k: nat)
      requires Valid()
      modifies this, current
      ensures Valid() && Contents() == old(Contents()) + ([tag] + Bytes(n, k))
      ensures current == old(current) || fresh(current)
    {
      hide Joined;
      Push([tag]);
      Push(Bytes(n, k));
      Chained(old(Contents()), [tag], Bytes(n, k));
    }

    /** wb_integer */
    method PushInteger(v: int64)
      requires Valid()
      modifies this, current
      ensures Valid() && Contents() == old(Contents()) + EncodeInteger(v)
      ensures current == old(current) || fresh(current)
    {
      hide Joined, Bytes, Exp256;
      Widths();
      if v == 0 {
        Push([Combine(TYPE_NUMBER, NUMBER_ZERO)]);
      } else if !(-0x8000_0000 <= v < 0x8000_0000) {
        PushTagged(Combine(TYPE_NUMBER, NUMBER_QWORD), Wrapped(v, 8), 8);
      } else if v < 0 {
        PushTagged(Combine(TYPE_NUMBER, NUMBER_DWORD), Wrapped(v, 4), 4);
      } else if v < 0x100 {
        PushTagged(Combine(TYPE_NUMBER, NUMBER_BYTE), v, 1);
      } else if v < 0x1_0000 {
        PushTagged(Combine(TYPE_NUMBER, NUMBER_WORD), v, 2);
      } else {
        PushTagged(Combine(TYPE_NUMBER, NUMBER_DWORD), v, 4);
      }
    }

    /** wb_string */
    method PushText(s: seq<byte>)
      requires Valid() && |s| < 0x8000_0000
      modifies this, current
      ensures Valid() && Contents() == old(Contents()) + EncodeText(s)
      ensures current == old(current) || fresh(current)
    {
      hide Joined, Bytes;
      if |s| < MAX_COOKIE {
        var n := Combine(TYPE_SHORT_STRING, |s|);
        Push([n]);
        if |s| > 0 {
          Push(s);
        }
        Chained(old(Contents()), [n], s);
      } else {
        var long := |s| >= 0x1_0000;
        var n, k := Combine(TYPE_LONG_STRING, if long then 4 else 2), if long then 4 else 2;
        PushTagged(n, |s|, k);
        Push(s);
        Chained(old(Contents()), [n] + Bytes(|s|, k), s);
      }
    }

    /** The head of a table: wb_table_array before its elements. */
    method PushHead(n: nat)
      requires Valid() && n < 0x8000_0000
      modifies this, current
      ensures Valid() && Contents() == old(Contents()) + TableHead(n)
      ensures current == old(current) || fresh(current)
    {
      hide Joined, EncodeInteger;
      if n >= MAX_COOKIE - 1 {
        Push([Combine(TYPE_TABLE, MAX_COOKIE - 1)]);
        PushInteger(n);
        Chained(old(Contents()), [Combine(TYPE_TABLE, MAX_COOKIE - 1)], EncodeInteger(n));
      } else {
        Push([Combine(TYPE_TABLE, n)]);
      }
    }

    /** pack_one: false when the nesting is too deep. */
    method PackOne(v: Value, depth: nat) returns (ok: bool)
      requires Valid() && Packable(v)
      modifies this, current
      ensures Valid() && (current == old(current) || fresh(current))
      ensures ok == Fits(v, depth)
      ensures ok ==> Contents() == old(Contents()) + Encode(v)
      decreases v, 1
    {
      hide Joined, TableHead, EncodeInteger, EncodeText;
      if depth > MAX_DEPTH {
        return false;
      }
      if !v.Table? {
        PushPlain(v);
        return true;
      }
      ok := PackTable(v, depth);
    }

    /** wb_table without a metatable: the elements, the other pairs, and a nil. */
    method PackTable(v: Value, depth: nat) returns (ok: bool)
      requires Valid() && Packable(v) && v.Table? && depth <= MAX_DEPTH
      modifies this, current
      ensures Valid() && (current == old(current) || fresh(current))
      ensures ok == Fits(v, depth)
      ensures ok ==> Contents() == old(Contents()) + Encode(v)
      decreases v, 0
    {
      hide Joined, TableHead, Fits, EncodeAll, EncodePairs;
      ghost var c0 := Contents();
      PushHead(|v.items|);
      ok := PackAll(v.items, depth + 1);
      FitsParts(v, depth);
      if !ok {
        return;
      }
      ok := PackPairs(v.pairs, depth + 1);
      if !ok {
        return;
      }
      Push([Combine(TYPE_NIL, 0)]);
      Parts(c0, TableHead(|v.items|), EncodeAll(v.items), EncodePairs(v.pairs), [Combine(TYPE_NIL, 0)]);
    }

    method PackAll(vs: seq<Value>, depth: nat) returns (ok: bool)
      requires Valid() && forall x :: x in vs ==> Packable(x)
      modifies this, current
      ensures Valid() && (current == old(current) || fresh(current))
      ensures ok == (forall x :: x in vs ==> Fits(x, depth))
      ensures ok ==> Contents() == old(Contents()) + EncodeAll(vs)
      decreases vs
    {
      hide Joined, Fits, Encode;
      if vs == [] {
        return true;
      }
      ghost var c0 := Contents();
      ok := PackOne(vs[0], depth);
      if !ok {
        return;
      }
      ok := PackAll(vs[1..], depth);
      assert forall x :: x in vs <==> x == vs[0] || x in vs[1..];
      Chained(c0, Encode(vs[0]), EncodeAll(vs[1..]));
    }

    method PackPair(p: Pair, depth: nat) returns (ok: bool)
      requires Valid() && Packable(p.key) && Packable(p.value)
      modifies this, current
      ensures Valid() && (current == old(current) || fresh(current))
      ensures ok == PairFits(p, depth)
      ensures ok ==> Contents() == old(Contents()) + EncodePair(p)
      decreases p
    {
      hide Joined, Fits, Encode;
      ghost var c0 := Contents();
      ok := PackOne(p.key, depth);
      if !ok {
        return;
      }
      ok := PackOne(p.value, depth);
      Chained(c0, Encode(p.key), Encode(p.value));
    }

    method PackPairs(ps: seq<Pair>, depth: nat) returns (ok: bool)
      requires Valid() && forall p :: p in ps ==> Packable(p.key) && Packable(p.value)
      modifies this, current
      ensures Valid() && (current == old(current) || fresh(current))
      ensures ok == (forall i :: 0 <= i < |ps| ==> PairFits(ps[i], depth))
      ensures ok ==> Contents() == old(Contents()) + EncodePairs(ps)
      decreases ps
    {
      hide Joined, PairFits, EncodePair;
      if ps == [] {
        return true;
      }
      ghost var c0 := Contents();
      ok := PackPair(ps[0], depth);
      if !ok {
        return;
      }
      ok := PackPairs(ps[1..], depth);
      assert forall i :: 1 <= i < |ps| ==> ps[i] == ps[1..][i - 1];
      Chained(c0, EncodePair(ps[0]), EncodePairs(ps[1..]));
    }

    /** seri: the blocks of the chain copied into one buffer. */
    method Seri() returns (buffer: seq<byte>)
      requires Valid()
      ensures buffer == Contents()
    {
      buffer := [];
      var left, b := len, 0;
      while left > 0
        invariant 0 <= b <= |blocks| + 1 && left == (if b <= |blocks| then len - BLOCK_SIZE * b else 0)
        invariant b <= |blocks| ==> buffer == Joined(full[..b])
        invariant b > |blocks| ==> buffer == Contents()
        decreases left
      {
        if left >= BLOCK_SIZE {
          if b < |blocks| {
            buffer := buffer + blocks[b][..];
            assert full[..b + 1][..b] == full[..b];
          } else {
            buffer := buffer + current[..];
            assert full[..b] == full && current[..ptr] == current[..];
          }
          left := left - BLOCK_SIZE;
          b := b + 1;
        } else {
          buffer := buffer + current[..left];
          assert full[..b] == full;
          return;
        }
      }
      if b == |blocks| { assert full[..b] == full; }
    }
  }

  /** luaseri_pack: values one after the other at depth 0. */
  method Pack(vs: seq<Value>) returns (r: Option<seq<byte>>)
    requires forall x :: x in vs ==> Packable(x)
    ensures r == if forall x :: x in vs ==> Fits(x, 0) then Some(EncodeAll(vs)) else None
  {
    hide Joined, Fits, EncodeAll;
    var wb := new WriteBlock();
    var ok := wb.PackAll(vs, 0);
    if !ok {
      return None;
    }
    var buffer := wb.Seri();
    assert [] + EncodeAll(vs) == EncodeAll(vs);
    return Some(buffer);
  }

  // ---------------------------------------------------------------------------
  // struct read_block and unpacking

  /** An operation on the reader did what the decoder says: its result, and what is left. */
  ghost predicate Agrees<T(!new)>(d: Option<(T, seq<byte>)>, r: Option<T>, rest: seq<byte>) {
    match d
    case None => r.None?
    case Some((x, left)) => r == Some(x) && rest == left
  }

  class ReadBlock {
    const buffer: seq<byte>
    var len: nat
    var ptr: nat

    ghost predicate Valid()
      reads this
    {
      ptr + len == |buffer|
    }

    ghost function Left(): seq<byte>
      requires Valid()
      reads this
    {
      buffer[ptr..]
    }

    /** rball_init */
    constructor (buffer: seq<byte>)
      ensures Valid() && Left() == buffer
    {
      this.buffer := buffer;
      len, ptr := |buffer|, 0;
    }

    /** rb_read */
    method RbRead(sz: nat) returns (r: Option<seq<byte>>)
      requires Valid()
      modifies this
      ensures Valid() && Agrees(Read(old(Left()), sz), r, Left())
      ensures r.None? ==> len == old(len) < sz
      ensures r.Some? ==> len == old(len) - sz
    {
      if len < sz {
        return None;
      }
      var at := ptr;
      ptr := ptr + sz;
      len := len - sz;
      assert buffer[at..][..sz] == buffer[at..at + sz] && buffer[at..][sz..] == buffer[ptr..];
      return Some(buffer[at..at + sz]);
    }

    /** get_integer */
    method ReadInteger(cookie: int) returns (r: Option<int64>)
      requires Valid()
      modifies this
      ensures Valid() && Agrees(GetInteger(cookie, old(Left())), r, Left()) && len <= old(len)
    {
      hide Unsigned, Signed, Exp256;
      var width := match cookie case 1 => 1 case 2 => 2 case 4 => 4 case 6 => 8 case _ => 0;
      if cookie == NUMBER_ZERO {
        return Some(0);
      }
      if width == 0 {
        return None;
      }
      var n := RbRead(width);
      if n.None? {
        return None;
      }
      Widths();
      UnsignedBound(n.value);
      FitsInt64(n.value);
      return Some(if width < 4 then Unsigned(n.value) else Signed(n.value));
    }

    /** get_buffer */
    method ReadText(n: nat) returns (r: Option<Value>)
      requires Valid()
      modifies this
      ensures Valid() && Agrees(GetText(n, old(Left())), r, Left()) && len <= old(len)
    {
      var p := RbRead(n);
      return if p.None? then None else Some(Text(p.value));
    }

    /** push_value for everything but tables */
    method ReadPlain(t: int, cookie: nat) returns (r: Option<Value>)
      requires Valid() && t != TYPE_TABLE
      modifies this
      ensures Valid() && Agrees(GetPlain(t, cookie, old(Left())), r, Left()) && len <= old(len)
    {
      hide GetInteger, GetText, Unsigned;
      match t
      case 0 => return Some(Nil);
      case 1 => return Some(Boolean(cookie != 0));
      case 2 =>
        if cookie == NUMBER_REAL {
          var bits := RbRead(8);
          return if bits.None? then None else Some(Real(bits.value));
        }
        var n := ReadInteger(cookie);
        return if n.None? then None else Some(Integer(n.value));
      case 3 =>
        var bits := RbRead(8);
        return if bits.None? then None else Some(Pointer(bits.value));
      case 4 => r := ReadText(cookie);
      case 5 =>
        if cookie != 2 && cookie != 4 {
          return None;
        }
        var n := RbRead(cookie);
        if n.None? {
          return None;
        }
        r := ReadText(Unsigned(n.value));
      case _ => return None;
    }

    /** The head of unpack_table */
    method ReadSize(cookie: nat) returns (r: Option<int64>)
      requires Valid() && cookie < 32
      modifies this
      ensures Valid() && Agrees(GetSize(cookie, old(Left())), r, Left()) && len <= old(len)
    {
      hide GetInteger;
      if cookie != MAX_COOKIE - 1 {
        return Some(cookie);
      }
      var t := RbRead(1);
      if t.None? || t.value[0] % 8 != TYPE_NUMBER || t.value[0] / 8 == NUMBER_REAL {
        return None;
      }
      r := ReadInteger(t.value[0] / 8);
      if r.Some? {
        r := Some(Int32(r.value));
      }
    }

    /** unpack_one */
    method UnpackOne() returns (r: Option<Value>)
      requires Valid()
      modifies this
      ensures Valid() && Agrees(Decode(old(Left())), r, Left()) && len <= old(len) && (r.Some? ==> len < old(len))
      decreases len, 1, 0
    {
      hide GetPlain, DecodeAll, DecodePairs, GetSize;
      var t := RbRead(1);
      if t.None? {
        return None;
      }
      assert old(Left())[..1][0] == old(Left())[0];
      if t.value[0] % 8 != TYPE_TABLE {
        r := ReadPlain(t.value[0] % 8, t.value[0] / 8);
      } else {
        r := UnpackTable(t.value[0] / 8);
      }
    }

    /** unpack_table */
    method UnpackTable(cookie: nat) returns (r: Option<Value>)
      requires Valid() && cookie < 32
      modifies this
      ensures Valid() && len <= old(len)
      ensures match GetSize(cookie, old(Left()))
              case None => r.None?
              case Some((n, b1)) =>
                (match DecodeAll(n, b1)
                 case None => r.None?
                 case Some((items, b2)) =>
                   (match DecodePairs(b2)
                    case None => r.None?
                    case Some((pairs, rest)) => r == Some(Table(items, pairs)) && Left() == rest))
      decreases len, 3, 0
    {
      hide GetSize, DecodeAll, DecodePairs;
      var n := ReadSize(cookie);
      if n.None? {
        return None;
      }
      var items := UnpackAll(n.value);
      if items.None? {
        return None;
      }
      var pairs := UnpackPairs();
      if pairs.None? {
        return None;
      }
      return Some(Table(items.value, pairs.value));
    }

    /** The elements of a table, one after the other. */
    method UnpackAll(n: int) returns (r: Option<seq<Value>>)
      requires Valid()
      modifies this
      ensures Valid() && Agrees(DecodeAll(n, old(Left())), r, Left()) && len <= old(len)
      decreases len, 2, n
    {
      hide Decode;
      if n <= 0 {
        return Some([]);
      }
      var v := UnpackOne();
      if v.None? {
        return None;
      }
      var vs := UnpackAll(n - 1);
      return if vs.None? then None else Some([v.value] + vs.value);
    }

    /** The other pairs, up to the nil. */
    method UnpackPairs() returns (r: Option<seq<Pair>>)
      requires Valid()
      modifies this
      ensures Valid() && Agrees(DecodePairs(old(Left())), r, Left()) && len <= old(len)
      decreases len, 2, 0
    {
      hide Decode;
      var k := UnpackOne();
      if k.None? {
        return None;
      }
      if k.value == Nil {
        return Some([]);
      }
      var v := UnpackOne();
      if v.None? {
        return None;
      }
      var ps := UnpackPairs();
      return if ps.None? then None else Some([Pair(k.value, v.value)] + ps.value);
    }
  }

  lemma FitsInt64(b: seq<byte>)
    requires |b| in {1, 2, 4, 8}
    ensures -0x8000_0000_0000_0000 <= Signed(b) < 0x8000_0000_0000_0000 && (|b| < 4 ==> Unsigned(b) < 0x1_0000)
  {
    Widths();
    UnsignedBound(b);
  }

  /** luaseri_unpack */
  method UnpackStream(b: seq<byte>) returns (r: Option<seq<Value>>)
    ensures r == Unpack(b)
  {
    hide Decode;
    var rb := new ReadBlock(b);
    var vs: seq<Value> := [];
    NothingUnpacked(b);
    while rb.len > 0
      invariant rb.Valid() && fresh(rb)
      invariant Unpack(b) == After(vs, Unpack(rb.Left()))
      decreases rb.len
    {
      ghost var was := rb.Left();
      var v := rb.UnpackOne();
      if v.None? {
        return None;
      }
      UnpackStep(was, vs, v.value, rb.Left());
      vs := vs + [v.value];
    }
    assert rb.Left() == [] && vs + [] == vs;
    return Some(vs);
  }

  function After(vs: seq<Value>, rest: Option<seq<Value>>): Option<seq<Value>> {
    if rest.None? then None else Some(vs + rest.value)
  }

  lemma NothingUnpacked(b: seq<byte>)
    ensures After([], Unpack(b)) == Unpack(b)
  {
    if Unpack(b).Some? { assert [] + Unpack(b).value == Unpack(b).value; }
  }

  lemma UnpackStep(b: seq<byte>, vs: seq<Value>, v: Value, rest: seq<byte>)
    requires b != [] && Decode(b) == Some((v, rest))
    ensures After(vs, Unpack(b)) == After(vs + [v], Unpack(rest))
  {
    hide Decode;
    if Unpack(rest).Some? { assert vs + ([v] + Unpack(rest).value) == (vs + [v]) + Unpack(rest).value; }
  }

  /** Packing and unpacking any list of values nested shallowly enough; a deeper one is refused. */
  method PackThenUnpack(vs: seq<Value>) returns (b: Option<seq<byte>>, back: Option<seq<Value>>)
    requires forall x :: x in vs ==> Packable(x)
    ensures back == if forall x :: x in vs ==> Fits(x, 0) then Some(vs) else None
  {
    hide Fits, EncodeAll, Unpack;
    b := Pack(vs);
    if b.None? {
      return b, None;
    }
    UnpackPack(vs);
    back := UnpackStream(b.value);
  }

  lemma SliceOn(before: seq<byte>, buf: seq<byte>, at: nat, n: nat)
    requires at + n <= |buf|
    ensures before + buf[..at] + buf[at..at + n] == before + buf[..at + n]
    ensures at + n == |buf| ==> before + buf[..at] + buf[at..] == before + buf
  {}

  lemma Chained(a: seq<byte>, b: seq<byte>, c: seq<byte>)
    ensures a + b + c == a + (b + c)
  {}

  lemma Parts(a: seq<byte>, h: seq<byte>, e: seq<byte>, p: seq<byte>, z: seq<byte>)
    ensures a + h + e + p + z == a + (h + (e + (p + z)))
  {}

  lemma FitsParts(v: Value, depth: nat)
    requires v.Table? && depth <= MAX_DEPTH
    ensures Fits(v, depth) <==>
            && (forall x :: x in v.items ==> Fits(x, depth + 1))
            && (forall i :: 0 <= i < |v.pairs| ==> PairFits(v.pairs[i], depth + 1))
  {}
}
