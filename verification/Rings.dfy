/** Ring buffers: what lies between a head and a tail that wrap around. */
module Rings {

  /** What a ring of some length holds between head and tail. */
  function Ring<T>(buf: seq<T>, head: int, tail: int): (s: seq<T>)
    requires 0 <= head <= |buf| && 0 <= tail <= |buf|
    ensures |s| == if head <= tail then tail - head else tail + |buf| - head
  {
    if head <= tail then buf[head..tail] else buf[head..] + buf[..tail]
  }

  /** Writing at the tail and advancing it appends to the ring, or fills it. */
  lemma RingPush<T>(buf: seq<T>, head: int, tail: int, x: T)
    requires 0 <= head < |buf| && 0 <= tail < |buf|
    ensures var buf' := buf[tail := x];
            var tail' := if tail + 1 >= |buf| then 0 else tail + 1;
            if head == tail' then buf'[head..] + buf'[..head] == Ring(buf, head, tail) + [x]
            else Ring(buf', head, tail') == Ring(buf, head, tail) + [x]
  {}

  lemma RingPop<T>(buf: seq<T>, head: int, tail: int)
    requires 0 <= head < |buf| && 0 <= tail < |buf|
    ensures head == tail <==> Ring(buf, head, tail) == []
    ensures head != tail ==>
              Ring(buf, head, tail) == [buf[head]] + Ring(buf, if head + 1 >= |buf| then 0 else head + 1, tail)
  {}

  lemma RingStraight<T>(buf: seq<T>, tail: int)
    requires 0 <= tail <= |buf|
    ensures Ring(buf, 0, tail) == buf[..tail]
  {}

  lemma ModOnce(x: nat, n: nat)
    requires x < 2 * n
    ensures x % n == if x < n then x else x - n
  {
    assert x == n * (if x < n then 0 else 1) + if x < n then x else x - n;
  }
}
