/**
  The two queues of skynet_mq.c as the code keeps them: the ring buffer of a service's
  mailbox, and the global run queue linked through the mailboxes themselves.
  Each method is one section under the spin lock of its queue.
 */
module Mailbox {

  import opened Rings

  const DEFAULT_QUEUE_SIZE := 64
  const MQ_OVERLOAD := 1024

  /** Doubled often enough to reach a length. */
  ghost predicate DoubledToReach(from: int, to: int, length: int) {
    exists k: nat :: Doubled(from, k) == to && length <= to && (k == 0 || Doubled(from, k - 1) < length)
  }

  function Doubled(x: int, k: nat): int {
    if k == 0 then x else 2 * Doubled(x, k - 1)
  }

  class MessageQueue<T(0)> {
    const handle: nat
    var cap: int
    var head: int
    var tail: int
    var release: bool
    var inGlobal: bool
    var overload: int
    var overloadThreshold: int
    var queue: array<T>
    var next: MessageQueue?<T>

    ghost predicate Valid()
      reads this
    {
      cap == queue.Length && 0 <= head < cap && 0 <= tail < cap && 0 < overloadThreshold
    }

    /** The messages waiting, oldest first. */
    ghost function Contents(): seq<T>
      requires Valid()
      reads this, queue
    {
      Ring(queue[..], head, tail)
    }

    /** skynet_mq_create: a queue that counts as global until its service has started. */
    constructor (handle: nat)
      ensures Valid() && Contents() == [] && this.handle == handle
      ensures inGlobal && !release && next == null && fresh(queue)
      ensures overload == 0 && overloadThreshold == MQ_OVERLOAD
    {
      this.handle := handle;
      cap, head, tail := DEFAULT_QUEUE_SIZE, 0, 0;
      release, inGlobal := false, true;
      overload, overloadThreshold := 0, MQ_OVERLOAD;
      queue := new T[DEFAULT_QUEUE_SIZE];
      next := null;
    }

    /** skynet_mq_length */
    method Length() returns (n: int)
      requires Valid()
      ensures n == |Contents()|
    {
      n := if head <= tail then tail - head else tail + cap - head;
    }

    /**
      skynet_mq_pop: the oldest message, if any. When the queue is empty it leaves the global
      state and the overload threshold is reset. When what remains is longer than the
      threshold, the length is recorded and the threshold doubled until it is reached.
     */
    method Pop() returns (found: bool, message: T)
      requires Valid()
      modifies this`head, this`overload, this`overloadThreshold, this`inGlobal
      ensures Valid()
      ensures found == (old(Contents()) != [])
      ensures found ==> [message] + Contents() == old(Contents()) && inGlobal == old(inGlobal)
      ensures found ==> DoubledToReach(old(overloadThreshold), overloadThreshold, |Contents()|)
      ensures found ==> overload == if |Contents()| > old(overloadThreshold) then |Contents()| else old(overload)
      ensures !found ==> Contents() == [] && !inGlobal && overloadThreshold == MQ_OVERLOAD && overload == old(overload)
    {
      hide Ring;
      RingPop(queue[..], head, tail);
      found := head != tail;
      if found {
        message := queue[head];
        head := head + 1;
        if head >= cap {
          head := 0;
        }
        var length := tail - head;
        if length < 0 {
          length := length + cap;
        }
        ghost var k: nat := 0;
        while length > overloadThreshold
          invariant overloadThreshold > 0 && Doubled(old(overloadThreshold), k) == overloadThreshold
          invariant k == 0 || (Doubled(old(overloadThreshold), k - 1) < length && overload == length)
          invariant if k == 0 then overload == old(overload) else length > old(overloadThreshold)
          modifies this`overload, this`overloadThreshold
          decreases length - overloadThreshold
        {
          DoubledGrows(old(overloadThreshold), k);
          overload := length;
          overloadThreshold := overloadThreshold * 2;
          k := k + 1;
        }
        if k > 0 { DoubledGrows(old(overloadThreshold), k - 1); }
      } else {
        message := *;
        overloadThreshold := MQ_OVERLOAD;
        inGlobal := false;
      }
    }

    /** expand_queue: a full ring, unrolled into one twice as large. */
    method ExpandQueue()
      requires cap == queue.Length && 0 <= head == tail < cap
      modifies this`queue, this`cap, this`head, this`tail
      ensures cap == queue.Length == 2 * old(cap) && head == 0 && tail == old(cap) && fresh(queue)
      ensures queue[..tail] == old(queue[head..] + queue[..head])
    {
      var newQueue := new T[cap * 2];
      var i := 0;
      while i < cap
        invariant cap == old(cap) && head == old(head) && queue == old(queue)
        invariant 0 <= i <= cap
        invariant forall k :: 0 <= k < i ==> newQueue[k] == queue[if head + k < cap then head + k else head + k - cap]
        modifies newQueue
      {
        ModOnce(head + i, cap);
        newQueue[i] := queue[(head + i) % cap];
        i := i + 1;
      }
      head := 0;
      tail := cap;
      cap := cap * 2;
      queue := newQueue;
    }

    /** skynet_mq_push: append, growing the ring when it gets full, and become global if it was not. */
    method Push(message: T, g: GlobalQueue<T>)
      requires Valid() && g.Valid()
      requires !inGlobal ==> this !in g.spine && next == null
      modifies this`queue, this`cap, this`head, this`tail, this`inGlobal, queue, g, g.spine`next
      ensures Valid() && Contents() == old(Contents()) + [message]
      ensures queue == old(queue) || fresh(queue)
      ensures inGlobal && g.Valid()
      ensures g.spine == if old(inGlobal) then old(g.spine) else old(g.spine) + [this]
    {
      hide Ring;
      Store(message);
      if !inGlobal {
        inGlobal := true;
        g.Push(this);
      }
    }

    /** The ring part of a push. */
    method Store(message: T)
      requires Valid()
      modifies this`queue, this`cap, this`head, this`tail, queue
      ensures Valid() && Contents() == old(Contents()) + [message]
      ensures queue == old(queue) || fresh(queue)
    {
      hide Ring;
      RingPush(queue[..], head, tail, message);
      queue[tail] := message;
      assert queue[..] == old(queue[..])[tail := message];
      tail := tail + 1;
      if tail >= cap {
        tail := 0;
      }
      if head == tail {
        assert queue[head..] + queue[..head] == queue[..][head..] + queue[..][..head];
        ExpandQueue();
        assert queue[..][..tail] == queue[..tail];
        RingStraight(queue[..], tail);
      }
    }

    /** skynet_mq_mark_release: called once, when the context is deleted. */
    method MarkRelease(g: GlobalQueue<T>)
      requires !release && g.Valid()
      requires !inGlobal ==> this !in g.spine && next == null
      modifies this`release, g, g.spine`next
      ensures release && g.Valid()
      ensures g.spine == if inGlobal then old(g.spine) else old(g.spine) + [this]
    {
      release := true;
      if !inGlobal {
        g.Push(this);
      }
    }

    /** skynet_mq_release: drain a released queue, handing on every message in order; else push it back. */
    method Release(g: GlobalQueue<T>) returns (drained: bool, dropped: seq<T>)
      requires Valid() && g.Valid() && this !in g.spine && next == null
      modifies this`head, this`overload, this`overloadThreshold, this`inGlobal, g, g.spine`next
      ensures Valid() && g.Valid() && drained == release
      ensures drained ==> dropped == old(Contents()) && Contents() == [] && !inGlobal && g.spine == old(g.spine)
      ensures !drained ==> dropped == [] && Contents() == old(Contents()) && g.spine == old(g.spine) + [this]
    {
      hide Ring, DoubledToReach;
      dropped := [];
      drained := release;
      if drained {
        var found, message := Pop();
        while found
          invariant Valid() && (found ==> dropped + [message] + Contents() == old(Contents()))
          invariant !found ==> Contents() == [] && dropped == old(Contents()) && !inGlobal
          invariant g.Valid() && g.spine == old(g.spine)
          decreases |Contents()|, found
        {
          dropped := dropped + [message];
          ghost var left := Contents();
          found, message := Pop();
          assert !found ==> dropped + left == dropped;
        }
      } else {
        g.Push(this);
      }
    }
  }

  lemma {:induction false} DoubledGrows(x: int, k: nat)
    requires x > 0
    ensures 0 < Doubled(x, k) < Doubled(x, k + 1)
  {
    if k > 0 { DoubledGrows(x, k - 1); }
  }

  /** The global run queue, linked through the `next` fields of the mailboxes. */
  class GlobalQueue<T(0)> {
    var head: MessageQueue?<T>
    var tail: MessageQueue?<T>

    ghost var spine: seq<MessageQueue<T>>

    ghost predicate Valid()
      reads this, spine`next
    {
      && (forall i, j :: 0 <= i < j < |spine| ==> spine[i] != spine[j])
      && (forall i :: 0 <= i < |spine| - 1 ==> spine[i].next == spine[i + 1])
      && (if spine == [] then head == null && tail == null
          else head == spine[0] && tail == spine[|spine| - 1] && spine[|spine| - 1].next == null)
    }

    constructor ()
      ensures Valid() && spine == []
    {
      head, tail := null, null;
      spine := [];
    }

    /** skynet_globalmq_push */
    method Push(q: MessageQueue<T>)
      requires Valid() && q !in spine && q.next == null
      modifies this, spine`next
      ensures Valid() && spine == old(spine) + [q]
    {
      if tail != null {
        tail.next := q;
        tail := q;
      } else {
        head, tail := q, q;
      }
      spine := spine + [q];
    }

    /** skynet_globalmq_pop */
    method Pop() returns (q: MessageQueue?<T>)
      requires Valid()
      modifies this, spine`next
      ensures Valid()
      ensures if old(spine) == [] then q == null && spine == []
              else q != null && [q] + spine == old(spine) && q.next == null
    {
      q := head;
      if q != null {
        assert |spine| > 1 ==> spine[0].next == spine[1];
        head := q.next;
        if head == null {
          tail := null;
        }
        q.next := null;
        spine := spine[1..];
      }
    }
  }
}
