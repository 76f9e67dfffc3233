/**
  Length-prefixed packages cut out of TCP streams, as in lua-netpack.c: two bytes of size,
  high byte first, then the data. Chunks of any number of streams arrive interleaved; what a
  stream has not completed yet is kept in a hash table under its file descriptor.
 */
module Netpack {

  import opened Basics
  import opened Rings

  type Fd = n: int | 0 <= n < 0x8000_0000

  const QUEUESIZE := 1024
  const HASHSIZE := 4096

  datatype Result<T> = Ok(value: T) | TooLong(size: nat)

  // ---------------------------------------------------------------------------
  // The one-shot parse of a stream

  /** read_size */
  function Size(b: seq<byte>): int
    requires |b| >= 2
  {
    var high: int := b[0];
    high * 256 + b[1]
  }

  predicate Complete(b: seq<byte>) {
    |b| >= 2 && |b| - 2 >= Size(b)
  }

  /** The packages a stream begins with. */
  function Packages(b: seq<byte>): seq<seq<byte>>
    decreases |b|
  {
    if Complete(b) then [b[2..2 + Size(b)]] + Packages(b[2 + Size(b)..]) else []
  }

  /** What comes after them. */
  function Rest(b: seq<byte>): seq<byte>
    decreases |b|
  {
    if Complete(b) then Rest(b[2 + Size(b)..]) else b
  }

  /** Parsing goes on with the tail and the next chunk as with the whole stream. */
  lemma {:induction false} ParseGoesOn(a: seq<byte>, b: seq<byte>)
    ensures Packages(a + b) == Packages(a) + Packages(Rest(a) + b)
    ensures Rest(a + b) == Rest(Rest(a) + b)
    decreases |a|
  {
    hide Complete, Size, Packages, Rest;
    FirstPackage(a);
    if Complete(a) {
      var n := CompleteToo(a, b);
      FirstPackage(a + b);
      ParseGoesOn(a[n..], b);
    }
  }

  lemma FirstPackage(b: seq<byte>)
    ensures if !Complete(b) then Packages(b) == [] && Rest(b) == b
            else 2 <= 2 + Size(b) <= |b|
                 && Packages(b) == [b[2..2 + Size(b)]] + Packages(b[2 + Size(b)..]) && Rest(b) == Rest(b[2 + Size(b)..])
  {}

  lemma CompleteToo(a: seq<byte>, b: seq<byte>) returns (n: nat)
    requires Complete(a)
    ensures n == 2 + Size(a) <= |a| && Complete(a + b) && Size(a + b) == Size(a)
    ensures (a + b)[2..n] == a[2..n] && (a + b)[n..] == a[n..] + b
  {
    n := 2 + Size(a);
    assert (a + b)[..n] == a[..n];
  }

  lemma {:induction false} RestIsIncomplete(b: seq<byte>)
    ensures !Complete(Rest(b))
    decreases |b|
  {
    if Complete(b) { RestIsIncomplete(b[2 + Size(b)..]); }
  }

  /** lpack */
  function Pack(data: seq<byte>): Result<seq<byte>> {
    if |data| >= 0x1_0000 then TooLong(|data|) else Ok([|data| / 256, |data| % 256] + data)
  }

  function PackAll(msgs: seq<seq<byte>>): seq<byte>
    requires forall m :: m in msgs ==> |m| < 0x1_0000
  {
    if msgs == [] then [] else Pack(msgs[0]).value + PackAll(msgs[1..])
  }

  /** Parsing packed messages laid end to end gives the messages back. */
  lemma {:induction false} ParsePacked(msgs: seq<seq<byte>>)
    requires forall m :: m in msgs ==> |m| < 0x1_0000
    ensures Packages(PackAll(msgs)) == msgs && Rest(PackAll(msgs)) == []
  {
    if msgs != [] {
      var m, all := msgs[0], PackAll(msgs);
      assert all == [|m| / 256, |m| % 256] + m + PackAll(msgs[1..]);
      assert all[0] == |m| / 256 && all[1] == |m| % 256 && Size(all) == |m|;
      assert all[2..2 + |m|] == m && all[2 + |m|..] == PackAll(msgs[1..]);
      ParsePacked(msgs[1..]);
    }
  }

  // ---------------------------------------------------------------------------
  // Streams

  datatype Event = Chunk(fd: Fd, data: seq<byte>) | Closed(fd: Fd)

  /** What one chunk completes, after what was left of the stream. */
  function Emits(tail: seq<byte>, chunk: seq<byte>): seq<seq<byte>> {
    Packages(tail + chunk)
  }

  function Leaves(tail: seq<byte>, chunk: seq<byte>): seq<byte> {
    Rest(tail + chunk)
  }

  /** The bytes of a stream so far; a close begins a new one. */
  function Stream(events: seq<Event>, fd: Fd): seq<byte> {
    if events == [] then []
    else
      var last, before := events[|events| - 1], Stream(events[..|events| - 1], fd);
      if last.fd != fd then before else if last.Closed? then [] else before + last.data
  }

  /** What is left of it and what it has emitted, chunk by chunk. */
  function Tail(events: seq<Event>, fd: Fd): seq<byte> {
    if events == [] then []
    else
      var last, before := events[|events| - 1], Tail(events[..|events| - 1], fd);
      if last.fd != fd then before else if last.Closed? then [] else Leaves(before, last.data)
  }

  function Emitted(events: seq<Event>, fd: Fd): seq<seq<byte>> {
    if events == [] then []
    else
      var init := events[..|events| - 1];
      var last, before := events[|events| - 1], Emitted(init, fd);
      if last.fd != fd then before else if last.Closed? then [] else before + Emits(Tail(init, fd), last.data)
  }

  /** However the streams are cut and interleaved, each emits the packages of its own bytes. */
  lemma {:induction false} Reassembles(events: seq<Event>, fd: Fd)
    ensures Emitted(events, fd) == Packages(Stream(events, fd))
    ensures Tail(events, fd) == Rest(Stream(events, fd))
  {
    if events != [] {
      var init, last := events[..|events| - 1], events[|events| - 1];
      Reassembles(init, fd);
      if last.fd == fd && last.Chunk? { ParseGoesOn(Stream(init, fd), last.data); }
    }
  }

  // ---------------------------------------------------------------------------
  // struct uncomplete and the hash chains

  /** `read` is -1 while only the first byte of the size, `header`, has come; then it counts the bytes in the buffer. */
  datatype Uncomplete = Uncomplete(id: Fd, read: int, header: int, size: int, buffer: seq<byte>)
  {
    predicate Ok() {
      if read < 0 then read == -1 && 0 <= header < 256
      else |buffer| == read < size < 0x1_0000
    }

    /** The bytes of the stream it stands for. */
    function Bytes(): seq<byte>
      requires Ok()
    {
      if read < 0 then [header] else [size / 256, size % 256] + buffer
    }
  }

  function Hash(fd: Fd): (h: nat)
    ensures h < HASHSIZE
  {
    (fd / 0x100_0000 + fd / 0x1000 + fd) % 0x1_0000_0000 % HASHSIZE
  }

  /** Where a chain holds the record of a descriptor, or its length. */
  function Place(chain: seq<Uncomplete>, fd: Fd): (i: nat)
    ensures i <= |chain|
    ensures i < |chain| ==> chain[i].id == fd
    ensures forall j :: 0 <= j < i ==> chain[j].id != fd
  {
    if chain == [] || chain[0].id == fd then 0 else 1 + Place(chain[1..], fd)
  }

  predicate AllOk(chain: seq<Uncomplete>) {
    forall u :: u in chain ==> u.Ok()
  }

  ghost predicate ChainOk(chain: seq<Uncomplete>, h: nat) {
    && AllOk(chain)
    && (forall i :: 0 <= i < |chain| ==> Hash(chain[i].id) == h)
    && (forall i, j :: 0 <= i < j < |chain| ==> chain[i].id != chain[j].id)
  }

  function TailIn(chain: seq<Uncomplete>, fd: Fd): seq<byte>
    requires AllOk(chain)
  {
    var i := Place(chain, fd);
    if i < |chain| then chain[i].Bytes() else []
  }

  lemma UnlinkedOk(chain: seq<Uncomplete>, i: nat, h: nat)
    requires ChainOk(chain, h) && i < |chain|
    ensures ChainOk(chain[..i] + chain[i + 1..], h)
  {
    hide Hash, Uncomplete.Ok;
    var less := chain[..i] + chain[i + 1..];
    assert forall j :: 0 <= j < |less| ==> less[j] == chain[if j < i then j else j + 1];
  }

  lemma Unlinked(chain: seq<Uncomplete>, i: nat, h: nat, fd: Fd)
    requires ChainOk(chain, h) && i < |chain|
    ensures ChainOk(chain[..i] + chain[i + 1..], h)
    ensures TailIn(chain[..i] + chain[i + 1..], fd) == if fd == chain[i].id then [] else TailIn(chain, fd)
  {
    hide Hash, Uncomplete.Ok, Uncomplete.Bytes;
    UnlinkedOk(chain, i, h);
    var less := chain[..i] + chain[i + 1..];
    var p, q := Place(chain, fd), Place(less, fd);
    if q < |less| {
      assert less[q] == chain[if q < i then q else q + 1];
    }
    if p < |chain| && p != i {
      assert less[if p < i then p else p - 1] == chain[p];
    }
  }

  lemma Linked(chain: seq<Uncomplete>, u: Uncomplete, h: nat, fd: Fd)
    requires ChainOk(chain, h) && u.Ok() && Hash(u.id) == h && TailIn(chain, u.id) == []
    ensures ChainOk([u] + chain, h)
    ensures TailIn([u] + chain, fd) == if fd == u.id then u.Bytes() else TailIn(chain, fd)
  {
    assert Place(chain, u.id) == |chain|;
    LinkedOk(chain, u, h);
    hide Hash, Uncomplete.Ok, Uncomplete.Bytes, ChainOk;
    var more := [u] + chain;
    assert more[1..] == chain && more[0] == u;
  }

  lemma LinkedOk(chain: seq<Uncomplete>, u: Uncomplete, h: nat)
    requires ChainOk(chain, h) && u.Ok() && Hash(u.id) == h && Place(chain, u.id) == |chain|
    ensures ChainOk([u] + chain, h)
  {
    hide Hash, Uncomplete.Ok;
    var more := [u] + chain;
    forall i, j | 0 <= i < j < |more| ensures more[i].id != more[j].id {
      assert more[j] == chain[j - 1];
      if i > 0 { assert more[i] == chain[i - 1]; }
    }
    forall i | 0 <= i < |more| ensures Hash(more[i].id) == h {
      if i > 0 { assert more[i] == chain[i - 1]; }
    }
  }

  // ---------------------------------------------------------------------------
  // struct queue

  /** struct netpack */
  datatype Parcel = Parcel(id: Fd, data: seq<byte>)

  /** What filter hands to Lua: nothing, one package (TYPE_DATA), or a queue to pop from (TYPE_MORE). */
  datatype Reply = Nothing | Data(fd: Fd, data: seq<byte>) | More

  /** The packages a chunk completes: a single one at the end of the chunk is handed over, others are queued. */
  ghost predicate Answers(reply: Reply, fd: Fd, emitted: seq<seq<byte>>, before: seq<Parcel>, after: seq<Parcel>) {
    match reply
    case Nothing => emitted == [] && after == before
    case Data(f, d) => f == fd && emitted == [d] && after == before
    case More => emitted != [] && after == before + Tagged(fd, emitted)
  }

  function Tagged(fd: Fd, packages: seq<seq<byte>>): seq<Parcel> {
    if packages == [] then [] else [Parcel(fd, packages[0])] + Tagged(fd, packages[1..])
  }

  class Queue {
    var cap: nat
    var head: nat
    var tail: nat
    var queue: array<Parcel>
    var hash: array<seq<Uncomplete>>

    ghost predicate RingOk()
      reads this
    {
      cap == queue.Length >= QUEUESIZE && head < cap && tail < cap
    }

    ghost predicate ChainsOk()
      reads this, hash
    {
      hash.Length == HASHSIZE && forall h :: 0 <= h < HASHSIZE ==> ChainOk(hash[h], h)
    }

    ghost predicate Valid()
      reads this, hash
    {
      RingOk() && ChainsOk()
    }

    /** The packages waiting, in the order they are popped. */
    ghost function Contents(): seq<Parcel>
      requires RingOk()
      reads this, queue
    {
      Ring(queue[..], head, tail)
    }

    /** What is left of the stream of a descriptor. */
    ghost function TailOf(fd: Fd): seq<byte>
      requires ChainsOk()
      reads this, hash
    {
      TailIn(hash[Hash(fd)], fd)
    }

    /** get_queue */
    constructor ()
      ensures Valid() && Contents() == [] && fresh(queue) && fresh(hash)
      ensures forall fd :: TailOf(fd) == []
    {
      cap, head, tail := QUEUESIZE, 0, 0;
      queue := new Parcel[QUEUESIZE](_ => Parcel(0, []));
      hash := new seq<Uncomplete>[HASHSIZE](_ => []);
    }

    /** find_uncomplete: unlink the record of a descriptor. */
    method FindUncomplete(fd: Fd) returns (uc: Option<Uncomplete>)
      requires ChainsOk()
      modifies hash
      ensures ChainsOk()
      ensures uc.None? ==> old(TailOf(fd)) == []
      ensures uc.Some? ==> uc.value.id == fd && uc.value.Ok() && uc.value.Bytes() == old(TailOf(fd))
      ensures TailsSet(fd, [])
    {
      hide Hash, ChainOk, TailIn, AllOk;
      var h := Hash(fd);
      ghost var chain := hash[h];
      assert ChainOk(chain, h);
      ChainAllOk();
      var i := 0;
      while i < |hash[h]| && hash[h][i].id != fd
        invariant 0 <= i <= |chain| && hash[h] == chain
        invariant forall j :: 0 <= j < i ==> chain[j].id != fd
      {
        i := i + 1;
      }
      Found(chain, h, fd, i);
      if i == |hash[h]| {
        return None;
      }
      uc := Some(hash[h][i]);
      UnlinkedAll(chain, i, h);
      hash[h] := hash[h][..i] + hash[h][i + 1..];
    }

    /** save_uncomplete, filled in: link a record at the head of its chain. */
    method Save(u: Uncomplete)
      requires ChainsOk() && u.Ok() && TailOf(u.id) == []
      modifies hash
      ensures ChainsOk() && TailsSet(u.id, u.Bytes())
    {
      hide Hash, ChainOk, TailIn, AllOk, Uncomplete.Ok, Uncomplete.Bytes;
      var h := Hash(u.id);
      ghost var chain := hash[h];
      assert ChainOk(chain, h);
      ChainAllOk();
      LinkedAll(chain, u, h);
      hash[h] := [u] + hash[h];
    }

    /** expand_queue: a full ring, unrolled into one with more room. */
    method ExpandQueue()
      requires cap == queue.Length && 0 <= head == tail < cap
      modifies this`queue, this`cap, this`head, this`tail
      ensures cap == queue.Length == old(cap) + QUEUESIZE && head == 0 && tail == old(cap) && fresh(queue)
      ensures queue[..tail] == old(queue[head..] + queue[..head])
    {
      var wider := new Parcel[cap + QUEUESIZE](_ => Parcel(0, []));
      var i := 0;
      while i < cap
        invariant cap == old(cap) && head == old(head) && queue == old(queue)
        invariant 0 <= i <= cap
        invariant forall k :: 0 <= k < i ==> wider[k] == queue[if head + k < cap then head + k else head + k - cap]
        modifies wider
      {
        ModOnce(head + i, cap);
        wider[i] := queue[(head + i) % cap];
        i := i + 1;
      }
      head, tail := 0, cap;
      cap := cap + QUEUESIZE;
      queue := wider;
    }

    /** push_data: append a package to the queue, growing it when it gets full. */
    method PushData(fd: Fd, data: seq<byte>)
      requires RingOk()
      modifies this`queue, this`cap, this`head, this`tail, queue
      ensures RingOk() && Contents() == old(Contents()) + [Parcel(fd, data)]
      ensures queue == old(queue) || fresh(queue)
    {
      hide Ring;
      RingPush(queue[..], head, tail, Parcel(fd, data));
      queue[tail] := Parcel(fd, data);
      assert queue[..] == old(queue[..])[tail := Parcel(fd, data)];
      tail := tail + 1;
      if tail >= cap {
        tail := tail - cap;
      }
      if head == tail {
        assert queue[head..] + queue[..head] == queue[..][head..] + queue[..][..head];
        ExpandQueue();
        assert queue[..][..tail] == queue[..tail];
        RingStraight(queue[..], tail);
      }
    }

    /** lpop: the oldest package, if any. */
    method Pop() returns (p: Option<Parcel>)
      requires RingOk()
      modifies this`head
      ensures RingOk()
      ensures p == if old(Contents()) == [] then None else Some(old(Contents())[0])
      ensures Contents() == if old(Contents()) == [] then [] else old(Contents())[1..]
    {
      hide Ring;
      RingPop(queue[..], head, tail);
      if head == tail {
        return None;
      }
      p := Some(queue[head]);
      head := head + 1;
      if head >= cap {
        head := 0;
      }
      assert [p.value] + Contents() == old(Contents());
      assert old(Contents())[1..] == Contents();
    }

    /** push_more: queue every package that is complete and keep the rest of the stream. */
    method PushMore(fd: Fd, buffer: seq<byte>)
      requires Valid() && TailOf(fd) == [] && buffer != []
      modifies this`queue, this`cap, this`head, this`tail, queue, hash
      ensures Valid() && hash == old(hash) && (queue == old(queue) || fresh(queue))
      ensures Contents() == old(Contents()) + Tagged(fd, Packages(buffer))
      ensures TailsSet(fd, Rest(buffer))
      decreases |buffer|
    {
      hide Ring, Hash, ChainOk, TailIn;
      if |buffer| == 1 {
        Save(Uncomplete(fd, -1, buffer[0], 0, []));
        assert [buffer[0]] == buffer;
        NothingTagged(old(Contents()), fd, buffer);
        return;
      }
      var packSize := Size(buffer);
      var data := buffer[2..];
      if |data| < packSize {
        Save(Uncomplete(fd, |data|, 0, packSize, data));
        SizeBytes(buffer);
        NothingTagged(old(Contents()), fd, buffer);
        return;
      }
      PushData(fd, data[..packSize]);
      ghost var was := Contents();
      var rest := data[packSize..];
      OnePackage(old(Contents()), fd, buffer);
      if |rest| > 0 {
        PushMore(fd, rest);
      }
    }

    /** close_uncomplete */
    method CloseUncomplete(fd: Fd)
      requires ChainsOk()
      modifies hash
      ensures ChainsOk() && TailsSet(fd, [])
    {
      var uc := FindUncomplete(fd);
    }

    /** A complete package and more data behind it: both go to the queue. */
    method QueueBoth(fd: Fd, data: seq<byte>, rest: seq<byte>, ghost all: seq<byte>)
      requires Valid() && TailOf(fd) == [] && rest != [] && Begins(all, data, rest)
      modifies this`queue, this`cap, this`head, this`tail, queue, hash
      ensures Valid() && (queue == old(queue) || fresh(queue))
      ensures TailsSet(fd, Rest(all)) && Answers(More, fd, Packages(all), old(Contents()), Contents())
    {
      hide Ring, Hash, ChainOk, TailIn, Begins;
      ghost var s := Contents();
      OneMore(s, fd, all, data, rest);
      hide Packages, Rest, Tagged;
      PushData(fd, data);
      PushMore(fd, rest);
    }

    /** filter_data_: more of a package whose size is known. */
    method FillSized(u: Uncomplete, chunk: seq<byte>, ghost all: seq<byte>) returns (reply: Reply)
      requires Valid() && TailOf(u.id) == [] && 0 <= u.size < 0x1_0000 && |u.buffer| == u.read <= u.size
      requires all == [u.size / 256, u.size % 256] + u.buffer + chunk
      modifies this`queue, this`cap, this`head, this`tail, queue, hash
      ensures Valid() && (queue == old(queue) || fresh(queue))
      ensures TailsSet(u.id, Rest(all)) && Answers(reply, u.id, Packages(all), old(Contents()), Contents())
    {
      hide Ring, Hash, ChainOk, TailIn, Packages, Rest, Begins, Complete, Size, Tagged;
      Filling(all, u.size, u.buffer, chunk);
      var need := u.size - u.read;
      if |chunk| < need {
        NotYet(all);
        Save(u.(read := u.read + |chunk|, buffer := u.buffer + chunk));
        assert [u.size / 256, u.size % 256] + (u.buffer + chunk) == all;
        return Nothing;
      }
      var data := u.buffer + chunk[..need];
      var rest := chunk[need..];
      if |rest| == 0 {
        JustOne(all, data);
        return Data(u.id, data);
      }
      QueueBoth(u.id, data, rest, all);
      return More;
    }

    /** filter_data_: a chunk for a descriptor with a record, which has been unlinked. */
    method Fill(u: Uncomplete, chunk: seq<byte>) returns (reply: Reply)
      requires Valid() && chunk != [] && u.Ok() && TailOf(u.id) == []
      modifies this`queue, this`cap, this`head, this`tail, queue, hash
      ensures Valid() && (queue == old(queue) || fresh(queue))
      ensures TailsSet(u.id, Leaves(u.Bytes(), chunk))
      ensures Answers(reply, u.id, Emits(u.Bytes(), chunk), old(Contents()), Contents())
    {
      hide Ring, Hash, ChainOk, TailIn, Packages, Rest, Answers;
      if u.read < 0 {
        var packSize := u.header * 256 + chunk[0];
        HeaderCompleted(u, chunk);
        reply := FillSized(u.(size := packSize, read := 0, buffer := []), chunk[1..], u.Bytes() + chunk);
      } else {
        reply := FillSized(u, chunk, u.Bytes() + chunk);
      }
    }

    /** filter_data_: a chunk for a descriptor without a record. */
    method Begin(fd: Fd, chunk: seq<byte>) returns (reply: Reply)
      requires Valid() && chunk != [] && TailOf(fd) == []
      modifies this`queue, this`cap, this`head, this`tail, queue, hash
      ensures Valid() && (queue == old(queue) || fresh(queue))
      ensures TailsSet(fd, Leaves([], chunk))
      ensures Answers(reply, fd, Emits([], chunk), old(Contents()), Contents())
    {
      hide Ring, Hash, ChainOk, TailIn, Packages, Rest;
      assert [] + chunk == chunk;
      if |chunk| == 1 {
        NotYet(chunk);
        Save(Uncomplete(fd, -1, chunk[0], 0, []));
        assert [chunk[0]] == chunk;
        return Nothing;
      }
      SizeBytes(chunk);
      var packSize := Size(chunk);
      var buffer := chunk[2..];
      if |buffer| < packSize {
        NotYet(chunk);
        Save(Uncomplete(fd, |buffer|, 0, packSize, buffer));
        return Nothing;
      }
      if |buffer| == packSize {
        JustOne(chunk, buffer);
        return Data(fd, buffer);
      }
      QueueBoth(fd, buffer[..packSize], buffer[packSize..], chunk);
      return More;
    }

    /** filter_data: take a chunk of a stream. */
    method FilterData(fd: Fd, chunk: seq<byte>) returns (reply: Reply)
      requires Valid() && chunk != []
      modifies this`queue, this`cap, this`head, this`tail, queue, hash
      ensures Valid() && (queue == old(queue) || fresh(queue))
      ensures TailsSet(fd, Leaves(old(TailOf(fd)), chunk))
      ensures Answers(reply, fd, Emits(old(TailOf(fd)), chunk), old(Contents()), Contents())
    {
      hide Ring, Hash, ChainOk, TailIn, Answers, Emits, Leaves;
      var found := FindUncomplete(fd);
      if found.Some? {
        reply := Fill(found.value, chunk);
      } else {
        reply := Begin(fd, chunk);
      }
    }

    /** The chains hold what they held, but for one descriptor. */
    twostate predicate TailsSet(fd: Fd, tail: seq<byte>)
      requires old(ChainsOk()) && ChainsOk()
      reads this, hash
    {
      forall f: Fd :: TailOf(f) == if f == fd then tail else old(TailOf(f))
    }

    lemma ChainAllOk()
      requires ChainsOk()
      ensures forall h :: 0 <= h < HASHSIZE ==> AllOk(hash[h])
    {}
  }

  lemma Found(chain: seq<Uncomplete>, h: nat, fd: Fd, i: nat)
    requires ChainOk(chain, h) && i <= |chain|
    requires (forall j :: 0 <= j < i ==> chain[j].id != fd) && (i < |chain| ==> chain[i].id == fd)
    ensures TailIn(chain, fd) == if i < |chain| then chain[i].Bytes() else []
    ensures i < |chain| ==> chain[i].Ok()
  {
    assert Place(chain, fd) == i;
  }

  lemma UnlinkedAll(chain: seq<Uncomplete>, i: nat, h: nat)
    requires ChainOk(chain, h) && i < |chain|
    ensures ChainOk(chain[..i] + chain[i + 1..], h)
    ensures forall f: Fd :: TailIn(chain[..i] + chain[i + 1..], f) == if f == chain[i].id then [] else TailIn(chain, f)
  {
    Unlinked(chain, i, h, chain[i].id);
    forall f: Fd ensures TailIn(chain[..i] + chain[i + 1..], f) == if f == chain[i].id then [] else TailIn(chain, f) {
      Unlinked(chain, i, h, f);
    }
  }

  lemma LinkedAll(chain: seq<Uncomplete>, u: Uncomplete, h: nat)
    requires ChainOk(chain, h) && u.Ok() && Hash(u.id) == h && TailIn(chain, u.id) == []
    ensures ChainOk([u] + chain, h)
    ensures forall f: Fd :: TailIn([u] + chain, f) == if f == u.id then u.Bytes() else TailIn(chain, f)
  {
    Linked(chain, u, h, u.id);
    forall f: Fd ensures TailIn([u] + chain, f) == if f == u.id then u.Bytes() else TailIn(chain, f) {
      Linked(chain, u, h, f);
    }
  }

  lemma SizeBytes(b: seq<byte>)
    requires |b| >= 2
    ensures 0 <= Size(b) < 0x1_0000 && [Size(b) / 256, Size(b) % 256] + b[2..] == b
  {
    assert Size(b) / 256 == b[0] && Size(b) % 256 == b[1];
  }

  lemma NothingTagged(s: seq<Parcel>, fd: Fd, b: seq<byte>)
    requires !Complete(b)
    ensures s + Tagged(fd, Packages(b)) == s && Rest(b) == b
  {}

  lemma OnePackage(s: seq<Parcel>, fd: Fd, b: seq<byte>)
    requires Complete(b)
    ensures var n := 2 + Size(b);
            && b[2..][..Size(b)] == b[2..n] && b[2..][Size(b)..] == b[n..] && Rest(b) == Rest(b[n..])
            && s + Tagged(fd, Packages(b)) == s + [Parcel(fd, b[2..n])] + Tagged(fd, Packages(b[n..]))
            && (b[n..] == [] ==> Tagged(fd, Packages(b[n..])) == [] && Rest(b) == [])
  {
    var n := 2 + Size(b);
    assert Packages(b)[1..] == Packages(b[n..]);
    var first, others := [Parcel(fd, b[2..n])], Tagged(fd, Packages(b[n..]));
    assert s + (first + others) == s + first + others;
  }

  /** The second byte of the size arrives. */
  lemma HeaderCompleted(u: Uncomplete, chunk: seq<byte>)
    requires u.Ok() && u.read < 0 && chunk != []
    ensures var n := u.header * 256 + chunk[0];
            0 <= n < 0x1_0000 && u.Bytes() + chunk == [n / 256, n % 256] + [] + chunk[1..]
  {
    var n := u.header * 256 + chunk[0];
    assert n / 256 == u.header && n % 256 == chunk[0];
    assert chunk == [chunk[0]] + chunk[1..];
  }

  /** A stream whose package of n bytes has been filled up to `got`. */
  lemma Filling(all: seq<byte>, n: int, got: seq<byte>, more: seq<byte>)
    requires 0 <= n < 0x1_0000 && |got| <= n && all == [n / 256, n % 256] + got + more
    ensures |all| >= 2 && Size(all) == n && (Complete(all) <==> |more| >= n - |got|)
    ensures Complete(all) ==> Begins(all, got + more[..n - |got|], more[n - |got|..])
  {
    assert all[0] == n / 256 && all[1] == n % 256;
    assert all[2..] == got + more;
  }

  ghost predicate Begins(all: seq<byte>, data: seq<byte>, rest: seq<byte>) {
    Complete(all) && all[2..2 + Size(all)] == data && all[2 + Size(all)..] == rest
  }

  lemma NotYet(all: seq<byte>)
    requires !Complete(all)
    ensures Packages(all) == [] && Rest(all) == all
  {}

  lemma JustOne(all: seq<byte>, data: seq<byte>)
    requires Begins(all, data, []) || (Complete(all) && all[2..] == data && |data| == Size(all))
    ensures Packages(all) == [data] && Rest(all) == []
  {
    assert |all| == 2 + Size(all);
    assert all[2 + Size(all)..] == [] && all[2..2 + Size(all)] == all[2..];
  }

  lemma OneMore(s: seq<Parcel>, fd: Fd, all: seq<byte>, data: seq<byte>, rest: seq<byte>)
    requires Begins(all, data, rest)
    ensures Rest(all) == Rest(rest) && Packages(all) != []
    ensures s + Tagged(fd, Packages(all)) == s + [Parcel(fd, data)] + Tagged(fd, Packages(rest))
  {
    OnePackage(s, fd, all);
  }

  // ---------------------------------------------------------------------------
  // A whole run

  function Got(out: map<Fd, seq<seq<byte>>>, fd: Fd): seq<seq<byte>> {
    if fd in out then out[fd] else []
  }

  lemma TaggedFrom(fd: Fd, packages: seq<seq<byte>>, n: nat)
    requires n <= |packages|
    ensures n == |packages| ==> Tagged(fd, packages[n..]) == []
    ensures n < |packages| ==>
              var tagged := Tagged(fd, packages[n..]);
              tagged != [] && tagged[0] == Parcel(fd, packages[n]) && tagged[1..] == Tagged(fd, packages[n + 1..])
  {
    if n < |packages| { assert packages[n..][1..] == packages[n + 1..]; }
  }

  /** Pop the packages of one descriptor until the queue is empty. */
  method Drain(q: Queue, ghost fd: Fd, ghost packages: seq<seq<byte>>) returns (popped: seq<seq<byte>>)
    requires q.RingOk() && q.Contents() == Tagged(fd, packages)
    modifies q`head
    ensures q.RingOk() && q.Contents() == [] && popped == packages
  {
    hide Ring, Tagged;
    popped := [];
    ghost var n := 0;
    assert packages[0..] == packages;
    TaggedFrom(fd, packages, 0);
    var p := q.Pop();
    while p.Some?
      invariant q.RingOk() && n <= |packages| && popped == packages[..n]
      invariant if p.None? then n == |packages| && q.Contents() == []
                else n < |packages| && p.value == Parcel(fd, packages[n]) && q.Contents() == Tagged(fd, packages[n + 1..])
      decreases |packages| - n
    {
      popped := popped + [p.value.data];
      n := n + 1;
      TaggedFrom(fd, packages, n);
      p := q.Pop();
    }
  }

  lemma StepTaken(events: seq<Event>, i: nat, fd: Fd)
    requires i < |events|
    ensures var e, init := events[i], events[..i];
            && Emitted(events[..i + 1], fd) == (if e.fd != fd then Emitted(init, fd) else if e.Closed? then []
                                                else Emitted(init, fd) + Emits(Tail(init, fd), e.data))
            && Tail(events[..i + 1], fd) == (if e.fd != fd then Tail(init, fd) else if e.Closed? then []
                                             else Leaves(Tail(init, fd), e.data))
  {
    hide Emits, Leaves;
    assert events[..i + 1][..i] == events[..i];
  }

  /** One chunk through filter_data, and what it makes available to the service. */
  method Take(q: Queue, fd: Fd, chunk: seq<byte>) returns (packages: seq<seq<byte>>)
    requires q.Valid() && q.Contents() == [] && chunk != []
    modifies q, q.queue, q.hash
    ensures q.Valid() && q.Contents() == [] && (q.queue == old(q.queue) || fresh(q.queue)) && q.hash == old(q.hash)
    ensures packages == Emits(old(q.TailOf(fd)), chunk)
    ensures forall f: Fd :: q.TailOf(f) == if f == fd then Leaves(old(q.TailOf(fd)), chunk) else old(q.TailOf(f))
  {
    hide Emits, Leaves, Ring, ChainOk, TailIn, Hash;
    ghost var emitted := Emits(q.TailOf(fd), chunk);
    var reply := q.FilterData(fd, chunk);
    match reply
    case Nothing => return [];
    case Data(_, d) => return [d];
    case More =>
      assert [] + Tagged(fd, emitted) == Tagged(fd, emitted);
      packages := Drain(q, fd, emitted);
  }

  method Forget(q: Queue, fd: Fd)
    requires q.Valid() && q.Contents() == []
    modifies q.hash
    ensures q.Valid() && q.Contents() == []
    ensures forall f: Fd :: q.TailOf(f) == if f == fd then [] else old(q.TailOf(f))
  {
    hide Ring, ChainOk, TailIn, Hash;
    q.CloseUncomplete(fd);
  }

  /**
    A run over any interleaving of chunks and closes, popping the queue after each chunk: every
    descriptor gets the packages of its own bytes, and its record holds the unparsed rest.
   */
  method RunEvents(events: seq<Event>) returns (q: Queue, out: map<Fd, seq<seq<byte>>>)
    requires forall e :: e in events && e.Chunk? ==> e.data != []
    ensures fresh(q) && q.Valid() && q.Contents() == []
    ensures forall fd: Fd :: Got(out, fd) == Packages(Stream(events, fd)) && q.TailOf(fd) == Rest(Stream(events, fd))
  {
    hide Emitted, Tail, Packages, Stream, Rest, Emits, Leaves, Ring, ChainOk, TailIn, Hash;
    q := new Queue();
    out := map[];
    assert forall fd: Fd :: Emitted(events[..0], fd) == [] && Tail(events[..0], fd) == [] by { NothingTaken(events); }
    var i := 0;
    while i < |events|
      invariant 0 <= i <= |events|
      invariant fresh(q) && fresh(q.queue) && fresh(q.hash) && q.Valid() && q.Contents() == []
      invariant forall fd: Fd :: Got(out, fd) == Emitted(events[..i], fd) && q.TailOf(fd) == Tail(events[..i], fd)
    {
      var e := events[i];
      assert e in events;
      ghost var was := out;
      label before:
      if e.Chunk? {
        var packages := Take(q, e.fd, e.data);
        out := out[e.fd := Got(out, e.fd) + packages];
      } else {
        Forget(q, e.fd);
        out := out[e.fd := []];
      }
      forall fd: Fd
        ensures Got(out, fd) == Emitted(events[..i + 1], fd) && q.TailOf(fd) == Tail(events[..i + 1], fd)
      {
        StepTaken(events, i, fd);
        assert Got(was, fd) == Emitted(events[..i], fd) && old@before(q.TailOf(fd)) == Tail(events[..i], fd);
      }
      i := i + 1;
    }
    assert events[..i] == events;
    forall fd: Fd { Reassembles(events, fd); }
  }

  lemma NothingTaken(events: seq<Event>)
    ensures forall fd: Fd :: Emitted(events[..0], fd) == [] && Tail(events[..0], fd) == []
  {}
}
