/**
 The lock-based queue: messages live in the slots of one slab, free slots in a circular
 index list, and a max-heap of (priority, age, slot) picks the next message.  It is shown
 to be the queue of `StableQueue`: no message is lost, duplicated or overwritten.
 */
module PriorityQueue {
  import opened StableQueue
  import opened Wire

  datatype Status = OpOk | SizeMismatch | Full | Empty

  /** Ordered by priority, then age (a smaller `order` is greater), then slot. */
  datatype HeapNode = HeapNode(priority: nat, order: nat, index: nat)

  predicate Less(a: HeapNode, b: HeapNode) {
    || a.priority < b.priority
    || (a.priority == b.priority && a.order > b.order)
    || (a.priority == b.priority && a.order == b.order && a.index < b.index)
  }

  /** A position on a ring of `depth` entries. */
  function Wrap(x: nat, depth: nat): nat
    requires depth > 0 && x < 2 * depth
  {
    if x >= depth then x - depth else x
  }

  /** The greatest node of the heap, as `BinaryHeap::pop` finds it. */
  method Greatest(heap: seq<HeapNode>) returns (k: nat)
    requires heap != []
    ensures k < |heap| && forall j :: 0 <= j < |heap| ==> !Less(heap[k], heap[j])
  {
    k := 0;
    for i := 1 to |heap|
      invariant k < i && forall j :: 0 <= j < i ==> !Less(heap[k], heap[j])
    {
      if Less(heap[k], heap[i]) {
        k := i;
      }
    }
  }

  /** Where slot `i` of a slab begins. */
  function SlotStart(i: nat, size: nat): nat {
    if i == 0 then 0 else SlotStart(i - 1, size) + size
  }

  lemma {:induction false} SlotStartIs(i: nat, size: nat)
    ensures SlotStart(i, size) == i * size
  {
    if i > 0 {
      SlotStartIs(i - 1, size);
      assert (i - 1) * size + size == i * size;
    }
  }

  /** Slots of one slab do not overlap. */
  lemma {:induction false} SlotsApart(i: nat, j: nat, size: nat)
    requires i < j
    ensures SlotStart(i, size) + size <= SlotStart(j, size)
    decreases j
  {
    if i < j - 1 {
      SlotsApart(i, j - 1, size);
    }
  }

  /** The queue's fields, as values. */
  datatype Rep = Rep(depth: nat, size: nat, data: seq<Byte>, sizes: seq<nat>, indices: seq<nat>,
                     start: nat, stop: nat, heap: seq<HeapNode>, order: nat)

  /** `m` is the message in the slot `node` points to. */
  ghost predicate Stored(r: Rep, node: HeapNode, m: Message) {
    var n := node.index;
    && n < r.depth && n < |r.sizes| && r.sizes[n] <= r.size && SlotStart(n, r.size) + r.size <= |r.data|
    && m == Message(node.priority, r.data[SlotStart(n, r.size)..SlotStart(n, r.size) + r.sizes[n]])
  }

  /** The ring holds free slot `k` at its place from `start` on. */
  ghost predicate OnRing(r: Rep, free: seq<nat>, k: nat)
    requires k < |free| <= r.depth && r.start < r.depth && |r.indices| == r.depth
  {
    free[k] < r.depth && r.indices[Wrap(r.start + k, r.depth)] == free[k]
  }

  ghost predicate Ring(r: Rep, free: seq<nat>) {
    && |r.indices| == r.depth && r.start < r.depth && |free| <= r.depth
    && r.stop == Wrap(r.start + |free|, r.depth)
    && forall k :: 0 <= k < |free| ==> OnRing(r, free, k)
  }

  ghost predicate AllStored(r: Rep, queue: seq<Message>) {
    && |queue| == |r.heap|
    && forall i :: 0 <= i < |queue| ==> Stored(r, r.heap[i], queue[i])
  }

  /** No slot is used twice, on the free list twice, or both. */
  ghost predicate Apart(heap: seq<HeapNode>, free: seq<nat>) {
    && (forall j, k :: 0 <= j < k < |free| ==> free[j] != free[k])
    && (forall j, k :: 0 <= j < k < |heap| ==> heap[j].index != heap[k].index)
    && (forall j, k :: 0 <= j < |free| && 0 <= k < |heap| ==> free[j] != heap[k].index)
  }

  /** Heap entries are kept in order of arrival. */
  ghost predicate Aged(heap: seq<HeapNode>, order: nat) {
    && (forall j, k :: 0 <= j < k < |heap| ==> heap[j].order < heap[k].order)
    && (forall k :: 0 <= k < |heap| ==> heap[k].order < order)
  }

  /** `queue` is what the fields stand for and `free` the free slots in the order of their use. */
  ghost predicate Inv(r: Rep, queue: seq<Message>, free: seq<nat>) {
    && r.depth > 0 && |r.data| == SlotStart(r.depth, r.size) && |r.sizes| == r.depth
    && |r.heap| + |free| == r.depth
    && Ring(r, free) && AllStored(r, queue) && Apart(r.heap, free) && Aged(r.heap, r.order)
  }

  // ----- Sending -----

  /** The slab with `bytes` written at `offset`. */
  function Written(data: seq<Byte>, offset: nat, bytes: seq<Byte>): (d: seq<Byte>)
    requires offset + |bytes| <= |data|
    ensures |d| == |data|
  {
    data[..offset] + bytes + data[offset + |bytes|..]
  }

  /** The fields after sending into the first free slot. */
  function Sent(r: Rep, priority: nat, bytes: seq<Byte>): Rep
    requires r.depth > 0 && r.start < r.depth && |r.indices| == r.depth
    requires var n := r.indices[r.start]; n < |r.sizes| && SlotStart(n, r.size) + |bytes| <= |r.data|
  {
    var n := r.indices[r.start];
    r.(data := Written(r.data, SlotStart(n, r.size), bytes), sizes := r.sizes[n := |bytes|],
       start := Wrap(r.start + 1, r.depth), heap := r.heap + [HeapNode(priority, r.order, n)], order := r.order + 1)
  }

  lemma FirstFree(r: Rep, queue: seq<Message>, free: seq<nat>)
    requires Inv(r, queue, free) && free != []
    ensures var n := r.indices[r.start]; n == free[0] && n < r.depth && SlotStart(n, r.size) + r.size <= |r.data|
  {
    assert OnRing(r, free, 0);
    SlotsApart(free[0], r.depth, r.size);
  }

  /** Writing one slot leaves the message of another slot alone. */
  lemma OtherSlotKept(data: seq<Byte>, size: nat, n: nat, bytes: seq<Byte>, i: nat, len: nat)
    requires n != i && len <= size && |bytes| <= size
    requires SlotStart(n, size) + |bytes| <= |data| && SlotStart(i, size) + size <= |data|
    ensures Written(data, SlotStart(n, size), bytes)[SlotStart(i, size)..SlotStart(i, size) + len] == data[SlotStart(i, size)..SlotStart(i, size) + len]
  {
    if n < i {
      SlotsApart(n, i, size);
    } else {
      SlotsApart(i, n, size);
    }
  }

  lemma SentStored(r: Rep, queue: seq<Message>, free: seq<nat>, priority: nat, bytes: seq<Byte>)
    requires Inv(r, queue, free) && free != [] && |bytes| <= r.size
    ensures r.indices[r.start] < r.depth && SlotStart(r.indices[r.start], r.size) + |bytes| <= |r.data|
    ensures AllStored(Sent(r, priority, bytes), queue + [Message(priority, bytes)])
  {
    FirstFree(r, queue, free);
    var n := free[0];
    var r', queue' := Sent(r, priority, bytes), queue + [Message(priority, bytes)];
    forall i | 0 <= i < |queue'|
      ensures Stored(r', r'.heap[i], queue'[i])
    {
      if i < |queue| {
        assert Stored(r, r.heap[i], queue[i]);
        OtherSlotKept(r.data, r.size, n, bytes, r.heap[i].index, r.sizes[r.heap[i].index]);
      } else {
        assert r'.data[SlotStart(n, r.size)..SlotStart(n, r.size) + |bytes|] == bytes;
      }
    }
  }

  lemma SentRing(r: Rep, queue: seq<Message>, free: seq<nat>, priority: nat, bytes: seq<Byte>)
    requires Inv(r, queue, free) && free != [] && |bytes| <= r.size
    ensures r.indices[r.start] < r.depth && SlotStart(r.indices[r.start], r.size) + |bytes| <= |r.data|
    ensures Ring(Sent(r, priority, bytes), free[1..])
  {
    FirstFree(r, queue, free);
    var r' := Sent(r, priority, bytes);
    forall k | 0 <= k < |free[1..]|
      ensures OnRing(r', free[1..], k)
    {
      assert OnRing(r, free, k + 1);
    }
  }

  /** A send keeps the invariant and appends the message. */
  lemma SentKeeps(r: Rep, queue: seq<Message>, free: seq<nat>, priority: nat, bytes: seq<Byte>)
    requires Inv(r, queue, free) && free != [] && |bytes| <= r.size
    ensures r.indices[r.start] < r.depth && SlotStart(r.indices[r.start], r.size) + |bytes| <= |r.data|
    ensures Inv(Sent(r, priority, bytes), queue + [Message(priority, bytes)], free[1..])
  {
    FirstFree(r, queue, free);
    SentStored(r, queue, free, priority, bytes);
    SentRing(r, queue, free, priority, bytes);
  }

  // ----- Receiving -----

  /** The greatest node is the oldest of highest priority. */
  lemma GreatestIsBest(r: Rep, queue: seq<Message>, free: seq<nat>, k: nat)
    requires Inv(r, queue, free) && k < |r.heap|
    requires forall j :: 0 <= j < |r.heap| ==> !Less(r.heap[k], r.heap[j])
    ensures k == Best(queue)
  {
    forall j | 0 <= j < |queue|
      ensures queue[j].priority == r.heap[j].priority
    {
      assert Stored(r, r.heap[j], queue[j]);
    }
    BestIsUnique(queue, k);
  }

  /** The fields after node `k` was taken and its slot returned to the ring. */
  function Taken(r: Rep, k: nat): Rep
    requires k < |r.heap| && r.depth > 0 && r.stop < r.depth && |r.indices| == r.depth
  {
    r.(heap := Without(r.heap, k), indices := r.indices[r.stop := r.heap[k].index], stop := Wrap(r.stop + 1, r.depth))
  }

  lemma TakenRing(r: Rep, queue: seq<Message>, free: seq<nat>, k: nat)
    requires Inv(r, queue, free) && k < |r.heap|
    ensures r.stop < r.depth && Ring(Taken(r, k), free + [r.heap[k].index])
  {
    var r', free' := Taken(r, k), free + [r.heap[k].index];
    assert Stored(r, r.heap[k], queue[k]);
    forall i | 0 <= i < |free'|
      ensures OnRing(r', free', i)
    {
      if i < |free| {
        assert OnRing(r, free, i);
      }
    }
  }

  lemma TakenStored(r: Rep, queue: seq<Message>, free: seq<nat>, k: nat)
    requires Inv(r, queue, free) && k < |r.heap|
    ensures r.stop < r.depth && AllStored(Taken(r, k), Without(queue, k))
  {
    var r', queue' := Taken(r, k), Without(queue, k);
    forall i | 0 <= i < |queue'|
      ensures Stored(r', r'.heap[i], queue'[i])
    {
      WithoutAt(queue, k, i);
      WithoutAt(r.heap, k, i);
      assert Stored(r, r.heap[Shift(i, k)], queue[Shift(i, k)]);
    }
  }

  lemma TakenApart(heap: seq<HeapNode>, free: seq<nat>, k: nat)
    requires Apart(heap, free) && k < |heap|
    ensures Apart(Without(heap, k), free + [heap[k].index])
  {
    var rest, more := Without(heap, k), free + [heap[k].index];
    forall i, j | 0 <= i < j < |rest|
      ensures rest[i].index != rest[j].index
    {
      WithoutAt(heap, k, i);
      WithoutAt(heap, k, j);
    }
    forall i, j | 0 <= i < |more| && 0 <= j < |rest|
      ensures more[i] != rest[j].index
    {
      WithoutAt(heap, k, j);
    }
  }

  lemma TakenAged(heap: seq<HeapNode>, order: nat, k: nat)
    requires Aged(heap, order) && k < |heap|
    ensures Aged(Without(heap, k), order)
  {
    var rest := Without(heap, k);
    forall j | 0 <= j < |rest|
      ensures rest[j].order < order && forall i :: 0 <= i < j ==> rest[i].order < rest[j].order
    {
      WithoutAt(heap, k, j);
      forall i | 0 <= i < j
        ensures rest[i].order < rest[j].order
      {
        WithoutAt(heap, k, i);
      }
    }
  }

  /** Taking a message keeps the invariant and removes just that message. */
  lemma TakenKeeps(r: Rep, queue: seq<Message>, free: seq<nat>, k: nat)
    requires Inv(r, queue, free) && k < |r.heap|
    ensures r.stop < r.depth && Inv(Taken(r, k), Without(queue, k), free + [r.heap[k].index])
  {
    TakenRing(r, queue, free, k);
    TakenStored(r, queue, free, k);
    TakenApart(r.heap, free, k);
    TakenAged(r.heap, r.order, k);
  }

  /** Everything `Receive` relies on. */
  lemma TakenMessage(r: Rep, queue: seq<Message>, free: seq<nat>, k: nat)
    requires Inv(r, queue, free) && k < |r.heap|
    requires forall j :: 0 <= j < |r.heap| ==> !Less(r.heap[k], r.heap[j])
    ensures k == Best(queue) && r.stop < r.depth
    ensures var n := r.heap[k].index;
            && n < r.depth && SlotStart(n, r.size) + r.sizes[n] <= |r.data|
            && queue[k] == Message(r.heap[k].priority, r.data[SlotStart(n, r.size)..SlotStart(n, r.size) + r.sizes[n]])
    ensures Inv(Taken(r, k), Without(queue, k), free + [r.heap[k].index])
  {
    GreatestIsBest(r, queue, free, k);
    TakenKeeps(r, queue, free, k);
    assert Stored(r, r.heap[k], queue[k]);
  }

  /** Writing one more byte. */
  lemma WriteOne(data: seq<Byte>, offset: nat, bytes: seq<Byte>, i: nat)
    requires i < |bytes| && offset + |bytes| <= |data|
    ensures Written(data, offset, bytes[..i])[offset + i := bytes[i]] == Written(data, offset, bytes[..i + 1])
  {}

  // ----- The class -----

  class PriorityQueue {
    const depth: nat
    const messageSize: nat
    const data: array<Byte>
    const sizes: array<nat>
    const indices: array<nat>
    var start: nat
    var stop: nat
    var heap: seq<HeapNode>
    var order: nat
    var highMark: nat

    /** The messages held, in order of arrival. */
    ghost var queue: seq<Message>
    ghost var free: seq<nat>

    ghost function R(): Rep
      reads this, data, sizes, indices
    {
      Rep(depth, messageSize, data[..], sizes[..], indices[..], start, stop, heap, order)
    }

    ghost predicate Valid()
      reads this, data, sizes, indices
    {
      && sizes != indices && data as object != sizes && data as object != indices
      && Inv(R(), queue, free)
      && |queue| <= highMark <= depth
    }

    constructor (depth: nat, messageSize: nat)
      requires depth > 0 && messageSize > 0
      ensures Valid() && queue == [] && this.depth == depth && this.messageSize == messageSize
      ensures fresh(data) && fresh(sizes) && fresh(indices)
    {
      this.depth, this.messageSize := depth, messageSize;
      SlotStartIs(depth, messageSize);
      data := new Byte[depth * messageSize](_ => 0);
      sizes := new nat[depth](_ => 0);
      indices := new nat[depth](i => i);
      start, stop, heap, order, highMark := 0, 0, [], 0, 0;
      queue, free := [], seq(depth, i => i);
    }

    /** `get_messages_available` */
    method Count() returns (n: nat)
      requires Valid()
      ensures n == |queue|
    {
      n := |heap|;
    }

    /** Copy a message into the slab at `offset`. */
    method Store(offset: nat, bytes: seq<Byte>)
      requires offset + |bytes| <= data.Length
      modifies data
      ensures data[..] == Written(old(data[..]), offset, bytes)
    {
      for i := 0 to |bytes|
        invariant data[..] == Written(old(data[..]), offset, bytes[..i])
      {
        WriteOne(old(data[..]), offset, bytes, i);
        data[offset + i] := bytes[i];
      }
      assert bytes[..|bytes|] == bytes;
    }

    /** Send a message, without waiting for space. */
    method Send(bytes: seq<Byte>, priority: nat) returns (status: Status)
      requires Valid()
      modifies this, data, sizes, indices
      ensures Valid()
      ensures status == (if |bytes| > messageSize then SizeMismatch else if |old(queue)| == depth then Full else OpOk)
      ensures queue == if status == OpOk then old(queue) + [Message(priority, bytes)] else old(queue)
    {
      if |bytes| > messageSize {
        return SizeMismatch;
      }
      if |heap| >= depth {
        return Full;
      }
      SentKeeps(R(), queue, free, priority, bytes);
      ghost var r := Sent(R(), priority, bytes);
      var index := indices[start];
      start := Wrap(start + 1, depth);
      heap := heap + [HeapNode(priority, order, index)];
      order := order + 1;
      SlotStartIs(index, messageSize);
      Store(index * messageSize, bytes);
      sizes[index] := |bytes|;
      highMark := if highMark < |heap| then |heap| else highMark;
      queue, free := queue + [Message(priority, bytes)], free[1..];
      assert R() == r;
      status := OpOk;
    }

    /** Copy the message of a node out of its slot. */
    method Fetch(node: HeapNode) returns (m: Message)
      requires node.index < sizes.Length && SlotStart(node.index, messageSize) + sizes[node.index] <= data.Length
      ensures var from := SlotStart(node.index, messageSize);
              m == Message(node.priority, data[..][from..from + sizes[..][node.index]])
    {
      SlotStartIs(node.index, messageSize);
      var offset := node.index * messageSize;
      m := Message(node.priority, data[offset..offset + sizes[node.index]]);
    }

    /** Take node `k` out of the heap and return its slot to the ring. */
    method Take(k: nat)
      requires k < |heap| && depth > 0 && stop < depth && indices.Length == depth
      requires sizes != indices && data as object != indices
      modifies `heap, `stop, indices
      ensures R() == Taken(old(R()), k)
    {
      var node := heap[k];
      WithoutIs(heap, k);
      heap := heap[..k] + heap[k + 1..];
      indices[stop] := node.index;
      stop := Wrap(stop + 1, depth);
    }

    /** Receive the oldest message of highest priority, without waiting for one. */
    method Receive() returns (status: Status, m: Message)
      requires Valid()
      modifies this, data, sizes, indices
      ensures Valid()
      ensures status == if old(queue) == [] then Empty else OpOk
      ensures status == OpOk ==> m == old(queue)[Best(old(queue))] && queue == Without(old(queue), Best(old(queue)))
      ensures status == Empty ==> queue == old(queue)
    {
      if heap == [] {
        return Empty, Message(0, []);
      }
      m := ReceiveSome();
      status := OpOk;
    }

    method ReceiveSome() returns (m: Message)
      requires Valid() && heap != []
      modifies this, data, sizes, indices
      ensures Valid() && old(queue) != []
      ensures m == old(queue)[Best(old(queue))] && queue == Without(old(queue), Best(old(queue)))
    {
      ghost var r, q, f := R(), queue, free;
      var k := Greatest(heap);
      TakenMessage(r, q, f, k);
      m := Fetch(heap[k]);
      Take(k);
      queue, free := Without(q, k), f + [r.heap[k].index];
      assert R() == Taken(r, k);
    }
  }
}
