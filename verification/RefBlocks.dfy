/**
 * Heap blocks that begin with a reference count: malloc, realloc, free, and the
 * atomic count operations that stream_buffer and shared_buffer share.
 */
module RefBlocks {

  /** sizeof(count_t): the count sits in the first bytes of its block. */
  const HEADER: nat := 4

  type Byte = b: int | 0 <= b < 256

  datatype Block = Block(count: nat, data: seq<Byte>)

  /** Live blocks by address, the next fresh address, and every free() so far. */
  datatype Mem = Mem(heap: map<nat, Block>, next: nat, freed: seq<nat>)

  function CountOf(m: Mem, b: nat): nat
  {
    if b in m.heap then m.heap[b].count else 0
  }

  /** Every block is live with a positive count, or was freed once; never both, never neither. */
  predicate MemOk(m: Mem)
  {
    && (forall b :: b in m.heap ==> b < m.next && m.heap[b].count >= 1 && b !in m.freed)
    && (forall k :: 0 <= k < |m.freed| ==> m.freed[k] < m.next)
    && (forall j, k :: 0 <= j < k < |m.freed| ==> m.freed[j] != m.freed[k])
    && (forall b :: 0 <= b < m.next ==> b in m.heap || b in m.freed)
  }

  function Zeros(n: nat): (s: seq<Byte>)
    ensures |s| == n
  {
    seq(n, _ => 0)
  }

  /** malloc and init_count; the new block is at the old m.next. */
  function Alloc(m: Mem, data: seq<Byte>): Mem
  {
    Mem(m.heap[m.next := Block(1, data)], m.next + 1, m.freed)
  }

  function Incr(m: Mem, b: nat): Mem
    requires b in m.heap
  {
    m.(heap := m.heap[b := m.heap[b].(count := m.heap[b].count + 1)])
  }

  /** decr_count: the thread that takes the count to zero frees the block. */
  function Decr(m: Mem, b: nat): Mem
    requires b in m.heap && m.heap[b].count >= 1
  {
    if m.heap[b].count == 1 then Mem(m.heap - {b}, m.next, m.freed + [b])
    else m.(heap := m.heap[b := m.heap[b].(count := m.heap[b].count - 1)])
  }

  /** decr_count on an address; a live block always has a count to give up. */
  function Release(m: Mem, b: nat): Mem
  {
    if b in m.heap && m.heap[b].count >= 1 then Decr(m, b) else m
  }

  /** realloc, worst case: the block moves to the old m.next and its old place is freed. */
  function Moved(m: Mem, b: nat, data: seq<Byte>): Mem
    requires b in m.heap
  {
    Mem((m.heap - {b})[m.next := Block(m.heap[b].count, data)], m.next + 1, m.freed + [b])
  }

  function Patch(data: seq<Byte>, at: nat, bs: seq<Byte>): (r: seq<Byte>)
    requires at + |bs| <= |data|
    ensures |r| == |data|
  {
    data[..at] + bs + data[at + |bs|..]
  }

  /** A store through a pointer into the block. */
  function Poke(m: Mem, b: nat, at: nat, bs: seq<Byte>): Mem
    requires b in m.heap && at + |bs| <= |m.heap[b].data|
  {
    m.(heap := m.heap[b := m.heap[b].(data := Patch(m.heap[b].data, at, bs))])
  }

  /** No block appears or changes its bytes on the way from m to n. */
  predicate Shrinks(m: Mem, n: Mem)
  {
    forall b :: b in n.heap ==> b in m.heap && n.heap[b].data == m.heap[b].data
  }

  lemma AllocKeeps(m: Mem, data: seq<Byte>)
    requires MemOk(m)
    ensures MemOk(Alloc(m, data)) && m.next !in m.heap
    ensures forall x: nat :: CountOf(Alloc(m, data), x) == CountOf(m, x) + if x == m.next then 1 else 0
  {
  }

  lemma IncrKeeps(m: Mem, b: nat)
    requires MemOk(m) && b in m.heap
    ensures MemOk(Incr(m, b))
    ensures forall x: nat :: CountOf(Incr(m, b), x) == CountOf(m, x) + if x == b then 1 else 0
  {
  }

  /** A block leaves the heap exactly when its last reference goes, and is freed then. */
  lemma DecrKeeps(m: Mem, b: nat)
    requires MemOk(m) && b in m.heap
    ensures MemOk(Decr(m, b))
    ensures forall x: nat :: CountOf(Decr(m, b), x) == CountOf(m, x) - if x == b then 1 else 0
    ensures Shrinks(m, Decr(m, b))
  {
  }

  lemma MovedKeeps(m: Mem, b: nat, data: seq<Byte>)
    requires MemOk(m) && b in m.heap
    ensures MemOk(Moved(m, b, data)) && m.next !in m.heap
    ensures forall x: nat :: CountOf(Moved(m, b, data), x)
              == if x == m.next then CountOf(m, b) else if x == b then 0 else CountOf(m, x)
  {
  }

  lemma PokeKeeps(m: Mem, b: nat, at: nat, bs: seq<Byte>)
    requires MemOk(m) && b in m.heap && at + |bs| <= |m.heap[b].data|
    ensures MemOk(Poke(m, b, at, bs))
    ensures forall x: nat :: CountOf(Poke(m, b, at, bs), x) == CountOf(m, x)
  {
  }
}
