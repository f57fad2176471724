/**
 * stream_buffer as a machine over values: the owner's operations, and the
 * reference handles other threads hold, drop and swap at any time.
 */
module StreamSpec {
  import opened RefBlocks
  import Growth

  datatype Sb = Sb(
    mem: Mem,
    cur: nat, used: nat, free: nat, off: nat,  // m_buffer, m_used, m_free, m_off
    mref: seq<nat>,                            // m_ref
    alive: bool,                               // the stream_buffer has not been destroyed
    handles: seq<seq<nat>>)                    // the refs out there

  /** What a thread holding a ref may do: release one reference of a clear(), or swap two refs. */
  datatype EnvOp = Drop(h: nat) | Swap(h: nat, g: nat)

  datatype Op =
    | Reserve(len: nat, init: nat, env: seq<EnvOp>)  // env: what happens between the two count checks
    | Fill(bs: seq<Byte>)
    | Consume(n: nat)
    | RetainTo(h: nat, env: seq<EnvOp>)              // env: what happens before the old references are released
    | Env(e: EnvOp)
    | Destroy

  // ------------------------------------------------------------ reference accounting

  function HandleCount(hs: seq<seq<nat>>, b: nat): nat
  {
    if hs == [] then 0 else HandleCount(hs[..|hs| - 1], b) + multiset(hs[|hs| - 1])[b]
  }

  /** The owner's share of a block, m_ref included. */
  function OwnerShare(s: Sb, b: nat): nat
  {
    (if s.alive && b == s.cur then 1 else 0) + multiset(s.mref)[b]
  }

  predicate Held(s: Sb, b: nat)
  {
    HandleCount(s.handles, b) >= 1
  }

  /** Each block's count is the owner's share plus its occurrences in all handles. */
  ghost predicate Accounted(s: Sb)
  {
    && MemOk(s.mem)
    && forall b: nat :: CountOf(s.mem, b) == OwnerShare(s, b) + HandleCount(s.handles, b)
  }

  predicate OwnerOk(s: Sb)
  {
    s.alive ==> && s.cur in s.mem.heap
                && HEADER <= s.off <= s.used
                && s.used + s.free == |s.mem.heap[s.cur].data|
  }

  /** Between operations the current block is not in m_ref. */
  ghost predicate Inv(s: Sb)
  {
    Accounted(s) && OwnerOk(s) && (s.alive ==> s.cur !in s.mref) && (!s.alive ==> s.mref == [])
  }

  // ------------------------------------------------------------ operations

  /** ref::clear(): releases the references one after the other. */
  function ReleaseAll(m: Mem, bs: seq<nat>): Mem
    decreases |bs|
  {
    if bs == [] then m else ReleaseAll(Release(m, bs[0]), bs[1..])
  }

  function EnvStep(s: Sb, e: EnvOp): Sb
  {
    match e
    case Drop(h) =>
      if h < |s.handles| && s.handles[h] != [] then
        s.(mem := Release(s.mem, s.handles[h][0]), handles := s.handles[h := s.handles[h][1..]])
      else s
    case Swap(h, g) =>
      if h < |s.handles| && g < |s.handles| then
        s.(handles := s.handles[h := s.handles[g]][g := s.handles[h]])
      else s
  }

  function EnvSteps(s: Sb, es: seq<EnvOp>): Sb
    decreases |es|
  {
    if es == [] then s else EnvSteps(EnvStep(s, es[0]), es[1..])
  }

  /** The head of reserve_buffer: an empty buffer nobody refers to starts over. */
  function Rewind(s: Sb): Sb
    requires OwnerOk(s) && s.alive
  {
    if s.used == s.off && CountOf(s.mem, s.cur) == 1 then
      s.(free := s.free + (s.used - HEADER), used := HEADER, off := HEADER)
    else s
  }

  function Grow(s: Sb, len: nat): Sb
    requires OwnerOk(s) && s.alive
  {
    var size := Growth.Doubled((s.used + s.free) * 2, len + s.used);
    var data := s.mem.heap[s.cur].data;
    s.(mem := Moved(s.mem, s.cur, data + Zeros(size - |data|)), cur := s.mem.next, free := size - s.used)
  }

  function Replace(s: Sb, len: nat, init: nat): Sb
    requires OwnerOk(s) && s.alive
  {
    var rest := s.mem.heap[s.cur].data[s.off..s.used];
    var size := Growth.Doubled(Growth.Max(init, HEADER), len + |rest| + HEADER);
    s.(mem := Alloc(s.mem, Patch(Zeros(size), HEADER, rest)), mref := s.mref + [s.cur],
       cur := s.mem.next, used := |rest| + HEADER, free := size - (|rest| + HEADER), off := HEADER)
  }

  function Expand(s: Sb, len: nat, init: nat): Sb
    requires OwnerOk(s) && s.alive
  {
    if s.off == HEADER && CountOf(s.mem, s.cur) == 1 then Grow(s, len) else Replace(s, len, init)
  }

  /** retain_to, up to the release of what the handle held before. */
  function Pinned(s: Sb, h: nat): Sb
    requires OwnerOk(s) && s.alive && h < |s.handles|
  {
    s.(mem := Incr(s.mem, s.cur), mref := s.handles[h], handles := s.handles[h := s.mref + [s.cur]])
  }

  predicate Legal(s: Sb, op: Op)
  {
    match op
    case Reserve(_, _, _) => s.alive
    case Fill(bs) => s.alive && |bs| <= s.free
    case Consume(n) => s.alive && n <= s.used - s.off
    case RetainTo(h, _) => s.alive && h < |s.handles|
    case Env(_) => true
    case Destroy => s.alive
  }

  function DoReserve(s: Sb, len: nat, init: nat, env: seq<EnvOp>): Sb
    requires OwnerOk(s) && s.alive
  {
    var t := EnvSteps(Rewind(s), env);
    if t.free < len && t.alive && OwnerOk(t) then Expand(t, len, init) else t
  }

  function DoRetain(s: Sb, h: nat, env: seq<EnvOp>): Sb
    requires OwnerOk(s) && s.alive && h < |s.handles|
  {
    var t := EnvSteps(Pinned(s, h), env);
    t.(mem := ReleaseAll(t.mem, t.mref), mref := [])
  }

  /** One operation, or one step of another thread. */
  function Step(s: Sb, op: Op): Sb
    requires OwnerOk(s) && Legal(s, op)
  {
    match op
    case Reserve(len, init, env) => DoReserve(s, len, init, env)
    case Fill(bs) => s.(mem := Poke(s.mem, s.cur, s.used, bs), used := s.used + |bs|, free := s.free - |bs|)
    case Consume(n) => s.(off := s.off + n)
    case RetainTo(h, env) => DoRetain(s, h, env)
    case Env(e) => EnvStep(s, e)
    case Destroy => s.(mem := ReleaseAll(Release(s.mem, s.cur), s.mref), mref := [], alive := false)
  }

  function New(init: nat, nhandles: nat): Sb
  {
    var size := Growth.Max(init, HEADER);
    Sb(Alloc(Mem(map[], 0, []), Zeros(size)), 0, HEADER, size - HEADER, HEADER, [], true, seq(nhandles, _ => []))
  }

  /** data() over data_size(). */
  function Data(s: Sb): seq<Byte>
    requires OwnerOk(s) && s.alive
  {
    s.mem.heap[s.cur].data[s.off..s.used]
  }
}
