/**
 * shared_buffer as a machine over values. A handle carries the region it was
 * handed out for and a tag naming the hold() it comes from; copies share both.
 */
module SharedSpec {
  import opened RefBlocks
  import Growth

  datatype Handle = Null | Ref(block: nat, lo: nat, hi: nat, tag: nat)

  datatype Hb = Hb(
    mem: Mem,
    cur: nat, used: nat, free: nat,   // m_buffer, m_used, m_free
    alive: bool,
    handles: seq<Handle>,
    nextTag: nat)

  /** What threads with handles may do at any time. */
  datatype EnvOp = Copy(h: nat, g: nat) | Drop(h: nat) | Swap(h: nat, g: nat)

  datatype Op =
    | Reserve(len: nat, init: nat, env: seq<EnvOp>)  // env: what happens between the two count checks
    | Store(bs: seq<Byte>)                           // the owner writes at buffer()
    | Hold(len: nat, h: nat)
    | Skip(len: nat)
    | Env(e: EnvOp)
    | Destroy

  function RefCount(hs: seq<Handle>, b: nat): nat
  {
    if hs == [] then 0
    else
      var x := hs[|hs| - 1];
      RefCount(hs[..|hs| - 1], b) + if x.Ref? && x.block == b then 1 else 0
  }

  function OwnerShare(s: Hb, b: nat): nat
  {
    if s.alive && b == s.cur then 1 else 0
  }

  ghost predicate Accounted(s: Hb)
  {
    && MemOk(s.mem)
    && forall b: nat :: CountOf(s.mem, b) == OwnerShare(s, b) + RefCount(s.handles, b)
  }

  predicate OwnerOk(s: Hb)
  {
    s.alive ==> && s.cur in s.mem.heap && HEADER <= s.used
                && s.used + s.free == |s.mem.heap[s.cur].data|
  }

  /** A live region lies in its block, and below the used mark if the block is current. */
  predicate RegionOk(s: Hb, x: Handle)
  {
    x.Ref? ==> && x.block in s.mem.heap && x.tag < s.nextTag
               && HEADER <= x.lo <= x.hi <= |s.mem.heap[x.block].data|
               && (s.alive && x.block == s.cur ==> x.hi <= s.used)
  }

  /** Two live regions are copies of one hold, or do not overlap. */
  predicate Apart(x: Handle, y: Handle)
  {
    x.Ref? && y.Ref? ==> x == y || (x.tag != y.tag && (x.block != y.block || x.hi <= y.lo || y.hi <= x.lo))
  }

  predicate Regions(s: Hb)
  {
    && (forall h :: 0 <= h < |s.handles| ==> RegionOk(s, s.handles[h]))
    && (forall h, g :: 0 <= h < |s.handles| && 0 <= g < |s.handles| ==> Apart(s.handles[h], s.handles[g]))
  }

  ghost predicate Inv(s: Hb)
  {
    Accounted(s) && OwnerOk(s) && Regions(s)
  }

  // ------------------------------------------------------------ operations

  function EnvStep(s: Hb, e: EnvOp): Hb
  {
    match e
    case Copy(h, g) =>
      if h < |s.handles| && g < |s.handles| && s.handles[h].Ref? && s.handles[g].Null? && s.handles[h].block in s.mem.heap then
        s.(mem := Incr(s.mem, s.handles[h].block), handles := s.handles[g := s.handles[h]])
      else s
    case Drop(h) =>
      if h < |s.handles| && s.handles[h].Ref? then
        s.(mem := Release(s.mem, s.handles[h].block), handles := s.handles[h := Null])
      else s
    case Swap(h, g) =>
      if h < |s.handles| && g < |s.handles| then
        s.(handles := s.handles[h := s.handles[g]][g := s.handles[h]])
      else s
  }

  function EnvSteps(s: Hb, es: seq<EnvOp>): Hb
    decreases |es|
  {
    if es == [] then s else EnvSteps(EnvStep(s, es[0]), es[1..])
  }

  function Rewind(s: Hb): Hb
    requires OwnerOk(s) && s.alive
  {
    if CountOf(s.mem, s.cur) == 1 then s.(free := s.free + (s.used - HEADER), used := HEADER) else s
  }

  function Grow(s: Hb, len: nat): Hb
    requires OwnerOk(s) && s.alive
  {
    var size := Growth.Doubled((s.used + s.free) * 2, len + s.used);
    var data := s.mem.heap[s.cur].data;
    s.(mem := Moved(s.mem, s.cur, data + Zeros(size - |data|)), cur := s.mem.next, free := size - s.used)
  }

  function Replace(s: Hb, len: nat, init: nat): Hb
    requires OwnerOk(s) && s.alive
  {
    var size := Growth.Doubled(Growth.Max(init, HEADER), len + HEADER);
    s.(mem := Release(Alloc(s.mem, Zeros(size)), s.cur), cur := s.mem.next, used := HEADER, free := size - HEADER)
  }

  function Expand(s: Hb, len: nat, init: nat): Hb
    requires OwnerOk(s) && s.alive
  {
    if s.used == HEADER && CountOf(s.mem, s.cur) == 1 then Grow(s, len) else Replace(s, len, init)
  }

  function DoReserve(s: Hb, len: nat, init: nat, env: seq<EnvOp>): Hb
    requires OwnerOk(s) && s.alive
  {
    var t := EnvSteps(Rewind(s), env);
    if t.free < len && t.alive && OwnerOk(t) then Expand(t, len, init) else t
  }

  function Min(a: nat, b: nat): nat { if a < b then a else b }

  /** hold(): advances over at most the free bytes and returns a ref on the current block. */
  function DoHold(s: Hb, len: nat, h: nat): Hb
    requires OwnerOk(s) && s.alive && h < |s.handles|
  {
    var n := Min(len, s.free);
    s.(mem := Incr(s.mem, s.cur), used := s.used + n, free := s.free - n,
       handles := s.handles[h := Ref(s.cur, s.used, s.used + n, s.nextTag)], nextTag := s.nextTag + 1)
  }

  predicate Legal(s: Hb, op: Op)
  {
    match op
    case Reserve(_, _, _) => s.alive
    case Store(bs) => s.alive && |bs| <= s.free
    case Hold(_, h) => s.alive && h < |s.handles| && s.handles[h].Null?
    case Skip(_) => s.alive
    case Env(_) => true
    case Destroy => s.alive
  }

  function Step(s: Hb, op: Op): Hb
    requires OwnerOk(s) && Legal(s, op)
  {
    match op
    case Reserve(len, init, env) => DoReserve(s, len, init, env)
    case Store(bs) => s.(mem := Poke(s.mem, s.cur, s.used, bs))
    case Hold(len, h) => DoHold(s, len, h)
    case Skip(len) => s.(used := s.used + Min(len, s.free), free := s.free - Min(len, s.free))
    case Env(e) => EnvStep(s, e)
    case Destroy => s.(mem := Release(s.mem, s.cur), alive := false)
  }

  function New(init: nat, nhandles: nat): Hb
  {
    var size := Growth.Max(init, HEADER);
    Hb(Alloc(Mem(map[], 0, []), Zeros(size)), 0, HEADER, size - HEADER, true, seq(nhandles, _ => Null), 0)
  }
}
