/**
 * shared_buffer: accounting, and disjointness of every region still held.
 */
module SharedProofs {
  import opened RefBlocks
  import opened Sequences
  import opened SharedSpec
  import Growth

  function One(x: Handle, b: nat): nat
  {
    if x.Ref? && x.block == b then 1 else 0
  }

  lemma {:induction false} RefUpdate(hs: seq<Handle>, h: nat, x: Handle, b: nat)
    requires h < |hs|
    ensures RefCount(hs[h := x], b) + One(hs[h], b) == RefCount(hs, b) + One(x, b)
  {
    var n := |hs| - 1;
    if h == n {
      assert hs[h := x][..n] == hs[..n];
    } else {
      RefUpdate(hs[..n], h, x, b);
      assert hs[h := x][..n] == hs[..n][h := x];
    }
  }

  lemma {:induction false} RefAtLeast(hs: seq<Handle>, h: nat, b: nat)
    requires h < |hs|
    ensures RefCount(hs, b) >= One(hs[h], b)
  {
    var n := |hs| - 1;
    if h < n {
      RefAtLeast(hs[..n], h, b);
    }
  }

  lemma {:induction false} NoRefs(hs: seq<Handle>, b: nat)
    requires forall h :: 0 <= h < |hs| ==> One(hs[h], b) == 0
    ensures RefCount(hs, b) == 0
  {
    if hs != [] {
      NoRefs(hs[..|hs| - 1], b);
    }
  }

  /** A live handle keeps its block alive, and the owner sees it in the count. */
  lemma LiveHandle(s: Hb, h: nat)
    requires Accounted(s) && h < |s.handles| && s.handles[h].Ref?
    ensures s.handles[h].block in s.mem.heap
    ensures s.alive && s.handles[h].block == s.cur ==> CountOf(s.mem, s.cur) >= 2
  {
    var b := s.handles[h].block;
    RefAtLeast(s.handles, h, b);
    assert CountOf(s.mem, b) == OwnerShare(s, b) + RefCount(s.handles, b);
  }

  // ------------------------------------------------------------ other threads

  /** Every handle of t is one of s: handles are copied and dropped, not made. */
  predicate EnvOnly(s: Hb, t: Hb)
  {
    && t == s.(mem := t.mem, handles := t.handles) && |t.handles| == |s.handles| && Shrinks(s.mem, t.mem)
    && (forall h :: 0 <= h < |t.handles| && t.handles[h].Ref? ==> t.handles[h] in s.handles)
  }

  lemma CopyKeeps(s: Hb, h: nat, g: nat)
    requires Accounted(s) && h < |s.handles| && g < |s.handles| && s.handles[h].Ref? && s.handles[g].Null?
    ensures Accounted(EnvStep(s, Copy(h, g))) && EnvOnly(s, EnvStep(s, Copy(h, g)))
  {
    LiveHandle(s, h);
    var t := EnvStep(s, Copy(h, g));
    IncrKeeps(s.mem, s.handles[h].block);
    forall b: nat ensures CountOf(t.mem, b) == OwnerShare(t, b) + RefCount(t.handles, b) {
      RefUpdate(s.handles, g, s.handles[h], b);
    }
  }

  lemma DropKeeps(s: Hb, h: nat)
    requires Accounted(s) && h < |s.handles| && s.handles[h].Ref?
    ensures Accounted(EnvStep(s, Drop(h))) && EnvOnly(s, EnvStep(s, Drop(h)))
  {
    LiveHandle(s, h);
    var t := EnvStep(s, Drop(h));
    DecrKeeps(s.mem, s.handles[h].block);
    forall b: nat ensures CountOf(t.mem, b) == OwnerShare(t, b) + RefCount(t.handles, b) {
      RefUpdate(s.handles, h, Null, b);
    }
  }

  lemma SwapKeeps(s: Hb, h: nat, g: nat)
    requires Accounted(s) && h < |s.handles| && g < |s.handles|
    ensures Accounted(EnvStep(s, Swap(h, g))) && EnvOnly(s, EnvStep(s, Swap(h, g)))
  {
    var t := EnvStep(s, Swap(h, g));
    var mid := s.handles[h := s.handles[g]];
    forall b: nat ensures CountOf(t.mem, b) == OwnerShare(t, b) + RefCount(t.handles, b) {
      RefUpdate(s.handles, h, s.handles[g], b);
      RefUpdate(mid, g, s.handles[h], b);
    }
  }

  lemma EnvStepKeeps(s: Hb, e: EnvOp)
    requires Accounted(s)
    ensures Accounted(EnvStep(s, e)) && EnvOnly(s, EnvStep(s, e))
  {
    match e {
      case Copy(h, g) =>
        if h < |s.handles| && g < |s.handles| && s.handles[h].Ref? && s.handles[g].Null? { CopyKeeps(s, h, g); }
      case Drop(h) => if h < |s.handles| && s.handles[h].Ref? { DropKeeps(s, h); }
      case Swap(h, g) => if h < |s.handles| && g < |s.handles| { SwapKeeps(s, h, g); }
    }
  }

  lemma {:induction false} EnvStepsKeep(s: Hb, es: seq<EnvOp>)
    requires Accounted(s)
    ensures Accounted(EnvSteps(s, es)) && EnvOnly(s, EnvSteps(s, es))
    decreases |es|
  {
    if es != [] {
      EnvStepKeeps(s, es[0]);
      EnvStepsKeep(EnvStep(s, es[0]), es[1..]);
    }
  }

  /** Interference cannot break the owner's view, nor make regions overlap. */
  lemma EnvInv(s: Hb, t: Hb)
    requires OwnerOk(s) && Regions(s) && Accounted(t) && EnvOnly(s, t)
    ensures Inv(t)
  {
    if t.alive {
      assert CountOf(t.mem, t.cur) >= 1;
    }
    forall h | 0 <= h < |t.handles| ensures RegionOk(t, t.handles[h]) {
      if t.handles[h].Ref? {
        LiveHandle(t, h);
        var k :| 0 <= k < |s.handles| && s.handles[k] == t.handles[h];
        assert RegionOk(s, s.handles[k]);
      }
    }
    forall h, g | 0 <= h < |t.handles| && 0 <= g < |t.handles| ensures Apart(t.handles[h], t.handles[g]) {
      if t.handles[h].Ref? && t.handles[g].Ref? {
        var k :| 0 <= k < |s.handles| && s.handles[k] == t.handles[h];
        var l :| 0 <= l < |s.handles| && s.handles[l] == t.handles[g];
        assert Apart(s.handles[k], s.handles[l]);
      }
    }
  }

  // ------------------------------------------------------------ the owner

  /** A count of one seen by the owner means there is no handle on its block, hence none to copy. */
  lemma SoleOwner(s: Hb, h: nat)
    requires Accounted(s) && s.alive && CountOf(s.mem, s.cur) == 1 && h < |s.handles|
    ensures s.handles[h].Ref? ==> s.handles[h].block != s.cur
  {
    if s.handles[h].Ref? && s.handles[h].block == s.cur {
      LiveHandle(s, h);
    }
  }

  lemma RewindKeeps(s: Hb)
    requires Inv(s) && s.alive
    ensures Inv(Rewind(s))
  {
    var t := Rewind(s);
    assert forall b: nat :: OwnerShare(t, b) == OwnerShare(s, b);
    forall h | 0 <= h < |t.handles| ensures RegionOk(t, t.handles[h]) {
      assert RegionOk(s, s.handles[h]);
      if CountOf(s.mem, s.cur) == 1 {
        SoleOwner(s, h);
      }
    }
  }

  lemma GrowKeeps(s: Hb, len: nat)
    requires Inv(s) && s.alive && CountOf(s.mem, s.cur) == 1
    ensures Inv(Grow(s, len)) && Grow(s, len).free >= len
  {
    var t := Grow(s, len);
    var size := Growth.Doubled((s.used + s.free) * 2, len + s.used);
    var data := s.mem.heap[s.cur].data;
    MovedKeeps(s.mem, s.cur, data + Zeros(size - |data|));
    assert CountOf(s.mem, s.mem.next) == 0;
    forall b: nat ensures CountOf(t.mem, b) == OwnerShare(t, b) + RefCount(t.handles, b) {
      assert CountOf(s.mem, b) == OwnerShare(s, b) + RefCount(s.handles, b);
    }
    forall h | 0 <= h < |t.handles| ensures RegionOk(t, t.handles[h]) {
      assert RegionOk(s, s.handles[h]);
      SoleOwner(s, h);
    }
  }

  lemma ReplaceKeeps(s: Hb, len: nat, init: nat)
    requires Inv(s) && s.alive
    ensures Inv(Replace(s, len, init)) && Replace(s, len, init).free >= len
  {
    var t := Replace(s, len, init);
    var size := Growth.Doubled(Growth.Max(init, HEADER), len + HEADER);
    AllocKeeps(s.mem, Zeros(size));
    var m := Alloc(s.mem, Zeros(size));
    DecrKeeps(m, s.cur);
    assert CountOf(s.mem, s.mem.next) == 0;
    forall b: nat ensures CountOf(t.mem, b) == OwnerShare(t, b) + RefCount(t.handles, b) {
      assert CountOf(s.mem, b) == OwnerShare(s, b) + RefCount(s.handles, b);
    }
    assert CountOf(t.mem, t.cur) >= 1;
    forall h | 0 <= h < |t.handles| ensures RegionOk(t, t.handles[h]) {
      assert RegionOk(s, s.handles[h]);
      if t.handles[h].Ref? {
        LiveHandle(t, h);
      }
    }
  }

  lemma ExpandKeeps(s: Hb, len: nat, init: nat)
    requires Inv(s) && s.alive
    ensures Inv(Expand(s, len, init)) && Expand(s, len, init).alive && Expand(s, len, init).free >= len
  {
    if s.used == HEADER && CountOf(s.mem, s.cur) == 1 {
      GrowKeeps(s, len);
    } else {
      ReplaceKeeps(s, len, init);
    }
  }

  lemma ReserveKeeps(s: Hb, len: nat, init: nat, env: seq<EnvOp>)
    requires Inv(s) && s.alive
    ensures Inv(DoReserve(s, len, init, env)) && DoReserve(s, len, init, env).alive
    ensures DoReserve(s, len, init, env).free >= len
  {
    RewindKeeps(s);
    var u := Rewind(s);
    EnvStepsKeep(u, env);
    var t := EnvSteps(u, env);
    EnvInv(u, t);
    if t.free < len {
      ExpandKeeps(t, len, init);
    }
  }

  /**
   * What reserve_buffer does, by cases, when nobody interferes. A block that
   * nobody refers to starts over, and is grown in place if it is too small; a
   * block with handles is kept while it has room, and left to them otherwise.
   */
  lemma ReserveLaw(s: Hb, len: nat, init: nat)
    requires Inv(s) && s.alive
    ensures var t, size := DoReserve(s, len, init, []), |s.mem.heap[s.cur].data|;
            var mine := CountOf(s.mem, s.cur) == 1;
            && (mine && size - HEADER >= len ==> t == s.(used := HEADER, free := size - HEADER))
            && (mine && size - HEADER < len ==>
                  t.used == HEADER && t.used + t.free >= 2 * size && t.free >= len && s.cur in t.mem.freed
                  && (t.used + t.free == 2 * size || t.used + t.free < 2 * (len + HEADER)))
            && (!mine && s.free >= len ==> t == s)
            && (!mine && s.free < len ==>
                  t.cur != s.cur && t.used == HEADER && t.handles == s.handles
                  && CountOf(t.mem, s.cur) == CountOf(s.mem, s.cur) - 1 && CountOf(t.mem, t.cur) == 1)
  {
    var u := Rewind(s);
    assert EnvSteps(u, []) == u;
    assert CountOf(s.mem, s.mem.next) == 0;
  }

  /** What threads do to handles: a copy adds a reference, a drop gives one up, a swap exchanges two. */
  lemma EnvLaw(s: Hb, h: nat, g: nat)
    requires Accounted(s) && h < |s.handles| && g < |s.handles|
    ensures s.handles[h].Ref? && s.handles[g].Null? ==>
              var t, b := EnvStep(s, Copy(h, g)), s.handles[h].block;
              && t.handles == s.handles[g := s.handles[h]]
              && forall x: nat :: CountOf(t.mem, x) == CountOf(s.mem, x) + if x == b then 1 else 0
    ensures s.handles[h].Ref? ==>
              var t, b := EnvStep(s, Drop(h)), s.handles[h].block;
              && t.handles == s.handles[h := Null]
              && (forall x: nat :: CountOf(t.mem, x) == CountOf(s.mem, x) - if x == b then 1 else 0)
              && t.mem.freed == s.mem.freed + if CountOf(s.mem, b) == 1 then [b] else []
    ensures var t := EnvStep(s, Swap(h, g));
            t.mem == s.mem && t.handles[h] == s.handles[g] && t.handles[g] == s.handles[h] && |t.handles| == |s.handles|
            && forall k :: 0 <= k < |s.handles| && k != h && k != g ==> t.handles[k] == s.handles[k]
  {
    if s.handles[h].Ref? {
      LiveHandle(s, h);
      DecrKeeps(s.mem, s.handles[h].block);
    }
  }

  /** skip() and hold() pass over the same bytes: as many as asked for, or as are free. */
  lemma AdvanceLaw(s: Hb, len: nat, h: nat)
    requires Inv(s) && Legal(s, Hold(len, h))
    ensures var t, u := Step(s, Skip(len)), DoHold(s, len, h);
            && t.used == u.used == s.used + (if len < s.free then len else s.free)
            && t.free == u.free == s.free - (if len < s.free then len else s.free)
            && t.cur == u.cur == s.cur && t.mem == s.mem && t.handles == s.handles
            && u.handles[h] == Ref(s.cur, s.used, u.used, s.nextTag)
  {
  }

  /** What the owner stores and then holds is what the handle's region has. */
  lemma HeldIsStored(s: Hb, bs: seq<Byte>, h: nat)
    requires Inv(s) && Legal(s, Store(bs)) && Legal(s, Hold(|bs|, h))
    ensures var t := DoHold(Step(s, Store(bs)), |bs|, h);
            && t.handles[h].Ref? && RegionOk(t, t.handles[h])
            && RegionBytes(t, t.handles[h]) == bs
  {
    StoreKeeps(s, bs);
    HoldKeeps(Step(s, Store(bs)), |bs|, h);
    var t := DoHold(Step(s, Store(bs)), |bs|, h);
    assert RegionOk(t, t.handles[h]);
    assert t.mem.heap[s.cur].data == Patch(s.mem.heap[s.cur].data, s.used, bs);
  }

  /** A new region begins where every live region of the block has ended. */
  lemma HoldKeeps(s: Hb, len: nat, h: nat)
    requires Inv(s) && Legal(s, Hold(len, h))
    ensures Inv(DoHold(s, len, h))
  {
    var t := DoHold(s, len, h);
    IncrKeeps(s.mem, s.cur);
    forall b: nat ensures CountOf(t.mem, b) == OwnerShare(t, b) + RefCount(t.handles, b) {
      RefUpdate(s.handles, h, t.handles[h], b);
    }
    forall g | 0 <= g < |t.handles| ensures RegionOk(t, t.handles[g]) {
      assert RegionOk(s, s.handles[g]);
    }
    forall g, k | 0 <= g < |t.handles| && 0 <= k < |t.handles| ensures Apart(t.handles[g], t.handles[k]) {
      assert Apart(s.handles[g], s.handles[k]);
      assert RegionOk(s, s.handles[g]) && RegionOk(s, s.handles[k]);
    }
  }

  lemma StoreKeeps(s: Hb, bs: seq<Byte>)
    requires Inv(s) && Legal(s, Store(bs))
    ensures Inv(Step(s, Store(bs)))
  {
    var t := Step(s, Store(bs));
    PokeKeeps(s.mem, s.cur, s.used, bs);
    assert forall b: nat :: OwnerShare(t, b) == OwnerShare(s, b);
    forall h | 0 <= h < |t.handles| ensures RegionOk(t, t.handles[h]) {
      assert RegionOk(s, s.handles[h]);
    }
  }

  lemma DestroyKeeps(s: Hb)
    requires Inv(s) && s.alive
    ensures Inv(Step(s, Destroy))
  {
    var t := Step(s, Destroy);
    DecrKeeps(s.mem, s.cur);
    forall b: nat ensures CountOf(t.mem, b) == OwnerShare(t, b) + RefCount(t.handles, b) {
      assert CountOf(s.mem, b) == OwnerShare(s, b) + RefCount(s.handles, b);
    }
    forall h | 0 <= h < |t.handles| ensures RegionOk(t, t.handles[h]) {
      assert RegionOk(s, s.handles[h]);
      if t.handles[h].Ref? {
        LiveHandle(t, h);
      }
    }
  }

  lemma SkipKeeps(s: Hb, len: nat)
    requires Inv(s) && s.alive
    ensures Inv(Step(s, Skip(len)))
  {
    var t := Step(s, Skip(len));
    assert forall b: nat :: OwnerShare(t, b) == OwnerShare(s, b);
    forall h | 0 <= h < |t.handles| ensures RegionOk(t, t.handles[h]) {
      assert RegionOk(s, s.handles[h]);
    }
  }

  /** Every operation and every step of another thread keeps counts and regions right. */
  lemma StepKeeps(s: Hb, op: Op)
    requires Inv(s) && Legal(s, op)
    ensures Inv(Step(s, op))
  {
    match op {
      case Reserve(len, init, env) => ReserveKeeps(s, len, init, env);
      case Store(bs) => StoreKeeps(s, bs);
      case Hold(len, h) => HoldKeeps(s, len, h);
      case Skip(len) => SkipKeeps(s, len);
      case Env(e) =>
        EnvStepKeeps(s, e);
        EnvInv(s, EnvStep(s, e));
      case Destroy => DestroyKeeps(s);
    }
  }

  // ------------------------------------------------------------ theorems over runs

  /** The k-th operation was legal and led to the next state. */
  predicate StepAt(tr: seq<Hb>, ops: seq<Op>, k: nat)
    requires |tr| == |ops| + 1 && k < |ops|
  {
    OwnerOk(tr[k]) && Legal(tr[k], ops[k]) && tr[k + 1] == Step(tr[k], ops[k])
  }

  predicate IsRun(tr: seq<Hb>, ops: seq<Op>, init: nat, nhandles: nat)
  {
    && |tr| == |ops| + 1
    && tr[0] == New(init, nhandles)
    && (forall k :: 0 <= k < |ops| ==> StepAt(tr, ops, k))
  }

  lemma NewInv(init: nat, nhandles: nat)
    ensures Inv(New(init, nhandles))
  {
    var s := New(init, nhandles);
    AllocKeeps(Mem(map[], 0, []), Zeros(Growth.Max(init, HEADER)));
    forall b: nat ensures CountOf(s.mem, b) == OwnerShare(s, b) + RefCount(s.handles, b) {
      NoRefs(s.handles, b);
    }
  }

  lemma {:induction false} RegionsRun(tr: seq<Hb>, ops: seq<Op>, init: nat, nhandles: nat, n: nat)
    requires IsRun(tr, ops, init, nhandles) && n < |tr|
    ensures Inv(tr[n])
  {
    if n == 0 {
      NewInv(init, nhandles);
    } else {
      RegionsRun(tr, ops, init, nhandles, n - 1);
      assert StepAt(tr, ops, n - 1);
      StepKeeps(tr[n - 1], ops[n - 1]);
    }
  }

  /** Where the owner may write next, it meets no live region; and two live regions of different holds never meet. */
  lemma RegionsDisjoint(tr: seq<Hb>, ops: seq<Op>, init: nat, nhandles: nat, n: nat, h: nat, g: nat)
    requires IsRun(tr, ops, init, nhandles) && n < |tr| && h < |tr[n].handles| && g < |tr[n].handles|
    requires tr[n].handles[h].Ref? && tr[n].handles[g].Ref?
    ensures var s := tr[n]; var x, y := s.handles[h], s.handles[g];
            && x.block in s.mem.heap
            && (x.tag == y.tag ==> x == y)
            && (x.tag != y.tag ==> x.block != y.block || x.hi <= y.lo || y.hi <= x.lo)
            && (s.alive ==> x.block != s.cur || x.hi <= s.used)
  {
    RegionsRun(tr, ops, init, nhandles, n);
    assert RegionOk(tr[n], tr[n].handles[h]) && Apart(tr[n].handles[h], tr[n].handles[g]);
  }

  /** Once the buffer is destroyed and every handle is null, every block ever allocated has been freed, once. */
  lemma NothingLeaks(tr: seq<Hb>, ops: seq<Op>, init: nat, nhandles: nat, n: nat)
    requires IsRun(tr, ops, init, nhandles) && n < |tr|
    requires !tr[n].alive && forall h :: 0 <= h < |tr[n].handles| ==> tr[n].handles[h].Null?
    ensures tr[n].mem.heap == map[]
    ensures forall b :: 0 <= b < tr[n].mem.next ==> multiset(tr[n].mem.freed)[b] == 1
  {
    RegionsRun(tr, ops, init, nhandles, n);
    var s := tr[n];
    forall b: nat ensures b !in s.mem.heap {
      NoRefs(s.handles, b);
      assert CountOf(s.mem, b) == OwnerShare(s, b) + RefCount(s.handles, b);
    }
    forall b | 0 <= b < s.mem.next ensures multiset(s.mem.freed)[b] == 1 {
      DistinctCount(s.mem.freed, b);
    }
  }

  /** The bytes a handle was handed out for. */
  function RegionBytes(s: Hb, x: Handle): seq<Byte>
    requires x.Ref? && x.block in s.mem.heap && x.lo <= x.hi <= |s.mem.heap[x.block].data|
  {
    s.mem.heap[x.block].data[x.lo..x.hi]
  }

  lemma LiveRegion(s: Hb, x: Handle)
    requires Inv(s) && x.Ref? && x in s.handles
    ensures RegionOk(s, x)
    ensures s.alive && CountOf(s.mem, s.cur) == 1 ==> x.block != s.cur
  {
    var h :| 0 <= h < |s.handles| && s.handles[h] == x;
    assert RegionOk(s, s.handles[h]);
    LiveHandle(s, h);
  }

  lemma RegionStep(s: Hb, op: Op, x: Handle)
    requires Inv(s) && Legal(s, op) && x.Ref? && x in s.handles && x in Step(s, op).handles
    ensures RegionOk(s, x) && RegionOk(Step(s, op), x)
    ensures RegionBytes(Step(s, op), x) == RegionBytes(s, x)
  {
    StepKeeps(s, op);
    LiveRegion(s, x);
    LiveRegion(Step(s, op), x);
    match op {
      case Reserve(len, init, env) => RegionReserve(s, len, init, env, x);
      case Store(bs) =>
      case Hold(_, _) =>
      case Skip(_) =>
      case Env(e) => EnvStepKeeps(s, e);
      case Destroy => DecrKeeps(s.mem, s.cur);
    }
  }

  lemma RegionExpand(s: Hb, len: nat, init: nat, x: Handle)
    requires Inv(s) && s.alive && x.Ref? && x in s.handles
    ensures RegionOk(s, x) && RegionOk(Expand(s, len, init), x)
    ensures RegionBytes(Expand(s, len, init), x) == RegionBytes(s, x)
  {
    LiveRegion(s, x);
    if s.used == HEADER && CountOf(s.mem, s.cur) == 1 {
      GrowKeeps(s, len);
    } else {
      ReplaceKeeps(s, len, init);
      AllocKeeps(s.mem, Zeros(Growth.Doubled(Growth.Max(init, HEADER), len + HEADER)));
    }
    LiveRegion(Expand(s, len, init), x);
  }

  lemma RegionReserve(s: Hb, len: nat, init: nat, env: seq<EnvOp>, x: Handle)
    requires Inv(s) && s.alive && x.Ref? && x in s.handles && x in DoReserve(s, len, init, env).handles
    ensures RegionOk(s, x) && RegionOk(DoReserve(s, len, init, env), x)
    ensures RegionBytes(DoReserve(s, len, init, env), x) == RegionBytes(s, x)
  {
    RewindKeeps(s);
    var u := Rewind(s);
    EnvStepsKeep(u, env);
    var t := EnvSteps(u, env);
    EnvInv(u, t);
    LiveRegion(s, x);
    assert x in t.handles;
    LiveRegion(t, x);
    if t.free < len {
      RegionExpand(t, len, init, x);
    }
  }

  predicate LiveIn(s: Hb, x: Handle) { x.Ref? && x in s.handles }

  /** The region is where it was, with the bytes it had. */
  predicate SameBytes(s: Hb, t: Hb, x: Handle)
  {
    x.Ref? && RegionOk(s, x) && RegionOk(t, x) && RegionBytes(t, x) == RegionBytes(s, x)
  }

  lemma SameBytesTransitive(s: Hb, t: Hb, u: Hb, x: Handle)
    requires SameBytes(s, t, x) && SameBytes(t, u, x)
    ensures SameBytes(s, u, x)
  {
  }

  /** Held bytes are immutable: while a handle on the region is live, over any stretch of any run. */
  lemma {:induction false} HeldBytesRun(tr: seq<Hb>, ops: seq<Op>, init: nat, nhandles: nat, i: nat, j: nat, x: Handle)
    requires IsRun(tr, ops, init, nhandles) && i <= j < |tr|
    requires forall k :: i <= k <= j ==> LiveIn(tr[k], x)
    ensures SameBytes(tr[i], tr[j], x)
    decreases j - i
  {
    RegionsRun(tr, ops, init, nhandles, j);
    assert LiveIn(tr[j], x);
    LiveRegion(tr[j], x);
    if i < j {
      var s, t := tr[j - 1], tr[j];
      HeldBytesRun(tr, ops, init, nhandles, i, j - 1, x);
      RegionsRun(tr, ops, init, nhandles, j - 1);
      Stepped(tr, ops, init, nhandles, j - 1);
      assert LiveIn(s, x);
      RegionStep(s, ops[j - 1], x);
      SameBytesTransitive(tr[i], s, t, x);
    }
  }

  lemma Stepped(tr: seq<Hb>, ops: seq<Op>, init: nat, nhandles: nat, k: nat)
    requires IsRun(tr, ops, init, nhandles) && k < |ops|
    ensures OwnerOk(tr[k]) && Legal(tr[k], ops[k]) && tr[k + 1] == Step(tr[k], ops[k])
  {
    assert StepAt(tr, ops, k);
  }
}
