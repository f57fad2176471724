/**
 * stream_buffer over whole runs: reference accounting, immutability of pinned
 * bytes, and the byte queue the owner sees.
 */
module StreamProofs {
  import opened RefBlocks
  import opened StreamSpec
  import opened Sequences
  import Growth

  // ------------------------------------------------------------ counting

  lemma {:induction false} HandleUpdate(hs: seq<seq<nat>>, h: nat, x: seq<nat>, b: nat)
    requires h < |hs|
    ensures HandleCount(hs[h := x], b) + multiset(hs[h])[b] == HandleCount(hs, b) + multiset(x)[b]
  {
    var n := |hs| - 1;
    if h == n {
      assert hs[h := x][..n] == hs[..n];
    } else {
      HandleUpdate(hs[..n], h, x, b);
      assert hs[h := x][..n] == hs[..n][h := x];
    }
  }

  lemma {:induction false} HandleAtLeast(hs: seq<seq<nat>>, h: nat, b: nat)
    requires h < |hs|
    ensures HandleCount(hs, b) >= multiset(hs[h])[b]
  {
    var n := |hs| - 1;
    if h < n {
      HandleAtLeast(hs[..n], h, b);
    }
  }

  lemma {:induction false} NoHandles(hs: seq<seq<nat>>, b: nat)
    requires forall h :: 0 <= h < |hs| ==> hs[h] == []
    ensures HandleCount(hs, b) == 0
  {
    if hs != [] {
      NoHandles(hs[..|hs| - 1], b);
    }
  }

  lemma {:induction false} ReleaseAllKeeps(m: Mem, bs: seq<nat>)
    requires MemOk(m) && forall b: nat :: CountOf(m, b) >= multiset(bs)[b]
    ensures MemOk(ReleaseAll(m, bs)) && Shrinks(m, ReleaseAll(m, bs))
    ensures forall b: nat :: CountOf(ReleaseAll(m, bs), b) == CountOf(m, b) - multiset(bs)[b]
    decreases |bs|
  {
    if bs != [] {
      var c := bs[0];
      assert multiset(bs)[c] >= 1;
      assert CountOf(m, c) >= 1;
      DecrKeeps(m, c);
      var n := Release(m, c);
      forall b: nat ensures CountOf(n, b) >= multiset(bs[1..])[b] && multiset(bs)[b] == multiset(bs[1..])[b] + CountOf(m, b) - CountOf(n, b) {
        HeadCount(bs, b);
      }
      ReleaseAllKeeps(n, bs[1..]);
    }
  }

  // ------------------------------------------------------------ other threads

  /** Only handles went away; the owner's view of its block is untouched. */
  predicate EnvOnly(s: Sb, t: Sb)
  {
    t == s.(mem := t.mem, handles := t.handles) && |t.handles| == |s.handles| && Shrinks(s.mem, t.mem)
  }

  lemma DropKeeps(s: Sb, h: nat)
    requires Accounted(s) && h < |s.handles| && s.handles[h] != []
    ensures Accounted(EnvStep(s, Drop(h))) && EnvOnly(s, EnvStep(s, Drop(h)))
  {
    var t := EnvStep(s, Drop(h));
    var c := s.handles[h][0];
    HandleAtLeast(s.handles, h, c);
    assert multiset(s.handles[h])[c] >= 1;
    assert CountOf(s.mem, c) >= 1;
    DecrKeeps(s.mem, c);
    forall b: nat ensures CountOf(t.mem, b) == OwnerShare(t, b) + HandleCount(t.handles, b) {
      HandleUpdate(s.handles, h, s.handles[h][1..], b);
      HeadCount(s.handles[h], b);
    }
  }

  lemma SwapKeeps(s: Sb, h: nat, g: nat)
    requires Accounted(s) && h < |s.handles| && g < |s.handles|
    ensures Accounted(EnvStep(s, Swap(h, g))) && EnvOnly(s, EnvStep(s, Swap(h, g)))
  {
    var t := EnvStep(s, Swap(h, g));
    var mid := s.handles[h := s.handles[g]];
    forall b: nat ensures CountOf(t.mem, b) == OwnerShare(t, b) + HandleCount(t.handles, b) {
      HandleUpdate(s.handles, h, s.handles[g], b);
      HandleUpdate(mid, g, s.handles[h], b);
    }
  }

  lemma EnvStepKeeps(s: Sb, e: EnvOp)
    requires Accounted(s)
    ensures Accounted(EnvStep(s, e)) && EnvOnly(s, EnvStep(s, e))
  {
    match e {
      case Drop(h) => if h < |s.handles| && s.handles[h] != [] { DropKeeps(s, h); }
      case Swap(h, g) => if h < |s.handles| && g < |s.handles| { SwapKeeps(s, h, g); }
    }
  }

  lemma {:induction false} EnvStepsKeep(s: Sb, es: seq<EnvOp>)
    requires Accounted(s)
    ensures Accounted(EnvSteps(s, es)) && EnvOnly(s, EnvSteps(s, es))
    decreases |es|
  {
    if es != [] {
      EnvStepKeeps(s, es[0]);
      EnvStepsKeep(EnvStep(s, es[0]), es[1..]);
    }
  }

  /** However handles come and go, the owner's block stays, as it was. */
  lemma OwnerUndisturbed(s: Sb, t: Sb)
    requires Accounted(t) && OwnerOk(s) && EnvOnly(s, t)
    ensures OwnerOk(t)
    ensures s.alive ==> Data(t) == Data(s)
  {
    if s.alive {
      assert CountOf(t.mem, t.cur) >= 1;
    }
  }

  // ------------------------------------------------------------ the owner's operations

  lemma RewindKeeps(s: Sb)
    requires Inv(s) && s.alive
    ensures Inv(Rewind(s)) && Data(Rewind(s)) == Data(s)
  {
    var t := Rewind(s);
    assert forall b: nat :: OwnerShare(t, b) == OwnerShare(s, b);
  }

  lemma GrowKeeps(s: Sb, len: nat)
    requires Inv(s) && s.alive && CountOf(s.mem, s.cur) == 1
    ensures Inv(Grow(s, len)) && Grow(s, len).free >= len && Data(Grow(s, len)) == Data(s)
  {
    var t := Grow(s, len);
    var size := Growth.Doubled((s.used + s.free) * 2, len + s.used);
    var data := s.mem.heap[s.cur].data;
    MovedKeeps(s.mem, s.cur, data + Zeros(size - |data|));
    assert OwnerShare(s, s.cur) == 1;
    assert CountOf(s.mem, s.mem.next) == 0;
    forall b: nat ensures CountOf(t.mem, b) == OwnerShare(t, b) + HandleCount(t.handles, b) {
      assert CountOf(s.mem, b) == OwnerShare(s, b) + HandleCount(s.handles, b);
    }
    assert multiset(t.mref)[t.cur] == 0;
  }

  lemma ReplaceKeeps(s: Sb, len: nat, init: nat)
    requires Inv(s) && s.alive
    ensures Inv(Replace(s, len, init)) && Replace(s, len, init).free >= len && Data(Replace(s, len, init)) == Data(s)
  {
    var t := Replace(s, len, init);
    var rest := s.mem.heap[s.cur].data[s.off..s.used];
    var size := Growth.Doubled(Growth.Max(init, HEADER), len + |rest| + HEADER);
    AllocKeeps(s.mem, Patch(Zeros(size), HEADER, rest));
    assert CountOf(s.mem, s.mem.next) == 0;
    forall b: nat ensures CountOf(t.mem, b) == OwnerShare(t, b) + HandleCount(t.handles, b) {
      assert CountOf(s.mem, b) == OwnerShare(s, b) + HandleCount(s.handles, b);
      assert multiset(t.mref)[b] == multiset(s.mref)[b] + if b == s.cur then 1 else 0;
    }
    assert multiset(t.mref)[t.cur] == 0;
    assert t.mem.heap[t.cur].data[HEADER..HEADER + |rest|] == rest;
  }

  lemma ExpandKeeps(s: Sb, len: nat, init: nat)
    requires Inv(s) && s.alive
    ensures Inv(Expand(s, len, init)) && Expand(s, len, init).alive
    ensures Expand(s, len, init).free >= len && Data(Expand(s, len, init)) == Data(s)
  {
    if s.off == HEADER && CountOf(s.mem, s.cur) == 1 {
      GrowKeeps(s, len);
    } else {
      ReplaceKeeps(s, len, init);
    }
  }

  lemma ReserveKeeps(s: Sb, len: nat, init: nat, env: seq<EnvOp>)
    requires Inv(s) && s.alive
    ensures Inv(DoReserve(s, len, init, env)) && DoReserve(s, len, init, env).alive
    ensures DoReserve(s, len, init, env).free >= len && Data(DoReserve(s, len, init, env)) == Data(s)
  {
    RewindKeeps(s);
    var u := Rewind(s);
    EnvStepsKeep(u, env);
    var t := EnvSteps(u, env);
    OwnerUndisturbed(u, t);
    if t.free < len {
      ExpandKeeps(t, len, init);
    }
  }

  /** The block grows to twice its size at least, and to no more than the need asks for. */
  predicate GrownTo(was: nat, now: nat, need: nat)
  {
    now >= need && now >= 2 * was && (now == 2 * was || now < 2 * need)
  }

  /**
   * What reserve_buffer does, by cases, when nobody interferes. An empty buffer
   * that nobody refers to starts over in its whole block; a block with enough room
   * is kept; a block without consumed bytes that nobody refers to is grown, and
   * not handed to m_ref; any other is handed to m_ref and its data moved to the
   * front of a new one.
   */
  lemma ReserveLaw(s: Sb, len: nat, init: nat)
    requires Inv(s) && s.alive
    ensures var t, size := DoReserve(s, len, init, []), |s.mem.heap[s.cur].data|;
            var mine := CountOf(s.mem, s.cur) == 1;
            && (s.used == s.off && mine && size - HEADER >= len ==>
                  t == s.(used := HEADER, off := HEADER, free := size - HEADER))
            && (s.used == s.off && mine && size - HEADER < len ==>
                  t.mref == s.mref && t.used == t.off == HEADER && s.cur in t.mem.freed
                  && GrownTo(size, t.used + t.free, len + HEADER))
            && (!(s.used == s.off && mine) && s.free >= len ==> t == s)
            && (s.used != s.off && s.off == HEADER && mine && s.free < len ==>
                  t.mref == s.mref && t.used == s.used && t.off == HEADER && s.cur in t.mem.freed
                  && GrownTo(size, t.used + t.free, len + s.used))
            && (!(s.off == HEADER && mine) && !(s.used == s.off && mine) && s.free < len ==>
                  t.mref == s.mref + [s.cur] && t.cur != s.cur && t.off == HEADER && t.used == HEADER + (s.used - s.off)
                  && CountOf(t.mem, s.cur) == CountOf(s.mem, s.cur) && CountOf(t.mem, t.cur) == 1)
  {
    var u := Rewind(s);
    assert EnvSteps(u, []) == u;
    assert CountOf(s.mem, s.mem.next) == 0;
  }

  /** What other threads do to handles: one reference is given up from the front, or two handles change places. */
  lemma EnvLaw(s: Sb, h: nat, g: nat)
    requires Accounted(s) && h < |s.handles| && g < |s.handles|
    ensures s.handles[h] != [] ==>
              var t, b := EnvStep(s, Drop(h)), s.handles[h][0];
              && t.handles == s.handles[h := s.handles[h][1..]]
              && (forall x: nat :: CountOf(t.mem, x) == CountOf(s.mem, x) - if x == b then 1 else 0)
              && t.mem.freed == s.mem.freed + if CountOf(s.mem, b) == 1 then [b] else []
    ensures var t := EnvStep(s, Swap(h, g));
            t.mem == s.mem && t.handles[h] == s.handles[g] && t.handles[g] == s.handles[h] && |t.handles| == |s.handles|
            && forall k :: 0 <= k < |s.handles| && k != h && k != g ==> t.handles[k] == s.handles[k]
  {
    if s.handles[h] != [] {
      var b := s.handles[h][0];
      HandleAtLeast(s.handles, h, b);
      assert multiset(s.handles[h])[b] >= 1;
      DecrKeeps(s.mem, b);
    }
  }

  /** retain_to gives the handle m_ref and the current block, and empties m_ref; no other handle changes. */
  lemma RetainLaw(s: Sb, h: nat)
    requires Inv(s) && s.alive && h < |s.handles|
    ensures var t := DoRetain(s, h, []);
            && t.mref == [] && t.handles == s.handles[h := s.mref + [s.cur]]
            && t.cur == s.cur && t.used == s.used && t.free == s.free && t.off == s.off
  {
    assert EnvSteps(Pinned(s, h), []) == Pinned(s, h);
  }

  lemma PinnedKeeps(s: Sb, h: nat)
    requires Inv(s) && s.alive && h < |s.handles|
    ensures Accounted(Pinned(s, h)) && OwnerOk(Pinned(s, h)) && Data(Pinned(s, h)) == Data(s)
  {
    var t := Pinned(s, h);
    IncrKeeps(s.mem, s.cur);
    forall b: nat ensures CountOf(t.mem, b) == OwnerShare(t, b) + HandleCount(t.handles, b) {
      HandleUpdate(s.handles, h, s.mref + [s.cur], b);
      assert multiset(s.mref + [s.cur])[b] == multiset(s.mref)[b] + if b == s.cur then 1 else 0;
    }
  }

  lemma RetainKeeps(s: Sb, h: nat, env: seq<EnvOp>)
    requires Inv(s) && s.alive && h < |s.handles|
    ensures Inv(DoRetain(s, h, env)) && DoRetain(s, h, env).alive && Data(DoRetain(s, h, env)) == Data(s)
  {
    PinnedKeeps(s, h);
    var u := Pinned(s, h);
    EnvStepsKeep(u, env);
    var t := EnvSteps(u, env);
    OwnerUndisturbed(u, t);
    forall b: nat ensures CountOf(t.mem, b) >= multiset(t.mref)[b] {
      assert CountOf(t.mem, b) == OwnerShare(t, b) + HandleCount(t.handles, b);
    }
    ReleaseAllKeeps(t.mem, t.mref);
    var v := DoRetain(s, h, env);
    forall b: nat ensures CountOf(v.mem, b) == OwnerShare(v, b) + HandleCount(v.handles, b) {
      assert CountOf(t.mem, b) == OwnerShare(t, b) + HandleCount(t.handles, b);
    }
    assert CountOf(v.mem, v.cur) >= 1;
  }

  lemma FillKeeps(s: Sb, bs: seq<Byte>)
    requires Inv(s) && Legal(s, Fill(bs))
    ensures Inv(Step(s, Fill(bs))) && Step(s, Fill(bs)).alive && Data(Step(s, Fill(bs))) == Data(s) + bs
  {
    var t := Step(s, Fill(bs));
    PokeKeeps(s.mem, s.cur, s.used, bs);
    assert forall b: nat :: OwnerShare(t, b) == OwnerShare(s, b);
  }

  lemma ConsumeKeeps(s: Sb, n: nat)
    requires Inv(s) && Legal(s, Consume(n))
    ensures Inv(Step(s, Consume(n))) && Step(s, Consume(n)).alive && Data(Step(s, Consume(n))) == Data(s)[n..]
  {
    var t := Step(s, Consume(n));
    assert forall b: nat :: OwnerShare(t, b) == OwnerShare(s, b);
  }

  lemma DestroyKeeps(s: Sb)
    requires Inv(s) && s.alive
    ensures Inv(Step(s, Destroy)) && !Step(s, Destroy).alive
  {
    var t := Step(s, Destroy);
    assert CountOf(s.mem, s.cur) >= 1;
    DecrKeeps(s.mem, s.cur);
    var n := Release(s.mem, s.cur);
    forall b: nat ensures CountOf(n, b) == multiset(s.mref)[b] + HandleCount(s.handles, b) {
      assert CountOf(s.mem, b) == OwnerShare(s, b) + HandleCount(s.handles, b);
    }
    ReleaseAllKeeps(n, s.mref);
    forall b: nat ensures CountOf(t.mem, b) == OwnerShare(t, b) + HandleCount(t.handles, b) {
      assert CountOf(n, b) == multiset(s.mref)[b] + HandleCount(s.handles, b);
    }
  }

  /** Every operation and every step of another thread keeps the accounting. */
  lemma StepKeeps(s: Sb, op: Op)
    requires Inv(s) && Legal(s, op)
    ensures Inv(Step(s, op))
  {
    match op {
      case Reserve(len, init, env) => ReserveKeeps(s, len, init, env);
      case Fill(bs) => FillKeeps(s, bs);
      case Consume(n) => ConsumeKeeps(s, n);
      case RetainTo(h, env) => RetainKeeps(s, h, env);
      case Env(e) =>
        EnvStepKeeps(s, e);
        OwnerUndisturbed(s, EnvStep(s, e));
      case Destroy => DestroyKeeps(s);
    }
  }
}
