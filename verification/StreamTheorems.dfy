/**
 * stream_buffer: theorems over every run of the owner and the other threads.
 */
module StreamTheorems {
  import opened RefBlocks
  import opened StreamSpec
  import opened StreamProofs
  import opened Sequences
  import Growth

  /** The k-th operation was legal and led to the next state. */
  predicate StepAt(tr: seq<Sb>, ops: seq<Op>, k: nat)
    requires |tr| == |ops| + 1 && k < |ops|
  {
    OwnerOk(tr[k]) && Legal(tr[k], ops[k]) && tr[k + 1] == Step(tr[k], ops[k])
  }

  /** tr is a run of legal operations from a new buffer. */
  predicate IsRun(tr: seq<Sb>, ops: seq<Op>, init: nat, nhandles: nat)
  {
    && |tr| == |ops| + 1
    && tr[0] == New(init, nhandles)
    && (forall k :: 0 <= k < |ops| ==> StepAt(tr, ops, k))
  }

  lemma NewInv(init: nat, nhandles: nat)
    ensures Inv(New(init, nhandles)) && Data(New(init, nhandles)) == []
  {
    var s := New(init, nhandles);
    AllocKeeps(Mem(map[], 0, []), Zeros(Growth.Max(init, HEADER)));
    forall b: nat ensures CountOf(s.mem, b) == OwnerShare(s, b) + HandleCount(s.handles, b) {
      NoHandles(s.handles, b);
    }
  }

  /** In every reachable state counts equal holders, and each block is live or was freed once. */
  lemma {:induction false} AccountingRun(tr: seq<Sb>, ops: seq<Op>, init: nat, nhandles: nat, n: nat)
    requires IsRun(tr, ops, init, nhandles) && n < |tr|
    ensures Inv(tr[n])
    ensures forall b: nat :: CountOf(tr[n].mem, b) == OwnerShare(tr[n], b) + HandleCount(tr[n].handles, b)
    ensures forall b: nat :: b < tr[n].mem.next ==> (b in tr[n].mem.heap <==> b !in tr[n].mem.freed)
  {
    if n == 0 {
      NewInv(init, nhandles);
    } else {
      AccountingRun(tr, ops, init, nhandles, n - 1);
      assert StepAt(tr, ops, n - 1);
      StepKeeps(tr[n - 1], ops[n - 1]);
    }
  }

  /** Once the buffer is destroyed and every handle is empty, every block ever allocated has been freed, once. */
  lemma NothingLeaks(tr: seq<Sb>, ops: seq<Op>, init: nat, nhandles: nat, n: nat)
    requires IsRun(tr, ops, init, nhandles) && n < |tr|
    requires !tr[n].alive && forall h :: 0 <= h < |tr[n].handles| ==> tr[n].handles[h] == []
    ensures tr[n].mem.heap == map[]
    ensures forall b :: 0 <= b < tr[n].mem.next ==> multiset(tr[n].mem.freed)[b] == 1
  {
    AccountingRun(tr, ops, init, nhandles, n);
    var s := tr[n];
    forall b: nat ensures b !in s.mem.heap {
      NoHandles(s.handles, b);
      assert CountOf(s.mem, b) == OwnerShare(s, b) + HandleCount(s.handles, b);
    }
    forall b | 0 <= b < s.mem.next ensures multiset(s.mem.freed)[b] == 1 {
      DistinctCount(s.mem.freed, b);
    }
  }

  // ------------------------------------------------------------ pinned bytes

  /** The end of the bytes a handle on the block may rely on. */
  function Mark(s: Sb, b: nat): nat
    requires b in s.mem.heap
  {
    if s.alive && b == s.cur then s.used else |s.mem.heap[b].data|
  }

  /** The block is still there, and its bytes below the mark are what they were. */
  predicate Preserved(s: Sb, t: Sb, b: nat)
  {
    && b in s.mem.heap && b in t.mem.heap
    && Mark(s, b) <= |s.mem.heap[b].data|
    && Mark(s, b) <= Mark(t, b) <= |t.mem.heap[b].data|
    && t.mem.heap[b].data[..Mark(s, b)] == s.mem.heap[b].data[..Mark(s, b)]
  }

  lemma PreservedTransitive(s: Sb, t: Sb, u: Sb, b: nat)
    requires Preserved(s, t, b) && Preserved(t, u, b)
    ensures Preserved(s, u, b)
  {
    var m, n := Mark(s, b), Mark(t, b);
    assert u.mem.heap[b].data[..m] == u.mem.heap[b].data[..n][..m];
    assert t.mem.heap[b].data[..m] == t.mem.heap[b].data[..n][..m];
  }

  lemma HeldIsLive(s: Sb, b: nat)
    requires Inv(s) && Held(s, b)
    ensures b in s.mem.heap && Mark(s, b) <= |s.mem.heap[b].data|
    ensures s.alive && b == s.cur ==> CountOf(s.mem, b) >= 2
  {
    assert CountOf(s.mem, b) == OwnerShare(s, b) + HandleCount(s.handles, b);
  }

  lemma PinnedReserve(s: Sb, len: nat, init: nat, env: seq<EnvOp>, b: nat)
    requires Inv(s) && s.alive && Held(s, b) && Held(DoReserve(s, len, init, env), b)
    ensures Preserved(s, DoReserve(s, len, init, env), b)
  {
    HeldIsLive(s, b);
    RewindKeeps(s);
    var u := Rewind(s);
    EnvStepsKeep(u, env);
    var t := EnvSteps(u, env);
    OwnerUndisturbed(u, t);
    assert Held(t, b);
    assert CountOf(t.mem, b) == OwnerShare(t, b) + HandleCount(t.handles, b);
    assert Preserved(s, t, b);
    if t.free < len {
      if t.off == HEADER && CountOf(t.mem, t.cur) == 1 {
        assert b != t.cur;
      }
      AllocKeeps(t.mem, []);
    }
  }

  lemma PinnedRetain(s: Sb, h: nat, env: seq<EnvOp>, b: nat)
    requires Inv(s) && s.alive && h < |s.handles| && Held(s, b) && Held(DoRetain(s, h, env), b)
    ensures Preserved(s, DoRetain(s, h, env), b)
  {
    HeldIsLive(s, b);
    RetainKeeps(s, h, env);
    var v := DoRetain(s, h, env);
    HeldIsLive(v, b);
    PinnedKeeps(s, h);
    EnvStepsKeep(Pinned(s, h), env);
    var t := EnvSteps(Pinned(s, h), env);
    forall c: nat ensures CountOf(t.mem, c) >= multiset(t.mref)[c] {
      assert CountOf(t.mem, c) == OwnerShare(t, c) + HandleCount(t.handles, c);
    }
    ReleaseAllKeeps(t.mem, t.mref);
  }

  /** One step, whoever takes it, changes, moves or frees no byte below the mark of a block that stays in a handle. */
  lemma PinnedStep(s: Sb, op: Op, b: nat)
    requires Inv(s) && Legal(s, op) && Held(s, b) && Held(Step(s, op), b)
    ensures Preserved(s, Step(s, op), b)
  {
    HeldIsLive(s, b);
    StepKeeps(s, op);
    HeldIsLive(Step(s, op), b);
    match op {
      case Reserve(len, init, env) => PinnedReserve(s, len, init, env, b);
      case RetainTo(h, env) => PinnedRetain(s, h, env, b);
      case Fill(bs) =>
      case Consume(n) =>
      case Env(e) => EnvStepKeeps(s, e);
      case Destroy => PinnedDestroy(s, b);
    }
  }

  lemma PinnedDestroy(s: Sb, b: nat)
    requires Inv(s) && s.alive && Held(s, b)
    ensures b in Step(s, Destroy).mem.heap && Preserved(s, Step(s, Destroy), b)
  {
    HeldIsLive(s, b);
    DestroyKeeps(s);
    HeldIsLive(Step(s, Destroy), b);
    DecrKeeps(s.mem, s.cur);
    var n := Release(s.mem, s.cur);
    forall c: nat ensures CountOf(n, c) >= multiset(s.mref)[c] {
      assert CountOf(s.mem, c) == OwnerShare(s, c) + HandleCount(s.handles, c);
    }
    ReleaseAllKeeps(n, s.mref);
  }

  lemma PinnedAt(tr: seq<Sb>, ops: seq<Op>, init: nat, nhandles: nat, n: nat, b: nat)
    requires IsRun(tr, ops, init, nhandles) && n < |ops| && Held(tr[n], b) && Held(tr[n + 1], b)
    ensures Preserved(tr[n], tr[n + 1], b)
  {
    AccountingRun(tr, ops, init, nhandles, n);
    Stepped(tr, ops, init, nhandles, n);
    PinnedStep(tr[n], ops[n], b);
  }

  /** Pinned bytes are immutable: as long as some handle refers to the block, over any stretch of any run. */
  lemma {:induction false} PinnedRun(tr: seq<Sb>, ops: seq<Op>, init: nat, nhandles: nat, i: nat, j: nat, b: nat)
    requires IsRun(tr, ops, init, nhandles) && i <= j < |tr|
    requires forall k :: i <= k <= j ==> Held(tr[k], b)
    ensures Preserved(tr[i], tr[j], b)
    decreases j - i
  {
    AccountingRun(tr, ops, init, nhandles, i);
    HeldIsLive(tr[i], b);
    if i < j {
      PinnedRun(tr, ops, init, nhandles, i, j - 1, b);
      PinnedAt(tr, ops, init, nhandles, j - 1, b);
      PreservedTransitive(tr[i], tr[j - 1], tr[j], b);
    }
  }

  lemma Stepped(tr: seq<Sb>, ops: seq<Op>, init: nat, nhandles: nat, k: nat)
    requires IsRun(tr, ops, init, nhandles) && k < |ops|
    ensures OwnerOk(tr[k]) && Legal(tr[k], ops[k]) && tr[k + 1] == Step(tr[k], ops[k])
  {
    assert StepAt(tr, ops, k);
  }

  // ------------------------------------------------------------ the byte queue

  function Filled(ops: seq<Op>): seq<Byte>
  {
    if ops == [] then []
    else
      var o := ops[|ops| - 1];
      Filled(ops[..|ops| - 1]) + if o.Fill? then o.bs else []
  }

  function Consumed(ops: seq<Op>): nat
  {
    if ops == [] then 0
    else
      var o := ops[|ops| - 1];
      Consumed(ops[..|ops| - 1]) + if o.Consume? then o.n else 0
  }

  /** What each operation does to the bytes the owner sees. */
  lemma DataStep(s: Sb, op: Op)
    requires Inv(s) && Legal(s, op) && Step(s, op).alive
    ensures s.alive && OwnerOk(Step(s, op))
    ensures op.Consume? ==> op.n <= |Data(s)|
    ensures Data(Step(s, op)) == match op
                                 case Fill(bs) => Data(s) + bs
                                 case Consume(n) => Data(s)[n..]
                                 case _ => Data(s)
  {
    StepKeeps(s, op);
    match op {
      case Reserve(len, init, env) => ReserveKeeps(s, len, init, env);
      case Fill(bs) => FillKeeps(s, bs);
      case Consume(n) => ConsumeKeeps(s, n);
      case RetainTo(h, env) => RetainKeeps(s, h, env);
      case Env(e) =>
        EnvStepKeeps(s, e);
        OwnerUndisturbed(s, EnvStep(s, e));
      case Destroy =>
    }
  }

  lemma DataAt(tr: seq<Sb>, ops: seq<Op>, init: nat, nhandles: nat, n: nat)
    requires IsRun(tr, ops, init, nhandles) && n < |ops| && tr[n + 1].alive
    ensures tr[n].alive && OwnerOk(tr[n]) && OwnerOk(tr[n + 1])
    ensures ops[n].Consume? ==> ops[n].n <= |Data(tr[n])|
    ensures Data(tr[n + 1]) == match ops[n]
                               case Fill(bs) => Data(tr[n]) + bs
                               case Consume(k) => Data(tr[n])[k..]
                               case _ => Data(tr[n])
  {
    AccountingRun(tr, ops, init, nhandles, n);
    assert StepAt(tr, ops, n);
    DataStep(tr[n], ops[n]);
  }

  /** The buffer is a FIFO of bytes: it shows what was filled in, less the prefix that was consumed. */
  lemma {:induction false} FifoRun(tr: seq<Sb>, ops: seq<Op>, init: nat, nhandles: nat, n: nat)
    requires IsRun(tr, ops, init, nhandles) && n < |tr| && tr[n].alive
    ensures OwnerOk(tr[n]) && Consumed(ops[..n]) <= |Filled(ops[..n])|
    ensures Data(tr[n]) == Filled(ops[..n])[Consumed(ops[..n])..]
  {
    if n == 0 {
      NewInv(init, nhandles);
    } else {
      DataAt(tr, ops, init, nhandles, n - 1);
      FifoRun(tr, ops, init, nhandles, n - 1);
      SnocOps(ops, n);
      QueueStep(Filled(ops[..n - 1]), Consumed(ops[..n - 1]), ops[n - 1]);
    }
  }

  lemma QueueStep(f: seq<Byte>, c: nat, op: Op)
    requires c <= |f|
    ensures op.Fill? ==> (f + op.bs)[c..] == f[c..] + op.bs
    ensures op.Consume? && c + op.n <= |f| ==> f[c..][op.n..] == f[c + op.n..]
    ensures f + [] == f
  {
  }

  lemma SnocOps(ops: seq<Op>, n: nat)
    requires 0 < n <= |ops|
    ensures Filled(ops[..n]) == Filled(ops[..n - 1]) + if ops[n - 1].Fill? then ops[n - 1].bs else []
    ensures Consumed(ops[..n]) == Consumed(ops[..n - 1]) + if ops[n - 1].Consume? then ops[n - 1].n else 0
  {
    assert ops[..n][..n - 1] == ops[..n - 1] && ops[..n][n - 1] == ops[n - 1];
  }
}
