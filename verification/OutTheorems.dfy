/**
 * The output path over whole runs: registration, stream order, finalizers.
 */
module OutTheorems {
  import opened XferSpec
  import opened WavySystem
  import opened LoopProtocol
  import opened OutProtocol

  lemma {:induction false} FreshCount(ctx: seq<Ctx>)
    requires forall k :: 0 <= k < |ctx| ==> Fresh(ctx[k])
    ensures CountedIn(ctx) == 0
  {
    if ctx != [] {
      FreshCount(ctx[..|ctx| - 1]);
    }
  }

  lemma {:induction false} NoHolders(ws: seq<WorkerPc>, fd: nat)
    requires forall i :: 0 <= i < |ws| ==> !ws[i].InWrite?
    ensures HolderCount(ws, fd) == 0
  {
    if ws != [] {
      NoHolders(ws[..|ws| - 1], fd);
    }
  }

  lemma {:induction false} OutRun(tr: seq<State>, acts: seq<Action>, n: nat)
    requires IsRun(tr, acts) && n < |tr|
    ensures OutInv(tr[n])
  {
    if n == 0 {
      FreshCount(tr[0].ctx);
      forall fd | 0 <= fd < |tr[0].ctx| ensures RegOk(tr[0], fd) && CtxOk(tr[0].ctx[fd]) {
        assert Fresh(tr[0].ctx[fd]);
        NoHolders(tr[0].ws, fd);
      }
    } else {
      OutRun(tr, acts, n - 1);
      assert StepAt(tr, acts, n - 1);
      OutStep(tr[n - 1], acts[n - 1]);
    }
  }

  /** The fds are the same throughout a run. */
  lemma {:induction false} FdsRun(tr: seq<State>, acts: seq<Action>, n: nat)
    requires IsRun(tr, acts) && n < |tr|
    ensures |tr[n].ctx| == |tr[0].ctx|
  {
    if n > 0 {
      FdsRun(tr, acts, n - 1);
      assert StepAt(tr, acts, n - 1);
      StepSameFds(tr[n - 1], acts[n - 1]);
    }
  }

  /**
   * Outside its critical section an fd has one write event, armed, queued or in
   * hand, iff its queue is non-empty, and none otherwise; it is registered in
   * the out kernel exactly then.
   */
  lemma RegistrationProtocol(tr: seq<State>, acts: seq<Action>, n: nat, fd: nat)
    requires IsRun(tr, acts) && n < |tr| && fd < |tr[n].ctx| && tr[n].ctx[fd].phase.Unlocked?
    ensures WriteTokens(tr[n], fd) <= 1
    ensures tr[n].ctx[fd].queue != [] <==> WriteTokens(tr[n], fd) == 1
    ensures tr[n].ctx[fd].queue != [] <==> !tr[n].ctx[fd].reg.Unregistered?
  {
    OutRun(tr, acts, n);
    assert RegOk(tr[n], fd);
  }

  /** The counter is the number of fds with output pending, corrected for sections in progress; never negative. */
  lemma WatchingCounts(tr: seq<State>, acts: seq<Action>, n: nat)
    requires IsRun(tr, acts) && n < |tr|
    ensures tr[n].watching == CountedIn(tr[n].ctx) >= 0
    ensures tr[n].watching == 0 ==> forall fd :: 0 <= fd < |tr[n].ctx| ==> !Counted(tr[n].ctx[fd])
  {
    OutRun(tr, acts, n);
    if tr[n].watching == 0 {
      forall fd | 0 <= fd < |tr[n].ctx| ensures !Counted(tr[n].ctx[fd]) {
        CountedZero(tr[n].ctx, fd);
      }
    }
  }

  /** Nothing handed to the fd has been refused or dropped so far. */
  predicate Unfailed(c: Ctx)
  {
    forall e :: e in c.effects ==> e.Did?
  }

  /**
   * Up to the first failure the bytes delivered, followed by the bytes queued,
   * are the bytes of all calls in lock order.
   */
  lemma StreamOrder(tr: seq<State>, acts: seq<Action>, n: nat, fd: nat)
    requires IsRun(tr, acts) && n < |tr| && fd < |tr[n].ctx| && Unfailed(tr[n].ctx[fd])
    ensures var c := tr[n].ctx[fd];
            && Bytes(ItemsOf(c.effects)) + Bytes(Stream(c.queue)) == Bytes(c.accepted)
            && |c.effects| <= |c.accepted| && c.effects == DidAll(c.accepted[..|c.effects|])
  {
    OutRun(tr, acts, n);
    var c := tr[n].ctx[fd];
    assert CtxOk(c);
    BytesConcat(ItemsOf(c.effects), Stream(c.queue));
    forall k | 0 <= k < |c.effects| ensures c.effects[k] == Did(c.accepted[k]) {
      assert c.accepted[k] == ItemsOf(c.effects)[k];
      assert c.effects[k] in c.effects;
    }
  }

  /** Failed or not, what became of the items happened in the order they were handed in. */
  lemma EffectsInOrder(tr: seq<State>, acts: seq<Action>, n: nat, fd: nat, k: nat)
    requires IsRun(tr, acts) && n < |tr| && fd < |tr[n].ctx| && k < |tr[n].ctx[fd].effects|
    ensures ItemsOf(tr[n].ctx[fd].effects) + Stream(tr[n].ctx[fd].queue) == tr[n].ctx[fd].accepted
    ensures tr[n].ctx[fd].effects[k].item == tr[n].ctx[fd].accepted[k]
  {
    OutRun(tr, acts, n);
    var c := tr[n].ctx[fd];
    assert CtxOk(c);
    assert c.accepted[k] == ItemsOf(c.effects)[k];
  }

  // ------------------------------------------------------------ finalizers

  /** How often a finalizer has run on behalf of the fd. */
  function Ran(c: Ctx, x: Item): nat
  {
    multiset(c.effects)[Did(x)]
  }

  function Queued(c: Ctx, x: Item): nat
  {
    multiset(Stream(c.queue))[x]
  }

  lemma {:induction false} CountItems(es: seq<Effect>, x: Item)
    ensures multiset(ItemsOf(es))[x] == multiset(es)[Did(x)] + multiset(es)[Dropped(x)] + multiset(es)[Left(x)]
  {
    if es != [] {
      CountItems(es[1..], x);
      assert es == [es[0]] + es[1..];
      assert ItemsOf(es) == [es[0].item] + ItemsOf(es[1..]);
    }
  }

  lemma {:induction false} CountDid(items: seq<Item>, x: Item)
    ensures multiset(DidAll(items))[Did(x)] == multiset(items)[x]
  {
    if items != [] {
      CountDid(items[1..], x);
      assert items == [items[0]] + items[1..];
      assert DidAll(items) == [Did(items[0])] + DidAll(items[1..]);
    }
  }

  lemma {:induction false} CountCleared(items: seq<Item>, x: Item)
    requires x.Final?
    ensures multiset(ClearedAll(items))[Did(x)] == multiset(items)[x]
  {
    if items != [] {
      CountCleared(items[1..], x);
      assert items == [items[0]] + items[1..];
      var e := if IsByte(items[0]) then Dropped(items[0]) else Did(items[0]);
      assert ClearedAll(items) == [e] + ClearedAll(items[1..]);
    }
  }

  /** How often a finalizer has run or will run from the queue. */
  function Level(c: Ctx, x: Item): nat
  {
    Ran(c, x) + Queued(c, x)
  }

  /** A step moves queued finalizers only by running them. */
  predicate KeepsFinal(c: Ctx, d: Ctx, x: Item)
  {
    Level(c, x) <= Level(d, x)
  }

  lemma AppendKeeps(c: Ctx, x: Item)
    requires c.phase.Writing?
    ensures KeepsFinal(c, Append(c), x)
  {
    StreamConcat(c.queue, c.phase.rs);
  }

  lemma TryKeeps(c: Ctx, answers: seq<Answer>, x: Item)
    requires c.phase.Writing? && c.queue == []
    ensures KeepsFinal(c, Try(c, answers), x)
  {
  }

  lemma TryQueuedKeeps(c: Ctx, w: nat, answers: seq<Answer>, x: Item)
    ensures KeepsFinal(c, TryQueued(c, w, answers), x)
  {
    var o := Drain(c.queue, answers, 0);
    DrainConserves(c.queue, answers, 0);
    CountDid(o.trace, x);
  }

  lemma ClearKeeps(c: Ctx, w: nat, x: Item)
    requires x.Final?
    ensures KeepsFinal(c, Clear(c, w), x)
  {
    CountCleared(Stream(c.queue), x);
  }

  lemma OutKeeps(s: State, a: OutAction, fd: nat, x: Item)
    requires OutEnabled(s, a) && fd < |s.ctx| && x.Final?
    ensures |OutApply(s, a).ctx| == |s.ctx| && KeepsFinal(s.ctx[fd], OutApply(s, a).ctx[fd], x)
  {
    var c := s.ctx[fd];
    match a {
      case WriteAppend(_) => if a.fd == fd { AppendKeeps(c, x); }
      case WriteTry(_, answers) => if a.fd == fd { TryKeeps(c, answers, x); }
      case DrainTry(i, answers) => if s.ws[i].fd == fd { TryQueuedKeeps(c, i, answers, x); }
      case DrainClear(i) => if s.ws[i].fd == fd { ClearKeeps(c, i, x); }
      case _ =>
    }
  }

  lemma FinalStep(s: State, a: Action, fd: nat, x: Item)
    requires Enabled(s, a) && fd < |s.ctx| && x.Final?
    ensures |Apply(s, a).ctx| == |s.ctx| && KeepsFinal(s.ctx[fd], Apply(s, a).ctx[fd], x)
  {
    match a {
      case OnLoop(l) => LoopRegOnly(s, l, fd);
      case OnFlush(f) => CalmFlush(s, f);
      case OnOut(o) => OutKeeps(s, o, fd, x);
    }
  }

  /** The step from the j-th state keeps the fd's finalizer. */
  predicate KeepsAt(tr: seq<State>, j: nat, fd: nat, x: Item)
    requires j + 1 < |tr|
  {
    fd < |tr[j].ctx| == |tr[j + 1].ctx| && KeepsFinal(tr[j].ctx[fd], tr[j + 1].ctx[fd], x)
  }

  lemma FinalAt(tr: seq<State>, acts: seq<Action>, n: nat, fd: nat, x: Item)
    requires IsRun(tr, acts) && n < |acts| && fd < |tr[n].ctx| && x.Final?
    ensures KeepsAt(tr, n, fd, x)
  {
    assert StepAt(tr, acts, n);
    FinalStep(tr[n], acts[n], fd, x);
  }

  lemma {:induction false} KeptThroughout(tr: seq<State>, k: nat, n: nat, fd: nat, x: Item)
    requires k <= n < |tr| && fd < |tr[k].ctx| && forall j :: k <= j < n ==> KeepsAt(tr, j, fd, x)
    ensures |tr[n].ctx| == |tr[k].ctx| && KeepsFinal(tr[k].ctx[fd], tr[n].ctx[fd], x)
    decreases n - k
  {
    if k < n {
      KeptThroughout(tr, k, n - 1, fd, x);
      assert KeepsAt(tr, n - 1, fd, x);
    }
  }

  lemma FinalRun(tr: seq<State>, acts: seq<Action>, k: nat, n: nat, fd: nat, x: Item)
    requires IsRun(tr, acts) && k <= n < |tr| && fd < |tr[k].ctx| && x.Final?
    ensures |tr[n].ctx| == |tr[k].ctx| && KeepsFinal(tr[k].ctx[fd], tr[n].ctx[fd], x)
  {
    FdsRun(tr, acts, k);
    forall j | k <= j < n ensures KeepsAt(tr, j, fd, x) {
      FdsRun(tr, acts, j);
      FinalAt(tr, acts, j, fd, x);
    }
    KeptThroughout(tr, k, n, fd, x);
  }

  /** A finalizer runs at most as often as it was handed in, whatever mix of drains and clears serves the fd. */
  lemma FinalizerAtMostOnce(tr: seq<State>, acts: seq<Action>, n: nat, fd: nat, x: Item)
    requires IsRun(tr, acts) && n < |tr| && fd < |tr[n].ctx|
    ensures Ran(tr[n].ctx[fd], x) + Queued(tr[n].ctx[fd], x) <= multiset(tr[n].ctx[fd].accepted)[x]
  {
    OutRun(tr, acts, n);
    var c := tr[n].ctx[fd];
    assert CtxOk(c);
    CountItems(c.effects, x);
    assert multiset(c.accepted) == multiset(ItemsOf(c.effects)) + multiset(Stream(c.queue));
  }

  /** Only bytes are ever dropped. */
  predicate DropsBytes(c: Ctx)
  {
    forall e :: e in c.effects && e.Dropped? ==> IsByte(e.item)
  }

  lemma DropsStep(s: State, a: Action, fd: nat)
    requires Enabled(s, a) && fd < |s.ctx| && DropsBytes(s.ctx[fd])
    ensures |Apply(s, a).ctx| == |s.ctx| && DropsBytes(Apply(s, a).ctx[fd])
  {
    match a {
      case OnLoop(l) => LoopRegOnly(s, l, fd);
      case OnFlush(f) => CalmFlush(s, f);
      case OnOut(o) => DropsOut(s, o, fd);
    }
  }

  lemma DropsCalls(c: Ctx, w: nat, answers: seq<Answer>)
    requires DropsBytes(c)
    ensures c.phase.Writing? ==> DropsBytes(Append(c)) && DropsBytes(Try(c, answers))
    ensures DropsBytes(TryQueued(c, w, answers)) && DropsBytes(Clear(c, w))
  {
  }

  lemma DropsOut(s: State, a: OutAction, fd: nat)
    requires OutEnabled(s, a) && fd < |s.ctx| && DropsBytes(s.ctx[fd])
    ensures |OutApply(s, a).ctx| == |s.ctx| && DropsBytes(OutApply(s, a).ctx[fd])
  {
    var c := s.ctx[fd];
    match a {
      case WriteAppend(_) => if a.fd == fd { DropsCalls(c, 0, []); }
      case WriteTry(_, answers) => if a.fd == fd { DropsCalls(c, 0, answers); }
      case DrainTry(i, answers) => if s.ws[i].fd == fd { DropsCalls(c, i, answers); }
      case DrainClear(i) => if s.ws[i].fd == fd { DropsCalls(c, i, []); }
      case _ =>
    }
  }

  lemma {:induction false} DropsRun(tr: seq<State>, acts: seq<Action>, n: nat, fd: nat)
    requires IsRun(tr, acts) && n < |tr| && fd < |tr[0].ctx|
    ensures |tr[n].ctx| == |tr[0].ctx| && DropsBytes(tr[n].ctx[fd])
  {
    if n == 0 {
      assert Fresh(tr[0].ctx[fd]);
    } else {
      DropsRun(tr, acts, n - 1, fd);
      assert StepAt(tr, acts, n - 1);
      DropsStep(tr[n - 1], acts[n - 1], fd);
    }
  }

  /**
   * The call that loses x: it finds the fd's queue empty and writes directly, and
   * the kernel stops that write for good with x still to come.
   */
  predicate Refuses(s: State, a: Action, fd: nat, x: Item)
  {
    && a.OnOut? && a.o.WriteTry? && a.o.fd == fd && OutEnabled(s, a.o)
    && var o := Drain(s.ctx[fd].phase.rs, a.o.answers, 0);
       !o.cont && x in Stream(o.rest)
  }

  lemma LeftByTry(c: Ctx, answers: seq<Answer>, x: Item)
    requires c.phase.Writing?
    ensures var o := Drain(c.phase.rs, answers, 0);
            Left(x) in Try(c, answers).effects <==> Left(x) in c.effects || (!o.cont && x in Stream(o.rest))
  {
    var o := Drain(c.phase.rs, answers, 0);
    var refused := LeftAll(Stream(o.rest));
    if x in Stream(o.rest) {
      var k :| 0 <= k < |Stream(o.rest)| && Stream(o.rest)[k] == x;
      assert refused[k] == Left(x);
    }
    assert Left(x) !in DidAll(o.trace);
  }

  lemma NotLeft(c: Ctx, w: nat, answers: seq<Answer>, x: Item)
    ensures Left(x) in TryQueued(c, w, answers).effects <==> Left(x) in c.effects
    ensures Left(x) in Clear(c, w).effects <==> Left(x) in c.effects
  {
  }

  lemma LeftOut(s: State, a: OutAction, fd: nat, x: Item)
    requires OutEnabled(s, a) && fd < |s.ctx|
    ensures |OutApply(s, a).ctx| == |s.ctx|
    ensures Left(x) in OutApply(s, a).ctx[fd].effects <==> Left(x) in s.ctx[fd].effects || Refuses(s, OnOut(a), fd, x)
  {
    var c := s.ctx[fd];
    match a {
      case WriteTry(g, answers) => if g == fd { LeftByTry(c, answers, x); }
      case DrainTry(i, answers) => if s.ws[i].fd == fd { NotLeft(c, i, answers, x); }
      case DrainClear(i) => if s.ws[i].fd == fd { NotLeft(c, i, [], x); }
      case _ =>
    }
  }

  lemma LeftStep(s: State, a: Action, fd: nat, x: Item)
    requires Enabled(s, a) && fd < |s.ctx|
    ensures |Apply(s, a).ctx| == |s.ctx|
    ensures Left(x) in Apply(s, a).ctx[fd].effects <==> Left(x) in s.ctx[fd].effects || Refuses(s, a, fd, x)
  {
    match a {
      case OnLoop(l) => LoopRegOnly(s, l, fd);
      case OnFlush(f) => CalmFlush(s, f);
      case OnOut(o) => LeftOut(s, o, fd, x);
    }
  }

  /** Some call among the first n steps lost x. */
  predicate RefusedBy(tr: seq<State>, acts: seq<Action>, n: nat, fd: nat, x: Item)
    requires |tr| == |acts| + 1 && n < |tr|
  {
    exists k :: 0 <= k < n && Refuses(tr[k], acts[k], fd, x)
  }

  lemma {:induction false} LeftRun(tr: seq<State>, acts: seq<Action>, n: nat, fd: nat, x: Item)
    requires IsRun(tr, acts) && n < |tr| && fd < |tr[0].ctx|
    ensures |tr[n].ctx| == |tr[0].ctx|
    ensures Left(x) in tr[n].ctx[fd].effects <==> RefusedBy(tr, acts, n, fd, x)
  {
    if n == 0 {
      assert Fresh(tr[0].ctx[fd]);
    } else {
      LeftRun(tr, acts, n - 1, fd, x);
      assert StepAt(tr, acts, n - 1);
      LeftStep(tr[n - 1], acts[n - 1], fd, x);
    }
  }

  /**
   * Exactly once, for every finalizer handed in once: when the queue is empty it
   * has run iff no call lost it, that is, unless the call that brought it found
   * the queue empty and had its direct write stopped for good before it.
   */
  lemma FinalizerRanIff(tr: seq<State>, acts: seq<Action>, n: nat, fd: nat, x: Item)
    requires IsRun(tr, acts) && n < |tr| && fd < |tr[0].ctx| == |tr[n].ctx| && x.Final?
    requires tr[n].ctx[fd].queue == [] && multiset(tr[n].ctx[fd].accepted)[x] == 1
    ensures Ran(tr[n].ctx[fd], x) == 1 <==> !RefusedBy(tr, acts, n, fd, x)
    ensures Ran(tr[n].ctx[fd], x) == 0 <==> RefusedBy(tr, acts, n, fd, x)
    ensures RefusedBy(tr, acts, n, fd, x) <==> Left(x) in tr[n].ctx[fd].effects
  {
    OutRun(tr, acts, n);
    DropsRun(tr, acts, n, fd);
    LeftRun(tr, acts, n, fd, x);
    var c := tr[n].ctx[fd];
    assert CtxOk(c);
    assert ItemsOf(c.effects) == c.accepted;
    CountItems(c.effects, x);
    assert Dropped(x) !in c.effects;
    assert multiset(c.effects)[Dropped(x)] == 0;
    assert Left(x) in c.effects <==> multiset(c.effects)[Left(x)] > 0;
  }

  /** From any start: a byte and a finalizer written to an fd whose first write fails, and the finalizer never runs. */
  lemma FinalizerLost(s0: State, fd: nat) returns (tr: seq<State>, acts: seq<Action>)
    requires Init(s0) && fd < |s0.ctx|
    ensures IsRun(tr, acts) && tr[0] == s0 && |acts| == 2 && fd < |tr[2].ctx|
    ensures tr[2].ctx[fd].queue == [] && tr[2].ctx[fd].phase.Unlocked?
    ensures multiset(tr[2].ctx[fd].accepted)[Final(1, 0)] == 1 && Ran(tr[2].ctx[fd], Final(1, 0)) == 0
  {
    var rs := [Vec([Iovec(0, 1)]), Finalize(1, 0)];
    assert Fresh(s0.ctx[fd]);
    tr, acts := Extend([s0], [], OnOut(WriteEnter(fd, rs)));
    LostDrain(rs);
    tr, acts := Extend(tr, acts, OnOut(WriteTry(fd, [Fail])));
    assert Refuses(tr[1], acts[1], fd, Final(1, 0));
    assert tr[2].ctx[fd].accepted == Stream(rs);
    FinalizerRanIff(tr, acts, 2, fd, Final(1, 0));
  }

  lemma LostDrain(rs: seq<Record>)
    requires rs == [Vec([Iovec(0, 1)]), Finalize(1, 0)]
    ensures Drain(rs, [Fail], 0) == Outcome(rs, [], false)
    ensures Stream(rs) == [MemByte(0), Final(1, 0)]
  {
    assert rs[1..] == [Finalize(1, 0)] && rs[1..][1..] == [];
    assert [Iovec(0, 1)][1..] == [];
    assert MemBytes(0, 1) == [MemByte(0)];
    assert VecBytes([Iovec(0, 1)]) == MemBytes(0, 1) + [] == [MemByte(0)];
    assert Stream(rs[1..]) == [Final(1, 0)] + [];
  }

  /** A finalizer handed in once that entered the queue has run exactly once when the queue is empty again. */
  lemma QueuedFinalizerRunsOnce(tr: seq<State>, acts: seq<Action>, k: nat, n: nat, fd: nat, x: Item)
    requires IsRun(tr, acts) && k <= n < |tr| && fd < |tr[k].ctx| && fd < |tr[n].ctx| && x.Final?
    requires x in Stream(tr[k].ctx[fd].queue) && tr[n].ctx[fd].queue == []
    requires multiset(tr[n].ctx[fd].accepted)[x] == 1
    ensures Ran(tr[n].ctx[fd], x) == 1
  {
    FinalRun(tr, acts, k, n, fd, x);
    FinalizerAtMostOnce(tr, acts, n, fd, x);
    assert x in multiset(Stream(tr[k].ctx[fd].queue));
  }
}
