/**
 * flush(): no lost wakeup, and what its return means.
 */
module FlushProtocol {
  import opened XferSpec
  import opened WavySystem
  import opened LoopProtocol
  import opened OutProtocol
  import FdLaws
  import LoopLaws
  import OutTheorems

  /** A worker that will broadcast m_flush_cond before it does anything else on the loop. */
  predicate Owes(pc: WorkerPc) { pc.Notify? || (pc.InTask? && pc.last) }

  predicate SomeoneOwes(ws: seq<WorkerPc>)
  {
    exists i :: 0 <= i < |ws| && Owes(ws[i])
  }

  predicate SomeoneSleeps(fs: seq<FlusherPc>)
  {
    exists f :: 0 <= f < |fs| && fs[f].Sleeping?
  }

  /** A flusher that sleeps although there is nothing to wait for is about to be woken. */
  predicate FlushInv(s: State)
  {
    SomeoneSleeps(s.flushers) && Quiet(s) ==> SomeoneOwes(s.ws)
  }

  /** Debts to broadcast are kept. */
  predicate KeepsDebts(ws: seq<WorkerPc>, vs: seq<WorkerPc>)
  {
    |ws| == |vs| && forall k :: 0 <= k < |ws| && Owes(ws[k]) ==> Owes(vs[k])
  }

  lemma DebtFrame(s: State, t: State)
    requires FlushInv(s) && KeepsDebts(s.ws, t.ws)
    requires SomeoneSleeps(t.flushers) ==> SomeoneSleeps(s.flushers)
    requires Quiet(t) ==> Quiet(s)
    ensures FlushInv(t)
  {
    if SomeoneSleeps(t.flushers) && Quiet(t) {
      var k :| 0 <= k < |s.ws| && Owes(s.ws[k]);
      assert Owes(t.ws[k]);
    }
  }

  lemma FlushSection(s: State, i: nat, wake: nat, ready: seq<nat>)
    requires FlushInv(s) && LoopEnabled(s, Section(i, wake, ready))
    ensures FlushInv(LoopApply(s, Section(i, wake, ready)))
  {
    var t := LoopApply(s, Section(i, wake, ready));
    if Choose(s).ServeTask? && |s.tasks| == 1 {
      assert Owes(t.ws[i]);
    } else {
      DebtFrame(s, t);
    }
  }

  lemma FlushLoop(s: State, a: LoopAction)
    requires FlushInv(s) && LoopEnabled(s, a)
    ensures FlushInv(LoopApply(s, a))
  {
    var t := LoopApply(s, a);
    match a {
      case Section(i, wake, ready) => FlushSection(s, i, wake, ready);
      case Broadcast(i) => assert !SomeoneSleeps(t.flushers);
      case _ => DebtFrame(s, t);
    }
  }

  lemma FlushOut(s: State, a: OutAction)
    requires FlushInv(s) && OutEnabled(s, a)
    requires s.watching >= 0
    ensures FlushInv(OutApply(s, a))
  {
    var t := OutApply(s, a);
    if a.DrainCount? && s.watching == 1 {
      assert Owes(t.ws[a.i]);
    } else {
      DebtFrame(s, t);
    }
  }

  lemma FlushStep(s: State, a: Action)
    requires FlushInv(s) && OutInv(s) && Enabled(s, a)
    ensures FlushInv(Apply(s, a))
  {
    match a {
      case OnLoop(l) => FlushLoop(s, l);
      case OnOut(o) => FlushOut(s, o);
      case OnFlush(f) =>
        CalmFlush(s, f);
        if f.FlushCheck? && !Quiet(s) {
          assert !Quiet(Apply(s, a));
        } else {
          DebtFrame(s, Apply(s, a));
        }
    }
  }

  // ------------------------------------------------------------ what a flusher remembers

  /** Returned calls are never taken back. */
  lemma ReturnedGrows(s: State, a: Action, fd: nat)
    requires OutInv(s) && Enabled(s, a) && fd < |s.ctx|
    ensures |Apply(s, a).ctx| == |s.ctx| && s.ctx[fd].returned <= Apply(s, a).ctx[fd].returned
  {
    assert CtxOk(s.ctx[fd]);
    match a {
      case OnLoop(l) => LoopRegOnly(s, l, fd);
      case OnFlush(f) => CalmFlush(s, f);
      case OnOut(o) => OutReturnedGrows(s, o, fd);
    }
  }

  lemma OutReturnedGrows(s: State, a: OutAction, fd: nat)
    requires OutEnabled(s, a) && fd < |s.ctx| && CtxOk(s.ctx[fd])
    ensures |OutApply(s, a).ctx| == |s.ctx| && s.ctx[fd].returned <= OutApply(s, a).ctx[fd].returned
  {
  }

  lemma {:induction false} ReturnedRun(tr: seq<State>, acts: seq<Action>, m: nat, n: nat, fd: nat)
    requires IsRun(tr, acts) && m <= n < |tr| && fd < |tr[m].ctx|
    ensures |tr[n].ctx| == |tr[m].ctx| && tr[m].ctx[fd].returned <= tr[n].ctx[fd].returned
    decreases n - m
  {
    if m < n {
      ReturnedRun(tr, acts, m, n - 1, fd);
      OutTheorems.OutRun(tr, acts, n - 1);
      assert StepAt(tr, acts, n - 1);
      ReturnedGrows(tr[n - 1], acts[n - 1], fd);
    }
  }

  predicate InFlush(pc: FlusherPc) { pc.Checking? || pc.Sleeping? }

  lemma LoopFlushers(s: State, a: LoopAction)
    requires LoopEnabled(s, a)
    ensures LoopApply(s, a).flushers == if a.Broadcast? then WakeFlushers(s.flushers) else s.flushers
  {
  }

  lemma OutFlushers(s: State, a: OutAction)
    requires OutEnabled(s, a)
    ensures OutApply(s, a).flushers == s.flushers
  {
  }

  /** Steps other than its own calls leave a flusher in its flush, with what it remembered. */
  lemma FlusherStep(s: State, a: Action, f: nat)
    requires Enabled(s, a) && f < |s.flushers|
    ensures |Apply(s, a).flushers| == |s.flushers|
    ensures a != OnFlush(FlushCall(f)) && InFlush(Apply(s, a).flushers[f]) ==>
              InFlush(s.flushers[f]) && Apply(s, a).flushers[f].snap == s.flushers[f].snap
    ensures a == OnFlush(FlushCall(f)) ==> Apply(s, a).flushers[f] == Checking(Returned(s.ctx))
  {
    match a {
      case OnLoop(l) => LoopFlushers(s, l);
      case OnOut(o) => OutFlushers(s, o);
      case OnFlush(_) =>
    }
  }

  /** A flusher in its flush remembers what had returned when it made its latest call. */
  lemma {:induction false} FlushOrigin(tr: seq<State>, acts: seq<Action>, n: nat, f: nat) returns (m: nat)
    requires IsRun(tr, acts) && n < |tr| && f < |tr[n].flushers| && InFlush(tr[n].flushers[f])
    ensures m < n && acts[m] == OnFlush(FlushCall(f))
    ensures forall j :: m < j < n ==> acts[j] != OnFlush(FlushCall(f))
    ensures tr[n].flushers[f].snap == Returned(tr[m].ctx)
  {
    assert n > 0;
    assert StepAt(tr, acts, n - 1);
    var s, a := tr[n - 1], acts[n - 1];
    assert |s.flushers| == |tr[n].flushers| by { SameFlushers(s, a); }
    FlusherStep(s, a, f);
    if a == OnFlush(FlushCall(f)) {
      m := n - 1;
    } else {
      m := FlushOrigin(tr, acts, n - 1, f);
    }
  }

  lemma SameFlushers(s: State, a: Action)
    requires Enabled(s, a)
    ensures |Apply(s, a).flushers| == |s.flushers|
  {
    match a {
      case OnLoop(l) => LoopFlushers(s, l);
      case OnOut(o) => OutFlushers(s, o);
      case OnFlush(_) =>
    }
  }

  // ------------------------------------------------------------ theorems over runs

  lemma {:induction false} FlushRun(tr: seq<State>, acts: seq<Action>, n: nat)
    requires IsRun(tr, acts) && n < |tr|
    ensures FlushInv(tr[n])
  {
    if n > 0 {
      FlushRun(tr, acts, n - 1);
      OutTheorems.OutRun(tr, acts, n - 1);
      assert StepAt(tr, acts, n - 1);
      FlushStep(tr[n - 1], acts[n - 1]);
    }
  }

  /**
   * No flusher sleeps on with nothing left to wait for: whenever the counter is
   * zero and no task is queued, some worker still has a broadcast to make, even
   * though the counter changes outside the loop mutex.
   */
  lemma NoLostFlush(tr: seq<State>, acts: seq<Action>, n: nat, f: nat)
    requires IsRun(tr, acts) && n < |tr| && f < |tr[n].flushers|
    requires tr[n].flushers[f].Sleeping? && tr[n].watching == 0 && tr[n].tasks == []
    ensures exists i :: 0 <= i < |tr[n].ws| && Owes(tr[n].ws[i])
  {
    FlushRun(tr, acts, n);
  }

  /** With the counter at zero, every call that has returned is accounted for in the effects. */
  lemma ZeroMeansSettled(s: State, fd: nat)
    requires OutInv(s) && s.watching == 0 && fd < |s.ctx|
    ensures s.ctx[fd].returned <= ItemsOf(s.ctx[fd].effects)
  {
    CountedZero(s.ctx, fd);
    var c := s.ctx[fd];
    assert CtxOk(c);
    if c.queue == [] {
      assert ItemsOf(c.effects) + [] == ItemsOf(c.effects);
    }
  }

  /** The items are dealt with on the fd: their effects have happened, and all of them are deliveries if nothing failed. */
  predicate Settled(items: seq<Item>, c: Ctx)
  {
    items <= ItemsOf(c.effects) && (OutTheorems.Unfailed(c) ==> DidAll(items) <= c.effects)
  }

  /**
   * What a return of flush means. The step that lets it return happens in a
   * state with every submitted task started, and in which, on every fd, each
   * call that had returned before flush was called is dealt with: delivered in
   * full, unless the fd has failed in the meantime or before.
   */
  lemma FlushMeaning(tr: seq<State>, acts: seq<Action>, n: nat, f: nat) returns (m: nat)
    requires IsRun(tr, acts) && n < |acts| && acts[n] == OnFlush(FlushCheck(f))
    requires f < |tr[n + 1].flushers| && tr[n + 1].flushers[f].Flushed?
    ensures m < n && acts[m] == OnFlush(FlushCall(f)) && forall j :: m < j < n ==> acts[j] != OnFlush(FlushCall(f))
    ensures tr[n].submitted == tr[n].started
    ensures |tr[m].ctx| == |tr[n].ctx|
    ensures forall fd :: 0 <= fd < |tr[m].ctx| ==> Settled(tr[m].ctx[fd].returned, tr[n].ctx[fd])
  {
    assert StepAt(tr, acts, n);
    assert FlushEnabled(tr[n], FlushCheck(f)) && tr[n + 1] == FlushApply(tr[n], FlushCheck(f));
    assert Quiet(tr[n]);
    m := FlushOrigin(tr, acts, n, f);
    DispatchRun(tr, acts, n);
    assert tr[n].started + [] == tr[n].started;
    OutTheorems.OutRun(tr, acts, n);
    OutTheorems.FdsRun(tr, acts, m);
    OutTheorems.FdsRun(tr, acts, n);
    forall fd | 0 <= fd < |tr[m].ctx| ensures Settled(tr[m].ctx[fd].returned, tr[n].ctx[fd]) {
      ReturnedRun(tr, acts, m, n, fd);
      ZeroMeansSettled(tr[n], fd);
      if OutTheorems.Unfailed(tr[n].ctx[fd]) {
        SettledDelivered(tr[n].ctx[fd], tr[m].ctx[fd].returned);
      }
    }
  }

  /** Every call made on the fd so far has returned. */
  predicate AllReturned(c: Ctx)
  {
    !c.phase.Writing? && !c.phase.Pushed? && !c.phase.Added?
  }

  /** What was handed to the first k steps' calls on the fd is dealt with, and delivered in full if the kernel refused nothing. */
  predicate CallsSettled(tr: seq<State>, acts: seq<Action>, n: nat, fd: nat, k: nat)
    requires |tr| == |acts| + 1 && k <= n < |tr| && fd < |tr[n].ctx|
  {
    var items, c := FdLaws.Entered(acts[..k], fd), tr[n].ctx[fd];
    && items <= ItemsOf(c.effects)
    && (FdLaws.NoFailure(tr, acts, n, fd) ==> DidAll(items) <= c.effects)
  }

  /**
   * The meaning of flush from the calls alone: when it returns, all submitted
   * tasks have been started, and what any fd's calls were handed, up to any state
   * before the flush began in which all of them had returned, is dealt with, and
   * delivered in full unless the kernel has refused output of the fd for good.
   */
  lemma FlushMeaningOfCalls(tr: seq<State>, acts: seq<Action>, n: nat, f: nat) returns (m: nat)
    requires IsRun(tr, acts) && n < |acts| && acts[n] == OnFlush(FlushCheck(f))
    requires f < |tr[n + 1].flushers| && tr[n + 1].flushers[f].Flushed?
    ensures m < n && acts[m] == OnFlush(FlushCall(f)) && forall j :: m < j < n ==> acts[j] != OnFlush(FlushCall(f))
    ensures LoopLaws.Submissions(acts[..n]) == tr[n].started
    ensures |tr[n].ctx| == |tr[0].ctx|
    ensures forall fd, k :: 0 <= fd < |tr[0].ctx| && 0 <= k <= m && |tr[k].ctx| == |tr[0].ctx| && AllReturned(tr[k].ctx[fd])
              ==> CallsSettled(tr, acts, n, fd, k)
  {
    m := FlushMeaning(tr, acts, n, f);
    LoopLaws.DispatchOfCalls(tr, acts, n);
    LoopLaws.HistoryRun(tr, acts, n);
    OutTheorems.FdsRun(tr, acts, n);
    forall fd, k | 0 <= fd < |tr[0].ctx| && 0 <= k <= m && |tr[k].ctx| == |tr[0].ctx| && AllReturned(tr[k].ctx[fd])
      ensures CallsSettled(tr, acts, n, fd, k)
    {
      CallsSettle(tr, acts, n, fd, k, m);
    }
  }

  lemma CallsSettle(tr: seq<State>, acts: seq<Action>, n: nat, fd: nat, k: nat, m: nat)
    requires IsRun(tr, acts) && k <= m <= n < |tr| && fd < |tr[0].ctx| == |tr[n].ctx| == |tr[m].ctx| == |tr[k].ctx|
    requires AllReturned(tr[k].ctx[fd]) && Settled(tr[m].ctx[fd].returned, tr[n].ctx[fd])
    ensures CallsSettled(tr, acts, n, fd, k)
  {
    FdLaws.EnteredRun(tr, acts, k, fd);
    OutTheorems.OutRun(tr, acts, k);
    assert CtxOk(tr[k].ctx[fd]);
    ReturnedRun(tr, acts, k, m, fd);
    FdLaws.SoundIff(tr, acts, n, fd);
    if OutTheorems.Unfailed(tr[n].ctx[fd]) {
      SettledDelivered(tr[n].ctx[fd], tr[k].ctx[fd].returned);
    }
  }

  lemma SettledDelivered(c: Ctx, items: seq<Item>)
    requires OutTheorems.Unfailed(c) && items <= ItemsOf(c.effects)
    ensures DidAll(items) <= c.effects
  {
    forall k | 0 <= k < |items| ensures c.effects[k] == Did(items[k]) {
      assert items[k] == ItemsOf(c.effects)[k];
      assert c.effects[k] in c.effects;
    }
  }
}
