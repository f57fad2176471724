/**
 * Pending output can be delivered: from every state of every run of two workers
 * or more in which the kernel has refused nothing of an fd, the workers alone
 * can bring everything ever handed to that fd to its end, once the kernel takes it.
 */
module Delivery {
  import opened XferSpec
  import opened DrainMeaning
  import opened WavySystem
  import opened LoopProtocol
  import opened FdLaws
  import opened TokenProtocol
  import OutProtocol
  import OutTheorems
  import Progress

  /** tr' and acts' carry the run on, without a call on the fd and without a refusal. */
  predicate GoesOn(tr: seq<State>, acts: seq<Action>, tr': seq<State>, acts': seq<Action>, fd: nat)
    requires IsRun(tr, acts)
  {
    && IsRun(tr', acts') && tr <= tr' && acts <= acts'
    && GentleRun(tr', acts', |acts'|, fd) && Entered(acts', fd) == Entered(acts, fd)
  }

  /** One gentle step that is not a call. */
  lemma GentleExtend(tr: seq<State>, acts: seq<Action>, tr0: seq<State>, acts0: seq<Action>, fd: nat, a: Action)
    returns (tr': seq<State>, acts': seq<Action>)
    requires IsRun(tr, acts) && GoesOn(tr, acts, tr0, acts0, fd)
    requires Enabled(tr0[|acts0|], a) && Gentle(tr0[|acts0|], a, fd) && !EntersFd(a, fd)
    ensures GoesOn(tr, acts, tr', acts', fd) && |acts'| == |acts0| + 1 && tr'[|acts'|] == Apply(tr0[|acts0|], a)
  {
    tr', acts' := Extend(tr0, acts0, a);
    forall k | 0 <= k < |acts'| ensures Gentle(tr'[k], acts'[k], fd) {
      if k < |acts0| {
        assert Gentle(tr0[k], acts0[k], fd);
      }
    }
    assert acts'[..|acts'| - 1] == acts0;
  }

  lemma {:induction false} NoCallsBetween(acts: seq<Action>, more: seq<Action>, fd: nat)
    requires acts <= more && forall k :: |acts| <= k < |more| ==> !EntersFd(more[k], fd)
    ensures Entered(more, fd) == Entered(acts, fd)
    decreases |more|
  {
    if |more| > |acts| {
      NoCallsBetween(acts, more[..|more| - 1], fd);
    } else {
      assert more == acts;
    }
  }

  /** Coming to rest is gentle. */
  lemma RestGently(tr: seq<State>, acts: seq<Action>, fd: nat) returns (tr': seq<State>, acts': seq<Action>)
    requires IsRun(tr, acts) && 2 <= |tr[0].ws| && GentleRun(tr, acts, |acts|, fd)
    ensures GoesOn(tr, acts, tr', acts', fd) && Progress.AtRest(tr'[|acts'|])
  {
    tr', acts' := Progress.CanComeToRest(tr, acts, |acts|);
    forall k | 0 <= k < |acts'| ensures Gentle(tr'[k], acts'[k], fd) {
      if k < |acts| {
        assert Gentle(tr[k], acts[k], fd);
      } else {
        assert Progress.Internal(tr'[k], acts'[k]) && Progress.Mild(acts'[k]);
      }
    }
    forall k | |acts| <= k < |acts'| ensures !EntersFd(acts'[k], fd) {
      assert Progress.Internal(tr'[k], acts'[k]);
    }
    NoCallsBetween(acts, acts', fd);
  }

  // ------------------------------------------------------------ one round of output, from rest

  /** The fd has the records queued, and nobody has its lock. */
  predicate Has(s: State, fd: nat, q: seq<Record>)
  {
    fd < |s.ctx| && s.ctx[fd].queue == q && s.ctx[fd].phase.Unlocked?
  }

  /** Worker i waits in the kernel, j sleeps, and the fd's output waits for the kernel. */
  predicate Waiting(s: State, i: nat, j: nat, fd: nat, q: seq<Record>)
  {
    && i < |s.ws| && j < |s.ws| && i != j && s.ws[i].Polling? && s.ws[j].Asleep?
    && s.more == [] && s.tasks == [] && s.outq == [] && |s.backlog| == BACKLOG_SIZE
    && ArmedIn(s.kern, OutKernel) && Has(s, fd, q) && s.ctx[fd].reg.Armed?
  }

  /** Worker i has polled the out kernel and found the fd; j has been woken, and polls next. */
  predicate Found(s: State, i: nat, j: nat, fd: nat, q: seq<Record>)
  {
    && i < |s.ws| && j < |s.ws| && i != j && s.ws[i].OutPolled? && s.ws[j].Ready?
    && s.pollable && s.off == s.num <= |s.backlog|
    && s.more == [] && s.tasks == [] && s.outq == [fd] && Has(s, fd, q)
  }

  /** Worker j polls, and i is free to serve the fd. */
  predicate Serveable(s: State, i: nat, fd: nat, q: seq<Record>)
  {
    && i < |s.ws| && s.ws[i].Ready? && !s.pollable && s.off <= s.num <= |s.backlog|
    && s.more == [] && s.outq == [fd] && Has(s, fd, q)
  }

  lemma RestWaits(tr: seq<State>, acts: seq<Action>, n: nat, fd: nat) returns (i: nat, j: nat)
    requires IsRun(tr, acts) && n < |tr| && 2 <= |tr[0].ws| && Progress.AtRest(tr[n])
    requires fd < |tr[n].ctx| && tr[n].ctx[fd].queue != []
    ensures Waiting(tr[n], i, j, fd, tr[n].ctx[fd].queue)
  {
    var s := tr[n];
    Progress.RestIsArmed(tr, acts, n);
    Progress.SameWorkers(tr, acts, n);
    DispatchRun(tr, acts, n);
    i :| i < |s.ws| && s.ws[i].Polling?;
    j := if i == 0 then 1 else 0;
    assert Poller(s.ws[i]);
    assert Poller(s.ws[j]) ==> i == j;
  }

  lemma ToFound(tr: seq<State>, acts: seq<Action>, tr0: seq<State>, acts0: seq<Action>, i: nat, j: nat, fd: nat, q: seq<Record>)
    returns (tr': seq<State>, acts': seq<Action>)
    requires IsRun(tr, acts) && GoesOn(tr, acts, tr0, acts0, fd) && Waiting(tr0[|acts0|], i, j, fd, q)
    ensures GoesOn(tr, acts, tr', acts', fd) && Found(tr'[|acts'|], i, j, fd, q)
  {
    var s := tr0[|acts0|];
    tr', acts' := GentleExtend(tr, acts, tr0, acts0, fd, OnLoop(PollReturn(i, [OutKernel])));
    var s1 := tr'[|acts'|];
    assert s1.ws[i] == Polled([OutKernel]) && s1.backlog[0] == OutKernel && s1.ws[j].Asleep?;
    assert ReadyOk(s1.ctx, [fd]);
    tr', acts' := GentleExtend(tr, acts, tr', acts', fd, OnLoop(PollRelock(i, j, [fd])));
  }

  lemma ToServeable(tr: seq<State>, acts: seq<Action>, tr0: seq<State>, acts0: seq<Action>, i: nat, j: nat, fd: nat, q: seq<Record>)
    returns (tr': seq<State>, acts': seq<Action>)
    requires IsRun(tr, acts) && GoesOn(tr, acts, tr0, acts0, fd) && Found(tr0[|acts0|], i, j, fd, q)
    ensures GoesOn(tr, acts, tr', acts', fd) && Serveable(tr'[|acts'|], i, fd, q)
  {
    var s := tr0[|acts0|];
    var w := Progress.SomeWake(s.ws);
    assert Choose(s) == StartPoll;
    tr', acts' := GentleExtend(tr, acts, tr0, acts0, fd, OnLoop(Section(j, w, [])));
    tr', acts' := GentleExtend(tr, acts, tr', acts', fd, OnLoop(OutReactivate(i)));
  }

  lemma ToDrained(tr: seq<State>, acts: seq<Action>, tr0: seq<State>, acts0: seq<Action>, i: nat, fd: nat, q: seq<Record>)
    returns (tr': seq<State>, acts': seq<Action>)
    requires IsRun(tr, acts) && GoesOn(tr, acts, tr0, acts0, fd) && Serveable(tr0[|acts0|], i, fd, q) && Positive(q)
    ensures GoesOn(tr, acts, tr', acts', fd) && fd < |tr'[|acts'|].ctx|
    ensures tr'[|acts'|].ctx[fd].queue == [] && !tr'[|acts'|].ctx[fd].phase.Writing?
  {
    var s := tr0[|acts0|];
    var w := Progress.SomeWake(s.ws);
    assert Choose(s) == ServeOut;
    tr', acts' := GentleExtend(tr, acts, tr0, acts0, fd, OnLoop(Section(i, w, [])));
    tr', acts' := GentleExtend(tr, acts, tr', acts', fd, OnOut(DrainLock(i)));
    TakeAllBenign(q);
    TakeAllDrains(q, []);
    assert [] + TakeAll(q) == TakeAll(q);
    tr', acts' := GentleExtend(tr, acts, tr', acts', fd, OnOut(DrainTry(i, TakeAll(q))));
  }

  /**
   * From every state of every run of two workers or more in which the kernel has
   * refused nothing of the fd and no empty record was handed to it, there is a
   * continuation, without further calls on the fd, after which everything ever
   * handed to it has been done, in order.
   */
  lemma CanDeliver(tr: seq<State>, acts: seq<Action>, fd: nat) returns (tr': seq<State>, acts': seq<Action>)
    requires IsRun(tr, acts) && 2 <= |tr[0].ws| && fd < |tr[0].ctx| && GentleRun(tr, acts, |acts|, fd)
    ensures IsRun(tr', acts') && tr <= tr' && acts <= acts' && |tr'[|acts'|].ctx| == |tr[0].ctx|
    ensures tr'[|acts'|].ctx[fd].effects == DidAll(Entered(acts, fd)) && tr'[|acts'|].ctx[fd].queue == []
  {
    tr', acts' := RestGently(tr, acts, fd);
    GentleNeverFails(tr', acts', |acts'|, fd);
    var q := tr'[|acts'|].ctx[fd].queue;
    if q != [] {
      var i, j := RestWaits(tr', acts', |acts'|, fd);
      tr', acts' := ToFound(tr, acts, tr', acts', i, j, fd, q);
      tr', acts' := ToServeable(tr, acts, tr', acts', i, j, fd, q);
      tr', acts' := ToDrained(tr, acts, tr', acts', i, fd, q);
    }
    AllDone(tr', acts', |acts'|, fd);
    assert acts'[..|acts'|] == acts';
  }

  /** With nothing queued and no call in progress, everything handed in has been done. */
  lemma AllDone(tr: seq<State>, acts: seq<Action>, n: nat, fd: nat)
    requires IsRun(tr, acts) && n < |tr| && fd < |tr[0].ctx| && fd < |tr[n].ctx| && GentleRun(tr, acts, n, fd)
    requires tr[n].ctx[fd].queue == [] && !tr[n].ctx[fd].phase.Writing?
    ensures |tr[n].ctx| == |tr[0].ctx| && tr[n].ctx[fd].effects == DidAll(Entered(acts[..n], fd))
  {
    GentleNeverFails(tr, acts, n, fd);
    DeliveredInOrder(tr, acts, n, fd);
    var all, k := Entered(acts[..n], fd), |tr[n].ctx[fd].effects|;
    assert all[k..] == [];
    assert all[..k] == all;
  }
}
