/**
 * What every run keeps of the worker/poller protocol: one poller at a time,
 * exact dispatch of events and tasks, and no lost work wakeup.
 */
module LoopProtocol {
  import opened WavySystem

  /** The worker that took the poll baton and has not yet given it back. */
  predicate Poller(pc: WorkerPc) { pc.Polling? || pc.Polled? }

  /** A worker that will look at the queues again without being woken. */
  predicate Serving(pc: WorkerPc) { !pc.Asleep? && !Poller(pc) }

  /** Something is queued that only a worker can serve. */
  predicate Work(s: State) { s.tasks != [] || s.outq != [] || s.more != [] }

  predicate OnePoller(ws: seq<WorkerPc>, pollable: bool)
  {
    && (forall i, j :: 0 <= i < |ws| && 0 <= j < |ws| && Poller(ws[i]) && Poller(ws[j]) ==> i == j)
    && (pollable <==> forall i :: 0 <= i < |ws| ==> !Poller(ws[i]))
  }

  /** The events the last waits returned and nobody has taken, by the state of the baton. */
  predicate UnreadOk(s: State)
  {
    && (s.pollable ==> s.off <= s.num <= |s.backlog| && s.polled == s.taken + s.backlog[s.off..s.num])
    && (forall i :: 0 <= i < |s.ws| && s.ws[i].Polling? ==> s.polled == s.taken)
    && (forall i :: 0 <= i < |s.ws| && s.ws[i].Polled? ==>
          && 0 < |s.ws[i].evs| <= |s.backlog|
          && s.backlog[..|s.ws[i].evs|] == s.ws[i].evs
          && s.polled == s.taken + s.ws[i].evs)
  }

  predicate DispatchInv(s: State)
  {
    && |s.backlog| == BACKLOG_SIZE && s.off <= s.num <= BACKLOG_SIZE
    && OnePoller(s.ws, s.pollable)
    && (!s.pollable ==> s.off == s.num)
    && UnreadOk(s)
    && s.submitted == s.started + s.tasks
  }

  // ------------------------------------------------------------ dispatch

  /** The workers may change, but not which of them polls or polled. */
  predicate SamePollers(ws: seq<WorkerPc>, vs: seq<WorkerPc>)
  {
    |ws| == |vs| && forall k :: 0 <= k < |ws| ==> (vs[k] == ws[k] || (!Poller(ws[k]) && !Poller(vs[k])))
  }

  /** A step that leaves the baton, the backlog and the task history alone keeps the invariant. */
  lemma DispatchFrame(s: State, t: State)
    requires DispatchInv(s) && SamePollers(s.ws, t.ws)
    requires t.pollable == s.pollable && t.backlog == s.backlog && t.off == s.off && t.num == s.num
    requires t.polled == s.polled && t.taken == s.taken && t.submitted == t.started + t.tasks
    ensures DispatchInv(t)
  {
    assert OnePoller(t.ws, t.pollable) by {
      forall k | 0 <= k < |s.ws| ensures Poller(t.ws[k]) == Poller(s.ws[k]) {
      }
    }
  }

  lemma DispatchStartPoll(s: State, i: nat)
    requires DispatchInv(s) && i < |s.ws| && s.pollable && s.off == s.num
    ensures DispatchInv(s.(pollable := false, ws := s.ws[i := Polling]))
  {
    var ws := s.ws[i := Polling];
    assert Poller(ws[i]);
    assert s.backlog[s.off..s.num] == [];
  }

  lemma DispatchTakeEvent(s: State, i: nat, ready: seq<nat>)
    requires DispatchInv(s) && i < |s.ws| && !Poller(s.ws[i]) && s.pollable && s.off < s.num
    ensures var ke := s.backlog[s.off];
            DispatchInv(Dispatch(s.(off := s.off + 1, taken := s.taken + [ke]), i, ke, ready))
  {
    assert s.backlog[s.off..s.num] == [s.backlog[s.off]] + s.backlog[s.off + 1..s.num];
    assert s.taken + [s.backlog[s.off]] + s.backlog[s.off + 1..s.num] == s.taken + s.backlog[s.off..s.num];
  }

  lemma DispatchDoTask(s: State, i: nat, wake: nat)
    requires DispatchInv(s) && i < |s.ws| && !Poller(s.ws[i]) && s.tasks != []
    ensures DispatchInv(DoTask(s, i, wake))
  {
    assert s.started + [s.tasks[0]] + s.tasks[1..] == s.started + s.tasks;
    DispatchFrame(s, DoTask(s, i, wake));
  }

  lemma DispatchKept(s: State, i: nat, wake: nat, ready: seq<nat>)
    requires DispatchInv(s) && LoopEnabled(s, Section(i, wake, ready))
    requires Choose(s).TakeMore? || Choose(s).ServeOut? || Choose(s).Sleep?
    ensures DispatchInv(LoopApply(s, Section(i, wake, ready)))
  {
    var t := LoopApply(s, Section(i, wake, ready));
    assert t.ws == s.ws[i := t.ws[i]];
    DispatchFrame(s, t);
  }

  lemma DispatchSection(s: State, i: nat, wake: nat, ready: seq<nat>)
    requires DispatchInv(s) && LoopEnabled(s, Section(i, wake, ready))
    ensures DispatchInv(LoopApply(s, Section(i, wake, ready)))
  {
    var b := Choose(s);
    if b.StartPoll? {
      DispatchStartPoll(s, i);
    } else if b.TakeEvent? {
      DispatchTakeEvent(s, i, ready);
    } else if b.ServeTask? {
      DispatchDoTask(s, i, wake);
    } else {
      DispatchKept(s, i, wake, ready);
    }
  }

  lemma DispatchPollReturn(s: State, i: nat, evs: seq<Ident>)
    requires DispatchInv(s) && LoopEnabled(s, PollReturn(i, evs))
    ensures DispatchInv(LoopApply(s, PollReturn(i, evs)))
  {
    var t := LoopApply(s, PollReturn(i, evs));
    assert forall k :: 0 <= k < |t.ws| && Poller(t.ws[k]) ==> k == i;
    assert Poller(t.ws[i]);
    assert t.backlog[..|evs|] == evs;
  }

  lemma DispatchPollRelock(s: State, i: nat, wake: nat, ready: seq<nat>)
    requires DispatchInv(s) && LoopEnabled(s, PollRelock(i, wake, ready))
    ensures DispatchInv(LoopApply(s, PollRelock(i, wake, ready)))
  {
    var t := LoopApply(s, PollRelock(i, wake, ready));
    var evs := s.ws[i].evs;
    forall k | 0 <= k < |t.ws| ensures !Poller(t.ws[k]) {
      assert Poller(s.ws[i]);
      assert Poller(s.ws[k]) ==> k == i;
    }
    assert s.backlog[0] == s.backlog[..|evs|][0];
    assert evs == [s.backlog[0]] + s.backlog[1..|evs|];
    assert s.taken + [s.backlog[0]] + s.backlog[1..|evs|] == s.taken + evs;
  }

  /** The steps that decide who polls or what is taken. */
  predicate Scheduling(a: LoopAction) { a.Section? || a.PollReturn? || a.PollRelock? }

  /** What a step leaves alone when it decides neither. */
  predicate Calm(s: State, t: State)
  {
    && SamePollers(s.ws, t.ws) && Stays(s.ws, t.ws)
    && t.pollable == s.pollable && t.backlog == s.backlog && t.off == s.off && t.num == s.num
    && t.polled == s.polled && t.taken == s.taken && t.started == s.started
  }

  /** What a calm step of the loop does to the queues that workers serve. */
  predicate CalmQueues(s: State, t: State, a: LoopAction)
  {
    && (!a.Submit? ==> t.tasks == s.tasks && t.submitted == s.submitted)
    && (!a.More? ==> t.more == s.more)
    && t.outq == s.outq
  }

  lemma CalmHandler(s: State, a: LoopAction)
    requires LoopEnabled(s, a) && (a.More? || a.Next? || a.Remove? || a.HandlerReturn?)
    ensures Calm(s, LoopApply(s, a)) && CalmQueues(s, LoopApply(s, a), a)
  {
    if a.More? {
      CalmMore(s, a);
    }
  }

  lemma CalmMore(s: State, a: LoopAction)
    requires LoopEnabled(s, a) && a.More?
    ensures Calm(s, LoopApply(s, a)) && CalmQueues(s, LoopApply(s, a), a)
  {
  }

  lemma CalmWorker(s: State, a: LoopAction)
    requires LoopEnabled(s, a) && (a.OutReactivate? || a.TaskReturn? || a.Broadcast? || a.SpuriousWake?)
    ensures Calm(s, LoopApply(s, a)) && CalmQueues(s, LoopApply(s, a), a)
  {
  }

  lemma CalmUser(s: State, a: LoopAction)
    requires LoopEnabled(s, a) && (a.Submit? || a.AddHandler? || a.RemoveHandler?)
    ensures Calm(s, LoopApply(s, a)) && CalmQueues(s, LoopApply(s, a), a)
  {
  }

  lemma CalmLoop(s: State, a: LoopAction)
    requires LoopEnabled(s, a) && !Scheduling(a)
    ensures Calm(s, LoopApply(s, a)) && CalmQueues(s, LoopApply(s, a), a)
  {
    if a.More? || a.Next? || a.Remove? || a.HandlerReturn? {
      CalmHandler(s, a);
    } else if a.Submit? || a.AddHandler? || a.RemoveHandler? {
      CalmUser(s, a);
    } else {
      CalmWorker(s, a);
    }
  }

  lemma CalmOut(s: State, a: OutAction)
    requires OutEnabled(s, a)
    ensures Calm(s, OutApply(s, a))
    ensures var t := OutApply(s, a);
            t.tasks == s.tasks && t.submitted == s.submitted && t.outq == s.outq && t.more == s.more
  {
  }

  lemma CalmFlush(s: State, a: FlushAction)
    requires FlushEnabled(s, a)
    ensures FlushApply(s, a) == s.(flushers := FlushApply(s, a).flushers)
  {
  }

  lemma DispatchStep(s: State, a: Action)
    requires DispatchInv(s) && Enabled(s, a)
    ensures DispatchInv(Apply(s, a))
  {
    var t := Apply(s, a);
    match a {
      case OnLoop(l) =>
        if Scheduling(l) {
          match l {
            case Section(i, wake, ready) => DispatchSection(s, i, wake, ready);
            case PollReturn(i, evs) => DispatchPollReturn(s, i, evs);
            case PollRelock(i, wake, ready) => DispatchPollRelock(s, i, wake, ready);
          }
        } else {
          CalmLoop(s, l);
          DispatchFrame(s, t);
        }
      case OnOut(o) =>
        CalmOut(s, o);
        DispatchFrame(s, t);
      case OnFlush(f) =>
        CalmFlush(s, f);
        DispatchFrame(s, t);
    }
  }

  // ------------------------------------------------------------ wakeups

  predicate OneServing(ws: seq<WorkerPc>)
  {
    exists i :: 0 <= i < |ws| && Serving(ws[i])
  }

  predicate TwoServing(ws: seq<WorkerPc>)
  {
    exists i, j :: 0 <= i < j < |ws| && Serving(ws[i]) && Serving(ws[j])
  }

  /** Two workers are up while the baton is free; one is up while work is queued. */
  predicate WakeInv(s: State)
  {
    && 2 <= |s.ws|
    && (s.pollable ==> TwoServing(s.ws))
    && (Work(s) ==> OneServing(s.ws))
  }

  /** Nobody goes to sleep or to the kernel. */
  predicate Stays(ws: seq<WorkerPc>, vs: seq<WorkerPc>)
  {
    |ws| == |vs| && forall k :: 0 <= k < |ws| && Serving(ws[k]) ==> Serving(vs[k])
  }

  lemma StaysKeeps(ws: seq<WorkerPc>, vs: seq<WorkerPc>)
    requires Stays(ws, vs)
    ensures OneServing(ws) ==> OneServing(vs)
    ensures TwoServing(ws) ==> TwoServing(vs)
  {
  }

  /** Taking one of two serving workers away leaves one. */
  lemma TwoMinusOne(ws: seq<WorkerPc>, i: nat, pc: WorkerPc)
    requires TwoServing(ws) && i < |ws|
    ensures OneServing(ws[i := pc])
  {
    var j, k :| 0 <= j < k < |ws| && Serving(ws[j]) && Serving(ws[k]);
    var w := if j == i then k else j;
    assert Serving(ws[i := pc][w]);
  }

  /** A signal leaves somebody up: with one poller at most, either a sleeper is woken or a non-poller was up. */
  lemma SignalServes(ws: seq<WorkerPc>, pollable: bool, wake: nat)
    requires 2 <= |ws| && OnePoller(ws, pollable) && SignalOk(ws, wake)
    ensures OneServing(Wake(ws, wake))
  {
    var vs := Wake(ws, wake);
    if exists k :: 0 <= k < |ws| && ws[k].Asleep? {
      assert Serving(vs[wake]);
    } else {
      var w := if Poller(ws[0]) then 1 else 0;
      assert Poller(ws[0]) && Poller(ws[1]) ==> 0 == 1;
      assert Serving(vs[w]);
    }
  }

  lemma WakeSection(s: State, i: nat, wake: nat, ready: seq<nat>)
    requires DispatchInv(s) && WakeInv(s) && LoopEnabled(s, Section(i, wake, ready))
    ensures WakeInv(LoopApply(s, Section(i, wake, ready)))
  {
    var t := LoopApply(s, Section(i, wake, ready));
    match Choose(s) {
      case Sleep =>
      case StartPoll => TwoMinusOne(s.ws, i, Polling);
      case _ =>
        assert Serving(s.ws[i]) && Serving(t.ws[i]);
        assert Stays(s.ws, t.ws);
        StaysKeeps(s.ws, t.ws);
    }
  }

  /** The poller that comes back signals, so that two are up when it frees the baton. */
  lemma WakePollRelock(s: State, i: nat, wake: nat, ready: seq<nat>)
    requires DispatchInv(s) && WakeInv(s) && LoopEnabled(s, PollRelock(i, wake, ready))
    ensures WakeInv(LoopApply(s, PollRelock(i, wake, ready)))
  {
    var t := LoopApply(s, PollRelock(i, wake, ready));
    SignalServes(s.ws, s.pollable, wake);
    var vs := Wake(s.ws, wake);
    var j :| 0 <= j < |vs| && Serving(vs[j]);
    assert j != i && Serving(t.ws[j]) && Serving(t.ws[i]);
    if i < j {
      assert TwoServing(t.ws);
    } else {
      assert 0 <= j < i < |t.ws|;
    }
  }

  lemma WakeScheduling(s: State, a: LoopAction)
    requires DispatchInv(s) && WakeInv(s) && LoopEnabled(s, a) && Scheduling(a)
    ensures WakeInv(LoopApply(s, a))
  {
    match a {
      case Section(i, wake, ready) => WakeSection(s, i, wake, ready);
      case PollReturn(i, evs) => StaysKeeps(s.ws, LoopApply(s, a).ws);
      case PollRelock(i, wake, ready) => WakePollRelock(s, i, wake, ready);
    }
  }

  lemma WakeStep(s: State, a: Action)
    requires DispatchInv(s) && WakeInv(s) && Enabled(s, a)
    ensures WakeInv(Apply(s, a))
  {
    var t := Apply(s, a);
    match a {
      case OnLoop(l) =>
        if Scheduling(l) {
          WakeScheduling(s, l);
        } else {
          CalmLoop(s, l);
          StaysKeeps(s.ws, t.ws);
          if l.Submit? {
            SignalServes(s.ws, s.pollable, l.wake);
          } else if l.More? {
            assert Serving(t.ws[l.i]);
          }
        }
      case OnOut(o) =>
        CalmOut(s, o);
        StaysKeeps(s.ws, t.ws);
      case OnFlush(f) => CalmFlush(s, f);
    }
  }

  // ------------------------------------------------------------ theorems over runs

  lemma {:induction false} DispatchRun(tr: seq<State>, acts: seq<Action>, n: nat)
    requires IsRun(tr, acts) && n < |tr|
    ensures DispatchInv(tr[n])
  {
    if n > 0 {
      DispatchRun(tr, acts, n - 1);
      assert StepAt(tr, acts, n - 1);
      DispatchStep(tr[n - 1], acts[n - 1]);
    }
  }

  lemma {:induction false} WakeRun(tr: seq<State>, acts: seq<Action>, n: nat)
    requires IsRun(tr, acts) && n < |tr| && 2 <= |tr[0].ws|
    ensures WakeInv(tr[n])
  {
    if n == 0 {
      assert Serving(tr[0].ws[0]) && Serving(tr[0].ws[1]);
    } else {
      WakeRun(tr, acts, n - 1);
      DispatchRun(tr, acts, n - 1);
      assert StepAt(tr, acts, n - 1);
      WakeStep(tr[n - 1], acts[n - 1]);
    }
  }

  /** At most one worker is ever in the kernel wait or on its way back; the baton is taken and the backlog used up. */
  lemma SinglePoller(tr: seq<State>, acts: seq<Action>, n: nat, i: nat)
    requires IsRun(tr, acts) && n < |tr| && i < |tr[n].ws| && Poller(tr[n].ws[i])
    ensures !tr[n].pollable && tr[n].off == tr[n].num
    ensures forall j :: 0 <= j < |tr[n].ws| && Poller(tr[n].ws[j]) ==> j == i
  {
    DispatchRun(tr, acts, n);
  }

  /**
   * Tasks start in the order they were submitted, and what the kernel reported
   * is taken once each, in order: whatever is reported and not yet taken is in
   * the unread backlog, or with the poller that has not yet come back.
   */
  lemma ExactDispatch(tr: seq<State>, acts: seq<Action>, n: nat)
    requires IsRun(tr, acts) && n < |tr|
    ensures tr[n].submitted == tr[n].started + tr[n].tasks
    ensures UnreadOk(tr[n]) && tr[n].taken <= tr[n].polled
  {
    DispatchRun(tr, acts, n);
    if !tr[n].pollable {
      var i :| 0 <= i < |tr[n].ws| && Poller(tr[n].ws[i]);
    }
  }

  /** With two workers or more, queued work always finds a worker that will look. */
  lemma NoLostWork(tr: seq<State>, acts: seq<Action>, n: nat)
    requires IsRun(tr, acts) && n < |tr| && 2 <= |tr[0].ws|
    requires Work(tr[n])
    ensures exists i :: 0 <= i < |tr[n].ws| && Serving(tr[n].ws[i])
  {
    WakeRun(tr, acts, n);
  }

  /** No run from s0 ever leaves queued work to pollers and sleepers alone. */
  ghost predicate NeverStranded(s0: State)
  {
    forall tr: seq<State>, acts, n :: IsRun(tr, acts) && tr[0] == s0 && 0 <= n < |tr| && Work(tr[n]) ==> OneServing(tr[n].ws)
  }

  /** A lone worker takes the baton with a task in the queue; without workers the task just stays. */
  lemma LoneWorkerStrands(s0: State) returns (tr: seq<State>, acts: seq<Action>)
    requires Init(s0) && |s0.ws| < 2
    ensures IsRun(tr, acts) && tr[0] == s0
    ensures Work(tr[|tr| - 1]) && !OneServing(tr[|tr| - 1].ws)
  {
    var submit := OnLoop(Submit(0, 0));
    assert Enabled(s0, submit);
    var s1 := Apply(s0, submit);
    if |s0.ws| == 0 {
      acts, tr := [submit], [s0, s1];
    } else {
      var poll := OnLoop(Section(0, 0, []));
      assert Choose(s1) == StartPoll;
      var s2 := Apply(s1, poll);
      assert s2.ws[0] == Polling;
      acts, tr := [submit, poll], [s0, s1, s2];
    }
  }

  /** Freedom from lost work holds exactly from two workers on. */
  lemma NeverStrandedIff(s0: State)
    requires Init(s0)
    ensures NeverStranded(s0) <==> 2 <= |s0.ws|
  {
    if 2 <= |s0.ws| {
      forall tr: seq<State>, acts, n | IsRun(tr, acts) && tr[0] == s0 && 0 <= n < |tr| && Work(tr[n])
        ensures OneServing(tr[n].ws)
      {
        WakeRun(tr, acts, n);
      }
    } else {
      var tr, acts := LoneWorkerStrands(s0);
      assert Work(tr[|tr| - 1]);
    }
  }
}
