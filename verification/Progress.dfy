/**
 * Queued work gets served. While nothing new arrives every step of a worker, or
 * of the holder of an fd's lock, lowers a measure; and as long as work is queued
 * there is such a step. So however the threads are scheduled, a loop of two
 * workers or more comes to rest after boundedly many steps, with nothing queued.
 */
module Progress {
  import opened WavySystem
  import opened LoopProtocol
  import opened OutProtocol
  import opened TokenProtocol
  import opened LoopLaws
  import FlushProtocol
  import OutTheorems

  // ------------------------------------------------------------ steps that bring nothing new

  /**
   * The steps of workers inside the loop and of lock holders. Left out is what
   * brings something new: kernel reports, submissions, added handlers, more(),
   * calls of write; and what changes nothing: repeated next() and remove(),
   * spurious wakeups.
   */
  predicate Internal(s: State, a: Action)
  {
    match a
    case OnLoop(Section(_, _, ready)) => ready == []
    case OnLoop(PollRelock(_, _, ready)) => ready == []
    case OnLoop(Next(i)) => i < |s.ws| && s.ws[i].Handling? && !s.ws[i].reactivated
    case OnLoop(Remove(i)) => i < |s.ws| && s.ws[i].Handling? && !s.ws[i].removed
    case OnLoop(HandlerReturn(_, _)) => true
    case OnLoop(OutReactivate(_)) => true
    case OnLoop(TaskReturn(_)) => true
    case OnLoop(Broadcast(_)) => true
    case OnLoop(_) => false
    case OnOut(o) => !o.WriteEnter?
    case OnFlush(_) => false
  }

  const EVENT_WEIGHT: nat := 4
  const TASK_WEIGHT: nat := 4
  const WRITE_WEIGHT: nat := 10

  /** How far a worker is from sleep or the kernel wait, in steps, with what it will publish. */
  function Rank(pc: WorkerPc): nat
  {
    match pc
    case Asleep => 0
    case Polling => 0
    case Ready => 1
    case Notify => 2
    case OutPolled => 2
    case InTask(last) => if last then 3 else 2
    case Handling(_, reactivated, removed) => 2 + (if reactivated then 0 else 1) + (if removed then 0 else 1)
    case InWrite(_) => 10
    case Polled(evs) => EVENT_WEIGHT * |evs| + 2
  }

  function Ranks(ws: seq<WorkerPc>): nat
  {
    if ws == [] then 0 else Ranks(ws[..|ws| - 1]) + Rank(ws[|ws| - 1])
  }

  /** Where a critical section stands; a worker that leaves one gives up its own rank. */
  function PhaseRank(c: Ctx): nat
  {
    match c.phase
    case Writing(_) => 8
    case Pushed => 7
    case Added => 6
    case Unlocked => 5
    case Draining(_) => 4
    case Kept(_) => 3
    case Dropping(_) => 3
    case Removed(_) => 2
    case Cleared(_) => 1
  }

  function Phases(ctx: seq<Ctx>): nat
  {
    if ctx == [] then 0 else Phases(ctx[..|ctx| - 1]) + PhaseRank(ctx[|ctx| - 1])
  }

  function Queues(s: State): int
  {
    TASK_WEIGHT * |s.tasks| + WRITE_WEIGHT * |s.outq| + EVENT_WEIGHT * |s.more| + EVENT_WEIGHT * (s.num - s.off)
  }

  function Measure(s: State): int
  {
    Ranks(s.ws) + Phases(s.ctx) + Queues(s)
  }

  // ------------------------------------------------------------ sums

  lemma {:induction false} RanksUpdate(ws: seq<WorkerPc>, i: nat, pc: WorkerPc)
    requires i < |ws|
    ensures Ranks(ws[i := pc]) + Rank(ws[i]) == Ranks(ws) + Rank(pc)
  {
    var n := |ws| - 1;
    if i == n {
      assert ws[i := pc][..n] == ws[..n];
    } else {
      RanksUpdate(ws[..n], i, pc);
      assert ws[i := pc][..n] == ws[..n][i := pc];
    }
  }

  lemma {:induction false} PhasesUpdate(ctx: seq<Ctx>, fd: nat, c: Ctx)
    requires fd < |ctx|
    ensures Phases(ctx[fd := c]) + PhaseRank(ctx[fd]) == Phases(ctx) + PhaseRank(c)
  {
    var n := |ctx| - 1;
    if fd == n {
      assert ctx[fd := c][..n] == ctx[..n];
    } else {
      PhasesUpdate(ctx[..n], fd, c);
      assert ctx[fd := c][..n] == ctx[..n][fd := c];
    }
  }

  lemma RanksWake(ws: seq<WorkerPc>, j: nat)
    ensures Ranks(ws) <= Ranks(Wake(ws, j)) <= Ranks(ws) + 1
  {
    if j < |ws| && ws[j].Asleep? {
      RanksUpdate(ws, j, Ready);
    }
  }

  // ------------------------------------------------------------ every internal step lowers the measure

  /** A worker moves on its own, with at most one other woken. */
  lemma LowersWorker(s: State, t: State, i: nat, wake: nat, pc: WorkerPc)
    requires i < |s.ws| && !s.ws[i].Asleep? && t.ctx == s.ctx
    requires t.ws == s.ws[i := pc] || t.ws == Wake(s.ws, wake)[i := pc]
    requires Rank(pc) + Queues(t) + (if t.ws == s.ws[i := pc] then 0 else 1) < Rank(s.ws[i]) + Queues(s)
    ensures Measure(t) < Measure(s)
  {
    if t.ws == s.ws[i := pc] {
      RanksUpdate(s.ws, i, pc);
    } else {
      RanksWake(s.ws, wake);
      RanksUpdate(Wake(s.ws, wake), i, pc);
    }
  }

  lemma FireNothing(ctx: seq<Ctx>)
    ensures Fire(ctx, []) == ctx
  {
  }

  lemma DispatchWorker(s: State, i: nat, ke: Ident)
    requires i < |s.ws|
    ensures var t := Dispatch(s, i, ke, []);
            && t.ctx == s.ctx && Queues(t) == Queues(s) && t.ws == s.ws[i := t.ws[i]]
            && Rank(t.ws[i]) <= EVENT_WEIGHT
  {
    FireNothing(s.ctx);
  }

  lemma LowersSection(s: State, i: nat, wake: nat)
    requires LoopEnabled(s, Section(i, wake, []))
    ensures Measure(LoopApply(s, Section(i, wake, []))) < Measure(s)
  {
    var t := LoopApply(s, Section(i, wake, []));
    match Choose(s) {
      case TakeMore => DispatchWorker(s.(more := s.more[1..]), i, s.more[0]);
      case TakeEvent =>
        var ke := s.backlog[s.off];
        DispatchWorker(s.(off := s.off + 1, taken := s.taken + [ke]), i, ke);
      case _ =>
    }
    LowersWorker(s, t, i, wake, t.ws[i]);
  }

  lemma LowersRelock(s: State, i: nat, wake: nat)
    requires s.off <= s.num && LoopEnabled(s, PollRelock(i, wake, []))
    ensures Measure(LoopApply(s, PollRelock(i, wake, []))) < Measure(s)
  {
    var ke := s.backlog[0];
    var t := LoopApply(s, PollRelock(i, wake, []));
    DispatchWorker(s.(off := 1, num := |s.ws[i].evs|, pollable := true, ws := Wake(s.ws, wake), taken := s.taken + [ke]), i, ke);
    LowersWorker(s, t, i, wake, t.ws[i]);
  }

  lemma LowersLoop(s: State, a: LoopAction)
    requires s.off <= s.num && LoopEnabled(s, a) && Internal(s, OnLoop(a))
    ensures Measure(LoopApply(s, a)) < Measure(s)
  {
    if a.Section? {
      LowersSection(s, a.i, a.wake);
    } else if a.PollRelock? {
      LowersRelock(s, a.i, a.wake);
    } else {
      var t := LoopApply(s, a);
      LowersWorker(s, t, a.i, 0, t.ws[a.i]);
    }
  }

  /** A step inside a critical section, and the worker's leave at its end. */
  lemma LowersFd(s: State, t: State, fd: nat, i: nat)
    requires fd < |s.ctx| == |t.ctx| && t.ctx == s.ctx[fd := t.ctx[fd]] && Queues(t) == Queues(s)
    requires (t.ws == s.ws && PhaseRank(t.ctx[fd]) < PhaseRank(s.ctx[fd]))
          || (i < |s.ws| == |t.ws| && t.ws == s.ws[i := t.ws[i]]
              && PhaseRank(t.ctx[fd]) + Rank(t.ws[i]) < PhaseRank(s.ctx[fd]) + Rank(s.ws[i]))
    ensures Measure(t) < Measure(s)
  {
    PhasesUpdate(s.ctx, fd, t.ctx[fd]);
    if t.ws != s.ws {
      RanksUpdate(s.ws, i, t.ws[i]);
    }
  }

  lemma LowersWrite(s: State, a: OutAction)
    requires OutEnabled(s, a) && (a.WriteAppend? || a.WriteTry? || a.WriteAdd? || a.WriteCount?)
    ensures Measure(OutApply(s, a)) < Measure(s)
  {
    LowersFd(s, OutApply(s, a), a.fd, 0);
  }

  lemma LowersDrain(s: State, a: OutAction)
    requires OutEnabled(s, a) && !a.WriteEnter? && !a.WriteAppend? && !a.WriteTry? && !a.WriteAdd? && !a.WriteCount?
    ensures Measure(OutApply(s, a)) < Measure(s)
  {
    LowersFd(s, OutApply(s, a), s.ws[a.i].fd, a.i);
  }

  /** While nothing new arrives, every step brings the loop nearer to rest. */
  lemma InternalLowers(s: State, a: Action)
    requires s.off <= s.num && Enabled(s, a) && Internal(s, a)
    ensures Measure(Apply(s, a)) < Measure(s)
  {
    match a {
      case OnLoop(l) => LowersLoop(s, l);
      case OnOut(o) =>
        if o.WriteAppend? || o.WriteTry? || o.WriteAdd? || o.WriteCount? {
          LowersWrite(s, o);
        } else {
          LowersDrain(s, o);
        }
    }
  }

  // ------------------------------------------------------------ somebody can always move

  lemma SomeWake(ws: seq<WorkerPc>) returns (j: nat)
    ensures SignalOk(ws, j)
  {
    if k: nat :| k < |ws| && ws[k].Asleep? {
      j := k;
    } else {
      j := 0;
    }
  }

  /** A step that meets no answer of the kernel other than that it would block. */
  predicate Mild(a: Action)
  {
    a.OnOut? && (a.o.WriteTry? || a.o.DrainTry?) ==> a.o.answers == []
  }

  predicate MildFrom(acts: seq<Action>, n: nat)
  {
    forall k :: n <= k < |acts| ==> Mild(acts[k])
  }

  /** The holder of an fd's lock always has its next step. */
  lemma HolderCanMove(s: State, fd: nat) returns (a: Action)
    requires OutInv(s) && fd < |s.ctx| && !s.ctx[fd].phase.Unlocked?
    ensures Enabled(s, a) && Internal(s, a) && Mild(a)
  {
    assert RegOk(s, fd);
    a := match s.ctx[fd].phase
      case Writing(_) => if s.ctx[fd].queue != [] then OnOut(WriteAppend(fd)) else OnOut(WriteTry(fd, []))
      case Pushed => OnOut(WriteAdd(fd))
      case Added => OnOut(WriteCount(fd))
      case Draining(w) => OnOut(DrainTry(w, []))
      case Kept(w) => OnOut(DrainRearm(w))
      case Dropping(w) => OnOut(DrainRemove(w))
      case Removed(w) => OnOut(DrainClear(w))
      case Cleared(w) => OnOut(DrainCount(w));
  }

  /** A worker that is neither asleep nor in the kernel wait can move, or the holder of the lock it waits for can. */
  lemma WorkerCanMove(s: State, i: nat) returns (a: Action)
    requires DispatchInv(s) && OutInv(s) && i < |s.ws| && !s.ws[i].Asleep? && !s.ws[i].Polling?
    ensures Enabled(s, a) && Internal(s, a) && Mild(a)
  {
    var j := SomeWake(s.ws);
    match s.ws[i] {
      case Ready => a := OnLoop(Section(i, j, []));
      case Polled(_) => a := OnLoop(PollRelock(i, j, []));
      case Handling(_, _, _) => a := OnLoop(HandlerReturn(i, false));
      case OutPolled => a := OnLoop(OutReactivate(i));
      case InTask(_) => a := OnLoop(TaskReturn(i));
      case Notify => a := OnLoop(Broadcast(i));
      case InWrite(fd) =>
        if s.ctx[fd].phase.Unlocked? {
          a := OnOut(DrainLock(i));
        } else {
          a := HolderCanMove(s, fd);
        }
    }
  }

  /** Nothing is left to do but wait for the kernel: a poller waits, the others sleep, nothing is queued or locked. */
  predicate AtRest(s: State)
  {
    && !Work(s) && s.off == s.num
    && (exists i :: 0 <= i < |s.ws| && s.ws[i].Polling?)
    && (forall i :: 0 <= i < |s.ws| ==> s.ws[i].Polling? || s.ws[i].Asleep?)
    && (forall fd :: 0 <= fd < |s.ctx| ==> s.ctx[fd].phase.Unlocked?)
  }

  ghost predicate Stuck(s: State)
  {
    forall a :: Enabled(s, a) ==> !Internal(s, a)
  }

  lemma {:induction false} SameWorkers(tr: seq<State>, acts: seq<Action>, n: nat)
    requires IsRun(tr, acts) && n < |tr|
    ensures |tr[n].ws| == |tr[0].ws|
  {
    if n > 0 {
      SameWorkers(tr, acts, n - 1);
      assert StepAt(tr, acts, n - 1);
      StepSameWorkers(tr[n - 1], acts[n - 1]);
    }
  }

  lemma StepSameWorkers(s: State, a: Action)
    requires Enabled(s, a)
    ensures |Apply(s, a).ws| == |s.ws|
  {
    match a {
      case OnLoop(l) =>
      case OnOut(o) => CalmOut(s, o);
      case OnFlush(f) => CalmFlush(s, f);
    }
  }

  /** A state whose workers all poll or sleep, and whose fds nobody has locked, is one at rest. */
  lemma IdleIsRest(tr: seq<State>, acts: seq<Action>, n: nat)
    requires IsRun(tr, acts) && n < |tr| && 2 <= |tr[0].ws|
    requires forall i :: 0 <= i < |tr[n].ws| ==> tr[n].ws[i].Polling? || tr[n].ws[i].Asleep?
    requires forall fd :: 0 <= fd < |tr[n].ctx| ==> tr[n].ctx[fd].phase.Unlocked?
    ensures AtRest(tr[n])
  {
    var s := tr[n];
    DispatchRun(tr, acts, n);
    WakeRun(tr, acts, n);
    assert !s.pollable;
    var i :| 0 <= i < |s.ws| && Poller(s.ws[i]);
  }

  /** Short of rest some worker or some holder of a lock has a step to take, whatever the kernel has to say. */
  lemma SomebodyMoves(tr: seq<State>, acts: seq<Action>, n: nat) returns (a: Action)
    requires IsRun(tr, acts) && n < |tr| && 2 <= |tr[0].ws| && !AtRest(tr[n])
    ensures Enabled(tr[n], a) && Internal(tr[n], a) && Mild(a)
  {
    var s := tr[n];
    DispatchRun(tr, acts, n);
    OutTheorems.OutRun(tr, acts, n);
    if i: nat :| i < |s.ws| && !s.ws[i].Polling? && !s.ws[i].Asleep? {
      a := WorkerCanMove(s, i);
    } else if fd: nat :| fd < |s.ctx| && !s.ctx[fd].phase.Unlocked? {
      a := HolderCanMove(s, fd);
    } else {
      IdleIsRest(tr, acts, n);
      assert false;
    }
  }

  /** A state from which no internal step is possible is one at rest. */
  lemma StuckIsRest(tr: seq<State>, acts: seq<Action>, n: nat)
    requires IsRun(tr, acts) && n < |tr| && 2 <= |tr[0].ws| && Stuck(tr[n])
    ensures AtRest(tr[n])
  {
    if !AtRest(tr[n]) {
      var a := SomebodyMoves(tr, acts, n);
    }
  }

  /**
   * At rest nothing is deaf: every fd with output pending is armed in the out
   * kernel, the out kernel is armed in the main one, and in a clean run so is
   * every registered ident.
   */
  lemma RestIsArmed(tr: seq<State>, acts: seq<Action>, n: nat)
    requires IsRun(tr, acts) && n < |tr| && AtRest(tr[n])
    ensures forall fd :: 0 <= fd < |tr[n].ctx| && tr[n].ctx[fd].queue != [] ==> tr[n].ctx[fd].reg.Armed?
    ensures ArmedIn(tr[n].kern, OutKernel)
    ensures Disciplined(tr, acts) ==> forall id :: id in tr[n].kern ==> tr[n].kern[id]
  {
    var s := tr[n];
    OutTheorems.OutRun(tr, acts, n);
    OutKernelRun(tr, acts, n);
    NoHands(s.ws, OutKernel);
    assert Unread(s) == [];
    forall fd | 0 <= fd < |s.ctx| && s.ctx[fd].queue != [] ensures s.ctx[fd].reg.Armed? {
      assert RegOk(s, fd);
      OutTheorems.NoHolders(s.ws, fd);
    }
    if Disciplined(tr, acts) {
      forall id | id in s.kern ensures s.kern[id] {
        RegisteredNeverDeaf(tr, acts, n, id);
        NoHands(s.ws, id);
      }
    }
  }

  lemma {:induction false} SomeCounted(ctx: seq<Ctx>) returns (fd: nat)
    requires CountedIn(ctx) > 0
    ensures fd < |ctx| && Counted(ctx[fd])
  {
    var n := |ctx| - 1;
    if Counted(ctx[n]) {
      fd := n;
    } else {
      fd := SomeCounted(ctx[..n]);
    }
  }

  /**
   * At rest flush waits only for the kernel to accept output: a flusher that
   * sleeps does so because the output of some fd, armed all the way up, is still
   * pending; and one that has been woken returns iff there is none.
   */
  lemma RestFlusher(tr: seq<State>, acts: seq<Action>, n: nat, f: nat)
    requires IsRun(tr, acts) && n < |tr| && AtRest(tr[n]) && f < |tr[n].flushers|
    ensures tr[n].flushers[f].Sleeping? ==> PendingOutput(tr[n])
    ensures tr[n].flushers[f].Checking? ==>
              (FlushApply(tr[n], FlushCheck(f)).flushers[f].Flushed? <==> !PendingOutput(tr[n]))
  {
    var s := tr[n];
    OutTheorems.OutRun(tr, acts, n);
    FlushProtocol.FlushRun(tr, acts, n);
    RestIsArmed(tr, acts, n);
    if s.watching != 0 {
      var fd := SomeCounted(s.ctx);
      assert ArmedOutput(s, fd);
    } else {
      forall fd | 0 <= fd < |s.ctx| ensures !ArmedOutput(s, fd) {
        CountedZero(s.ctx, fd);
      }
    }
  }

  /** The fd has output pending, and will hear from the kernel when it can go on. */
  predicate ArmedOutput(s: State, fd: nat)
  {
    fd < |s.ctx| && s.ctx[fd].queue != [] && s.ctx[fd].reg.Armed? && ArmedIn(s.kern, OutKernel)
  }

  predicate PendingOutput(s: State)
  {
    exists fd :: 0 <= fd < |s.ctx| && ArmedOutput(s, fd)
  }

  // ------------------------------------------------------------ what internal steps do to the queues

  /** q lost at most its head. */
  predicate LostHead<T(==)>(q: seq<T>, r: seq<T>)
  {
    r == q || (q != [] && r == q[1..])
  }

  /** Nothing is added; what leaves a queue leaves from the head, into some worker's hands. */
  predicate OnlyTakes(s: State, t: State)
  {
    && t.submitted == s.submitted
    && LostHead(s.tasks, t.tasks) && LostHead(s.outq, t.outq) && LostHead(s.more, t.more)
    && (t.tasks != s.tasks ==> t.started == s.started + [s.tasks[0]])
    && (t.outq != s.outq ==> exists i :: 0 <= i < |t.ws| && t.ws[i] == InWrite(s.outq[0]))
    && (t.more != s.more ==> exists i :: 0 <= i < |t.ws| && InHands(t.ws[i], s.more[0]))
  }

  lemma SectionTakes(s: State, i: nat, wake: nat)
    requires LoopEnabled(s, Section(i, wake, []))
    ensures OnlyTakes(s, LoopApply(s, Section(i, wake, [])))
  {
    var t := LoopApply(s, Section(i, wake, []));
    assert |t.ws| == |s.ws|;
    match Choose(s) {
      case TakeMore => assert InHands(t.ws[i], s.more[0]);
      case ServeOut => assert t.ws[i] == InWrite(s.outq[0]);
      case _ =>
    }
  }

  lemma InternalTakes(s: State, a: Action)
    requires Enabled(s, a) && Internal(s, a)
    ensures OnlyTakes(s, Apply(s, a))
  {
    match a {
      case OnLoop(l) =>
        if l.Section? {
          SectionTakes(s, l.i, l.wake);
        }
      case OnOut(o) => CalmOut(s, o);
    }
  }

  // ------------------------------------------------------------ theorems over runs

  /** The actions from the n-th on up to the m-th are internal. */
  predicate InternalFrom(tr: seq<State>, acts: seq<Action>, n: nat, m: nat)
    requires |tr| == |acts| + 1 && m <= |acts|
  {
    forall k :: n <= k < m ==> Internal(tr[k], acts[k])
  }

  lemma MeasureIsNat(tr: seq<State>, acts: seq<Action>, n: nat)
    requires IsRun(tr, acts) && n < |tr|
    ensures Measure(tr[n]) >= 0
  {
    DispatchRun(tr, acts, n);
  }

  /** No stretch of internal steps is longer than the measure it starts with. */
  lemma {:induction false} InternalBounded(tr: seq<State>, acts: seq<Action>, n: nat, m: nat)
    requires IsRun(tr, acts) && n <= m < |tr| && InternalFrom(tr, acts, n, m)
    ensures m - n <= Measure(tr[n]) - Measure(tr[m])
    ensures m - n <= Measure(tr[n])
    decreases m - n
  {
    MeasureIsNat(tr, acts, m);
    if n < m {
      InternalBounded(tr, acts, n, m - 1);
      DispatchRun(tr, acts, m - 1);
      assert StepAt(tr, acts, m - 1);
      assert Internal(tr[m - 1], acts[m - 1]);
      InternalLowers(tr[m - 1], acts[m - 1]);
    }
  }

  /**
   * However the threads are scheduled, internal steps come to an end, and they
   * can end only at rest, with everything that was queued served: the tasks
   * queued at the start have all been started, in order.
   */
  lemma WorkIsServed(tr: seq<State>, acts: seq<Action>, n: nat, m: nat)
    requires IsRun(tr, acts) && n <= m < |tr| && 2 <= |tr[0].ws|
    requires InternalFrom(tr, acts, n, m) && Stuck(tr[m])
    ensures m - n <= Measure(tr[n])
    ensures AtRest(tr[m]) && tr[m].started == tr[n].started + tr[n].tasks
  {
    StuckIsRest(tr, acts, m);
    RestServed(tr, acts, n, m);
  }

  /** The same of any state at rest that internal steps have led to. */
  lemma RestServed(tr: seq<State>, acts: seq<Action>, n: nat, m: nat)
    requires IsRun(tr, acts) && n <= m < |tr| && InternalFrom(tr, acts, n, m) && AtRest(tr[m])
    ensures m - n <= Measure(tr[n]) && tr[m].started == tr[n].started + tr[n].tasks
  {
    InternalBounded(tr, acts, n, m);
    SubmittedSame(tr, acts, n, m);
    DispatchRun(tr, acts, n);
    DispatchRun(tr, acts, m);
    assert tr[m].started + [] == tr[m].started;
  }

  lemma {:induction false} SubmittedSame(tr: seq<State>, acts: seq<Action>, n: nat, m: nat)
    requires IsRun(tr, acts) && n <= m < |tr| && InternalFrom(tr, acts, n, m)
    ensures tr[m].submitted == tr[n].submitted
    decreases m - n
  {
    if n < m {
      SubmittedSame(tr, acts, n, m - 1);
      assert StepAt(tr, acts, m - 1);
      assert Internal(tr[m - 1], acts[m - 1]);
      InternalTakes(tr[m - 1], acts[m - 1]);
    }
  }

  /** In any step the out queue gains at the end, or loses its head into a worker's hands. */
  predicate OutqMoves(s: State, t: State)
  {
    || s.outq <= t.outq
    || (s.outq != [] && t.outq == s.outq[1..] && exists i :: 0 <= i < |t.ws| && t.ws[i] == InWrite(s.outq[0]))
  }

  predicate MoreQueueMoves(s: State, t: State)
  {
    || s.more <= t.more
    || (s.more != [] && t.more == s.more[1..] && exists i :: 0 <= i < |t.ws| && InHands(t.ws[i], s.more[0]))
  }

  lemma QueuesMove(s: State, a: Action)
    requires Enabled(s, a)
    ensures OutqMoves(s, Apply(s, a)) && MoreQueueMoves(s, Apply(s, a))
  {
    match a {
      case OnLoop(l) =>
        OutqLaw(s, l);
        MoreLaw(s, l);
        LoopQueues(s, l);
      case OnOut(o) => CalmOut(s, o);
      case OnFlush(f) => CalmFlush(s, f);
    }
  }

  lemma LoopQueues(s: State, a: LoopAction)
    requires LoopEnabled(s, a)
    ensures Served(s, a) != [] ==> Heard(s, a) == [] && LoopApply(s, a).outq == s.outq[1..]
    ensures TakenMore(s, a) != [] ==> LoopApply(s, a).more == s.more[1..]
  {
    if a.Section? {
      SectionLaw(s, a.i, a.wake, a.ready);
    }
  }

  lemma QueuesMoveAt(tr: seq<State>, acts: seq<Action>, n: nat)
    requires IsRun(tr, acts) && n < |acts|
    ensures OutqMoves(tr[n], tr[n + 1]) && MoreQueueMoves(tr[n], tr[n + 1])
  {
    assert StepAt(tr, acts, n);
    QueuesMove(tr[n], acts[n]);
  }

  /** Whatever happens meanwhile, each event of the output queue that is gone by then was put in some worker's hands on the way. */
  lemma {:induction false} WriteEventTaken(tr: seq<State>, acts: seq<Action>, n: nat, m: nat, j: nat) returns (k: nat, i: nat)
    requires IsRun(tr, acts) && n <= m < |tr|
    requires j < |tr[n].outq| && tr[m].outq == []
    ensures n < k <= m && i < |tr[k].ws| && tr[k].ws[i] == InWrite(tr[n].outq[j])
    decreases m - n
  {
    QueuesMoveAt(tr, acts, n);
    if tr[n].outq <= tr[n + 1].outq {
      k, i := WriteEventTaken(tr, acts, n + 1, m, j);
    } else if j == 0 {
      k := n + 1;
      i :| 0 <= i < |tr[k].ws| && tr[k].ws[i] == InWrite(tr[n].outq[0]);
    } else {
      k, i := WriteEventTaken(tr, acts, n + 1, m, j - 1);
    }
  }

  /** The same for the events queued by more(). */
  lemma {:induction false} MoreEventTaken(tr: seq<State>, acts: seq<Action>, n: nat, m: nat, j: nat) returns (k: nat, i: nat)
    requires IsRun(tr, acts) && n <= m < |tr|
    requires j < |tr[n].more| && tr[m].more == []
    ensures n < k <= m && i < |tr[k].ws| && InHands(tr[k].ws[i], tr[n].more[j])
    decreases m - n
  {
    QueuesMoveAt(tr, acts, n);
    if tr[n].more <= tr[n + 1].more {
      k, i := MoreEventTaken(tr, acts, n + 1, m, j);
    } else if j == 0 {
      k := n + 1;
      i :| 0 <= i < |tr[k].ws| && InHands(tr[k].ws[i], tr[n].more[0]);
    } else {
      k, i := MoreEventTaken(tr, acts, n + 1, m, j - 1);
    }
  }

  /** Some worker has the fd's write event in hand in a state after the n-th, up to the m-th. */
  predicate ServedBetween(tr: seq<State>, n: nat, m: nat, fd: nat)
    requires n <= m < |tr|
  {
    exists k, i :: n < k <= m && 0 <= i < |tr[k].ws| && tr[k].ws[i] == InWrite(fd)
  }

  /** Every fd on the out queue is served: by the time the queue is empty some worker has had its event in hand. */
  lemma QueuedIsServed(tr: seq<State>, acts: seq<Action>, n: nat, m: nat, fd: nat)
    requires IsRun(tr, acts) && n <= m < |tr| && fd in tr[n].outq && tr[m].outq == []
    ensures ServedBetween(tr, n, m, fd)
  {
    var j :| 0 <= j < |tr[n].outq| && tr[n].outq[j] == fd;
    var k, i := WriteEventTaken(tr, acts, n, m, j);
  }

  lemma ServedAtInHands(s: State, a: LoopAction, fd: nat) returns (i: nat)
    requires LoopEnabled(s, a) && fd in Served(s, a)
    ensures i < |LoopApply(s, a).ws| && LoopApply(s, a).ws[i] == InWrite(fd)
  {
    OutqLaw(s, a);
    i := a.i;
  }

  lemma ServedStep(tr: seq<State>, acts: seq<Action>, n: nat, fd: nat)
    requires |tr| == |acts| + 1 && n < |acts| && StepAt(tr, acts, n) && fd in ServedAt(tr, acts, n)
    ensures ServedBetween(tr, n, n + 1, fd)
  {
    var i := ServedAtInHands(tr[n], acts[n].l, fd);
    assert tr[n + 1].ws[i] == InWrite(fd);
  }

  lemma {:induction false} ServedInHands(tr: seq<State>, acts: seq<Action>, n: nat, fd: nat)
    requires IsRun(tr, acts) && n < |tr| && fd in ServedBy(tr, acts, n)
    ensures ServedBetween(tr, 0, n, fd)
  {
    assert StepAt(tr, acts, n - 1);
    if fd in ServedAt(tr, acts, n - 1) {
      ServedStep(tr, acts, n - 1, fd);
    } else {
      ServedInHands(tr, acts, n - 1, fd);
    }
  }

  /**
   * Every fd the out kernel reports is served: whenever the out queue is empty the
   * write events served so far are exactly those reported so far, in that order,
   * and each has been in some worker's hands.
   */
  lemma ReportedIsServed(tr: seq<State>, acts: seq<Action>, n: nat)
    requires IsRun(tr, acts) && n < |tr| && tr[n].outq == []
    ensures HeardBy(tr, acts, n) == ServedBy(tr, acts, n)
    ensures forall fd :: fd in HeardBy(tr, acts, n) ==> ServedBetween(tr, 0, n, fd)
  {
    OutDispatchRun(tr, acts, n);
    assert HeardBy(tr, acts, n) == ServedBy(tr, acts, n);
    forall fd | fd in ServedBy(tr, acts, n) ensures ServedBetween(tr, 0, n, fd) {
      ServedInHands(tr, acts, n, fd);
    }
  }

  /** A run that is not at rest goes on by an internal step, to a lower measure. */
  lemma OneMore(tr: seq<State>, acts: seq<Action>, n: nat) returns (tr': seq<State>, acts': seq<Action>)
    requires IsRun(tr, acts) && n < |tr| && 2 <= |tr[0].ws| && !AtRest(tr[|acts|])
    requires InternalFrom(tr, acts, n, |acts|) && MildFrom(acts, n)
    ensures IsRun(tr', acts') && tr <= tr' && acts <= acts' && InternalFrom(tr', acts', n, |acts'|) && MildFrom(acts', n)
    ensures 0 <= Measure(tr'[|acts'|]) < Measure(tr[|acts|])
  {
    var s := tr[|acts|];
    DispatchRun(tr, acts, |acts|);
    var a := SomebodyMoves(tr, acts, |acts|);
    InternalLowers(s, a);
    tr', acts' := Extend(tr, acts, a);
    MeasureIsNat(tr', acts', |acts'|);
    forall k | n <= k < |acts'| ensures Internal(tr'[k], acts'[k]) {
      if k < |acts| {
        assert Internal(tr[k], acts[k]);
      }
    }
  }

  /**
   * Every run can be carried on by internal steps until it rests, whatever the
   * kernel has to say: the end that WorkIsServed speaks of exists.
   */
  lemma {:induction false} CanComeToRest(tr: seq<State>, acts: seq<Action>, n: nat) returns (tr': seq<State>, acts': seq<Action>)
    requires IsRun(tr, acts) && n < |tr| && 2 <= |tr[0].ws| && InternalFrom(tr, acts, n, |acts|) && MildFrom(acts, n)
    ensures IsRun(tr', acts') && tr <= tr' && acts <= acts'
    ensures InternalFrom(tr', acts', n, |acts'|) && MildFrom(acts', n) && AtRest(tr'[|acts'|])
    ensures |acts'| - n <= Measure(tr[n])
    ensures tr'[|acts'|].started == tr[n].started + tr[n].tasks
    decreases Measure(tr[|acts|])
  {
    if AtRest(tr[|acts|]) {
      tr', acts' := tr, acts;
      RestServed(tr, acts, n, |acts|);
    } else {
      var tr1, acts1 := OneMore(tr, acts, n);
      tr', acts' := CanComeToRest(tr1, acts1, n);
    }
  }
}
