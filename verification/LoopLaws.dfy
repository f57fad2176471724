/**
 * What each step does to the kernel, the queues and the other workers, told from
 * the action and the state it meets; and what that makes of whole runs, told
 * from the actions alone.
 */
module LoopLaws {
  import opened XferSpec
  import opened WavySystem
  import opened LoopProtocol
  import opened Sequences
  import opened TokenProtocol

  // ------------------------------------------------------------ what can happen

  /** There is a started loop of every size. */
  lemma SomeStart(workers: nat, fds: nat, flushers: nat) returns (s: State)
    ensures Init(s) && |s.ws| == workers && |s.ctx| == fds && |s.flushers| == flushers
  {
    s := State(seq(workers, _ => Ready), true, seq(BACKLOG_SIZE, _ => OutKernel), 0, 0, [], [], map[OutKernel := true], [], 0,
               seq(fds, _ => Ctx([], Unlocked, Unregistered, [], [], [])), seq(flushers, _ => Idle), [], [], [], []);
  }

  predicate Reportable(s: State, evs: seq<Ident>)
  {
    && 0 < |evs| <= 1024 && (forall k :: 0 <= k < |evs| ==> ArmedIn(s.kern, evs[k]))
    && (forall j, k :: 0 <= j < k < |evs| ==> evs[j] != evs[k])
  }

  /**
   * Nobody is held up who is not held up by the code: a handler may make any call
   * and return anything, users may call submit, add_handler, remove_handler and
   * flush at any time and write to any fd nobody has locked, and a kernel in
   * which somebody waits may report any armed idents.
   */
  lemma MayHappen(s: State, i: nat, fd: nat, f: nat, rs: seq<Record>, evs: seq<Ident>, t: Task, cont: bool, wake: nat)
    requires SignalOk(s.ws, wake)
    ensures Enabled(s, OnLoop(Submit(t, wake))) && Enabled(s, OnLoop(AddHandler(fd))) && Enabled(s, OnLoop(RemoveHandler(fd)))
    ensures i < |s.ws| && s.ws[i].Handling? ==>
              && Enabled(s, OnLoop(More(i, wake))) && Enabled(s, OnLoop(Next(i))) && Enabled(s, OnLoop(Remove(i)))
              && Enabled(s, OnLoop(HandlerReturn(i, cont)))
    ensures i < |s.ws| && s.ws[i].Polling? && Reportable(s, evs) ==> Enabled(s, OnLoop(PollReturn(i, evs)))
    ensures fd < |s.ctx| && s.ctx[fd].phase.Unlocked? ==> Enabled(s, OnOut(WriteEnter(fd, rs)))
    ensures f < |s.flushers| && (s.flushers[f].Idle? || s.flushers[f].Flushed?) ==> Enabled(s, OnFlush(FlushCall(f)))
    ensures f < |s.flushers| && s.flushers[f].Checking? ==> Enabled(s, OnFlush(FlushCheck(f)))
  {
  }

  /** A worker that has the mutex may be told by the out kernel of any armed fds, each once. */
  lemma AnyReport(s: State, i: nat, ready: seq<nat>, wake: nat)
    requires SignalOk(s.ws, wake) && i < |s.ws|
    requires forall k :: 0 <= k < |ready| ==> ready[k] < |s.ctx| && s.ctx[ready[k]].reg.Armed?
    requires forall j, k :: 0 <= j < k < |ready| ==> ready[j] != ready[k]
    ensures s.ws[i].Ready? && s.off <= s.num <= |s.backlog| ==> Enabled(s, OnLoop(Section(i, wake, ready)))
    ensures s.ws[i].Polled? && s.ws[i].evs != [] && s.backlog != [] ==> Enabled(s, OnLoop(PollRelock(i, wake, ready)))
  {
  }

  // ------------------------------------------------------------ events

  /** The event a step takes into process_handler: one queued by more() first, then the backlog's. */
  function EventTaken(s: State, a: LoopAction): seq<Ident>
    requires LoopEnabled(s, a)
  {
    match a
    case Section(_, _, _) =>
      if s.more != [] then [s.more[0]]
      else if s.pollable && |s.tasks| <= 16 && s.off < s.num then [s.backlog[s.off]]
      else []
    case PollRelock(_, _, _) => [s.backlog[0]]
    case _ => []
  }

  /** The fds that a step hears of: all that the out kernel reports, when it takes the out kernel's event. */
  function Heard(s: State, a: LoopAction): seq<nat>
    requires LoopEnabled(s, a)
  {
    if EventTaken(s, a) != [OutKernel] then []
    else match a
      case Section(_, _, ready) => ready
      case PollRelock(_, _, ready) => ready
      case _ => []
  }

  /** The out kernel's event queues every reported fd and disarms exactly these; any other event enters its handler. */
  lemma EventLaw(s: State, a: LoopAction, ke: Ident)
    requires LoopEnabled(s, a) && EventTaken(s, a) == [ke]
    ensures var t := LoopApply(s, a);
            && a.i < |t.ws| && t.ws[a.i] == (if ke.OutKernel? then OutPolled else Handling(ke, false, false))
            && t.outq == s.outq + Heard(s, a) && |t.ctx| == |s.ctx|
            && (forall fd :: 0 <= fd < |s.ctx| ==>
                  t.ctx[fd] == if fd in Heard(s, a) then s.ctx[fd].(reg := Disarmed) else s.ctx[fd])
    ensures forall fd :: fd in Heard(s, a) ==> fd < |s.ctx| && s.ctx[fd].reg.Armed?
  {
    assert Fire(s.ctx, []) == s.ctx;
    if a.Section? && s.more == [] {
      assert Choose(s).TakeEvent?;
    }
  }

  // ------------------------------------------------------------ whom a section serves

  /** A signal on m_cond wakes a sleeper if there is one; k is not the worker that signals. */
  predicate Signalled(ws: seq<WorkerPc>, vs: seq<WorkerPc>, i: nat)
  {
    |ws| == |vs| &&
    ((exists k :: 0 <= k < |ws| && k != i && ws[k].Asleep?) ==> exists k :: 0 <= k < |ws| && k != i && ws[k].Asleep? && vs[k].Ready?)
  }

  /** A task is started from the head of the queue, and if others remain another worker is called for them. */
  predicate StartsTask(s: State, t: State, i: nat)
    requires s.tasks != [] && i < |s.ws| == |t.ws|
  {
    && t.started == s.started + [s.tasks[0]] && t.tasks == s.tasks[1..]
    && t.ws[i] == InTask(|s.tasks| == 1)
    && (|s.tasks| > 1 ==> Signalled(s.ws, t.ws, i))
    && t.outq == s.outq && t.more == s.more && t.off == s.off && t.pollable == s.pollable
  }

  /**
   * The order of service. "More" events come first; while another worker polls,
   * output comes before tasks, and without either the worker sleeps; while none
   * does, tasks come first only above the limit, then unread events, and without
   * these the worker polls.
   */
  lemma SectionLaw(s: State, i: nat, wake: nat, ready: seq<nat>)
    requires LoopEnabled(s, Section(i, wake, ready))
    ensures var t := LoopApply(s, Section(i, wake, ready));
            && |t.ws| == |s.ws|
            && (if s.more != [] then
                  && t.more == s.more[1..] && t.tasks == s.tasks && t.started == s.started && t.off == s.off && t.pollable == s.pollable
                else if s.pollable && |s.tasks| > 16 then StartsTask(s, t, i)
                else if s.pollable && s.off < s.num then
                  && t.off == s.off + 1 && t.taken == s.taken + [s.backlog[s.off]]
                  && t.tasks == s.tasks && t.started == s.started && t.more == s.more && t.pollable
                else if s.pollable then t == s.(pollable := false, ws := s.ws[i := Polling])
                else if s.outq != [] then t == s.(outq := s.outq[1..], ws := s.ws[i := InWrite(s.outq[0])])
                else if s.tasks != [] then StartsTask(s, t, i)
                else t == s.(ws := s.ws[i := Asleep]))
  {
    if Choose(s).ServeTask? && |s.tasks| > 1 {
      SignalWakes(s.ws, wake, i, InTask(false));
    }
  }

  lemma SignalWakes(ws: seq<WorkerPc>, wake: nat, i: nat, pc: WorkerPc)
    requires i < |ws| && !ws[i].Asleep? && SignalOk(ws, wake)
    ensures Signalled(ws, Wake(ws, wake)[i := pc], i)
  {
    if exists k :: 0 <= k < |ws| && k != i && ws[k].Asleep? {
      assert ws[wake].Asleep? && Wake(ws, wake)[i := pc][wake].Ready?;
    }
  }

  /** more() calls for another worker, and so does a submission and a poller that comes back. */
  lemma SignalLaw(s: State, a: LoopAction)
    requires LoopEnabled(s, a)
    requires a.Submit? || a.PollRelock? || (a.More? && !s.ws[a.i].reactivated)
    ensures Signalled(s.ws, LoopApply(s, a).ws, if a.Submit? then |s.ws| else a.i)
  {
    var t := LoopApply(s, a);
    if a.Submit? {
      if exists k :: 0 <= k < |s.ws| && s.ws[k].Asleep? {
        assert s.ws[a.wake].Asleep? && t.ws[a.wake].Ready?;
      }
    } else {
      SignalWakes(s.ws, a.wake, a.i, t.ws[a.i]);
      assert t.ws == Wake(s.ws, a.wake)[a.i := t.ws[a.i]];
    }
  }

  predicate OnlyWoken(ws: seq<WorkerPc>, vs: seq<WorkerPc>, k: nat)
  {
    |ws| == |vs| && k < |ws| && (vs[k] == ws[k] || (ws[k].Asleep? && vs[k].Ready?))
  }

  lemma SectionOthers(s: State, i: nat, wake: nat, ready: seq<nat>, k: nat)
    requires LoopEnabled(s, Section(i, wake, ready)) && k < |s.ws| && k != i
    ensures OnlyWoken(s.ws, LoopApply(s, Section(i, wake, ready)).ws, k)
  {
    var t := LoopApply(s, Section(i, wake, ready));
    if Choose(s).ServeTask? {
      assert t.ws == s.ws[i := t.ws[i]] || t.ws == Wake(s.ws, wake)[i := t.ws[i]];
    } else {
      assert t.ws == s.ws[i := t.ws[i]];
    }
  }

  lemma HandlerOthers(s: State, a: LoopAction, k: nat)
    requires LoopEnabled(s, a) && k < |s.ws| && (a.PollRelock? || a.More? || a.Next? || a.Remove? || a.HandlerReturn?) && k != a.i
    ensures OnlyWoken(s.ws, LoopApply(s, a).ws, k)
  {
  }

  /** What one worker does changes another worker only by waking it. */
  lemma OthersLaw(s: State, a: LoopAction, k: nat)
    requires LoopEnabled(s, a) && k < |s.ws|
    requires a.Submit? || a.AddHandler? || a.RemoveHandler? || k != a.i
    ensures OnlyWoken(s.ws, LoopApply(s, a).ws, k)
  {
    if a.Section? {
      SectionOthers(s, a.i, a.wake, a.ready, k);
    } else if a.PollRelock? || a.More? || a.Next? || a.Remove? || a.HandlerReturn? {
      HandlerOthers(s, a, k);
    }
  }

  /**
   * Where each step leaves the worker that takes it. After the last task of the
   * queue a worker goes on to broadcast, after any other it does not; the poller
   * that comes back frees the baton and leaves the other events it got unread.
   */
  lemma WorkerLaw(s: State, a: LoopAction)
    requires LoopEnabled(s, a)
    requires !a.Section? && !a.Submit? && !a.AddHandler? && !a.RemoveHandler?
    ensures var t := LoopApply(s, a);
            && |t.ws| == |s.ws|
            && match a
               case PollReturn(i, evs) => t.ws[i] == Polled(evs) && t.pollable == s.pollable
               case PollRelock(i, _, _) => t.pollable && t.off == 1 && t.num == |s.ws[i].evs| && t.backlog == s.backlog && !t.ws[i].Polled?
               case More(i, _) => t.ws[i] == s.ws[i].(reactivated := true)
               case Next(i) => t.ws[i] == s.ws[i].(reactivated := true)
               case Remove(i) => t.ws[i] == s.ws[i].(removed := true)
               case TaskReturn(i) => t.ws[i] == if s.ws[i].last then Notify else Ready
               case _ => t.ws[a.i] == Ready
  {
  }

  /** A broadcast sends every sleeping flusher to look again; nothing else the loop does touches a flusher. */
  lemma FlusherLaw(s: State, a: LoopAction, f: nat)
    requires LoopEnabled(s, a) && f < |s.flushers|
    ensures var t := LoopApply(s, a);
            && |t.flushers| == |s.flushers|
            && t.flushers[f] == if a.Broadcast? && s.flushers[f].Sleeping? then Checking(s.flushers[f].snap) else s.flushers[f]
  {
  }

  /** A flusher looks once it has the mutex: it returns iff no output is counted and no task queued, and sleeps otherwise. */
  lemma FlushLaw(s: State, f: nat)
    requires FlushEnabled(s, FlushCheck(f))
    ensures var t := FlushApply(s, FlushCheck(f));
            && |t.flushers| == |s.flushers|
            && (s.watching == 0 && s.tasks == [] <==> t.flushers[f].Flushed?)
            && (!(s.watching == 0 && s.tasks == []) <==> t.flushers[f].Sleeping?)
            && forall g :: 0 <= g < |s.flushers| && g != f ==> t.flushers[g] == s.flushers[g]
  {
  }

  // ------------------------------------------------------------ the main kernel's registrations

  predicate Adds(a: Action, id: Ident)
  {
    a.OnLoop? && a.l.AddHandler? && id == Handler(a.l.fd)
  }

  /** What unregisters an ident: its handler's remove(), remove_handler, or its handler's return with false. */
  predicate Removes(s: State, a: Action, id: Ident)
    requires Enabled(s, a)
  {
    match a
    case OnLoop(Remove(i)) => s.ws[i].ev == id && !s.ws[i].removed
    case OnLoop(RemoveHandler(fd)) => id == Handler(fd)
    case OnLoop(HandlerReturn(i, cont)) => s.ws[i].ev == id && !cont && !s.ws[i].reactivated && !s.ws[i].removed
    case _ => false
  }

  /** What arms an ident: adding it anew, its handler's next() or return with true, the worker that polled the out kernel. */
  predicate Arms(s: State, a: Action, id: Ident)
    requires Enabled(s, a)
  {
    match a
    case OnLoop(AddHandler(fd)) => id == Handler(fd) && id !in s.kern
    case OnLoop(Next(i)) => s.ws[i].ev == id && !s.ws[i].reactivated
    case OnLoop(HandlerReturn(i, cont)) => s.ws[i].ev == id && cont && !s.ws[i].reactivated && !s.ws[i].removed
    case OnLoop(OutReactivate(_)) => id == OutKernel
    case _ => false
  }

  predicate Fires(a: Action, id: Ident)
  {
    a.OnLoop? && a.l.PollReturn? && id in a.l.evs
  }

  /** A registration comes and goes only by steps about that ident; and so does its being armed. */
  lemma KernelLaw(s: State, a: Action, id: Ident)
    requires Enabled(s, a)
    ensures id in Apply(s, a).kern <==> Adds(a, id) || (id in s.kern && !Removes(s, a, id))
    ensures ArmedIn(Apply(s, a).kern, id) <==>
              id in Apply(s, a).kern && (Arms(s, a, id) || (ArmedIn(s.kern, id) && !Fires(a, id)))
  {
    match a {
      case OnLoop(l) => LoopKernelLaw(s, l, id);
      case OnOut(o) =>
      case OnFlush(f) => CalmFlush(s, f);
    }
  }

  lemma LoopKernelLaw(s: State, a: LoopAction, id: Ident)
    requires LoopEnabled(s, a)
    ensures id in LoopApply(s, a).kern <==> Adds(OnLoop(a), id) || (id in s.kern && !Removes(s, OnLoop(a), id))
    ensures ArmedIn(LoopApply(s, a).kern, id) <==>
              id in LoopApply(s, a).kern && (Arms(s, OnLoop(a), id) || (ArmedIn(s.kern, id) && !Fires(OnLoop(a), id)))
  {
  }

  /** remove() by a handler that has not removed yet, and remove_handler, leave the ident unregistered; a repeated remove() does nothing. */
  lemma GoneAfterRemove(s: State, a: LoopAction)
    requires LoopEnabled(s, a) && (a.Remove? || a.RemoveHandler?)
    ensures a.RemoveHandler? ==> Handler(a.fd) !in LoopApply(s, a).kern
    ensures a.Remove? && !s.ws[a.i].removed ==> s.ws[a.i].ev !in LoopApply(s, a).kern
    ensures a.Remove? && s.ws[a.i].removed ==> LoopApply(s, a) == s
  {
  }

  /** The j-th step unregisters the ident. */
  predicate RemovesAt(tr: seq<State>, acts: seq<Action>, j: nat, id: Ident)
    requires |tr| == |acts| + 1 && j < |acts|
  {
    StepAt(tr, acts, j) && Removes(tr[j], acts[j], id)
  }

  predicate NotRemovedSince(tr: seq<State>, acts: seq<Action>, k: nat, n: nat, id: Ident)
    requires |tr| == |acts| + 1 && n < |tr|
  {
    forall j :: k <= j < n ==> !RemovesAt(tr, acts, j, id)
  }

  predicate AddedLast(tr: seq<State>, acts: seq<Action>, n: nat, id: Ident)
    requires |tr| == |acts| + 1 && n < |tr|
  {
    exists k :: 0 <= k < n && Adds(acts[k], id) && NotRemovedSince(tr, acts, k + 1, n, id)
  }

  /** In every run an ident is registered iff the latest add or removal of it was an add; the out kernel starts out added. */
  lemma {:induction false} RegisteredIff(tr: seq<State>, acts: seq<Action>, n: nat, id: Ident)
    requires IsRun(tr, acts) && n < |tr|
    ensures id in tr[n].kern <==> AddedLast(tr, acts, n, id) || (id == OutKernel && NotRemovedSince(tr, acts, 0, n, id))
  {
    if n > 0 {
      RegisteredIff(tr, acts, n - 1, id);
      RegisteredAt(tr, acts, n - 1, id);
      if Adds(acts[n - 1], id) {
        assert NotRemovedSince(tr, acts, n, n, id);
      } else {
        AddedStep(tr, acts, n - 1, id);
      }
    }
  }

  lemma RegisteredAt(tr: seq<State>, acts: seq<Action>, n: nat, id: Ident)
    requires IsRun(tr, acts) && n < |acts|
    ensures id in tr[n + 1].kern <==> Adds(acts[n], id) || (id in tr[n].kern && !RemovesAt(tr, acts, n, id))
  {
    assert StepAt(tr, acts, n);
    KernelLaw(tr[n], acts[n], id);
  }

  lemma AddedStep(tr: seq<State>, acts: seq<Action>, n: nat, id: Ident)
    requires |tr| == |acts| + 1 && n < |acts| && !Adds(acts[n], id)
    ensures AddedLast(tr, acts, n + 1, id) <==> AddedLast(tr, acts, n, id) && !RemovesAt(tr, acts, n, id)
    ensures NotRemovedSince(tr, acts, 0, n + 1, id) <==> NotRemovedSince(tr, acts, 0, n, id) && !RemovesAt(tr, acts, n, id)
  {
    if AddedLast(tr, acts, n + 1, id) {
      var k :| 0 <= k < n + 1 && Adds(acts[k], id) && NotRemovedSince(tr, acts, k + 1, n + 1, id);
      assert k < n && NotRemovedSince(tr, acts, k + 1, n, id);
      assert !RemovesAt(tr, acts, n, id);
    }
    if AddedLast(tr, acts, n, id) && !RemovesAt(tr, acts, n, id) {
      var k :| 0 <= k < n && Adds(acts[k], id) && NotRemovedSince(tr, acts, k + 1, n, id);
      assert NotRemovedSince(tr, acts, k + 1, n + 1, id);
    }
  }

  // ------------------------------------------------------------ what was handed in, from the actions

  function Submissions(acts: seq<Action>): seq<Task>
  {
    if acts == [] then []
    else
      var a := acts[|acts| - 1];
      Submissions(acts[..|acts| - 1]) + if a.OnLoop? && a.l.Submit? then [a.l.t] else []
  }

  function Reports(acts: seq<Action>): seq<Ident>
  {
    if acts == [] then []
    else
      var a := acts[|acts| - 1];
      Reports(acts[..|acts| - 1]) + if a.OnLoop? && a.l.PollReturn? then a.l.evs else []
  }

  lemma StepHistory(s: State, a: Action)
    requires Enabled(s, a)
    ensures Apply(s, a).submitted == s.submitted + if a.OnLoop? && a.l.Submit? then [a.l.t] else []
    ensures Apply(s, a).polled == s.polled + if a.OnLoop? && a.l.PollReturn? then a.l.evs else []
  {
    match a {
      case OnLoop(l) =>
      case OnOut(o) => CalmOut(s, o);
      case OnFlush(f) => CalmFlush(s, f);
    }
  }

  lemma {:induction false} HistoryRun(tr: seq<State>, acts: seq<Action>, n: nat)
    requires IsRun(tr, acts) && n < |tr|
    ensures tr[n].submitted == Submissions(acts[..n]) && tr[n].polled == Reports(acts[..n])
  {
    if n > 0 {
      HistoryRun(tr, acts, n - 1);
      assert StepAt(tr, acts, n - 1);
      StepHistory(tr[n - 1], acts[n - 1]);
      assert acts[..n][..n - 1] == acts[..n - 1] && acts[..n][n - 1] == acts[n - 1];
    }
  }

  /**
   * Tasks are started in the order in which submit was called, each once, and
   * those not started are queued; events are taken in the order in which the
   * kernel reported them.
   */
  lemma DispatchOfCalls(tr: seq<State>, acts: seq<Action>, n: nat)
    requires IsRun(tr, acts) && n < |tr|
    ensures Submissions(acts[..n]) == tr[n].started + tr[n].tasks
    ensures tr[n].taken <= Reports(acts[..n])
  {
    HistoryRun(tr, acts, n);
    ExactDispatch(tr, acts, n);
  }

  // ------------------------------------------------------------ output events and "more" events

  /** The head of the out queue, when a step takes it. */
  function Served(s: State, a: LoopAction): seq<nat>
    requires LoopEnabled(s, a)
  {
    if a.Section? && s.more == [] && !s.pollable && s.outq != [] then [s.outq[0]] else []
  }

  /** The out queue is filled by what is heard of and emptied from the head, into the hands of the worker that serves. */
  lemma OutqLaw(s: State, a: LoopAction)
    requires LoopEnabled(s, a)
    ensures Served(s, a) + LoopApply(s, a).outq == s.outq + Heard(s, a)
    ensures Served(s, a) != [] ==> a.i < |LoopApply(s, a).ws| && LoopApply(s, a).ws[a.i] == InWrite(Served(s, a)[0])
  {
    if EventTaken(s, a) != [] {
      EventLaw(s, a, EventTaken(s, a)[0]);
    } else if a.Section? {
      SectionLaw(s, a.i, a.wake, a.ready);
      if Served(s, a) != [] {
        assert s.outq == [s.outq[0]] + s.outq[1..];
      }
    }
  }

  function HeardBy(tr: seq<State>, acts: seq<Action>, n: nat): seq<nat>
    requires IsRun(tr, acts) && n < |tr|
  {
    if n == 0 then []
    else
      assert StepAt(tr, acts, n - 1);
      HeardBy(tr, acts, n - 1) + HeardAt(tr, acts, n - 1)
  }

  function ServedBy(tr: seq<State>, acts: seq<Action>, n: nat): seq<nat>
    requires IsRun(tr, acts) && n < |tr|
  {
    if n == 0 then []
    else
      assert StepAt(tr, acts, n - 1);
      ServedBy(tr, acts, n - 1) + ServedAt(tr, acts, n - 1)
  }

  lemma OutqStep(s: State, a: Action)
    requires Enabled(s, a)
    ensures (if a.OnLoop? then Served(s, a.l) else []) + Apply(s, a).outq == s.outq + if a.OnLoop? then Heard(s, a.l) else []
  {
    match a {
      case OnLoop(l) => OutqLaw(s, l);
      case OnOut(o) => CalmOut(s, o);
      case OnFlush(f) => CalmFlush(s, f);
    }
  }

  function HeardAt(tr: seq<State>, acts: seq<Action>, n: nat): seq<nat>
    requires |tr| == |acts| + 1 && n < |acts| && StepAt(tr, acts, n)
  {
    if acts[n].OnLoop? then Heard(tr[n], acts[n].l) else []
  }

  function ServedAt(tr: seq<State>, acts: seq<Action>, n: nat): seq<nat>
    requires |tr| == |acts| + 1 && n < |acts| && StepAt(tr, acts, n)
  {
    if acts[n].OnLoop? then Served(tr[n], acts[n].l) else []
  }

  lemma OutqAt(tr: seq<State>, acts: seq<Action>, n: nat)
    requires |tr| == |acts| + 1 && n < |acts| && StepAt(tr, acts, n)
    ensures ServedAt(tr, acts, n) + tr[n + 1].outq == tr[n].outq + HeardAt(tr, acts, n)
  {
    OutqStep(tr[n], acts[n]);
  }

  /** In every run the write events heard of are those served, each once and in that order, followed by those queued. */
  lemma {:induction false} OutDispatchRun(tr: seq<State>, acts: seq<Action>, n: nat)
    requires IsRun(tr, acts) && n < |tr|
    ensures HeardBy(tr, acts, n) == ServedBy(tr, acts, n) + tr[n].outq
  {
    if n > 0 {
      OutDispatchRun(tr, acts, n - 1);
      OutDispatchAt(tr, acts, n - 1);
    }
  }

  lemma OutDispatchAt(tr: seq<State>, acts: seq<Action>, n: nat)
    requires IsRun(tr, acts) && n < |acts| && HeardBy(tr, acts, n) == ServedBy(tr, acts, n) + tr[n].outq
    ensures HeardBy(tr, acts, n + 1) == ServedBy(tr, acts, n + 1) + tr[n + 1].outq
  {
    assert StepAt(tr, acts, n);
    OutqAt(tr, acts, n);
    ThroughQueue(HeardBy(tr, acts, n), ServedBy(tr, acts, n), tr[n].outq,
                 HeardAt(tr, acts, n), ServedAt(tr, acts, n), tr[n + 1].outq);
  }

  predicate InHands(pc: WorkerPc, id: Ident)
  {
    pc == (if id.OutKernel? then OutPolled else Handling(id, false, false))
  }

  /** The event a call of more() queues, if the handler still has it. */
  function Queues(s: State, a: LoopAction): seq<Ident>
    requires LoopEnabled(s, a)
  {
    if a.More? && !s.ws[a.i].reactivated then [s.ws[a.i].ev] else []
  }

  function TakenMore(s: State, a: LoopAction): seq<Ident>
    requires LoopEnabled(s, a)
  {
    if a.Section? && s.more != [] then [s.more[0]] else []
  }

  /** The "more" queue is filled by calls of more() and emptied from the head, into a handler's hands. */
  lemma MoreLaw(s: State, a: LoopAction)
    requires LoopEnabled(s, a)
    ensures TakenMore(s, a) + LoopApply(s, a).more == s.more + Queues(s, a)
    ensures TakenMore(s, a) != [] ==> a.i < |LoopApply(s, a).ws| && InHands(LoopApply(s, a).ws[a.i], TakenMore(s, a)[0])
  {
    if TakenMore(s, a) != [] {
      SectionLaw(s, a.i, a.wake, a.ready);
      EventLaw(s, a, s.more[0]);
      assert s.more == [s.more[0]] + s.more[1..];
    } else if a.Section? {
      SectionLaw(s, a.i, a.wake, a.ready);
    }
  }
}
