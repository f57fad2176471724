/**
 * The running loop: workers, their shared queues, the two one-shot kernels,
 * the per-fd output queues, the threads that write, and the threads that flush.
 *
 * One step is one section between two points at which another thread can
 * interfere: a stretch under the loop mutex, a step of a per-fd critical
 * section, a kernel call, or a call made from a handler. Every choice the code
 * does not make (what the kernels report, whom a signal wakes, what handlers
 * do, which thread runs) is a parameter of the action.
 */
module WavySystem {
  import opened XferSpec

  const TASK_QUEUE_LIMIT: nat := 16
  const BACKLOG_SIZE: nat := 1024

  type Task = nat

  /** What an event of the main kernel is about. */
  datatype Ident = OutKernel | Handler(fd: nat)

  datatype WorkerPc =
    | Ready                         // about to take the loop mutex
    | Asleep                        // waiting on m_cond, not signalled
    | Polling                       // inside the main kernel's wait
    | Polled(evs: seq<Ident>)       // the wait returned; the mutex is not yet retaken
    | Handling(ev: Ident, reactivated: bool, removed: bool)
    | OutPolled                     // poll_event done, the out kernel's event not yet re-armed
    | InTask(last: bool)            // running a task; `last` was set when it left the queue empty
    | InWrite(fd: nat)              // inside write_event for fd
    | Notify                        // must retake the mutex and broadcast m_flush_cond

  datatype Registration = Unregistered | Armed | Disarmed

  /** Where the holder of a per-fd mutex stands. */
  datatype Phase =
    | Unlocked
    | Writing(rs: seq<Record>)      // a write, commit or commit_raw call has the lock
    | Pushed                        // it pushed to an empty queue; add_fd comes next
    | Added                         // the counter increment comes next
    | Draining(w: nat)              // worker w is about to try_write
    | Kept(w: nat)                  // try_write wants to continue; reactivate comes next
    | Dropping(w: nat)              // try_write is finished or failed; remove comes next
    | Removed(w: nat)               // clear comes next
    | Cleared(w: nat)               // the counter decrement comes next

  /** What became of an item that was handed to an fd. */
  datatype Effect =
    | Did(item: Item)               // the byte was accepted by the kernel, the finalizer was run
    | Dropped(item: Item)           // the byte was abandoned when a failed queue was cleared
    | Left(item: Item)              // refused inside the call: discarded, or left in the caller's xfer

  datatype Ctx = Ctx(
    queue: seq<Record>,
    phase: Phase,
    reg: Registration,              // in the out kernel
    accepted: seq<Item>,            // history: items of all calls so far, in lock order
    effects: seq<Effect>,           // history: what became of them, in order of happening
    returned: seq<Item>)            // history: items of the calls that have returned

  datatype FlusherPc =
    | Idle
    | Checking(snap: seq<seq<Item>>)   // about to take the mutex and look
    | Sleeping(snap: seq<seq<Item>>)   // waiting on m_flush_cond
    | Flushed(snap: seq<seq<Item>>)

  datatype State = State(
    ws: seq<WorkerPc>,
    pollable: bool,
    backlog: seq<Ident>, off: nat, num: nat,
    tasks: seq<Task>,
    more: seq<Ident>,
    kern: map<Ident, bool>,         // main kernel: registered idents, and whether each is armed
    outq: seq<nat>,
    watching: int,
    ctx: seq<Ctx>,
    flushers: seq<FlusherPc>,
    submitted: seq<Task>, started: seq<Task>,      // history
    polled: seq<Ident>, taken: seq<Ident>)         // history

  /** Steps of the workers, and of the threads that use the loop. */
  datatype LoopAction =
    | Section(i: nat, wake: nat, ready: seq<nat>)
    | PollReturn(i: nat, evs: seq<Ident>)
    | PollRelock(i: nat, wake: nat, ready: seq<nat>)
    | More(i: nat, wake: nat)
    | Next(i: nat)
    | Remove(i: nat)
    | HandlerReturn(i: nat, cont: bool)
    | OutReactivate(i: nat)
    | TaskReturn(i: nat)
    | Broadcast(i: nat)
    | SpuriousWake(i: nat)
    | Submit(t: Task, wake: nat)
    | AddHandler(fd: nat)
    | RemoveHandler(fd: nat)

  /** Steps inside the per-fd critical sections: of writers, and of workers in write_event. */
  datatype OutAction =
    | WriteEnter(fd: nat, rs: seq<Record>)
    | WriteAppend(fd: nat)
    | WriteTry(fd: nat, answers: seq<Answer>)
    | WriteAdd(fd: nat)
    | WriteCount(fd: nat)
    | DrainLock(i: nat)
    | DrainTry(i: nat, answers: seq<Answer>)
    | DrainRearm(i: nat)
    | DrainRemove(i: nat)
    | DrainClear(i: nat)
    | DrainCount(i: nat)

  datatype FlushAction =
    | FlushCall(f: nat)
    | FlushCheck(f: nat)
    | FlushSpurious(f: nat)

  datatype Action = OnLoop(l: LoopAction) | OnOut(o: OutAction) | OnFlush(f: FlushAction)

  // ------------------------------------------------------------ small pieces

  /** A signalled worker leaves the condition variable; without a sleeper nothing happens. */
  function Wake(ws: seq<WorkerPc>, j: nat): (r: seq<WorkerPc>)
    ensures |r| == |ws|
  {
    if j < |ws| && ws[j].Asleep? then ws[j := Ready] else ws
  }

  /** m_cond.signal() wakes a sleeper if there is one. */
  predicate SignalOk(ws: seq<WorkerPc>, j: nat)
  {
    (exists k :: 0 <= k < |ws| && ws[k].Asleep?) ==> j < |ws| && ws[j].Asleep?
  }

  /** What a zero-timeout wait on the out kernel may report: armed fds, each once. */
  predicate ReadyOk(ctx: seq<Ctx>, ready: seq<nat>)
  {
    && (forall k :: 0 <= k < |ready| ==> ready[k] < |ctx| && ctx[ready[k]].reg.Armed?)
    && (forall j, k :: 0 <= j < k < |ready| ==> ready[j] != ready[k])
  }

  function Fire(ctx: seq<Ctx>, ready: seq<nat>): (r: seq<Ctx>)
    ensures |r| == |ctx|
    ensures forall k :: 0 <= k < |ctx| ==> r[k] == if k in ready then ctx[k].(reg := Disarmed) else ctx[k]
  {
    seq(|ctx|, k requires 0 <= k < |ctx| => if k in ready then ctx[k].(reg := Disarmed) else ctx[k])
  }

  /** What the main kernel's wait may report: between one and a backlog full of armed idents, each once. */
  predicate EventsOk(kern: map<Ident, bool>, evs: seq<Ident>)
  {
    && 0 < |evs| <= BACKLOG_SIZE
    && (forall k :: 0 <= k < |evs| ==> evs[k] in kern && kern[evs[k]])
    && (forall j, k :: 0 <= j < k < |evs| ==> evs[j] != evs[k])
  }

  /** Reporting a one-shot registration disarms it. */
  function Disarm(kern: map<Ident, bool>, evs: seq<Ident>): map<Ident, bool>
  {
    map id | id in kern :: kern[id] && id !in evs
  }

  /** EPOLL_CTL_MOD: re-arms a registered ident, does nothing to an unregistered one. */
  function Rearm(kern: map<Ident, bool>, id: Ident): map<Ident, bool>
  {
    if id in kern then kern[id := true] else kern
  }

  /** epoll_wait overwrites the front of the backlog array. */
  function Overwrite(backlog: seq<Ident>, evs: seq<Ident>): seq<Ident>
  {
    if |evs| <= |backlog| then evs + backlog[|evs|..] else evs
  }

  function DidAll(items: seq<Item>): (es: seq<Effect>)
    ensures |es| == |items|
  {
    seq(|items|, k requires 0 <= k < |items| => Did(items[k]))
  }

  function LeftAll(items: seq<Item>): (es: seq<Effect>)
    ensures |es| == |items|
  {
    seq(|items|, k requires 0 <= k < |items| => Left(items[k]))
  }

  /** clear() abandons the bytes and runs the finalizers. */
  function ClearedAll(items: seq<Item>): (es: seq<Effect>)
    ensures |es| == |items|
  {
    seq(|items|, k requires 0 <= k < |items| => if IsByte(items[k]) then Dropped(items[k]) else Did(items[k]))
  }

  // ------------------------------------------------------------ worker sections

  /** process_handler, up to the unlock: the out kernel is polled under the mutex, a handler is entered. */
  function Dispatch(s: State, i: nat, ke: Ident, ready: seq<nat>): State
    requires i < |s.ws|
  {
    if ke.OutKernel? then
      s.(ws := s.ws[i := OutPolled], ctx := Fire(s.ctx, ready), outq := s.outq + ready)
    else
      s.(ws := s.ws[i := Handling(ke, false, false)])
  }

  datatype Branch = TakeMore | ServeOut | ServeTask | Sleep | StartPoll | TakeEvent

  /** The decision a worker makes each time it has the mutex. */
  function Choose(s: State): Branch
  {
    if s.more != [] then TakeMore
    else if !s.pollable then
      if s.outq != [] then ServeOut
      else if s.tasks != [] then ServeTask
      else Sleep
    else if |s.tasks| > TASK_QUEUE_LIMIT then ServeTask
    else if s.num == s.off then StartPoll
    else TakeEvent
  }

  function DoTask(s: State, i: nat, wake: nat): State
    requires i < |s.ws| && s.tasks != []
  {
    var last := |s.tasks| == 1;
    var ws := if last then s.ws else Wake(s.ws, wake);
    s.(tasks := s.tasks[1..], started := s.started + [s.tasks[0]], ws := ws[i := InTask(last)])
  }

  /** A worker's stretch from taking the mutex to letting it go. */
  function DoSection(s: State, i: nat, wake: nat, ready: seq<nat>): State
    requires i < |s.ws| && s.ws[i].Ready?
    requires s.off <= s.num <= |s.backlog|
  {
    match Choose(s)
    case TakeMore => Dispatch(s.(more := s.more[1..]), i, s.more[0], ready)
    case ServeOut => s.(outq := s.outq[1..], ws := s.ws[i := InWrite(s.outq[0])])
    case ServeTask => DoTask(s, i, wake)
    case Sleep => s.(ws := s.ws[i := Asleep])
    case StartPoll => s.(pollable := false, ws := s.ws[i := Polling])
    case TakeEvent =>
      Dispatch(s.(off := s.off + 1, taken := s.taken + [s.backlog[s.off]]), i, s.backlog[s.off], ready)
  }

  /** The poller's stretch after the wait: publish the backlog, pass the baton, take the first event. */
  function DoRelock(s: State, i: nat, wake: nat, ready: seq<nat>): State
    requires i < |s.ws| && s.ws[i].Polled? && s.ws[i].evs != [] && s.backlog != []
  {
    var ke := s.backlog[0];
    Dispatch(s.(off := 1, num := |s.ws[i].evs|, pollable := true, ws := Wake(s.ws, wake), taken := s.taken + [ke]),
             i, ke, ready)
  }

  // ------------------------------------------------------------ handlers

  /** The end of process_handler, after the handler returned or threw. */
  function DoHandlerReturn(s: State, i: nat, cont: bool): State
    requires i < |s.ws| && s.ws[i].Handling?
  {
    var pc := s.ws[i];
    var kern :=
      if pc.reactivated || pc.removed then s.kern
      else if !cont then s.kern - {pc.ev}
      else Rearm(s.kern, pc.ev);
    s.(ws := s.ws[i := Ready], kern := kern)
  }

  // ------------------------------------------------------------ per-fd sections

  /** The call found the queue non-empty: push and return. */
  function Append(c: Ctx): Ctx
    requires c.phase.Writing?
  {
    c.(queue := c.queue + c.phase.rs, phase := Unlocked,
       accepted := c.accepted + Stream(c.phase.rs), returned := c.accepted + Stream(c.phase.rs))
  }

  /** The call found the queue empty: write directly, and push what is left if the kernel would block. */
  function Try(c: Ctx, answers: seq<Answer>): Ctx
    requires c.phase.Writing?
  {
    var o := Drain(c.phase.rs, answers, 0);
    var accepted := c.accepted + Stream(c.phase.rs);
    if o.cont then
      c.(queue := o.rest, phase := Pushed, accepted := accepted, effects := c.effects + DidAll(o.trace))
    else
      c.(phase := Unlocked, accepted := accepted, returned := accepted,
         effects := c.effects + DidAll(o.trace) + LeftAll(Stream(o.rest)))
  }

  /** try_write inside write_event. */
  function TryQueued(c: Ctx, w: nat, answers: seq<Answer>): Ctx
  {
    var o := Drain(c.queue, answers, 0);
    c.(queue := o.rest, phase := if o.cont then Kept(w) else Dropping(w), effects := c.effects + DidAll(o.trace))
  }

  function Clear(c: Ctx, w: nat): Ctx
  {
    c.(queue := [], phase := Cleared(w), effects := c.effects + ClearedAll(Stream(c.queue)))
  }

  function WakeFlushers(fs: seq<FlusherPc>): (r: seq<FlusherPc>)
    ensures |r| == |fs|
    ensures forall k :: 0 <= k < |fs| ==> r[k] == if fs[k].Sleeping? then Checking(fs[k].snap) else fs[k]
  {
    seq(|fs|, k requires 0 <= k < |fs| => if fs[k].Sleeping? then Checking(fs[k].snap) else fs[k])
  }

  function Returned(ctx: seq<Ctx>): (r: seq<seq<Item>>)
    ensures |r| == |ctx| && forall k :: 0 <= k < |ctx| ==> r[k] == ctx[k].returned
  {
    seq(|ctx|, k requires 0 <= k < |ctx| => ctx[k].returned)
  }

  /** What flush waits for. */
  predicate Quiet(s: State)
  {
    s.watching == 0 && s.tasks == []
  }

  // ------------------------------------------------------------ the machine

  predicate DrainAt(s: State, i: nat)
  {
    i < |s.ws| && s.ws[i].InWrite? && s.ws[i].fd < |s.ctx|
  }

  predicate LoopEnabled(s: State, a: LoopAction)
  {
    match a
    case Section(i, wake, ready) =>
      i < |s.ws| && s.ws[i].Ready? && s.off <= s.num <= |s.backlog| && SignalOk(s.ws, wake) && ReadyOk(s.ctx, ready)
    case PollReturn(i, evs) => i < |s.ws| && s.ws[i].Polling? && EventsOk(s.kern, evs)
    case PollRelock(i, wake, ready) =>
      i < |s.ws| && s.ws[i].Polled? && s.ws[i].evs != [] && s.backlog != [] && SignalOk(s.ws, wake) && ReadyOk(s.ctx, ready)
    case More(i, wake) => i < |s.ws| && s.ws[i].Handling? && SignalOk(s.ws, wake)
    case Next(i) => i < |s.ws| && s.ws[i].Handling?
    case Remove(i) => i < |s.ws| && s.ws[i].Handling?
    case HandlerReturn(i, _) => i < |s.ws| && s.ws[i].Handling?
    case OutReactivate(i) => i < |s.ws| && s.ws[i].OutPolled?
    case TaskReturn(i) => i < |s.ws| && s.ws[i].InTask?
    case Broadcast(i) => i < |s.ws| && s.ws[i].Notify?
    case SpuriousWake(i) => i < |s.ws| && s.ws[i].Asleep?
    case Submit(_, wake) => SignalOk(s.ws, wake)
    case AddHandler(_) => true
    case RemoveHandler(_) => true
  }

  predicate OutEnabled(s: State, a: OutAction)
  {
    match a
    case WriteEnter(fd, _) => fd < |s.ctx| && s.ctx[fd].phase.Unlocked?
    case WriteAppend(fd) => fd < |s.ctx| && s.ctx[fd].phase.Writing? && s.ctx[fd].queue != []
    case WriteTry(fd, _) => fd < |s.ctx| && s.ctx[fd].phase.Writing? && s.ctx[fd].queue == []
    case WriteAdd(fd) => fd < |s.ctx| && s.ctx[fd].phase.Pushed?
    case WriteCount(fd) => fd < |s.ctx| && s.ctx[fd].phase.Added?
    case DrainLock(i) => DrainAt(s, i) && s.ctx[s.ws[i].fd].phase.Unlocked?
    case DrainTry(i, _) => DrainAt(s, i) && s.ctx[s.ws[i].fd].phase == Draining(i)
    case DrainRearm(i) => DrainAt(s, i) && s.ctx[s.ws[i].fd].phase == Kept(i)
    case DrainRemove(i) => DrainAt(s, i) && s.ctx[s.ws[i].fd].phase == Dropping(i)
    case DrainClear(i) => DrainAt(s, i) && s.ctx[s.ws[i].fd].phase == Removed(i)
    case DrainCount(i) => DrainAt(s, i) && s.ctx[s.ws[i].fd].phase == Cleared(i)
  }

  predicate FlushEnabled(s: State, a: FlushAction)
  {
    match a
    case FlushCall(f) => f < |s.flushers| && (s.flushers[f].Idle? || s.flushers[f].Flushed?)
    case FlushCheck(f) => f < |s.flushers| && s.flushers[f].Checking?
    case FlushSpurious(f) => f < |s.flushers| && s.flushers[f].Sleeping?
  }

  predicate Enabled(s: State, a: Action)
  {
    match a
    case OnLoop(l) => LoopEnabled(s, l)
    case OnOut(o) => OutEnabled(s, o)
    case OnFlush(f) => FlushEnabled(s, f)
  }

  function LoopApply(s: State, a: LoopAction): State
    requires LoopEnabled(s, a)
  {
    match a
    case Section(i, wake, ready) => DoSection(s, i, wake, ready)
    case PollReturn(i, evs) =>
      s.(ws := s.ws[i := Polled(evs)], backlog := Overwrite(s.backlog, evs), kern := Disarm(s.kern, evs), polled := s.polled + evs)
    case PollRelock(i, wake, ready) => DoRelock(s, i, wake, ready)
    case More(i, wake) =>
      if s.ws[i].reactivated then s
      else s.(more := s.more + [s.ws[i].ev], ws := Wake(s.ws, wake)[i := s.ws[i].(reactivated := true)])
    case Next(i) =>
      if s.ws[i].reactivated then s
      else s.(kern := Rearm(s.kern, s.ws[i].ev), ws := s.ws[i := s.ws[i].(reactivated := true)])
    case Remove(i) =>
      if s.ws[i].removed then s
      else s.(kern := s.kern - {s.ws[i].ev}, ws := s.ws[i := s.ws[i].(removed := true)])
    case HandlerReturn(i, cont) => DoHandlerReturn(s, i, cont)
    case OutReactivate(i) => s.(kern := Rearm(s.kern, OutKernel), ws := s.ws[i := Ready])
    case TaskReturn(i) => s.(ws := s.ws[i := if s.ws[i].last then Notify else Ready])
    case Broadcast(i) => s.(flushers := WakeFlushers(s.flushers), ws := s.ws[i := Ready])
    case SpuriousWake(i) => s.(ws := s.ws[i := Ready])
    case Submit(t, wake) => s.(tasks := s.tasks + [t], submitted := s.submitted + [t], ws := Wake(s.ws, wake))
    case AddHandler(fd) => if Handler(fd) in s.kern then s else s.(kern := s.kern[Handler(fd) := true])
    case RemoveHandler(fd) => s.(kern := s.kern - {Handler(fd)})
  }

  function OutApply(s: State, a: OutAction): State
    requires OutEnabled(s, a)
  {
    match a
    case WriteEnter(fd, rs) => s.(ctx := s.ctx[fd := s.ctx[fd].(phase := Writing(rs))])
    case WriteAppend(fd) => s.(ctx := s.ctx[fd := Append(s.ctx[fd])])
    case WriteTry(fd, answers) => s.(ctx := s.ctx[fd := Try(s.ctx[fd], answers)])
    case WriteAdd(fd) =>
      var c := s.ctx[fd];
      s.(ctx := s.ctx[fd := c.(phase := Added, reg := if c.reg.Unregistered? then Armed else c.reg)])
    case WriteCount(fd) =>
      var c := s.ctx[fd];
      s.(ctx := s.ctx[fd := c.(phase := Unlocked, returned := c.accepted)], watching := s.watching + 1)
    case DrainLock(i) => var fd := s.ws[i].fd; s.(ctx := s.ctx[fd := s.ctx[fd].(phase := Draining(i))])
    case DrainTry(i, answers) => var fd := s.ws[i].fd; s.(ctx := s.ctx[fd := TryQueued(s.ctx[fd], i, answers)])
    case DrainRearm(i) =>
      var fd := s.ws[i].fd;
      var c := s.ctx[fd];
      s.(ctx := s.ctx[fd := c.(phase := Unlocked, reg := if c.reg.Unregistered? then c.reg else Armed)], ws := s.ws[i := Ready])
    case DrainRemove(i) =>
      var fd := s.ws[i].fd;
      s.(ctx := s.ctx[fd := s.ctx[fd].(phase := Removed(i), reg := Unregistered)])
    case DrainClear(i) => var fd := s.ws[i].fd; s.(ctx := s.ctx[fd := Clear(s.ctx[fd], i)])
    case DrainCount(i) =>
      var fd := s.ws[i].fd;
      s.(ctx := s.ctx[fd := s.ctx[fd].(phase := Unlocked)], watching := s.watching - 1,
         ws := s.ws[i := if s.watching == 1 then Notify else Ready])
  }

  function FlushApply(s: State, a: FlushAction): State
    requires FlushEnabled(s, a)
  {
    match a
    case FlushCall(f) => s.(flushers := s.flushers[f := Checking(Returned(s.ctx))])
    case FlushCheck(f) =>
      s.(flushers := s.flushers[f := if Quiet(s) then Flushed(s.flushers[f].snap) else Sleeping(s.flushers[f].snap)])
    case FlushSpurious(f) => s.(flushers := s.flushers[f := Checking(s.flushers[f].snap)])
  }

  /** The state after an enabled action. */
  function Apply(s: State, a: Action): State
    requires Enabled(s, a)
  {
    match a
    case OnLoop(l) => LoopApply(s, l)
    case OnOut(o) => OutApply(s, o)
    case OnFlush(f) => FlushApply(s, f)
  }

  predicate Fresh(c: Ctx)
  {
    c == Ctx([], Unlocked, Unregistered, [], [], [])
  }

  /** Workers just started, nothing queued, only the out kernel registered. */
  predicate Init(s: State)
  {
    && (forall i :: 0 <= i < |s.ws| ==> s.ws[i].Ready?)
    && s.pollable && |s.backlog| == BACKLOG_SIZE && s.off == s.num == 0
    && s.tasks == [] && s.more == [] && s.kern == map[OutKernel := true]
    && s.outq == [] && s.watching == 0
    && (forall k :: 0 <= k < |s.ctx| ==> Fresh(s.ctx[k]))
    && (forall f :: 0 <= f < |s.flushers| ==> s.flushers[f].Idle?)
    && s.submitted == s.started == [] && s.polled == s.taken == []
  }

  /** The k-th action was enabled and led to the next state. */
  predicate StepAt(tr: seq<State>, acts: seq<Action>, k: nat)
    requires |tr| == |acts| + 1 && k < |acts|
  {
    Enabled(tr[k], acts[k]) && tr[k + 1] == Apply(tr[k], acts[k])
  }

  /** tr is a run of the machine taking the actions acts. */
  predicate IsRun(tr: seq<State>, acts: seq<Action>)
  {
    && |tr| == |acts| + 1
    && Init(tr[0])
    && (forall k :: 0 <= k < |acts| ==> StepAt(tr, acts, k))
  }

  /** A run goes on by any enabled action. */
  lemma Extend(tr: seq<State>, acts: seq<Action>, a: Action) returns (tr': seq<State>, acts': seq<Action>)
    requires IsRun(tr, acts) && Enabled(tr[|tr| - 1], a)
    ensures tr' == tr + [Apply(tr[|tr| - 1], a)] && acts' == acts + [a]
    ensures IsRun(tr', acts')
  {
    tr', acts' := tr + [Apply(tr[|tr| - 1], a)], acts + [a];
    forall k | 0 <= k < |acts'| ensures StepAt(tr', acts', k) {
      if k < |acts| {
        assert StepAt(tr, acts, k);
      }
    }
  }
}
