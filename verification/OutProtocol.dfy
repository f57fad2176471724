/**
 * What every run keeps of the output path: the registration of each fd in the
 * out kernel, the counter flush looks at, and where every item went.
 */
module OutProtocol {
  import opened XferSpec
  import opened WavySystem
  import opened LoopProtocol
  import opened Sequences

  // ------------------------------------------------------------ write tokens

  function WriteHand(pc: WorkerPc, fd: nat): nat
  {
    if pc == InWrite(fd) then 1 else 0
  }

  function HolderCount(ws: seq<WorkerPc>, fd: nat): nat
  {
    if ws == [] then 0 else HolderCount(ws[..|ws| - 1], fd) + WriteHand(ws[|ws| - 1], fd)
  }

  function ArmedCount(c: Ctx): nat
  {
    if c.reg.Armed? then 1 else 0
  }

  /** The write events of an fd: armed in the out kernel, queued, or in a worker's hands. */
  function WriteTokens(s: State, fd: nat): nat
    requires fd < |s.ctx|
  {
    ArmedCount(s.ctx[fd]) + multiset(s.outq)[fd] + HolderCount(s.ws, fd)
  }

  predicate HeldBy(ws: seq<WorkerPc>, w: nat, fd: nat)
  {
    w < |ws| && ws[w] == InWrite(fd)
  }

  /** Registration and token of an fd, by where its critical section stands. */
  predicate RegOk(s: State, fd: nat)
    requires fd < |s.ctx|
  {
    var c := s.ctx[fd];
    var n := WriteTokens(s, fd);
    match c.phase
    case Unlocked => if c.queue == [] then c.reg.Unregistered? && n == 0 else !c.reg.Unregistered? && n == 1
    case Writing(_) => if c.queue == [] then c.reg.Unregistered? && n == 0 else !c.reg.Unregistered? && n == 1
    case Pushed => c.queue != [] && c.reg.Unregistered? && n == 0
    case Added => c.queue != [] && !c.reg.Unregistered? && n == 1
    case Draining(w) => HeldBy(s.ws, w, fd) && c.queue != [] && c.reg.Disarmed? && n == 1
    case Kept(w) => HeldBy(s.ws, w, fd) && c.queue != [] && c.reg.Disarmed? && n == 1
    case Dropping(w) => HeldBy(s.ws, w, fd) && c.reg.Disarmed? && n == 1
    case Removed(w) => HeldBy(s.ws, w, fd) && c.reg.Unregistered? && n == 1
    case Cleared(w) => HeldBy(s.ws, w, fd) && c.queue == [] && c.reg.Unregistered? && n == 1
  }

  /** Every event in the out queue or in hand names an fd that exists. */
  predicate InRange(s: State)
  {
    && (forall k :: 0 <= k < |s.outq| ==> s.outq[k] < |s.ctx|)
    && (forall i :: 0 <= i < |s.ws| && s.ws[i].InWrite? ==> s.ws[i].fd < |s.ctx|)
  }

  // ------------------------------------------------------------ the counter

  /** Whether m_watching includes an fd, by where its critical section stands. */
  predicate Counted(c: Ctx)
  {
    match c.phase
    case Unlocked => c.queue != []
    case Writing(_) => c.queue != []
    case Pushed => false
    case Added => false
    case _ => true
  }

  function CountedIn(ctx: seq<Ctx>): nat
  {
    if ctx == [] then 0 else CountedIn(ctx[..|ctx| - 1]) + if Counted(ctx[|ctx| - 1]) then 1 else 0
  }

  // ------------------------------------------------------------ items

  function ItemsOf(es: seq<Effect>): (s: seq<Item>)
    ensures |s| == |es|
  {
    seq(|es|, k requires 0 <= k < |es| => es[k].item)
  }

  /** What was done or given up, followed by what is queued, is what was accepted. */
  predicate CtxOk(c: Ctx)
  {
    && ItemsOf(c.effects) + Stream(c.queue) == c.accepted
    && c.returned <= c.accepted
    && (if c.phase.Pushed? || c.phase.Added? then c.returned <= ItemsOf(c.effects) else c.returned == c.accepted)
  }

  predicate OutInv(s: State)
  {
    && InRange(s)
    && (forall fd :: 0 <= fd < |s.ctx| ==> RegOk(s, fd))
    && (forall fd :: 0 <= fd < |s.ctx| ==> CtxOk(s.ctx[fd]))
    && s.watching == CountedIn(s.ctx)
  }

  // ------------------------------------------------------------ counting lemmas

  lemma {:induction false} WriteUpdate(ws: seq<WorkerPc>, i: nat, pc: WorkerPc, fd: nat)
    requires i < |ws|
    ensures HolderCount(ws[i := pc], fd) + WriteHand(ws[i], fd) == HolderCount(ws, fd) + WriteHand(pc, fd)
  {
    var n := |ws| - 1;
    if i == n {
      assert ws[i := pc][..n] == ws[..n];
    } else {
      WriteUpdate(ws[..n], i, pc, fd);
      assert ws[i := pc][..n] == ws[..n][i := pc];
    }
  }

  lemma {:induction false} WriteAtLeast(ws: seq<WorkerPc>, i: nat, fd: nat)
    requires i < |ws|
    ensures HolderCount(ws, fd) >= WriteHand(ws[i], fd)
  {
    var n := |ws| - 1;
    if i < n {
      WriteAtLeast(ws[..n], i, fd);
    }
  }

  /** No worker enters or leaves write_event. */
  predicate SameWriters(ws: seq<WorkerPc>, vs: seq<WorkerPc>)
  {
    |ws| == |vs| && forall k :: 0 <= k < |ws| && (ws[k].InWrite? || vs[k].InWrite?) ==> vs[k] == ws[k]
  }

  lemma {:induction false} WriteSame(ws: seq<WorkerPc>, vs: seq<WorkerPc>, fd: nat)
    requires SameWriters(ws, vs)
    ensures HolderCount(ws, fd) == HolderCount(vs, fd)
  {
    if ws != [] {
      var n := |ws| - 1;
      WriteSame(ws[..n], vs[..n], fd);
    }
  }

  lemma {:induction false} CountedUpdate(ctx: seq<Ctx>, fd: nat, c: Ctx)
    requires fd < |ctx|
    ensures CountedIn(ctx[fd := c]) + (if Counted(ctx[fd]) then 1 else 0) == CountedIn(ctx) + if Counted(c) then 1 else 0
  {
    var n := |ctx| - 1;
    if fd == n {
      assert ctx[fd := c][..n] == ctx[..n];
    } else {
      CountedUpdate(ctx[..n], fd, c);
      assert ctx[fd := c][..n] == ctx[..n][fd := c];
    }
  }

  lemma {:induction false} CountedSame(a: seq<Ctx>, b: seq<Ctx>)
    requires |a| == |b| && forall k :: 0 <= k < |a| ==> Counted(a[k]) == Counted(b[k])
    ensures CountedIn(a) == CountedIn(b)
  {
    if a != [] {
      var n := |a| - 1;
      CountedSame(a[..n], b[..n]);
    }
  }

  lemma {:induction false} CountedZero(ctx: seq<Ctx>, fd: nat)
    requires CountedIn(ctx) == 0 && fd < |ctx|
    ensures !Counted(ctx[fd])
  {
    var n := |ctx| - 1;
    if fd < n {
      CountedZero(ctx[..n], fd);
    }
  }

  // ------------------------------------------------------------ where write tokens go

  /** poll_event moves one token per reported fd from the out kernel to the out queue, and no other. */
  lemma FireMoves(s: State, ready: seq<nat>, fd: nat)
    requires ReadyOk(s.ctx, ready) && fd < |s.ctx|
    ensures var t := s.(ctx := Fire(s.ctx, ready), outq := s.outq + ready);
            var moved := if fd in ready then 1 else 0;
            && ArmedCount(t.ctx[fd]) == ArmedCount(s.ctx[fd]) - moved
            && multiset(t.outq)[fd] == multiset(s.outq)[fd] + moved
            && WriteTokens(t, fd) == WriteTokens(s, fd)
  {
    DistinctCount(ready, fd);
    assert multiset(s.outq + ready)[fd] == multiset(s.outq)[fd] + multiset(ready)[fd];
    if fd in ready {
      var k :| 0 <= k < |ready| && ready[k] == fd;
      assert s.ctx[fd].reg.Armed?;
    }
  }

  /** do_out moves the head of the out queue to the worker's hands. */
  lemma ServeMoves(s: State, i: nat, fd: nat)
    requires i < |s.ws| && s.ws[i].Ready? && s.outq != [] && fd < |s.ctx|
    ensures var t := s.(outq := s.outq[1..], ws := s.ws[i := InWrite(s.outq[0])]);
            var moved := if fd == s.outq[0] then 1 else 0;
            && multiset(t.outq)[fd] == multiset(s.outq)[fd] - moved
            && HolderCount(t.ws, fd) == HolderCount(s.ws, fd) + moved
            && WriteTokens(t, fd) == WriteTokens(s, fd)
  {
    WriteUpdate(s.ws, i, InWrite(s.outq[0]), fd);
    HeadCount(s.outq, fd);
  }

  /** reactivate moves the worker's token back to the out kernel. */
  lemma RearmMoves(s: State, i: nat)
    requires OutInv(s) && OutEnabled(s, DrainRearm(i))
    ensures var t, fd := OutApply(s, DrainRearm(i)), s.ws[i].fd;
            && s.ctx[fd].reg == Disarmed && t.ctx[fd].reg == Armed
            && HolderCount(s.ws, fd) == 1 && HolderCount(t.ws, fd) == 0
            && t.ctx[fd].queue == s.ctx[fd].queue != []
  {
    var fd := s.ws[i].fd;
    assert RegOk(s, fd);
    WriteAtLeast(s.ws, i, fd);
    WriteUpdate(s.ws, i, Ready, fd);
  }

  // ------------------------------------------------------------ steps of the loop

  lemma RegFrame(s: State, t: State, fd: nat)
    requires fd < |s.ctx| == |t.ctx| && RegOk(s, fd)
    requires t.ctx[fd] == s.ctx[fd] && multiset(t.outq)[fd] == multiset(s.outq)[fd]
    requires HolderCount(t.ws, fd) == HolderCount(s.ws, fd)
    requires forall w :: HeldBy(s.ws, w, fd) ==> HeldBy(t.ws, w, fd)
    ensures RegOk(t, fd)
  {
  }

  /** A step that touches no fd and moves no worker in or out of write_event. */
  lemma OutFrame(s: State, t: State)
    requires OutInv(s) && SameWriters(s.ws, t.ws)
    requires t.ctx == s.ctx && t.outq == s.outq && t.watching == s.watching
    ensures OutInv(t)
  {
    forall fd | 0 <= fd < |t.ctx| ensures RegOk(t, fd) {
      WriteSame(s.ws, t.ws, fd);
      RegFrame(s, t, fd);
    }
  }

  /** poll_event moves tokens from the out kernel to the out queue. */
  lemma OutFire(s: State, ready: seq<nat>)
    requires OutInv(s) && ReadyOk(s.ctx, ready)
    ensures OutInv(s.(ctx := Fire(s.ctx, ready), outq := s.outq + ready))
  {
    var t := s.(ctx := Fire(s.ctx, ready), outq := s.outq + ready);
    CountedSame(s.ctx, t.ctx);
    forall fd | 0 <= fd < |t.ctx| ensures RegOk(t, fd) {
      FireMoves(s, ready, fd);
      assert RegOk(s, fd);
      if fd in ready {
        var k :| 0 <= k < |ready| && ready[k] == fd;
        assert s.ctx[fd].reg.Armed?;
      }
    }
  }

  lemma OutDispatch(s: State, i: nat, ke: Ident, ready: seq<nat>)
    requires OutInv(s) && i < |s.ws| && !s.ws[i].InWrite? && ReadyOk(s.ctx, ready)
    ensures OutInv(Dispatch(s, i, ke, ready))
  {
    if ke.OutKernel? {
      var u := s.(ws := s.ws[i := OutPolled]);
      OutFrame(s, u);
      OutFire(u, ready);
    } else {
      OutFrame(s, Dispatch(s, i, ke, ready));
    }
  }

  /** do_out moves a token from the out queue to a worker's hands. */
  lemma OutServe(s: State, i: nat)
    requires OutInv(s) && i < |s.ws| && s.ws[i].Ready? && s.outq != []
    ensures OutInv(s.(outq := s.outq[1..], ws := s.ws[i := InWrite(s.outq[0])]))
  {
    var t := s.(outq := s.outq[1..], ws := s.ws[i := InWrite(s.outq[0])]);
    forall fd | 0 <= fd < |t.ctx| ensures RegOk(t, fd) {
      ServeMoves(s, i, fd);
      assert RegOk(s, fd);
      assert forall w :: HeldBy(s.ws, w, fd) ==> HeldBy(t.ws, w, fd);
    }
  }

  /** A step that leaves workers, fds, out queue and counter alone. */
  lemma OutUntouched(s: State, t: State)
    requires OutInv(s) && t.ws == s.ws && t.ctx == s.ctx && t.outq == s.outq && t.watching == s.watching
    ensures OutInv(t)
  {
    OutFrame(s, t);
  }

  /** Which event a worker enters process_handler with, and in what state. */
  lemma SectionDispatches(s: State, i: nat, wake: nat, ready: seq<nat>, u: State, ke: Ident)
    requires LoopEnabled(s, Section(i, wake, ready))
    requires (Choose(s).TakeMore? && ke == s.more[0] && u == s.(more := s.more[1..]))
          || (Choose(s).TakeEvent? && s.off < |s.backlog| && ke == s.backlog[s.off] && u == s.(off := s.off + 1, taken := s.taken + [ke]))
    ensures i < |u.ws| && !u.ws[i].InWrite? && ReadyOk(u.ctx, ready)
    ensures LoopApply(s, Section(i, wake, ready)) == Dispatch(u, i, ke, ready)
  {
  }

  lemma OutTakeMore(s: State, i: nat, wake: nat, ready: seq<nat>)
    requires OutInv(s) && LoopEnabled(s, Section(i, wake, ready)) && Choose(s).TakeMore?
    ensures OutInv(LoopApply(s, Section(i, wake, ready)))
  {
    var u := s.(more := s.more[1..]);
    SectionDispatches(s, i, wake, ready, u, s.more[0]);
    OutUntouched(s, u);
    OutDispatch(u, i, s.more[0], ready);
  }

  lemma OutTakeEvent(s: State, i: nat, wake: nat, ready: seq<nat>)
    requires OutInv(s) && LoopEnabled(s, Section(i, wake, ready)) && Choose(s).TakeEvent?
    ensures OutInv(LoopApply(s, Section(i, wake, ready)))
  {
    var ke := s.backlog[s.off];
    var u := s.(off := s.off + 1, taken := s.taken + [ke]);
    SectionDispatches(s, i, wake, ready, u, ke);
    OutUntouched(s, u);
    OutDispatch(u, i, ke, ready);
  }

  lemma OutServeSection(s: State, i: nat, wake: nat, ready: seq<nat>)
    requires OutInv(s) && LoopEnabled(s, Section(i, wake, ready)) && Choose(s).ServeOut?
    ensures OutInv(LoopApply(s, Section(i, wake, ready)))
  {
    OutServe(s, i);
  }

  lemma OutSpared(s: State, i: nat, wake: nat, ready: seq<nat>)
    requires OutInv(s) && LoopEnabled(s, Section(i, wake, ready))
    requires Choose(s).ServeTask? || Choose(s).Sleep? || Choose(s).StartPoll?
    ensures OutInv(LoopApply(s, Section(i, wake, ready)))
  {
    OutFrame(s, LoopApply(s, Section(i, wake, ready)));
  }

  lemma OutSection(s: State, i: nat, wake: nat, ready: seq<nat>)
    requires OutInv(s) && LoopEnabled(s, Section(i, wake, ready))
    ensures OutInv(LoopApply(s, Section(i, wake, ready)))
  {
    match Choose(s) {
      case TakeMore => OutTakeMore(s, i, wake, ready);
      case TakeEvent => OutTakeEvent(s, i, wake, ready);
      case ServeOut => OutServeSection(s, i, wake, ready);
      case ServeTask => OutSpared(s, i, wake, ready);
      case Sleep => OutSpared(s, i, wake, ready);
      case StartPoll => OutSpared(s, i, wake, ready);
    }
  }

  lemma OutPollRelock(s: State, i: nat, wake: nat, ready: seq<nat>)
    requires OutInv(s) && LoopEnabled(s, PollRelock(i, wake, ready))
    ensures OutInv(LoopApply(s, PollRelock(i, wake, ready)))
  {
    var ke := s.backlog[0];
    var u := s.(off := 1, num := |s.ws[i].evs|, pollable := true, ws := Wake(s.ws, wake), taken := s.taken + [ke]);
    OutFrame(s, u);
    OutDispatch(u, i, ke, ready);
  }

  lemma OutLoop(s: State, a: LoopAction)
    requires OutInv(s) && LoopEnabled(s, a)
    ensures OutInv(LoopApply(s, a))
  {
    match a {
      case Section(i, wake, ready) => OutSection(s, i, wake, ready);
      case PollRelock(i, wake, ready) => OutPollRelock(s, i, wake, ready);
      case _ =>
        LoopSpares(s, a);
        OutFrame(s, LoopApply(s, a));
    }
  }

  lemma LoopSpares(s: State, a: LoopAction)
    requires LoopEnabled(s, a) && !a.Section? && !a.PollRelock?
    ensures SameWriters(s.ws, LoopApply(s, a).ws)
    ensures var t := LoopApply(s, a); t.ctx == s.ctx && t.outq == s.outq && t.watching == s.watching
  {
  }

  lemma DispatchRegOnly(s: State, i: nat, ke: Ident, ready: seq<nat>, fd: nat)
    requires i < |s.ws| && fd < |s.ctx|
    ensures var t := Dispatch(s, i, ke, ready);
            |t.ctx| == |s.ctx| && t.ctx[fd] == s.ctx[fd].(reg := t.ctx[fd].reg)
  {
  }

  /** Of an fd's state the loop's own steps change the registration only. */
  lemma LoopRegOnly(s: State, a: LoopAction, fd: nat)
    requires LoopEnabled(s, a) && fd < |s.ctx|
    ensures var t := LoopApply(s, a);
            |t.ctx| == |s.ctx| && t.ctx[fd] == s.ctx[fd].(reg := t.ctx[fd].reg)
  {
    match a {
      case Section(i, wake, ready) =>
        if Choose(s).TakeMore? {
          DispatchRegOnly(s.(more := s.more[1..]), i, s.more[0], ready, fd);
        } else if Choose(s).TakeEvent? {
          var ke := s.backlog[s.off];
          DispatchRegOnly(s.(off := s.off + 1, taken := s.taken + [ke]), i, ke, ready, fd);
        }
      case PollRelock(i, wake, ready) =>
        var ke := s.backlog[0];
        DispatchRegOnly(s.(off := 1, num := |s.ws[i].evs|, pollable := true, ws := Wake(s.ws, wake), taken := s.taken + [ke]),
                        i, ke, ready, fd);
      case _ => LoopSpares(s, a);
    }
  }

  lemma StepSameFds(s: State, a: Action)
    requires Enabled(s, a)
    ensures |Apply(s, a).ctx| == |s.ctx|
  {
    match a {
      case OnLoop(l) => LoopSameFds(s, l);
      case OnOut(o) =>
      case OnFlush(f) => CalmFlush(s, f);
    }
  }

  lemma LoopSameFds(s: State, a: LoopAction)
    requires LoopEnabled(s, a)
    ensures |LoopApply(s, a).ctx| == |s.ctx|
  {
    if !a.Section? && !a.PollRelock? {
      LoopSpares(s, a);
    }
  }

  // ------------------------------------------------------------ steps inside a critical section

  /** A step that changes one fd, the counter to match, and at most the worker that was serving this fd. */
  lemma OutOneFd(s: State, t: State, fd: nat, i: nat, pc: WorkerPc)
    requires OutInv(s) && fd < |s.ctx| == |t.ctx| && t.ctx == s.ctx[fd := t.ctx[fd]] && t.outq == s.outq
    requires t.ws == s.ws || (i < |s.ws| && t.ws == s.ws[i := pc] && s.ws[i] == InWrite(fd) && !pc.InWrite?)
    requires RegOk(t, fd) && CtxOk(t.ctx[fd])
    requires t.watching + (if Counted(s.ctx[fd]) then 1 else 0) == s.watching + if Counted(t.ctx[fd]) then 1 else 0
    ensures OutInv(t)
  {
    CountedUpdate(s.ctx, fd, t.ctx[fd]);
    forall g | 0 <= g < |t.ctx| ensures RegOk(t, g) && CtxOk(t.ctx[g]) {
      if g != fd {
        if t.ws != s.ws {
          WriteUpdate(s.ws, i, pc, g);
        }
        RegFrame(s, t, g);
      }
    }
  }

  lemma CountAfter(s: State, t: State, fd: nat, i: nat, pc: WorkerPc)
    requires fd < |s.ctx| == |t.ctx| && t.outq == s.outq && i < |s.ws|
    requires t.ws == s.ws[i := pc] && s.ws[i] == InWrite(fd) && !pc.InWrite?
    ensures WriteTokens(t, fd) - ArmedCount(t.ctx[fd]) == WriteTokens(s, fd) - ArmedCount(s.ctx[fd]) - 1
  {
    WriteUpdate(s.ws, i, pc, fd);
  }

  lemma OutWriteEnter(s: State, fd: nat, rs: seq<Record>)
    requires OutInv(s) && OutEnabled(s, WriteEnter(fd, rs))
    ensures OutInv(OutApply(s, WriteEnter(fd, rs)))
  {
    assert RegOk(s, fd) && CtxOk(s.ctx[fd]);
    OutOneFd(s, OutApply(s, WriteEnter(fd, rs)), fd, 0, Ready);
  }

  lemma AppendOk(c: Ctx)
    requires CtxOk(c) && c.phase.Writing?
    ensures CtxOk(Append(c))
    ensures c.queue != [] ==> Append(c).queue != []
  {
    StreamConcat(c.queue, c.phase.rs);
    ConcatAssoc(ItemsOf(c.effects), Stream(c.queue), Stream(c.phase.rs));
  }

  lemma OutWriteAppend(s: State, fd: nat)
    requires OutInv(s) && OutEnabled(s, WriteAppend(fd))
    ensures OutInv(OutApply(s, WriteAppend(fd)))
  {
    assert RegOk(s, fd);
    AppendOk(s.ctx[fd]);
    OutOneFd(s, OutApply(s, WriteAppend(fd)), fd, 0, Ready);
  }

  lemma ItemsAppend(es: seq<Effect>, fs: seq<Effect>)
    ensures ItemsOf(es + fs) == ItemsOf(es) + ItemsOf(fs)
  {
  }

  lemma ItemsDidLeft(items: seq<Item>)
    ensures ItemsOf(DidAll(items)) == items && ItemsOf(LeftAll(items)) == items && ItemsOf(ClearedAll(items)) == items
  {
  }

  lemma TryOk(c: Ctx, answers: seq<Answer>)
    requires CtxOk(c) && c.phase.Writing? && c.queue == []
    ensures CtxOk(Try(c, answers))
    ensures Try(c, answers).phase.Pushed? ==> Try(c, answers).queue != []
    ensures !Try(c, answers).phase.Pushed? ==> Try(c, answers).queue == []
  {
    var rs := c.phase.rs;
    var o := Drain(rs, answers, 0);
    DrainConserves(rs, answers, 0);
    assert ItemsOf(c.effects) == c.accepted;
    ItemsDidLeft(o.trace);
    ItemsDidLeft(Stream(o.rest));
    ItemsAppend(c.effects, DidAll(o.trace));
    ItemsAppend(c.effects + DidAll(o.trace), LeftAll(Stream(o.rest)));
    ConcatAssoc(c.accepted, o.trace, Stream(o.rest));
  }

  lemma OutWriteTry(s: State, fd: nat, answers: seq<Answer>)
    requires OutInv(s) && OutEnabled(s, WriteTry(fd, answers))
    ensures OutInv(OutApply(s, WriteTry(fd, answers)))
  {
    assert RegOk(s, fd);
    TryOk(s.ctx[fd], answers);
    OutOneFd(s, OutApply(s, WriteTry(fd, answers)), fd, 0, Ready);
  }

  lemma OutWriteAdd(s: State, fd: nat)
    requires OutInv(s) && OutEnabled(s, WriteAdd(fd))
    ensures OutInv(OutApply(s, WriteAdd(fd)))
  {
    assert RegOk(s, fd) && CtxOk(s.ctx[fd]);
    OutOneFd(s, OutApply(s, WriteAdd(fd)), fd, 0, Ready);
  }

  lemma OutWriteCount(s: State, fd: nat)
    requires OutInv(s) && OutEnabled(s, WriteCount(fd))
    ensures OutInv(OutApply(s, WriteCount(fd)))
  {
    assert RegOk(s, fd) && CtxOk(s.ctx[fd]);
    OutOneFd(s, OutApply(s, WriteCount(fd)), fd, 0, Ready);
  }

  /** A worker that gets the lock with the event in hand finds the queue non-empty and the event disarmed. */
  lemma OutDrainLock(s: State, i: nat)
    requires OutInv(s) && OutEnabled(s, DrainLock(i))
    ensures OutInv(OutApply(s, DrainLock(i)))
  {
    var fd := s.ws[i].fd;
    assert RegOk(s, fd) && CtxOk(s.ctx[fd]);
    WriteAtLeast(s.ws, i, fd);
    OutOneFd(s, OutApply(s, DrainLock(i)), fd, i, Ready);
  }

  lemma TryQueuedOk(c: Ctx, w: nat, answers: seq<Answer>)
    requires CtxOk(c) && c.phase == Draining(w)
    ensures CtxOk(TryQueued(c, w, answers))
    ensures TryQueued(c, w, answers).phase.Kept? ==> TryQueued(c, w, answers).queue != []
  {
    var o := Drain(c.queue, answers, 0);
    DrainConserves(c.queue, answers, 0);
    ItemsDidLeft(o.trace);
    ItemsAppend(c.effects, DidAll(o.trace));
    ConcatAssoc(ItemsOf(c.effects), o.trace, Stream(o.rest));
  }

  lemma OutDrainTry(s: State, i: nat, answers: seq<Answer>)
    requires OutInv(s) && OutEnabled(s, DrainTry(i, answers))
    ensures OutInv(OutApply(s, DrainTry(i, answers)))
  {
    var fd := s.ws[i].fd;
    assert RegOk(s, fd);
    TryQueuedOk(s.ctx[fd], i, answers);
    OutOneFd(s, OutApply(s, DrainTry(i, answers)), fd, i, Ready);
  }

  lemma OutDrainRearm(s: State, i: nat)
    requires OutInv(s) && OutEnabled(s, DrainRearm(i))
    ensures OutInv(OutApply(s, DrainRearm(i)))
  {
    var fd := s.ws[i].fd;
    var t := OutApply(s, DrainRearm(i));
    assert RegOk(s, fd) && CtxOk(s.ctx[fd]);
    CountAfter(s, t, fd, i, Ready);
    OutOneFd(s, t, fd, i, Ready);
  }

  lemma OutDrainRemove(s: State, i: nat)
    requires OutInv(s) && OutEnabled(s, DrainRemove(i))
    ensures OutInv(OutApply(s, DrainRemove(i)))
  {
    var fd := s.ws[i].fd;
    assert RegOk(s, fd) && CtxOk(s.ctx[fd]);
    OutOneFd(s, OutApply(s, DrainRemove(i)), fd, i, Ready);
  }

  lemma ClearOk(c: Ctx, w: nat)
    requires CtxOk(c) && c.phase == Removed(w)
    ensures CtxOk(Clear(c, w))
  {
    ItemsDidLeft(Stream(c.queue));
    ItemsAppend(c.effects, ClearedAll(Stream(c.queue)));
  }

  lemma OutDrainClear(s: State, i: nat)
    requires OutInv(s) && OutEnabled(s, DrainClear(i))
    ensures OutInv(OutApply(s, DrainClear(i)))
  {
    var fd := s.ws[i].fd;
    assert RegOk(s, fd);
    ClearOk(s.ctx[fd], i);
    OutOneFd(s, OutApply(s, DrainClear(i)), fd, i, Ready);
  }

  lemma OutDrainCount(s: State, i: nat)
    requires OutInv(s) && OutEnabled(s, DrainCount(i))
    ensures OutInv(OutApply(s, DrainCount(i)))
  {
    var fd := s.ws[i].fd;
    var t := OutApply(s, DrainCount(i));
    assert RegOk(s, fd) && CtxOk(s.ctx[fd]);
    CountAfter(s, t, fd, i, t.ws[i]);
    OutOneFd(s, t, fd, i, t.ws[i]);
  }

  lemma OutStep(s: State, a: Action)
    requires OutInv(s) && Enabled(s, a)
    ensures OutInv(Apply(s, a))
  {
    match a {
      case OnLoop(l) => OutLoop(s, l);
      case OnFlush(f) =>
        CalmFlush(s, f);
        OutFrame(s, Apply(s, a));
      case OnOut(o) =>
        match o {
          case WriteEnter(fd, rs) => OutWriteEnter(s, fd, rs);
          case WriteAppend(fd) => OutWriteAppend(s, fd);
          case WriteTry(fd, answers) => OutWriteTry(s, fd, answers);
          case WriteAdd(fd) => OutWriteAdd(s, fd);
          case WriteCount(fd) => OutWriteCount(s, fd);
          case DrainLock(i) => OutDrainLock(s, i);
          case DrainTry(i, answers) => OutDrainTry(s, i, answers);
          case DrainRearm(i) => OutDrainRearm(s, i);
          case DrainRemove(i) => OutDrainRemove(s, i);
          case DrainClear(i) => OutDrainClear(s, i);
          case DrainCount(i) => OutDrainCount(s, i);
        }
    }
  }
}
