/**
 * One-shot tokens of the main kernel: an ident is armed, or its event is unread,
 * or queued for more, or in one handler's hands, and never two of these at once.
 */
module TokenProtocol {
  import opened WavySystem
  import opened LoopProtocol
  import opened Sequences

  /** The events a worker holds that it has neither re-armed nor queued. */
  function Hand(pc: WorkerPc, id: Ident): nat
  {
    match pc
    case Handling(ev, reactivated, _) => if !reactivated && ev == id then 1 else 0
    case OutPolled => if id.OutKernel? then 1 else 0
    case Polled(evs) => multiset(evs)[id]
    case _ => 0
  }

  function HandCount(ws: seq<WorkerPc>, id: Ident): nat
  {
    if ws == [] then 0 else HandCount(ws[..|ws| - 1], id) + Hand(ws[|ws| - 1], id)
  }

  predicate ArmedIn(kern: map<Ident, bool>, id: Ident)
  {
    id in kern && kern[id]
  }

  function ArmedCount(kern: map<Ident, bool>, id: Ident): nat
  {
    if ArmedIn(kern, id) then 1 else 0
  }

  /** The unread part of the backlog. */
  function Unread(s: State): seq<Ident>
  {
    if s.off <= s.num <= |s.backlog| then s.backlog[s.off..s.num] else []
  }

  /** How many chances there are that a handler is called for id before it is re-armed. */
  function Tokens(s: State, id: Ident): nat
  {
    ArmedCount(s.kern, id) + multiset(Unread(s))[id] + multiset(s.more)[id] + HandCount(s.ws, id)
  }

  /** At most one token; and a registered ident has not lost its token. */
  predicate TokenOk(s: State, id: Ident)
  {
    Tokens(s, id) <= 1 && (id in s.kern ==> Tokens(s, id) == 1)
  }

  // ------------------------------------------------------------ counting

  lemma {:induction false} HandUpdate(ws: seq<WorkerPc>, i: nat, pc: WorkerPc, id: Ident)
    requires i < |ws|
    ensures HandCount(ws[i := pc], id) + Hand(ws[i], id) == HandCount(ws, id) + Hand(pc, id)
  {
    var n := |ws| - 1;
    if i == n {
      assert ws[i := pc][..n] == ws[..n];
    } else {
      HandUpdate(ws[..n], i, pc, id);
      assert ws[i := pc][..n] == ws[..n][i := pc];
    }
  }

  lemma HandWake(ws: seq<WorkerPc>, j: nat, id: Ident)
    ensures HandCount(Wake(ws, j), id) == HandCount(ws, id)
  {
    if j < |ws| && ws[j].Asleep? {
      HandUpdate(ws, j, Ready, id);
    }
  }

  /** Entering process_handler puts the event in the worker's hand. */
  lemma DispatchHand(s: State, i: nat, ke: Ident, ready: seq<nat>, id: Ident)
    requires i < |s.ws| && Hand(s.ws[i], id) == 0
    ensures HandCount(Dispatch(s, i, ke, ready).ws, id) == HandCount(s.ws, id) + if ke == id then 1 else 0
  {
    HandUpdate(s.ws, i, Dispatch(s, i, ke, ready).ws[i], id);
  }

  lemma {:induction false} HandAtLeast(ws: seq<WorkerPc>, i: nat, id: Ident)
    requires i < |ws|
    ensures HandCount(ws, id) >= Hand(ws[i], id)
  {
    var n := |ws| - 1;
    if i < n {
      HandAtLeast(ws[..n], i, id);
    }
  }

  // ------------------------------------------------------------ steps

  /** A step that leaves the kernel and the two event queues alone, and gives one worker no new event. */
  lemma TokenWorker(s: State, t: State, i: nat, pc: WorkerPc, id: Ident)
    requires i < |s.ws| && t.ws == s.ws[i := pc] && Hand(pc, id) == Hand(s.ws[i], id)
    requires t.kern == s.kern && t.more == s.more && Unread(t) == Unread(s)
    ensures Tokens(t, id) == Tokens(s, id)
  {
    HandUpdate(s.ws, i, pc, id);
  }

  lemma TokenTakeMore(s: State, i: nat, ready: seq<nat>, id: Ident)
    requires i < |s.ws| && s.ws[i].Ready? && s.more != []
    ensures Tokens(Dispatch(s.(more := s.more[1..]), i, s.more[0], ready), id) == Tokens(s, id)
  {
    HeadCount(s.more, id);
    DispatchHand(s.(more := s.more[1..]), i, s.more[0], ready, id);
  }

  lemma UnreadHead(backlog: seq<Ident>, off: nat, num: nat, id: Ident)
    requires off < num <= |backlog|
    ensures multiset(backlog[off..num])[id] == multiset(backlog[off + 1..num])[id] + if backlog[off] == id then 1 else 0
  {
    HeadCount(backlog[off..num], id);
    assert backlog[off..num][1..] == backlog[off + 1..num];
  }

  /** Entering process_handler changes no queue but the out queue, and not the kernel. */
  lemma DispatchRest(s: State, i: nat, ke: Ident, ready: seq<nat>)
    requires i < |s.ws|
    ensures var t := Dispatch(s, i, ke, ready);
            t.kern == s.kern && t.more == s.more && Unread(t) == Unread(s)
  {
  }

  lemma TokenTakeEvent(s: State, i: nat, ready: seq<nat>, id: Ident)
    requires i < |s.ws| && s.ws[i].Ready? && s.off < s.num <= |s.backlog|
    ensures var ke := s.backlog[s.off];
            Tokens(Dispatch(s.(off := s.off + 1, taken := s.taken + [ke]), i, ke, ready), id) == Tokens(s, id)
  {
    var ke := s.backlog[s.off];
    var u := s.(off := s.off + 1, taken := s.taken + [ke]);
    UnreadHead(s.backlog, s.off, s.num, id);
    DispatchHand(u, i, ke, ready, id);
    DispatchRest(u, i, ke, ready);
    assert Unread(u) == s.backlog[s.off + 1..s.num];
  }

  lemma TokenDoTask(s: State, i: nat, wake: nat, id: Ident)
    requires i < |s.ws| && s.ws[i].Ready? && s.tasks != []
    ensures Tokens(DoTask(s, i, wake), id) == Tokens(s, id)
  {
    var v := s.(ws := if |s.tasks| == 1 then s.ws else Wake(s.ws, wake));
    HandWake(s.ws, wake, id);
    TokenWorker(v, DoTask(s, i, wake), i, InTask(|s.tasks| == 1), id);
  }

  lemma TokenSection(s: State, i: nat, wake: nat, ready: seq<nat>, id: Ident)
    requires DispatchInv(s) && LoopEnabled(s, Section(i, wake, ready))
    ensures Tokens(LoopApply(s, Section(i, wake, ready)), id) == Tokens(s, id)
  {
    var t := LoopApply(s, Section(i, wake, ready));
    match Choose(s) {
      case TakeMore => TokenTakeMore(s, i, ready, id);
      case TakeEvent => TokenTakeEvent(s, i, ready, id);
      case ServeTask => TokenDoTask(s, i, wake, id);
      case ServeOut => TokenWorker(s, t, i, t.ws[i], id);
      case Sleep => TokenWorker(s, t, i, t.ws[i], id);
      case StartPoll => TokenWorker(s, t, i, t.ws[i], id);
    }
  }

  lemma TokenPollReturn(s: State, i: nat, evs: seq<Ident>, id: Ident)
    requires DispatchInv(s) && LoopEnabled(s, PollReturn(i, evs))
    ensures Tokens(LoopApply(s, PollReturn(i, evs)), id) == Tokens(s, id)
  {
    var t := LoopApply(s, PollReturn(i, evs));
    DistinctCount(evs, id);
    HandUpdate(s.ws, i, Polled(evs), id);
    assert Poller(s.ws[i]);
    assert Unread(s) == [] && Unread(t) == [];
    if id in evs {
      var k :| 0 <= k < |evs| && evs[k] == id;
      assert ArmedIn(s.kern, id);
    }
  }

  lemma TokenPollRelock(s: State, i: nat, wake: nat, ready: seq<nat>, id: Ident)
    requires DispatchInv(s) && LoopEnabled(s, PollRelock(i, wake, ready))
    ensures Tokens(LoopApply(s, PollRelock(i, wake, ready)), id) == Tokens(s, id)
  {
    var t := LoopApply(s, PollRelock(i, wake, ready));
    var u := Publish(s, i, wake);
    TokenPublish(s, i, wake, id);
    TokenTakeEvent(u, i, ready, id);
    assert u.ws[i := t.ws[i]] == t.ws;
    assert t == Dispatch(u.(off := u.off + 1, taken := u.taken + [u.backlog[u.off]]), i, u.backlog[u.off], ready);
  }

  /** The poller's return up to where it takes its first event. */
  function Publish(s: State, i: nat, wake: nat): State
    requires i < |s.ws| && s.ws[i].Polled?
  {
    s.(off := 0, num := |s.ws[i].evs|, pollable := true, ws := Wake(s.ws, wake)[i := Ready])
  }

  /** Publishing moves the reported events from the poller's hands to the backlog. */
  lemma TokenPublish(s: State, i: nat, wake: nat, id: Ident)
    requires DispatchInv(s) && i < |s.ws| && s.ws[i].Polled?
    ensures Tokens(Publish(s, i, wake), id) == Tokens(s, id)
  {
    var u := Publish(s, i, wake);
    assert Poller(s.ws[i]);
    assert Unread(s) == [];
    assert Unread(u) == s.backlog[..|s.ws[i].evs|] == s.ws[i].evs;
    HandWake(s.ws, wake, id);
    HandUpdate(Wake(s.ws, wake), i, Ready, id);
  }

  lemma MoreHands(ws: seq<WorkerPc>, i: nat, wake: nat, id: Ident)
    requires i < |ws| && ws[i].Handling? && !ws[i].reactivated
    ensures HandCount(Wake(ws, wake)[i := ws[i].(reactivated := true)], id) + Hand(ws[i], id) == HandCount(ws, id)
  {
    HandWake(ws, wake, id);
    HandUpdate(Wake(ws, wake), i, ws[i].(reactivated := true), id);
  }

  /** more() moves the token from the handler's hand to the queue. */
  lemma TokenMore(s: State, i: nat, wake: nat, id: Ident)
    requires LoopEnabled(s, More(i, wake))
    ensures Tokens(LoopApply(s, More(i, wake)), id) == Tokens(s, id)
  {
    if !s.ws[i].reactivated {
      var t := LoopApply(s, More(i, wake));
      assert Unread(t) == Unread(s) && t.kern == s.kern;
      assert multiset(t.more)[id] == multiset(s.more)[id] + Hand(s.ws[i], id);
      MoreHands(s.ws, i, wake, id);
    }
  }

  /** An event that was removed and not re-armed is not registered. */
  predicate RemovedOk(s: State, id: Ident)
  {
    forall i :: 0 <= i < |s.ws| && s.ws[i] == Handling(id, false, true) ==> id !in s.kern
  }

  predicate TokenInv(s: State, id: Ident)
  {
    TokenOk(s, id) && RemovedOk(s, id)
  }

  /** One worker's event and the kernel's registration change; the event queues do not. */
  lemma TokenExchange(s: State, t: State, i: nat, pc: WorkerPc, id: Ident)
    requires i < |s.ws| && t.ws == s.ws[i := pc] && t.more == s.more && Unread(t) == Unread(s)
    requires RemovedOk(s, id) && (id in t.kern ==> id in s.kern) && (pc == Handling(id, false, true) ==> id !in t.kern)
    ensures Tokens(t, id) + ArmedCount(s.kern, id) + Hand(s.ws[i], id) == Tokens(s, id) + ArmedCount(t.kern, id) + Hand(pc, id)
    ensures Tokens(s, id) >= ArmedCount(s.kern, id) + Hand(s.ws[i], id)
    ensures RemovedOk(t, id)
  {
    HandUpdate(s.ws, i, pc, id);
    HandAtLeast(s.ws, i, id);
  }

  /** next(): the token goes back to the kernel, if the kernel still knows the ident. */
  lemma TokenNext(s: State, i: nat, id: Ident)
    requires TokenInv(s, id) && LoopEnabled(s, Next(i))
    ensures TokenInv(LoopApply(s, Next(i)), id)
  {
    if !s.ws[i].reactivated {
      TokenExchange(s, LoopApply(s, Next(i)), i, s.ws[i].(reactivated := true), id);
    }
  }

  lemma TokenRemove(s: State, i: nat, id: Ident)
    requires TokenInv(s, id) && LoopEnabled(s, Remove(i))
    ensures TokenInv(LoopApply(s, Remove(i)), id)
  {
    if !s.ws[i].removed {
      TokenExchange(s, LoopApply(s, Remove(i)), i, s.ws[i].(removed := true), id);
    }
  }

  /** After the handler: re-armed, removed, or dropped together with its registration. */
  lemma TokenHandlerReturn(s: State, i: nat, cont: bool, id: Ident)
    requires TokenInv(s, id) && LoopEnabled(s, HandlerReturn(i, cont))
    ensures TokenInv(LoopApply(s, HandlerReturn(i, cont)), id)
  {
    TokenExchange(s, LoopApply(s, HandlerReturn(i, cont)), i, Ready, id);
  }

  lemma TokenOutReactivate(s: State, i: nat, id: Ident)
    requires TokenInv(s, id) && LoopEnabled(s, OutReactivate(i))
    ensures TokenInv(LoopApply(s, OutReactivate(i)), id)
  {
    TokenExchange(s, LoopApply(s, OutReactivate(i)), i, Ready, id);
  }

  lemma TokenRemoveHandler(s: State, fd: nat, id: Ident)
    requires TokenInv(s, id)
    ensures TokenInv(LoopApply(s, RemoveHandler(fd)), id)
  {
    var t := LoopApply(s, RemoveHandler(fd));
    UnregisterTokens(s, t, Handler(fd), id);
  }

  /** Removing a registration takes its armed token away, and nothing else. */
  lemma UnregisterTokens(s: State, t: State, gone: Ident, id: Ident)
    requires t == s.(kern := s.kern - {gone})
    ensures Tokens(t, id) == Tokens(s, id) - if id == gone then ArmedCount(s.kern, id) else 0
    ensures id in t.kern <==> id in s.kern && id != gone
  {
    assert Unread(t) == Unread(s);
  }

  /** Adding an ident with no token outstanding makes exactly one. */
  lemma TokenAddHandler(s: State, fd: nat, id: Ident)
    requires TokenInv(s, id)
    requires id == Handler(fd) && id !in s.kern ==> Tokens(s, id) == 0
    ensures TokenInv(LoopApply(s, AddHandler(fd)), id)
  {
    var t := LoopApply(s, AddHandler(fd));
    assert Unread(t) == Unread(s) && t.more == s.more && t.ws == s.ws;
    forall i | 0 <= i < |s.ws| && s.ws[i] == Handling(id, false, true) ensures id !in t.kern {
      HandAtLeast(s.ws, i, id);
    }
  }

  lemma TokenScheduling(s: State, a: LoopAction, id: Ident)
    requires DispatchInv(s) && TokenInv(s, id) && LoopEnabled(s, a) && Scheduling(a)
    ensures TokenInv(LoopApply(s, a), id)
  {
    match a {
      case Section(i, wake, ready) =>
        TokenSection(s, i, wake, ready, id);
        NoNewRemoved(s, a, id);
      case PollReturn(i, evs) =>
        TokenPollReturn(s, i, evs, id);
        NoNewRemoved(s, a, id);
      case PollRelock(i, wake, ready) =>
        TokenPollRelock(s, i, wake, ready, id);
        NoNewRemoved(s, a, id);
    }
  }

  /** A step that brings no removed event into a worker's hands, and registers nothing. */
  lemma NoNewRemoved(s: State, a: LoopAction, id: Ident)
    requires RemovedOk(s, id) && LoopEnabled(s, a) && Scheduling(a)
    ensures RemovedOk(LoopApply(s, a), id)
    ensures id in LoopApply(s, a).kern <==> id in s.kern
  {
    var t := LoopApply(s, a);
    forall k | 0 <= k < |t.ws| && t.ws[k] == Handling(id, false, true) ensures s.ws[k] == t.ws[k] {
      SchedulingHands(s, a, k);
    }
  }

  lemma SchedulingHands(s: State, a: LoopAction, k: nat)
    requires LoopEnabled(s, a) && Scheduling(a) && k < |LoopApply(s, a).ws|
    ensures k < |s.ws|
    ensures LoopApply(s, a).ws[k].Handling? && LoopApply(s, a).ws[k].removed ==> s.ws[k] == LoopApply(s, a).ws[k]
  {
  }

  lemma TokenHandler(s: State, a: LoopAction, id: Ident)
    requires TokenInv(s, id) && LoopEnabled(s, a)
    requires a.More? || a.Next? || a.Remove? || a.HandlerReturn?
    ensures TokenInv(LoopApply(s, a), id)
  {
    match a {
      case More(i, wake) => TokenMore(s, i, wake, id);
      case Next(i) => TokenNext(s, i, id);
      case Remove(i) => TokenRemove(s, i, id);
      case HandlerReturn(i, cont) => TokenHandlerReturn(s, i, cont, id);
    }
  }

  lemma TokenQuiet(s: State, a: LoopAction, id: Ident)
    requires TokenInv(s, id) && LoopEnabled(s, a)
    requires a.OutReactivate? || a.TaskReturn? || a.Broadcast? || a.SpuriousWake?
    ensures TokenInv(LoopApply(s, a), id)
  {
    if a.OutReactivate? {
      TokenOutReactivate(s, a.i, id);
    } else {
      TokenExchange(s, LoopApply(s, a), a.i, LoopApply(s, a).ws[a.i], id);
    }
  }

  lemma TokenSubmit(s: State, a: LoopAction, id: Ident)
    requires TokenInv(s, id) && LoopEnabled(s, a) && a.Submit?
    ensures TokenInv(LoopApply(s, a), id)
  {
    var t := LoopApply(s, a);
    HandWake(s.ws, a.wake, id);
    assert Unread(t) == Unread(s);
  }

  lemma TokenLoop(s: State, a: LoopAction, id: Ident)
    requires DispatchInv(s) && TokenInv(s, id) && LoopEnabled(s, a)
    requires a.AddHandler? && id == Handler(a.fd) && id !in s.kern ==> Tokens(s, id) == 0
    ensures TokenInv(LoopApply(s, a), id)
  {
    if Scheduling(a) {
      TokenScheduling(s, a, id);
    } else if a.More? || a.Next? || a.Remove? || a.HandlerReturn? {
      TokenHandler(s, a, id);
    } else if a.Submit? {
      TokenSubmit(s, a, id);
    } else if a.AddHandler? {
      TokenAddHandler(s, a.fd, id);
    } else if a.RemoveHandler? {
      TokenRemoveHandler(s, a.fd, id);
    } else {
      TokenQuiet(s, a, id);
    }
  }

  lemma TokenOut(s: State, a: OutAction, id: Ident)
    requires TokenInv(s, id) && OutEnabled(s, a)
    ensures TokenInv(OutApply(s, a), id)
  {
    var t := OutApply(s, a);
    if a.DrainRearm? || a.DrainCount? {
      TokenWorker(s, t, a.i, t.ws[a.i], id);
    }
  }

  // ------------------------------------------------------------ where tokens go

  /** A wait moves one token per reported ident from the kernel to the poller's hands, and no other token. */
  lemma PollReturnMoves(s: State, i: nat, evs: seq<Ident>, id: Ident)
    requires LoopEnabled(s, PollReturn(i, evs))
    ensures var t := LoopApply(s, PollReturn(i, evs));
            && t.ws == s.ws[i := t.ws[i]] && t.more == s.more && (id in t.kern <==> id in s.kern)
            && ArmedCount(s.kern, id) == ArmedCount(t.kern, id) + Hand(t.ws[i], id)
            && Hand(s.ws[i], id) == 0 && Hand(t.ws[i], id) == if id in evs then 1 else 0
  {
    DistinctCount(evs, id);
    if id in evs {
      var k :| 0 <= k < |evs| && evs[k] == id;
      assert ArmedIn(s.kern, id);
    }
  }

  /** more() moves the handler's token to the "more" queue, and a second call does nothing. */
  lemma MoreMoves(s: State, i: nat, wake: nat, again: nat, id: Ident)
    requires LoopEnabled(s, More(i, wake))
    ensures var t := LoopApply(s, More(i, wake));
            && t.kern == s.kern && Unread(t) == Unread(s)
            && multiset(t.more)[id] + Hand(t.ws[i], id) == multiset(s.more)[id] + Hand(s.ws[i], id)
            && Hand(t.ws[i], id) == 0
            && (LoopEnabled(t, More(i, again)) ==> LoopApply(t, More(i, again)) == t)
  {
  }

  /** next() gives the handler's token back to the kernel iff the ident is still registered; otherwise it is gone. */
  lemma NextMoves(s: State, i: nat)
    requires LoopEnabled(s, Next(i)) && !s.ws[i].reactivated && TokenInv(s, s.ws[i].ev)
    ensures var t, ev := LoopApply(s, Next(i)), s.ws[i].ev;
            && Hand(s.ws[i], ev) == 1 && Hand(t.ws[i], ev) == 0
            && !ArmedIn(s.kern, ev) && (ArmedIn(t.kern, ev) <==> ev in s.kern)
            && Tokens(t, ev) == ArmedCount(t.kern, ev)
            && LoopApply(t, Next(i)) == t
  {
    var t, ev := LoopApply(s, Next(i)), s.ws[i].ev;
    HandUpdate(s.ws, i, t.ws[i], ev);
    HandAtLeast(s.ws, i, ev);
    assert Unread(t) == Unread(s);
  }

  /**
   * The three ends of a handler: a token passed on before is left where it is;
   * otherwise a handler that wants to go on, and has not removed the ident, gives
   * it back to the kernel if that still knows the ident; and in all other cases
   * token and registration are gone together.
   */
  lemma HandlerReturnMoves(s: State, i: nat, cont: bool)
    requires LoopEnabled(s, HandlerReturn(i, cont)) && TokenInv(s, s.ws[i].ev)
    ensures var t, pc := LoopApply(s, HandlerReturn(i, cont)), s.ws[i];
            && Hand(t.ws[i], pc.ev) == 0
            && (if pc.reactivated then t.kern == s.kern && Tokens(t, pc.ev) == Tokens(s, pc.ev)
                else if cont && !pc.removed then Tokens(t, pc.ev) == ArmedCount(t.kern, pc.ev) && (ArmedIn(t.kern, pc.ev) <==> pc.ev in s.kern)
                else pc.ev !in t.kern && Tokens(t, pc.ev) == 0)
  {
    var t, ev := LoopApply(s, HandlerReturn(i, cont)), s.ws[i].ev;
    HandUpdate(s.ws, i, Ready, ev);
    HandAtLeast(s.ws, i, ev);
    assert Unread(t) == Unread(s);
  }

  /** The step adds nothing, or adds an ident that has no token outstanding. */
  predicate CleanAdd(s: State, a: Action)
  {
    a.OnLoop? && a.l.AddHandler? && Handler(a.l.fd) !in s.kern ==> Tokens(s, Handler(a.l.fd)) == 0
  }

  lemma TokenStep(s: State, a: Action, id: Ident)
    requires DispatchInv(s) && TokenInv(s, id) && Enabled(s, a) && CleanAdd(s, a)
    ensures TokenInv(Apply(s, a), id)
  {
    match a {
      case OnLoop(l) => TokenLoop(s, l, id);
      case OnOut(o) => TokenOut(s, o, id);
      case OnFlush(f) => CalmFlush(s, f);
    }
  }

  // ------------------------------------------------------------ the out kernel's own token

  /** Events of the out kernel are never given to a handler. */
  predicate OutKernelKept(s: State)
  {
    && OutKernel in s.kern
    && (forall i :: 0 <= i < |s.ws| && s.ws[i].Handling? ==> s.ws[i].ev.Handler?)
    && OutKernel !in s.more
  }

  lemma OutKernelSection(s: State, i: nat, wake: nat, ready: seq<nat>)
    requires OutKernelKept(s) && LoopEnabled(s, Section(i, wake, ready))
    ensures OutKernelKept(LoopApply(s, Section(i, wake, ready)))
  {
    match Choose(s) {
      case TakeMore => OutKernelDispatch(s.(more := s.more[1..]), i, s.more[0], ready);
      case TakeEvent =>
        var ke := s.backlog[s.off];
        OutKernelDispatch(s.(off := s.off + 1, taken := s.taken + [ke]), i, ke, ready);
      case _ =>
    }
  }

  lemma OutKernelDispatch(s: State, i: nat, ke: Ident, ready: seq<nat>)
    requires OutKernelKept(s) && i < |s.ws|
    ensures OutKernelKept(Dispatch(s, i, ke, ready))
  {
  }

  lemma OutKernelLoop(s: State, a: LoopAction)
    requires OutKernelKept(s) && LoopEnabled(s, a)
    ensures OutKernelKept(LoopApply(s, a))
  {
    if a.Section? {
      OutKernelSection(s, a.i, a.wake, a.ready);
    }
  }

  lemma OutKernelStep(s: State, a: Action)
    requires OutKernelKept(s) && Enabled(s, a)
    ensures OutKernelKept(Apply(s, a))
  {
    match a {
      case OnLoop(l) => OutKernelLoop(s, l);
      case OnOut(o) => CalmOut(s, o);
      case OnFlush(f) => CalmFlush(s, f);
    }
  }

  // ------------------------------------------------------------ theorems over runs

  /** No ident is re-added while an earlier event for it is outstanding. */
  predicate Disciplined(tr: seq<State>, acts: seq<Action>)
    requires IsRun(tr, acts)
  {
    forall k :: 0 <= k < |acts| ==> CleanAdd(tr[k], acts[k])
  }

  /** In every state every ident has at most one token. */
  ghost predicate Exclusive(tr: seq<State>)
  {
    forall n, id :: 0 <= n < |tr| ==> Tokens(tr[n], id) <= 1
  }

  lemma {:induction false} NoHands(ws: seq<WorkerPc>, id: Ident)
    requires forall i :: 0 <= i < |ws| ==> Hand(ws[i], id) == 0
    ensures HandCount(ws, id) == 0
  {
    if ws != [] {
      NoHands(ws[..|ws| - 1], id);
    }
  }

  lemma {:induction false} TokenRun(tr: seq<State>, acts: seq<Action>, n: nat, id: Ident)
    requires IsRun(tr, acts) && Disciplined(tr, acts) && n < |tr|
    ensures TokenInv(tr[n], id)
  {
    if n == 0 {
      NoHands(tr[0].ws, id);
    } else {
      TokenRun(tr, acts, n - 1, id);
      DispatchRun(tr, acts, n - 1);
      assert StepAt(tr, acts, n - 1);
      TokenStep(tr[n - 1], acts[n - 1], id);
    }
  }

  /** The out kernel keeps exactly one token in every run, however handlers are added and removed. */
  lemma {:induction false} OutKernelRun(tr: seq<State>, acts: seq<Action>, n: nat)
    requires IsRun(tr, acts) && n < |tr|
    ensures OutKernelKept(tr[n]) && TokenInv(tr[n], OutKernel) && Tokens(tr[n], OutKernel) == 1
  {
    if n == 0 {
      NoHands(tr[0].ws, OutKernel);
    } else {
      OutKernelRun(tr, acts, n - 1);
      DispatchRun(tr, acts, n - 1);
      assert StepAt(tr, acts, n - 1);
      OutKernelStep(tr[n - 1], acts[n - 1]);
      OutKernelTokens(tr[n - 1], acts[n - 1]);
    }
  }

  lemma OutKernelTokens(s: State, a: Action)
    requires DispatchInv(s) && TokenInv(s, OutKernel) && OutKernel in s.kern && Enabled(s, a)
    ensures TokenInv(Apply(s, a), OutKernel)
  {
    match a {
      case OnLoop(l) => TokenLoop(s, l, OutKernel);
      case OnOut(o) => TokenOut(s, o, OutKernel);
      case OnFlush(f) => CalmFlush(s, f);
    }
  }

  /** One-shot exclusivity holds along a run exactly when the run adds idents cleanly. */
  lemma ExclusiveIff(tr: seq<State>, acts: seq<Action>)
    requires IsRun(tr, acts)
    ensures Exclusive(tr) <==> Disciplined(tr, acts)
  {
    if Disciplined(tr, acts) {
      forall n, id | 0 <= n < |tr| ensures Tokens(tr[n], id) <= 1 {
        TokenRun(tr, acts, n, id);
      }
    }
    if Exclusive(tr) {
      forall k | 0 <= k < |acts| ensures CleanAdd(tr[k], acts[k]) {
        assert StepAt(tr, acts, k);
        if !CleanAdd(tr[k], acts[k]) {
          assert Tokens(tr[k + 1], Handler(acts[k].l.fd)) <= 1;
          DirtyAddDoubles(tr[k], acts[k].l.fd);
        }
      }
    }
  }

  lemma DirtyAddDoubles(s: State, fd: nat)
    requires Handler(fd) !in s.kern && Tokens(s, Handler(fd)) > 0
    ensures Tokens(LoopApply(s, AddHandler(fd)), Handler(fd)) > 1
  {
    var t := LoopApply(s, AddHandler(fd));
    assert Unread(t) == Unread(s) && t.more == s.more && t.ws == s.ws;
    assert ArmedCount(t.kern, Handler(fd)) == 1 && ArmedCount(s.kern, Handler(fd)) == 0;
  }

  /** In a clean run a registered ident never goes deaf: it is armed, or its one event is on its way. */
  lemma RegisteredNeverDeaf(tr: seq<State>, acts: seq<Action>, n: nat, id: Ident)
    requires IsRun(tr, acts) && Disciplined(tr, acts) && n < |tr| && id in tr[n].kern
    ensures Tokens(tr[n], id) == 1
  {
    TokenRun(tr, acts, n, id);
  }

  /** A run to a state in which the event of a fresh handler has just been reported. */
  lemma InFlight(s0: State, fd: nat) returns (tr: seq<State>, acts: seq<Action>)
    requires Init(s0) && 0 < |s0.ws|
    ensures IsRun(tr, acts) && tr[0] == s0
    ensures var s := tr[|tr| - 1];
            && s.ws == s0.ws[0 := Polled([Handler(fd)])] && s.tasks == [] && s.more == []
            && |s.backlog| == BACKLOG_SIZE && s.backlog[0] == Handler(fd)
  {
    tr, acts := Extend([s0], [], OnLoop(Section(0, 0, [])));
    assert tr[1].ws[0] == Polling && tr[1].kern == s0.kern;
    tr, acts := Extend(tr, acts, OnLoop(AddHandler(fd)));
    assert EventsOk(tr[2].kern, [Handler(fd)]);
    tr, acts := Extend(tr, acts, OnLoop(PollReturn(0, [Handler(fd)])));
  }

  predicate BothHandle(s: State, fd: nat)
  {
    |s.ws| >= 2 && s.ws[0] == Handling(Handler(fd), false, false) && s.ws[1] == Handling(Handler(fd), false, false)
  }

  /**
   * The discipline matters: from any start of two workers or more there is a run
   * that removes a handler while its event is in flight and adds it again, after
   * which two workers are inside the handler of the same ident at once.
   */
  lemma DirtyRunExists(s0: State, fd: nat) returns (tr: seq<State>, acts: seq<Action>)
    requires Init(s0) && 2 <= |s0.ws|
    ensures IsRun(tr, acts) && tr[0] == s0 && !Exclusive(tr)
    ensures BothHandle(tr[|tr| - 1], fd)
  {
    tr, acts := DirtyAdd(s0, fd);
    tr, acts := SecondPoller(tr, acts, fd);
    tr, acts := Extend(tr, acts, OnLoop(PollReturn(1, [Handler(fd)])));
    tr, acts := Extend(tr, acts, OnLoop(PollRelock(1, 0, [])));
    var s := tr[|tr| - 1];
    assert BothHandle(s, fd);
    TwoHands(s.ws, 0, 1, Handler(fd));
    assert Tokens(tr[|tr| - 1], Handler(fd)) > 1;
  }

  /** The first worker enters the handler, the second goes to poll. */
  lemma SecondPoller(tr0: seq<State>, acts0: seq<Action>, fd: nat) returns (tr: seq<State>, acts: seq<Action>)
    requires IsRun(tr0, acts0) && DirtyState(tr0[|tr0| - 1], fd)
    ensures IsRun(tr, acts) && tr[0] == tr0[0]
    ensures var s := tr[|tr| - 1];
            && |s.ws| >= 2 && s.ws[0] == Handling(Handler(fd), false, false) && s.ws[1] == Polling
            && (forall k :: 0 <= k < |s.ws| ==> !s.ws[k].Asleep?)
            && EventsOk(s.kern, [Handler(fd)]) && |s.backlog| == BACKLOG_SIZE
  {
    tr, acts := Extend(tr0, acts0, OnLoop(PollRelock(0, 0, [])));
    var s := tr[|tr| - 1];
    assert s.ws[0] == Handling(Handler(fd), false, false) && s.ws[1] == Ready;
    assert Choose(s) == StartPoll;
    tr, acts := Extend(tr, acts, OnLoop(Section(1, 0, [])));
  }

  /** The event is with the first worker, and the ident armed again. */
  predicate DirtyState(s: State, fd: nat)
  {
    && |s.ws| >= 2 && s.ws[0] == Polled([Handler(fd)]) && (forall k :: 1 <= k < |s.ws| ==> s.ws[k] == Ready)
    && ArmedIn(s.kern, Handler(fd)) && s.tasks == [] && s.more == []
    && |s.backlog| == BACKLOG_SIZE && s.backlog[0] == Handler(fd)
  }

  /** The run up to the second add: the event is with the poller, and the ident armed again. */
  lemma DirtyAdd(s0: State, fd: nat) returns (tr: seq<State>, acts: seq<Action>)
    requires Init(s0) && 2 <= |s0.ws|
    ensures IsRun(tr, acts) && tr[0] == s0
    ensures DirtyState(tr[|tr| - 1], fd)
  {
    tr, acts := InFlight(s0, fd);
    tr, acts := Extend(tr, acts, OnLoop(RemoveHandler(fd)));
    tr, acts := Extend(tr, acts, OnLoop(AddHandler(fd)));
  }

  lemma {:induction false} TwoHands(ws: seq<WorkerPc>, i: nat, j: nat, id: Ident)
    requires i < j < |ws|
    ensures HandCount(ws, id) >= Hand(ws[i], id) + Hand(ws[j], id)
  {
    var n := |ws| - 1;
    if j == n {
      HandAtLeast(ws[..n], i, id);
    } else {
      TwoHands(ws[..n], i, j, id);
    }
  }

  /** In a clean run no two workers are inside handlers of the same ident, unless one has passed the event on. */
  lemma HandlersExclusive(tr: seq<State>, acts: seq<Action>, n: nat, i: nat, j: nat)
    requires IsRun(tr, acts) && Disciplined(tr, acts) && n < |tr| && i < j < |tr[n].ws|
    requires tr[n].ws[i].Handling? && tr[n].ws[j].Handling? && tr[n].ws[i].ev == tr[n].ws[j].ev
    ensures tr[n].ws[i].reactivated || tr[n].ws[j].reactivated
  {
    TokenRun(tr, acts, n, tr[n].ws[i].ev);
    TwoHands(tr[n].ws, i, j, tr[n].ws[i].ev);
  }
}
