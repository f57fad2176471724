/**
 * What the critical sections of an fd come to, told from the calls made and the
 * kernel's answers; what was handed in over a run, told from the actions alone;
 * and exactly when an fd fails.
 */
module FdLaws {
  import opened Sequences
  import opened XferSpec
  import opened DrainMeaning
  import opened WavySystem
  import opened LoopProtocol
  import opened OutProtocol
  import OutTheorems

  // ------------------------------------------------------------ write_event, by the kernel's answers

  /** What a drain with these answers leaves of the fd: the items done, and the rest queued. */
  lemma DrainTryLaw(s: State, i: nat, answers: seq<Answer>)
    requires OutEnabled(s, DrainTry(i, answers))
    ensures var fd := s.ws[i].fd;
            var c, t := s.ctx[fd], OutApply(s, DrainTry(i, answers));
            var k := Done(c.queue, answers);
            && k <= |Stream(c.queue)| && |t.ctx| == |s.ctx|
            && t.ctx[fd].effects == c.effects + DidAll(Stream(c.queue)[..k])
            && Stream(t.ctx[fd].queue) == Stream(c.queue)[k..]
            && t.ctx[fd].phase == (if Blocked(c.queue, answers) then Kept(i) else Dropping(i))
            && t.ctx[fd].reg == c.reg && t.ctx[fd].accepted == c.accepted
            && t.ws == s.ws && t.outq == s.outq && t.watching == s.watching
  {
    var c := s.ctx[s.ws[i].fd];
    DrainIs(c.queue, answers, 0);
    assert From(answers, 0) == answers;
  }

  /** A drain that would block keeps what is left queued, and ends with the fd armed again and the counter as it was. */
  lemma BlockedDrainRearms(s: State, i: nat, answers: seq<Answer>)
    requires OutInv(s) && OutEnabled(s, DrainTry(i, answers)) && Blocked(s.ctx[s.ws[i].fd].queue, answers)
    ensures var fd, t := s.ws[i].fd, OutApply(s, DrainTry(i, answers));
            && OutEnabled(t, DrainRearm(i))
            && var u := OutApply(t, DrainRearm(i));
               && u.ctx[fd].phase.Unlocked? && u.ctx[fd].reg.Armed?
               && u.ctx[fd].queue != [] && Stream(u.ctx[fd].queue) == Stream(s.ctx[fd].queue)[Done(s.ctx[fd].queue, answers)..]
               && u.ws[i] == Ready && u.watching == s.watching
  {
    var fd, t := s.ws[i].fd, OutApply(s, DrainTry(i, answers));
    DrainTryLaw(s, i, answers);
    OutStep(s, OnOut(DrainTry(i, answers)));
    RearmMoves(t, i);
  }

  /**
   * A drain that ends otherwise takes the fd out of the out kernel, gives up what
   * is left, running its finalizers, and counts down; the worker that reaches
   * zero, and no other, goes on to wake the flushers.
   */
  lemma EndedDrainClears(s: State, i: nat, answers: seq<Answer>)
    requires OutInv(s) && OutEnabled(s, DrainTry(i, answers)) && !Blocked(s.ctx[s.ws[i].fd].queue, answers)
    ensures var fd := s.ws[i].fd;
            var t1 := OutApply(s, DrainTry(i, answers));
            && OutEnabled(t1, DrainRemove(i))
            && var t2 := OutApply(t1, DrainRemove(i));
               && OutEnabled(t2, DrainClear(i)) && t2.ctx[fd].reg.Unregistered?
               && var t3 := OutApply(t2, DrainClear(i));
                  && OutEnabled(t3, DrainCount(i))
                  && t3.ctx[fd].effects == t1.ctx[fd].effects + ClearedAll(Stream(t1.ctx[fd].queue))
                  && var t := OutApply(t3, DrainCount(i));
                     && t.ctx[fd].phase.Unlocked? && t.ctx[fd].reg.Unregistered? && t.ctx[fd].queue == []
                     && t.watching == s.watching - 1
                     && t.ws[i] == (if s.watching == 1 then Notify else Ready)
  {
    DrainTryLaw(s, i, answers);
  }

  // ------------------------------------------------------------ write, commit and commit_raw, by the kernel's answers

  /** A call that finds output queued only adds to it, and returns. */
  lemma AppendLaw(s: State, fd: nat)
    requires OutEnabled(s, WriteAppend(fd))
    ensures var c, t := s.ctx[fd], OutApply(s, WriteAppend(fd));
            && |t.ctx| == |s.ctx| && t.ctx[fd].queue == c.queue + c.phase.rs
            && t.ctx[fd].effects == c.effects && t.ctx[fd].phase.Unlocked? && t.ctx[fd].reg == c.reg
            && t.ctx[fd].accepted == c.accepted + Stream(c.phase.rs) == t.ctx[fd].returned
            && t.ws == s.ws && t.outq == s.outq && t.watching == s.watching
  {
  }

  /** A call that finds nothing queued writes directly: what the kernel takes is done, and what would block is queued and watched. */
  lemma TryLaw(s: State, fd: nat, answers: seq<Answer>)
    requires OutEnabled(s, WriteTry(fd, answers))
    ensures var c, t := s.ctx[fd], OutApply(s, WriteTry(fd, answers));
            var rs := c.phase.rs;
            var k := Done(rs, answers);
            && k <= |Stream(rs)| && |t.ctx| == |s.ctx|
            && t.ctx[fd].accepted == c.accepted + Stream(rs)
            && (if Blocked(rs, answers) then
                  && t.ctx[fd].phase == Pushed && Stream(t.ctx[fd].queue) == Stream(rs)[k..]
                  && t.ctx[fd].effects == c.effects + DidAll(Stream(rs)[..k])
                else
                  && t.ctx[fd].phase == Unlocked && t.ctx[fd].queue == []
                  && t.ctx[fd].effects == c.effects + DidAll(Stream(rs)[..k]) + LeftAll(Stream(rs)[k..]))
            && t.ctx[fd].reg == c.reg && t.ws == s.ws && t.outq == s.outq && t.watching == s.watching
  {
    DrainIs(s.ctx[fd].phase.rs, answers, 0);
    assert From(answers, 0) == answers;
  }

  /** A call that would block ends with the fd armed and counted. */
  lemma BlockedCallWatches(s: State, fd: nat, answers: seq<Answer>)
    requires OutInv(s) && OutEnabled(s, WriteTry(fd, answers)) && Blocked(s.ctx[fd].phase.rs, answers)
    ensures var t1 := OutApply(s, WriteTry(fd, answers));
            && OutEnabled(t1, WriteAdd(fd))
            && var t2 := OutApply(t1, WriteAdd(fd));
               && OutEnabled(t2, WriteCount(fd))
               && var t := OutApply(t2, WriteCount(fd));
                  && t.ctx[fd].phase.Unlocked? && t.ctx[fd].reg.Armed? && t.watching == s.watching + 1
                  && t.ctx[fd].queue == t1.ctx[fd].queue != [] && t.ctx[fd].returned == t.ctx[fd].accepted
  {
    TryLaw(s, fd, answers);
    assert RegOk(s, fd);
    DrainConserves(s.ctx[fd].phase.rs, answers, 0);
  }

  /** The lock of an fd is taken by nobody else, and given to a worker only with the fd's event in hand. */
  lemma LockLaw(s: State, i: nat)
    requires OutEnabled(s, DrainLock(i))
    ensures var fd, t := s.ws[i].fd, OutApply(s, DrainLock(i));
            t == s.(ctx := s.ctx[fd := s.ctx[fd].(phase := Draining(i))]) && s.ctx[fd].phase.Unlocked?
  {
  }

  /** The fd a step of a critical section is about. */
  function FdOfStep(s: State, a: OutAction): nat
    requires OutEnabled(s, a)
  {
    match a
    case WriteEnter(fd, _) => fd
    case WriteAppend(fd) => fd
    case WriteTry(fd, _) => fd
    case WriteAdd(fd) => fd
    case WriteCount(fd) => fd
    case _ => s.ws[a.i].fd
  }

  /** A critical section changes no other fd. */
  lemma OtherFds(s: State, a: OutAction, g: nat)
    requires OutEnabled(s, a) && g < |s.ctx| && g != FdOfStep(s, a)
    ensures |OutApply(s, a).ctx| == |s.ctx| && OutApply(s, a).ctx[g] == s.ctx[g]
  {
  }

  // ------------------------------------------------------------ what was handed in, from the actions

  predicate EntersFd(a: Action, fd: nat)
  {
    a.OnOut? && a.o.WriteEnter? && a.o.fd == fd
  }

  /** The items of all calls made on an fd, in lock order. */
  function Entered(acts: seq<Action>, fd: nat): seq<Item>
  {
    if acts == [] then []
    else
      var a := acts[|acts| - 1];
      Entered(acts[..|acts| - 1], fd) + if EntersFd(a, fd) then Stream(a.o.rs) else []
  }

  /** The records of the latest call made on an fd. */
  function LastCall(acts: seq<Action>, fd: nat): seq<Record>
  {
    if acts == [] then []
    else
      var a := acts[|acts| - 1];
      if EntersFd(a, fd) then a.o.rs else LastCall(acts[..|acts| - 1], fd)
  }

  /** The items of a call that has the lock and has not written or queued them yet. */
  function Pending(c: Ctx): seq<Item>
  {
    if c.phase.Writing? then Stream(c.phase.rs) else []
  }

  /** Pushing, counting and the steps of a drain accept nothing and start no call. */
  lemma EnteredRest(s: State, a: OutAction, fd: nat)
    requires OutEnabled(s, a) && FdOfStep(s, a) == fd < |s.ctx| && !a.WriteEnter? && !a.WriteAppend? && !a.WriteTry?
    ensures var t := OutApply(s, a);
            |t.ctx| == |s.ctx| && t.ctx[fd].accepted == s.ctx[fd].accepted && !t.ctx[fd].phase.Writing? && !s.ctx[fd].phase.Writing?
  {
    if a.DrainTry? {
      DrainTryLaw(s, a.i, a.answers);
    }
  }

  lemma EnteredOut(s: State, a: OutAction, fd: nat)
    requires OutEnabled(s, a) && fd < |s.ctx|
    ensures var t := OutApply(s, a);
            && |t.ctx| == |s.ctx|
            && t.ctx[fd].accepted + Pending(t.ctx[fd])
                 == s.ctx[fd].accepted + Pending(s.ctx[fd]) + (if EntersFd(OnOut(a), fd) then Stream(a.rs) else [])
            && (t.ctx[fd].phase.Writing? ==>
                  if EntersFd(OnOut(a), fd) then t.ctx[fd].phase.rs == a.rs else t.ctx[fd].phase == s.ctx[fd].phase)
  {
    if FdOfStep(s, a) != fd {
      OtherFds(s, a, fd);
    } else if a.WriteAppend? {
      AppendLaw(s, fd);
    } else if a.WriteTry? {
      TryLaw(s, fd, a.answers);
    } else if !a.WriteEnter? {
      EnteredRest(s, a, fd);
    }
  }

  lemma EnteredStep(s: State, a: Action, fd: nat)
    requires Enabled(s, a) && fd < |s.ctx|
    ensures var t := Apply(s, a);
            && |t.ctx| == |s.ctx|
            && t.ctx[fd].accepted + Pending(t.ctx[fd])
                 == s.ctx[fd].accepted + Pending(s.ctx[fd]) + (if EntersFd(a, fd) then Stream(a.o.rs) else [])
            && (t.ctx[fd].phase.Writing? ==>
                  if EntersFd(a, fd) then t.ctx[fd].phase.rs == a.o.rs else t.ctx[fd].phase == s.ctx[fd].phase)
  {
    match a {
      case OnLoop(l) => LoopRegOnly(s, l, fd);
      case OnFlush(f) => CalmFlush(s, f);
      case OnOut(o) => EnteredOut(s, o, fd);
    }
  }

  /**
   * In every run what an fd has accepted, followed by what a call in progress is
   * about to write, is what was handed to the calls, in lock order; and a call in
   * progress writes the records it was given.
   */
  lemma {:induction false} EnteredRun(tr: seq<State>, acts: seq<Action>, n: nat, fd: nat)
    requires IsRun(tr, acts) && n < |tr| && fd < |tr[0].ctx|
    ensures |tr[n].ctx| == |tr[0].ctx|
    ensures tr[n].ctx[fd].accepted + Pending(tr[n].ctx[fd]) == Entered(acts[..n], fd)
    ensures tr[n].ctx[fd].phase.Writing? ==> tr[n].ctx[fd].phase.rs == LastCall(acts[..n], fd)
  {
    if n == 0 {
      assert Fresh(tr[0].ctx[fd]);
    } else {
      EnteredRun(tr, acts, n - 1, fd);
      EnteredAt(tr, acts, n - 1, fd);
      assert acts[..n][..n - 1] == acts[..n - 1] && acts[..n][n - 1] == acts[n - 1];
    }
  }

  lemma EnteredAt(tr: seq<State>, acts: seq<Action>, n: nat, fd: nat)
    requires IsRun(tr, acts) && n < |acts| && fd < |tr[n].ctx|
    ensures var a := acts[n];
            && |tr[n + 1].ctx| == |tr[n].ctx|
            && tr[n + 1].ctx[fd].accepted + Pending(tr[n + 1].ctx[fd])
                 == tr[n].ctx[fd].accepted + Pending(tr[n].ctx[fd]) + (if EntersFd(a, fd) then Stream(a.o.rs) else [])
            && (tr[n + 1].ctx[fd].phase.Writing? ==>
                  if EntersFd(a, fd) then tr[n + 1].ctx[fd].phase.rs == a.o.rs else tr[n + 1].ctx[fd].phase == tr[n].ctx[fd].phase)
  {
    assert StepAt(tr, acts, n);
    EnteredStep(tr[n], acts[n], fd);
  }

  // ------------------------------------------------------------ when an fd fails

  /** The step meets a kernel that refuses something for good: a call that loses items, or a drain that loses bytes. */
  predicate FailsAt(s: State, a: Action, fd: nat)
  {
    a.OnOut? && OutEnabled(s, a.o) && FdOfStep(s, a.o) == fd && fd < |s.ctx| &&
    match a.o
    case WriteTry(_, answers) =>
      var rs := s.ctx[fd].phase.rs;
      !Blocked(rs, answers) && Done(rs, answers) < |Stream(rs)|
    case DrainTry(_, answers) =>
      var rs := s.ctx[fd].queue;
      !Blocked(rs, answers) && Bytes(Stream(rs)[Done(rs, answers)..]) != []
    case _ => false
  }

  /** A failed drain has not yet given up the bytes that are left. */
  predicate Doomed(c: Ctx)
  {
    (c.phase.Dropping? || c.phase.Removed?) && Bytes(Stream(c.queue)) != []
  }

  /** Nothing was refused or dropped, or is about to be. */
  predicate Sound(c: Ctx)
  {
    OutTheorems.Unfailed(c) && !Doomed(c)
  }

  lemma {:induction false} NoBytes(s: seq<Item>)
    ensures Bytes(s) == [] <==> forall x :: x in s ==> !IsByte(x)
  {
    if s != [] {
      NoBytes(s[1..]);
      assert s == [s[0]] + s[1..];
    }
  }

  lemma UnfailedMore(c: Ctx, d: Ctx, es: seq<Effect>)
    requires d.effects == c.effects + es
    ensures OutTheorems.Unfailed(d) <==> OutTheorems.Unfailed(c) && forall e :: e in es ==> e.Did?
  {
    if OutTheorems.Unfailed(d) {
      forall e | e in c.effects || e in es ensures e.Did? {
        assert e in d.effects;
      }
    }
  }

  lemma SoundEnded(c: Ctx, d: Ctx, did: seq<Item>, left: seq<Item>)
    requires d.effects == c.effects + DidAll(did) + LeftAll(left)
    ensures OutTheorems.Unfailed(d) <==> OutTheorems.Unfailed(c) && left == []
  {
    var es := DidAll(did) + LeftAll(left);
    assert d.effects == c.effects + es;
    UnfailedMore(c, d, es);
    if left != [] {
      assert LeftAll(left)[0] in es;
    }
  }

  lemma SoundTry(s: State, fd: nat, answers: seq<Answer>)
    requires OutEnabled(s, WriteTry(fd, answers))
    ensures Sound(OutApply(s, WriteTry(fd, answers)).ctx[fd]) <==> Sound(s.ctx[fd]) && !FailsAt(s, OnOut(WriteTry(fd, answers)), fd)
  {
    TryLaw(s, fd, answers);
    var c, d := s.ctx[fd], OutApply(s, WriteTry(fd, answers)).ctx[fd];
    var rs, k := c.phase.rs, Done(c.phase.rs, answers);
    if Blocked(rs, answers) {
      UnfailedMore(c, d, DidAll(Stream(rs)[..k]));
    } else {
      SoundEnded(c, d, Stream(rs)[..k], Stream(rs)[k..]);
    }
  }

  lemma SoundDrain(s: State, i: nat, answers: seq<Answer>)
    requires OutEnabled(s, DrainTry(i, answers))
    ensures var fd, a := s.ws[i].fd, DrainTry(i, answers);
            Sound(OutApply(s, a).ctx[fd]) <==> Sound(s.ctx[fd]) && !FailsAt(s, OnOut(a), fd)
  {
    DrainTryLaw(s, i, answers);
    var fd := s.ws[i].fd;
    var c, d := s.ctx[fd], OutApply(s, DrainTry(i, answers)).ctx[fd];
    UnfailedMore(c, d, DidAll(Stream(c.queue)[..Done(c.queue, answers)]));
  }

  lemma SoundClear(s: State, i: nat)
    requires OutEnabled(s, DrainClear(i))
    ensures Sound(OutApply(s, DrainClear(i)).ctx[s.ws[i].fd]) <==> Sound(s.ctx[s.ws[i].fd])
  {
    var fd := s.ws[i].fd;
    var c, d := s.ctx[fd], OutApply(s, DrainClear(i)).ctx[fd];
    var items := Stream(c.queue);
    UnfailedMore(c, d, ClearedAll(items));
    NoBytes(items);
    if x :| x in items && IsByte(x) {
      var k :| 0 <= k < |items| && items[k] == x;
      assert ClearedAll(items)[k].Dropped? && ClearedAll(items)[k] in ClearedAll(items);
    }
  }

  lemma SoundOut(s: State, a: OutAction, fd: nat)
    requires OutEnabled(s, a) && fd < |s.ctx|
    ensures |OutApply(s, a).ctx| == |s.ctx|
    ensures Sound(OutApply(s, a).ctx[fd]) <==> Sound(s.ctx[fd]) && !FailsAt(s, OnOut(a), fd)
  {
    if FdOfStep(s, a) != fd {
      OtherFds(s, a, fd);
    } else if a.WriteTry? {
      SoundTry(s, fd, a.answers);
    } else if a.DrainTry? {
      SoundDrain(s, a.i, a.answers);
    } else if a.DrainClear? {
      SoundClear(s, a.i);
    } else {
      SoundRest(s, a, fd);
    }
  }

  lemma SoundRest(s: State, a: OutAction, fd: nat)
    requires OutEnabled(s, a) && fd == FdOfStep(s, a) < |s.ctx| && !a.WriteTry? && !a.DrainTry? && !a.DrainClear?
    ensures |OutApply(s, a).ctx| == |s.ctx|
    ensures Sound(OutApply(s, a).ctx[fd]) <==> Sound(s.ctx[fd])
  {
  }

  lemma SoundStep(s: State, a: Action, fd: nat)
    requires Enabled(s, a) && fd < |s.ctx|
    ensures |Apply(s, a).ctx| == |s.ctx|
    ensures Sound(Apply(s, a).ctx[fd]) <==> Sound(s.ctx[fd]) && !FailsAt(s, a, fd)
  {
    match a {
      case OnLoop(l) => LoopRegOnly(s, l, fd);
      case OnFlush(f) => CalmFlush(s, f);
      case OnOut(o) => SoundOut(s, o, fd);
    }
  }

  /** Among the first n steps none meets a kernel that refuses something of this fd for good. */
  predicate NoFailure(tr: seq<State>, acts: seq<Action>, n: nat, fd: nat)
    requires |tr| == |acts| + 1 && n < |tr|
    decreases n
  {
    n == 0 || (NoFailure(tr, acts, n - 1, fd) && !FailsAt(tr[n - 1], acts[n - 1], fd))
  }

  /** Exactly when an fd fails: in every run nothing of it is refused or dropped, or about to be, iff no step met such a refusal. */
  lemma {:induction false} SoundIff(tr: seq<State>, acts: seq<Action>, n: nat, fd: nat)
    requires IsRun(tr, acts) && n < |tr| && fd < |tr[0].ctx|
    ensures |tr[n].ctx| == |tr[0].ctx|
    ensures Sound(tr[n].ctx[fd]) <==> NoFailure(tr, acts, n, fd)
  {
    if n == 0 {
      FreshSound(tr, acts, fd);
    } else {
      SoundIff(tr, acts, n - 1, fd);
      SoundAt(tr, acts, n - 1, fd);
    }
  }

  lemma FreshSound(tr: seq<State>, acts: seq<Action>, fd: nat)
    requires IsRun(tr, acts) && fd < |tr[0].ctx|
    ensures Sound(tr[0].ctx[fd])
  {
    assert Fresh(tr[0].ctx[fd]);
  }

  lemma SoundAt(tr: seq<State>, acts: seq<Action>, n: nat, fd: nat)
    requires IsRun(tr, acts) && n < |acts| && fd < |tr[n].ctx|
    ensures |tr[n + 1].ctx| == |tr[n].ctx|
    ensures Sound(tr[n + 1].ctx[fd]) <==> Sound(tr[n].ctx[fd]) && !FailsAt(tr[n], acts[n], fd)
  {
    assert StepAt(tr, acts, n);
    SoundStep(tr[n], acts[n], fd);
  }

  // ------------------------------------------------------------ kernels that do not fail

  /** No call on the fd brings an empty record, and no call or drain of it meets an error or a zero answer. */
  predicate Gentle(s: State, a: Action, fd: nat)
  {
    a.OnOut? && OutEnabled(s, a.o) && FdOfStep(s, a.o) == fd ==>
      match a.o
      case WriteEnter(_, rs) => Positive(rs)
      case WriteTry(_, answers) => Benign(answers)
      case DrainTry(_, answers) => Benign(answers)
      case _ => true
  }

  predicate GentleRun(tr: seq<State>, acts: seq<Action>, n: nat, fd: nat)
    requires |tr| == |acts| + 1 && n < |tr|
  {
    forall k :: 0 <= k < n ==> Gentle(tr[k], acts[k], fd)
  }

  /** No empty record is queued or in a call's hands, and a drain that has ended has nothing left to drop. */
  predicate Wholesome(c: Ctx)
  {
    && Positive(c.queue) && (c.phase.Writing? ==> Positive(c.phase.rs))
    && (c.phase.Dropping? || c.phase.Removed? ==> c.queue == [])
  }

  lemma WholesomeOut(s: State, a: OutAction, fd: nat)
    requires OutEnabled(s, a) && fd < |s.ctx| && Wholesome(s.ctx[fd]) && Gentle(s, OnOut(a), fd)
    ensures |OutApply(s, a).ctx| == |s.ctx| && Wholesome(OutApply(s, a).ctx[fd])
    ensures !FailsAt(s, OnOut(a), fd)
  {
    var c := s.ctx[fd];
    if FdOfStep(s, a) != fd {
      OtherFds(s, a, fd);
    } else if a.WriteTry? {
      BenignDrain(c.phase.rs, a.answers, 0);
      DrainIs(c.phase.rs, a.answers, 0);
      assert From(a.answers, 0) == a.answers;
    } else if a.DrainTry? {
      BenignDrain(c.queue, a.answers, 0);
      DrainIs(c.queue, a.answers, 0);
      assert From(a.answers, 0) == a.answers;
    } else if a.WriteAppend? {
      PositiveConcat(c.queue, c.phase.rs);
    }
  }

  lemma WholesomeStep(s: State, a: Action, fd: nat)
    requires Enabled(s, a) && fd < |s.ctx| && Wholesome(s.ctx[fd]) && Gentle(s, a, fd)
    ensures |Apply(s, a).ctx| == |s.ctx| && Wholesome(Apply(s, a).ctx[fd])
    ensures !FailsAt(s, a, fd)
  {
    match a {
      case OnLoop(l) => LoopRegOnly(s, l, fd);
      case OnFlush(f) => CalmFlush(s, f);
      case OnOut(o) => WholesomeOut(s, o, fd);
    }
  }

  /** With such a kernel and such calls an fd never fails: everything that became of its items was delivery. */
  lemma {:induction false} GentleNeverFails(tr: seq<State>, acts: seq<Action>, n: nat, fd: nat)
    requires IsRun(tr, acts) && n < |tr| && fd < |tr[0].ctx| && GentleRun(tr, acts, n, fd)
    ensures |tr[n].ctx| == |tr[0].ctx| && Wholesome(tr[n].ctx[fd])
    ensures NoFailure(tr, acts, n, fd) && OutTheorems.Unfailed(tr[n].ctx[fd])
  {
    if n > 0 {
      GentleNeverFails(tr, acts, n - 1, fd);
      GentleAt(tr, acts, n - 1, fd);
    } else {
      assert Fresh(tr[0].ctx[fd]);
    }
    SoundIff(tr, acts, n, fd);
  }

  lemma GentleAt(tr: seq<State>, acts: seq<Action>, n: nat, fd: nat)
    requires IsRun(tr, acts) && n < |acts| && fd < |tr[n].ctx| && GentleRun(tr, acts, n + 1, fd) && Wholesome(tr[n].ctx[fd])
    ensures |tr[n + 1].ctx| == |tr[n].ctx| && Wholesome(tr[n + 1].ctx[fd]) && !FailsAt(tr[n], acts[n], fd)
  {
    assert StepAt(tr, acts, n);
    assert Gentle(tr[n], acts[n], fd);
    WholesomeStep(tr[n], acts[n], fd);
  }

  /**
   * Stream order from the calls and answers alone: as long as no step meets a
   * refusal, the items delivered, those queued and those a call is about to
   * write are what was handed to the calls, in lock order.
   */
  lemma DeliveredInOrder(tr: seq<State>, acts: seq<Action>, n: nat, fd: nat)
    requires IsRun(tr, acts) && n < |tr| && fd < |tr[0].ctx| && NoFailure(tr, acts, n, fd)
    ensures |tr[n].ctx| == |tr[0].ctx|
    ensures var c := tr[n].ctx[fd];
            var done := |c.effects|;
            && done <= |Entered(acts[..n], fd)| && c.effects == DidAll(Entered(acts[..n], fd)[..done])
            && Stream(c.queue) + Pending(c) == Entered(acts[..n], fd)[done..]
  {
    SoundIff(tr, acts, n, fd);
    EnteredRun(tr, acts, n, fd);
    OutTheorems.OutRun(tr, acts, n);
    OutTheorems.StreamOrder(tr, acts, n, fd);
    var c := tr[n].ctx[fd];
    assert CtxOk(c);
    InParts(ItemsOf(c.effects), Stream(c.queue), Pending(c), Entered(acts[..n], fd));
    assert c.accepted[..|c.effects|] == ItemsOf(c.effects);
  }

  lemma InParts(a: seq<Item>, b: seq<Item>, c: seq<Item>, all: seq<Item>)
    requires (a + b) + c == all
    ensures |a| <= |all| && all[..|a|] == a && all[|a|..] == b + c
  {
  }
}
