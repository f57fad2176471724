/**
 * Whole runs on packed buffers: what a run of the machine does to one fd, done
 * by the in-place code to one packed queue.
 */
module PackedRuns {
  import opened XferSpec
  import opened XferPacked
  import opened WavySystem
  import opened LoopProtocol
  import opened OutProtocol
  import opened OutCalls
  import opened FdLaws
  import OutTheorems
  import Xfer

  /** What happens to an fd's queue inside its critical sections. */
  datatype Change =
    | Call(rs: seq<Record>, answers: seq<Answer>)   // write, commit or commit_raw
    | Event(answers: seq<Answer>)                   // try_write in write_event
    | Abandon                                       // clear in write_event

  /** The records queued, and the items done so far. */
  datatype Fd = Fd(queue: seq<Record>, done: seq<Item>)

  /** The change one step makes to the fd, if it makes one; `called` is what the latest call on the fd was given. */
  function ChangeOf(s: State, a: Action, fd: nat, called: seq<Record>): seq<Change>
    requires Enabled(s, a) && fd < |s.ctx|
  {
    match a
    case OnOut(WriteAppend(g)) => if g == fd then [Call(called, [])] else []
    case OnOut(WriteTry(g, answers)) => if g == fd then [Call(called, answers)] else []
    case OnOut(DrainTry(i, answers)) => if s.ws[i].fd == fd then [Event(answers)] else []
    case OnOut(DrainClear(i)) => if s.ws[i].fd == fd then [Abandon] else []
    case _ => []
  }

  function Changed(q: Fd, ch: Change): Fd
  {
    match ch
    case Call(rs, answers) =>
      if q.queue != [] then q.(queue := q.queue + rs)
      else
        var o := Drain(rs, answers, 0);
        Fd(if o.cont then o.rest else [], q.done + o.trace)
    case Event(answers) =>
      var o := Drain(q.queue, answers, 0);
      Fd(o.rest, q.done + o.trace)
    case Abandon => Fd([], q.done + Finals(Stream(q.queue)))
  }

  function ChangedBy(chs: seq<Change>): Fd
  {
    if chs == [] then Fd([], []) else Changed(ChangedBy(chs[..|chs| - 1]), chs[|chs| - 1])
  }

  /** An fd as the machine has it. */
  function FdOf(c: Ctx): Fd
  {
    Fd(c.queue, DidItems(c.effects))
  }

  lemma CtxChanges(c: Ctx, w: nat, answers: seq<Answer>)
    ensures c.phase.Writing? && c.queue != [] ==> FdOf(Append(c)) == Changed(FdOf(c), Call(c.phase.rs, []))
    ensures c.phase.Writing? && c.queue == [] ==> FdOf(Try(c, answers)) == Changed(FdOf(c), Call(c.phase.rs, answers))
    ensures FdOf(TryQueued(c, w, answers)) == Changed(FdOf(c), Event(answers))
    ensures FdOf(Clear(c, w)) == Changed(FdOf(c), Abandon)
  {
    if c.phase.Writing? {
      var o := Drain(c.phase.rs, answers, 0);
      DidOf(o.trace);
      DidOf(Stream(o.rest));
      DidConcat(c.effects, DidAll(o.trace));
      DidConcat(c.effects + DidAll(o.trace), LeftAll(Stream(o.rest)));
    }
    var o := Drain(c.queue, answers, 0);
    DidOf(o.trace);
    DidConcat(c.effects, DidAll(o.trace));
    DidOf(Stream(c.queue));
    DidConcat(c.effects, ClearedAll(Stream(c.queue)));
  }

  /** Whatever the step, the fd changes as ChangeOf says, and in no other way. */
  lemma StepChanges(s: State, a: Action, fd: nat, called: seq<Record>)
    requires Enabled(s, a) && fd < |s.ctx| && (s.ctx[fd].phase.Writing? ==> s.ctx[fd].phase.rs == called)
    ensures |Apply(s, a).ctx| == |s.ctx|
    ensures var chs := ChangeOf(s, a, fd, called);
            FdOf(Apply(s, a).ctx[fd]) == if chs == [] then FdOf(s.ctx[fd]) else Changed(FdOf(s.ctx[fd]), chs[0])
  {
    match a {
      case OnLoop(l) => LoopRegOnly(s, l, fd);
      case OnFlush(f) => CalmFlush(s, f);
      case OnOut(o) => OutChanges(s, o, fd, called);
    }
  }

  lemma OutChanges(s: State, a: OutAction, fd: nat, called: seq<Record>)
    requires OutEnabled(s, a) && fd < |s.ctx| && (s.ctx[fd].phase.Writing? ==> s.ctx[fd].phase.rs == called)
    ensures |OutApply(s, a).ctx| == |s.ctx|
    ensures var chs := ChangeOf(s, OnOut(a), fd, called);
            FdOf(OutApply(s, a).ctx[fd]) == if chs == [] then FdOf(s.ctx[fd]) else Changed(FdOf(s.ctx[fd]), chs[0])
  {
    var c := s.ctx[fd];
    match a {
      case WriteAppend(g) => if g == fd { CtxChanges(c, 0, []); }
      case WriteTry(g, answers) => if g == fd { CtxChanges(c, 0, answers); }
      case DrainTry(i, answers) => if s.ws[i].fd == fd { CtxChanges(c, i, answers); }
      case DrainClear(i) => if s.ws[i].fd == fd { CtxChanges(c, i, []); }
      case _ =>
    }
  }

  /** The changes the first n steps of a run make to the fd. */
  ghost function Changes(tr: seq<State>, acts: seq<Action>, fd: nat, n: nat): seq<Change>
    requires IsRun(tr, acts) && n < |tr| && fd < |tr[0].ctx|
  {
    if n == 0 then []
    else
      OutTheorems.FdsRun(tr, acts, n - 1);
      assert StepAt(tr, acts, n - 1);
      Changes(tr, acts, fd, n - 1) + ChangeOf(tr[n - 1], acts[n - 1], fd, LastCall(acts[..n - 1], fd))
  }

  lemma ChangesAt(tr: seq<State>, acts: seq<Action>, fd: nat, n: nat)
    requires IsRun(tr, acts) && n < |acts| && fd < |tr[0].ctx| == |tr[n].ctx|
    requires FdOf(tr[n].ctx[fd]) == ChangedBy(Changes(tr, acts, fd, n))
    ensures |tr[n + 1].ctx| == |tr[0].ctx|
    ensures FdOf(tr[n + 1].ctx[fd]) == ChangedBy(Changes(tr, acts, fd, n + 1))
  {
    assert StepAt(tr, acts, n);
    EnteredRun(tr, acts, n, fd);
    var change := ChangeOf(tr[n], acts[n], fd, LastCall(acts[..n], fd));
    StepChanges(tr[n], acts[n], fd, LastCall(acts[..n], fd));
    ChangedBySnoc(Changes(tr, acts, fd, n), change);
    assert Changes(tr, acts, fd, n + 1) == Changes(tr, acts, fd, n) + change;
  }

  lemma FdAtFirst(tr: seq<State>, acts: seq<Action>, fd: nat)
    requires IsRun(tr, acts) && fd < |tr[0].ctx|
    ensures FdOf(tr[0].ctx[fd]) == ChangedBy(Changes(tr, acts, fd, 0))
  {
    assert Fresh(tr[0].ctx[fd]);
  }

  lemma {:induction false} RunIsChanges(tr: seq<State>, acts: seq<Action>, fd: nat, n: nat)
    requires IsRun(tr, acts) && n < |tr| && fd < |tr[0].ctx|
    ensures |tr[n].ctx| == |tr[0].ctx| && FdOf(tr[n].ctx[fd]) == ChangedBy(Changes(tr, acts, fd, n))
  {
    if n == 0 {
      FdAtFirst(tr, acts, fd);
    } else {
      RunIsChanges(tr, acts, fd, n - 1);
      ChangesAt(tr, acts, fd, n - 1);
    }
  }

  lemma ChangedBySnoc(chs: seq<Change>, more: seq<Change>)
    requires |more| <= 1
    ensures ChangedBy(chs + more) == if more == [] then ChangedBy(chs) else Changed(ChangedBy(chs), more[0])
  {
    var all := chs + more;
    if more == [] {
      assert all == chs;
    } else {
      assert all[..|all| - 1] == chs;
    }
  }

  /** The items of all calls, in the order in which they had the fd's lock. */
  function CallItems(chs: seq<Change>): seq<Item>
  {
    if chs == [] then []
    else
      var ch := chs[|chs| - 1];
      CallItems(chs[..|chs| - 1]) + if ch.Call? then Stream(ch.rs) else []
  }

  lemma CallItemsSnoc(chs: seq<Change>, more: seq<Change>)
    requires |more| <= 1
    ensures CallItems(chs + more) == CallItems(chs) + if more != [] && more[0].Call? then Stream(more[0].rs) else []
  {
    var all := chs + more;
    if more == [] {
      assert all == chs;
    } else {
      assert all[..|all| - 1] == chs;
    }
  }

  lemma OutAccepts(s: State, a: OutAction, fd: nat, called: seq<Record>)
    requires OutEnabled(s, a) && fd < |s.ctx| && (s.ctx[fd].phase.Writing? ==> s.ctx[fd].phase.rs == called)
    ensures |OutApply(s, a).ctx| == |s.ctx|
    ensures var chs := ChangeOf(s, OnOut(a), fd, called);
            OutApply(s, a).ctx[fd].accepted == s.ctx[fd].accepted + if chs != [] && chs[0].Call? then Stream(chs[0].rs) else []
  {
    var now, was := OutApply(s, a).ctx[fd].accepted, s.ctx[fd].accepted;
    if !a.WriteAppend? && !a.WriteTry? {
      assert now == was;
    } else if a.fd != fd {
      assert now == was;
    }
  }

  lemma StepAccepts(s: State, a: Action, fd: nat, called: seq<Record>)
    requires Enabled(s, a) && fd < |s.ctx| && (s.ctx[fd].phase.Writing? ==> s.ctx[fd].phase.rs == called)
    ensures |Apply(s, a).ctx| == |s.ctx|
    ensures var chs := ChangeOf(s, a, fd, called);
            Apply(s, a).ctx[fd].accepted == s.ctx[fd].accepted + if chs != [] && chs[0].Call? then Stream(chs[0].rs) else []
  {
    match a {
      case OnLoop(l) => LoopRegOnly(s, l, fd);
      case OnFlush(f) => CalmFlush(s, f);
      case OnOut(o) => OutAccepts(s, o, fd, called);
    }
  }

  lemma AcceptsAt(tr: seq<State>, acts: seq<Action>, fd: nat, n: nat)
    requires IsRun(tr, acts) && n < |acts| && fd < |tr[0].ctx| == |tr[n].ctx|
    requires tr[n].ctx[fd].accepted == CallItems(Changes(tr, acts, fd, n))
    ensures |tr[n + 1].ctx| == |tr[0].ctx|
    ensures tr[n + 1].ctx[fd].accepted == CallItems(Changes(tr, acts, fd, n + 1))
  {
    assert StepAt(tr, acts, n);
    EnteredRun(tr, acts, n, fd);
    var change := ChangeOf(tr[n], acts[n], fd, LastCall(acts[..n], fd));
    StepAccepts(tr[n], acts[n], fd, LastCall(acts[..n], fd));
    CallItemsSnoc(Changes(tr, acts, fd, n), change);
    assert Changes(tr, acts, fd, n + 1) == Changes(tr, acts, fd, n) + change;
  }

  lemma AcceptedAtFirst(tr: seq<State>, acts: seq<Action>, fd: nat)
    requires IsRun(tr, acts) && fd < |tr[0].ctx|
    ensures tr[0].ctx[fd].accepted == CallItems(Changes(tr, acts, fd, 0))
  {
    assert Fresh(tr[0].ctx[fd]);
  }

  /** What the machine remembers as accepted is the items of the calls made on the fd that have got to writing. */
  lemma {:induction false} AcceptedIsCalls(tr: seq<State>, acts: seq<Action>, fd: nat, n: nat)
    requires IsRun(tr, acts) && n < |tr| && fd < |tr[0].ctx|
    ensures |tr[n].ctx| == |tr[0].ctx| && tr[n].ctx[fd].accepted == CallItems(Changes(tr, acts, fd, n))
    ensures CallItems(Changes(tr, acts, fd, n)) + Pending(tr[n].ctx[fd]) == Entered(acts[..n], fd)
  {
    EnteredRun(tr, acts, n, fd);
    if n == 0 {
      AcceptedAtFirst(tr, acts, fd);
    } else {
      AcceptedIsCalls(tr, acts, fd, n - 1);
      AcceptsAt(tr, acts, fd, n - 1);
    }
  }

  /**
   * Up to the first failure the bytes delivered, those queued and those a call is
   * about to write are the bytes handed to all calls, in lock order.
   */
  lemma CallsInOrder(tr: seq<State>, acts: seq<Action>, fd: nat, n: nat)
    requires IsRun(tr, acts) && n < |tr| && fd < |tr[0].ctx| == |tr[n].ctx| && OutTheorems.Unfailed(tr[n].ctx[fd])
    ensures Bytes(DidItems(tr[n].ctx[fd].effects)) + Bytes(Stream(tr[n].ctx[fd].queue)) == Bytes(CallItems(Changes(tr, acts, fd, n)))
    ensures Bytes(DidItems(tr[n].ctx[fd].effects)) + Bytes(Stream(tr[n].ctx[fd].queue)) + Bytes(Pending(tr[n].ctx[fd]))
         == Bytes(Entered(acts[..n], fd))
  {
    var c := tr[n].ctx[fd];
    AcceptedIsCalls(tr, acts, fd, n);
    OutTheorems.StreamOrder(tr, acts, n, fd);
    BytesConcat(c.accepted, Pending(c));
    DidOf(c.accepted[..|c.effects|]);
    assert ItemsOf(c.effects) == c.accepted[..|c.effects|];
  }

  // ------------------------------------------------------------ on a packed queue

  predicate CallsFit(chs: seq<Change>)
  {
    forall k :: 0 <= k < |chs| && chs[k].Call? ==> WellFormed(chs[k].rs)
  }

  /** One change, made by the code: a call through a caller's xfer and commit, or a part of write_event. */
  method Make(q: Xfer.Queue, ch: Change, ghost was: Fd) returns (did: seq<Item>)
    requires q.Valid() && q.recs == was.queue && (ch.Call? ==> WellFormed(ch.rs))
    modifies q, q.mem
    ensures q.Valid() && (q.mem == old(q.mem) || fresh(q.mem))
    ensures Fd(q.recs, was.done + did) == Changed(was, ch)
  {
    match ch {
      case Call(rs, answers) =>
        var xf := new Xfer.Queue();
        Xfer.PushAll(xf, rs);
        ghost var c := Ctx(q.recs, Writing(rs), Unregistered, [], DidAll(was.done), []);
        DidOf(was.done);
        CtxChanges(c, 0, answers);
        var watch;
        did, watch := Commit(q, xf, answers, c);
        RealizesDid(q.recs, did, watch, c, answers);
      case Event(answers) =>
        var cont, shut;
        cont, did, shut := q.TryWrite(answers);
      case Abandon =>
        did := q.Clear();
    }
  }

  /** Any sequence of changes made by the code leaves the records and has done the items that it should. */
  method MakeAll(chs: seq<Change>) returns (q: Xfer.Queue, done: seq<Item>)
    requires CallsFit(chs)
    ensures fresh(q) && fresh(q.mem) && q.Valid()
    ensures Fd(q.recs, done) == ChangedBy(chs)
  {
    q := new Xfer.Queue();
    done := [];
    var k := 0;
    while k < |chs|
      invariant k <= |chs| && fresh(q) && fresh(q.mem) && q.Valid()
      invariant Fd(q.recs, done) == ChangedBy(chs[..k])
    {
      var did := Make(q, chs[k], Fd(q.recs, done));
      assert chs[..k + 1][..k] == chs[..k];
      done := done + did;
      k := k + 1;
    }
    assert chs[..k] == chs;
  }

  /**
   * The two layers joined over whole runs: the in-place code, put through the
   * changes a run makes to an fd, ends with the packing of the fd's queue in its
   * block, having delivered and run exactly what the run did on the fd, in order.
   */
  method PackedRun(ghost tr: seq<State>, ghost acts: seq<Action>, ghost fd: nat, chs: seq<Change>)
    returns (q: Xfer.Queue, done: seq<Item>)
    requires IsRun(tr, acts) && fd < |tr[0].ctx| && chs == Changes(tr, acts, fd, |acts|) && CallsFit(chs)
    ensures q.Valid() && fd < |tr[|acts|].ctx| && q.tail <= q.mem.Length
    ensures q.mem[..q.tail] == EncodeAll(tr[|acts|].ctx[fd].queue)
    ensures done == DidItems(tr[|acts|].ctx[fd].effects)
  {
    RunIsChanges(tr, acts, fd, |acts|);
    q, done := MakeAll(chs);
    assert q.mem[..][..q.tail] == q.mem[..q.tail];
  }
}
