/**
 * The bodies of out::write, out::commit_raw, out::commit and out::write_event
 * on packed queues. Each call does to the records, and to what has been done,
 * exactly what the corresponding steps of the machine do to the fd; PackedRuns
 * strings the calls of a whole run together.
 */
module OutCalls {
  import opened Sequences
  import opened XferSpec
  import opened XferPacked
  import opened WavySystem
  import XferExecute
  import Xfer

  /** The items that were done: bytes delivered and finalizers run, in order. */
  function DidItems(es: seq<Effect>): seq<Item>
  {
    if es == [] then [] else (if es[0].Did? then [es[0].item] else []) + DidItems(es[1..])
  }

  lemma {:induction false} DidConcat(a: seq<Effect>, b: seq<Effect>)
    ensures DidItems(a + b) == DidItems(a) + DidItems(b)
  {
    if a == [] {
      assert a + b == b;
    } else {
      DidConcat(a[1..], b);
      ConcatTail(a, b);
      ConcatAssoc(if a[0].Did? then [a[0].item] else [], DidItems(a[1..]), DidItems(b));
    }
  }

  /** Of delivered items all were done, of refused ones none, and of cleared ones the finalizers. */
  lemma {:induction false} DidOf(items: seq<Item>)
    ensures DidItems(DidAll(items)) == items
    ensures DidItems(LeftAll(items)) == []
    ensures DidItems(ClearedAll(items)) == Finals(items)
  {
    if items != [] {
      DidOf(items[1..]);
      assert DidAll(items)[1..] == DidAll(items[1..]);
      assert LeftAll(items)[1..] == LeftAll(items[1..]);
      assert ClearedAll(items)[1..] == ClearedAll(items[1..]);
    }
  }

  /** What the machine makes of a call that has the lock. */
  function Called(c: Ctx, answers: seq<Answer>): Ctx
    requires c.phase.Writing?
  {
    if c.queue != [] then Append(c) else Try(c, answers)
  }

  /** What a call refuses for good: what is left when it writes directly and stops without wanting to go on. */
  function Refused(c: Ctx, answers: seq<Answer>): seq<Item>
    requires c.phase.Writing?
  {
    var o := Drain(c.phase.rs, answers, 0);
    if c.queue == [] && !o.cont then Stream(o.rest) else []
  }

  /** The packed queue, the items done and the decision to watch the fd are exactly those of the machine. */
  ghost predicate Realizes(recs: seq<Record>, trace: seq<Item>, watch: bool, c: Ctx, answers: seq<Answer>)
    requires c.phase.Writing?
  {
    var d := Called(c, answers);
    && recs == d.queue
    && watch == d.phase.Pushed?
    && d.effects == c.effects + DidAll(trace) + LeftAll(Refused(c, answers))
  }

  /** What the packed queue reports as done is what the machine records as done. */
  lemma RealizesDid(recs: seq<Record>, trace: seq<Item>, watch: bool, c: Ctx, answers: seq<Answer>)
    requires c.phase.Writing? && Realizes(recs, trace, watch, c, answers)
    ensures DidItems(Called(c, answers).effects) == DidItems(c.effects) + trace
  {
    DidOf(trace);
    DidOf(Refused(c, answers));
    DidConcat(c.effects, DidAll(trace));
    DidConcat(c.effects + DidAll(trace), LeftAll(Refused(c, answers)));
  }

  lemma RealizesAppend(c: Ctx, answers: seq<Answer>)
    requires c.phase.Writing? && c.queue != []
    ensures Realizes(c.queue + c.phase.rs, [], false, c, answers)
  {
    assert c.effects + DidAll([]) + LeftAll([]) == c.effects;
  }

  lemma RealizesTry(c: Ctx, answers: seq<Answer>)
    requires c.phase.Writing? && c.queue == []
    ensures var o := Drain(c.phase.rs, answers, 0);
            Realizes(if o.cont then o.rest else [], o.trace, o.cont, c, answers)
  {
    var o := Drain(c.phase.rs, answers, 0);
    if o.cont {
      assert c.effects + DidAll(o.trace) + LeftAll([]) == c.effects + DidAll(o.trace);
    }
  }

  /** What each answer to a plain write means, and that a one-entry vector record means the same. */
  lemma WriteIsVec(buf: nat, size: nat, answer: Answer)
    ensures var r := Vec([Iovec(buf, size)]);
            match answer
            case Retry => Drain([r], [answer], 0) == Outcome([r], [], true)
            case Fail => Drain([r], [answer], 0) == Outcome([r], [], false)
            case Ret(n) =>
              if n == 0 || size == 0 then Drain([r], [answer], 0) == Outcome([r], [], false)
              else if n < size then Drain([r], [answer], 0) == Outcome([Vec([Iovec(buf + n, size - n)])], MemBytes(buf, n), true)
              else Drain([r], [answer], 0) == Outcome([], MemBytes(buf, size), false)
  {
    var iov := [Iovec(buf, size)];
    assert iov[1..] == [] && VecBytes(iov) == MemBytes(buf, size) + [] == MemBytes(buf, size);
    assert [Vec(iov)][1..] == [];
    assert AnswerAt([answer], 0) == answer;
    var e := Effective(answer, size);
    if e.Ret? {
      assert MemBytes(buf, size)[..e.n] == MemBytes(buf, e.n);
      assert Drain([], [answer], 1) == Outcome([], [], false);
      if e.n < size {
        assert Advance(iov, e.n) == [Iovec(buf + e.n, size - e.n)];
      } else {
        assert Advance(iov, e.n) == [];
        assert Attempted(Vec(iov), answer) == Whole(1);
        assert StreamOf(Vec(iov)) + [] == MemBytes(buf, size);
      }
    }
  }

  /** out::write */
  method Write(ctx: Xfer.Queue, buf: nat, size: nat, answer: Answer, ghost c: Ctx) returns (trace: seq<Item>, watch: bool)
    requires ctx.Valid() && c.queue == ctx.recs && c.phase == Writing([Vec([Iovec(buf, size)])])
    modifies ctx, ctx.mem
    ensures ctx.Valid() && Realizes(ctx.recs, trace, watch, c, [answer])
  {
    trace, watch := [], false;
    var empty := ctx.Empty();
    if !empty {
      RealizesAppend(c, [answer]);
      ctx.Push(Vec([Iovec(buf, size)]));
      return;
    }
    WriteIsVec(buf, size, answer);
    RealizesTry(c, [answer]);
    var b, sz := buf, size;
    var e := Effective(answer, size);
    if e.Ret? {
      trace := MemBytes(buf, e.n);
      if e.n >= size {
        return;
      }
      b, sz := b + e.n, sz - e.n;
    } else if e.Fail? {
      return;
    }
    ctx.Push(Vec([Iovec(b, sz)]));
    watch := true;
  }

  /** out::commit_raw */
  method CommitRaw(ctx: Xfer.Queue, buf: array<Cell>, size: nat, answers: seq<Answer>, ghost c: Ctx)
    returns (trace: seq<Item>, watch: bool)
    requires ctx.Valid() && buf != ctx.mem && c.queue == ctx.recs && c.phase.Writing?
    requires size <= buf.Length && WellFormed(c.phase.rs) && buf[..][..size] == EncodeAll(c.phase.rs)
    modifies ctx, ctx.mem, buf
    ensures ctx.Valid() && Realizes(ctx.recs, trace, watch, c, answers)
  {
    var empty := ctx.Empty();
    if !empty {
      RealizesAppend(c, answers);
      ctx.PushRaw(buf, size, c.phase.rs);
      return [], false;
    }
    RealizesTry(c, answers);
    ghost var o := Drain(c.phase.rs, answers, 0);
    assert buf[..][0..size] == buf[..][..size];
    var tail;
    tail, watch, trace := XferExecute.Execute(buf, 0, size, answers, c.phase.rs);
    if watch {
      Xfer.DrainWellFormed(c.phase.rs, answers, 0);
      assert buf[..][..tail] == EncodeAll(o.rest);
      ctx.PushRaw(buf, tail, o.rest);
    }
  }

  /** out::commit; what the kernel refused for good stays in the caller's xfer. */
  method Commit(ctx: Xfer.Queue, xf: Xfer.Queue, answers: seq<Answer>, ghost c: Ctx)
    returns (trace: seq<Item>, watch: bool)
    requires ctx.Valid() && xf.Valid() && ctx != xf && ctx.mem != xf.mem
    requires c.queue == ctx.recs && c.phase == Writing(xf.recs)
    modifies ctx, ctx.mem, xf, xf.mem
    ensures ctx.Valid() && xf.Valid() && Realizes(ctx.recs, trace, watch, c, answers)
    ensures ctx.mem == old(ctx.mem) || ctx.mem == old(xf.mem) || fresh(ctx.mem)
    ensures xf.recs == if c.queue != [] || watch then [] else Drain(c.phase.rs, answers, 0).rest
  {
    var empty := ctx.Empty();
    if !empty {
      RealizesAppend(c, answers);
      xf.Migrate(ctx);
      return [], false;
    }
    RealizesTry(c, answers);
    var shut;
    watch, trace, shut := xf.TryWrite(answers);
    if watch {
      xf.Migrate(ctx);
    }
  }

  /** out::write_event: drains the queue, and clears it unless the kernel would block. */
  method WriteEvent(ctx: Xfer.Queue, answers: seq<Answer>, w: nat, ghost c: Ctx)
    returns (cont: bool, trace: seq<Item>, ran: seq<Item>)
    requires ctx.Valid() && c.queue == ctx.recs
    modifies ctx, ctx.mem
    ensures ctx.Valid() && ctx.mem == old(ctx.mem)
    ensures var d := TryQueued(c, w, answers);
            var e := if cont then d else Clear(d, w);
            && cont == d.phase.Kept? && d.effects == c.effects + DidAll(trace)
            && ctx.recs == e.queue
            && DidItems(e.effects) == DidItems(c.effects) + trace + ran
  {
    var shut;
    cont, trace, shut := ctx.TryWrite(answers);
    ran := [];
    ghost var d := TryQueued(c, w, answers);
    DidOf(trace);
    DidConcat(c.effects, DidAll(trace));
    if !cont {
      DidOf(Stream(d.queue));
      DidConcat(d.effects, ClearedAll(Stream(d.queue)));
      ran := ctx.Clear();
    }
  }
}
