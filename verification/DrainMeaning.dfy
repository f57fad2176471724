/**
 * What a drain does, told from the kernel's answers alone: a second, direct
 * account of partial writes, against which the record-by-record one is proved.
 */
module DrainMeaning {
  import opened Sequences
  import opened XferSpec

  // ------------------------------------------------------------ what records stand for

  /** A plain memory range, a file range and a finalizer, item by item. */
  lemma RecordMeaning(b: nat, n: nat, infd: int, off: nat, fn: nat, user: nat)
    ensures |StreamOf(Vec([Iovec(b, n)]))| == n && forall k :: 0 <= k < n ==> StreamOf(Vec([Iovec(b, n)]))[k] == MemByte(b + k)
    ensures |StreamOf(SendFile(infd, off, n))| == n && forall k :: 0 <= k < n ==> StreamOf(SendFile(infd, off, n))[k] == FileByte(infd, off + k)
    ensures fn != 0 ==> StreamOf(Finalize(fn, user)) == [Final(fn, user)]
    ensures fn == 0 ==> StreamOf(Finalize(fn, user)) == []
  {
    assert [Iovec(b, n)][1..] == [];
    assert VecBytes([Iovec(b, n)]) == MemBytes(b, n) + [] == MemBytes(b, n);
  }

  /** The entries of a vector count in order. */
  lemma VecMeaning(x: Iovec, iov: seq<Iovec>)
    ensures StreamOf(Vec([x] + iov)) == StreamOf(Vec([x])) + StreamOf(Vec(iov))
  {
    assert ([x] + iov)[1..] == iov && [x][1..] == [];
    assert VecBytes([x]) == MemBytes(x.base, x.len) + [];
  }

  /** Bytes and finalizers are a partition of a stream: each item is counted in the one it belongs to. */
  lemma {:induction false} SplitItems(s: seq<Item>, x: Item)
    ensures multiset(Bytes(s))[x] == if IsByte(x) then multiset(s)[x] else 0
    ensures multiset(Finals(s))[x] == if IsByte(x) then 0 else multiset(s)[x]
  {
    if s != [] {
      SplitItems(s[1..], x);
      HeadCount(s, x);
      var h, t := [s[0]], s[1..];
      if IsByte(s[0]) {
        assert Bytes(s) == h + Bytes(t) && Finals(s) == [] + Finals(t) == Finals(t);
      } else {
        assert Finals(s) == h + Finals(t) && Bytes(s) == [] + Bytes(t) == Bytes(t);
      }
    }
  }

  // ------------------------------------------------------------ the account by answers

  /** Whether a record needs a system call. */
  predicate Calls(r: Record) { !r.Finalize? }

  /** The bytes a record offers to the kernel. */
  function Offered(r: Record): nat
  {
    |StreamOf(r)|
  }

  /** The answer to the next call; a kernel with nothing more to say blocks. */
  function Next(answers: seq<Answer>): Answer
  {
    if answers == [] then Retry else answers[0]
  }

  function Later(answers: seq<Answer>): seq<Answer>
  {
    if answers == [] then [] else answers[1..]
  }

  /** How many items get done: whole records while the kernel takes all that is offered, then what it takes of one. */
  function Done(rs: seq<Record>, answers: seq<Answer>): (k: nat)
    ensures k <= |Stream(rs)|
    decreases |rs|
  {
    if rs == [] then 0
    else if !Calls(rs[0]) then Offered(rs[0]) + Done(rs[1..], answers)
    else match Next(answers)
      case Retry => 0
      case Fail => 0
      case Ret(k) =>
        if k < Offered(rs[0]) then k
        else if Offered(rs[0]) == 0 then 0
        else Offered(rs[0]) + Done(rs[1..], Later(answers))
  }

  /** Whether the drain stopped because the kernel would block: EAGAIN or EINTR, or fewer bytes taken than offered. */
  predicate Blocked(rs: seq<Record>, answers: seq<Answer>)
    decreases |rs|
  {
    if rs == [] then false
    else if !Calls(rs[0]) then Blocked(rs[1..], answers)
    else match Next(answers)
      case Retry => true
      case Fail => false
      case Ret(k) =>
        if k == 0 || Offered(rs[0]) == 0 then false
        else if k < Offered(rs[0]) then true
        else Blocked(rs[1..], Later(answers))
  }

  function From(answers: seq<Answer>, i: nat): seq<Answer>
  {
    if i <= |answers| then answers[i..] else []
  }

  lemma FromNext(answers: seq<Answer>, i: nat)
    ensures Next(From(answers, i)) == AnswerAt(answers, i)
    ensures Later(From(answers, i)) == From(answers, i + 1)
  {
  }

  /** What one answer does to a record of n bytes that is sent by a system call. */
  lemma AnswerLaw(r: Record, rest: seq<Record>, answers: seq<Answer>, i: nat)
    requires Calls(r)
    ensures var o, n := Drain([r] + rest, answers, i), Offered(r);
            match AnswerAt(answers, i)
            case Retry => o == Outcome([r] + rest, [], true)
            case Fail => o == Outcome([r] + rest, [], false)
            case Ret(k) =>
              if k == 0 || n == 0 then o == Outcome([r] + rest, [], false)
              else if k < n then
                && o.cont && o.trace == StreamOf(r)[..k]
                && |o.rest| == |rest| + 1 && o.rest[1..] == rest && StreamOf(o.rest[0]) == StreamOf(r)[k..] && Calls(o.rest[0])
              else
                var later := Drain(rest, answers, i + 1);
                o == Outcome(later.rest, StreamOf(r) + later.trace, later.cont)
  {
    var rs := [r] + rest;
    assert rs[0] == r && rs[1..] == rest;
    var a, n := AnswerAt(answers, i), Offered(r);
    if a.Ret? && a.n > 0 && n > 0 {
      var wl := if a.n <= n then a.n else n;
      TakenWhole(r, wl, a);
    }
  }

  /** An accepting answer, as the attempt has it. */
  lemma TakenWhole(r: Record, wl: nat, a: Answer)
    requires Calls(r) && a.Ret? && 0 < wl == (if a.n <= Offered(r) then a.n else Offered(r))
    ensures wl == Offered(r) ==> Attempted(r, a) == Whole(1)
    ensures wl < Offered(r) ==> Attempted(r, a).Cut? && Attempted(r, a).sent == StreamOf(r)[..wl]
    ensures wl < Offered(r) ==> StreamOf(Attempted(r, a).left) == StreamOf(r)[wl..] && Calls(Attempted(r, a).left)
  {
    match r {
      case Vec(iov) =>
        AdvanceDropsSent(iov, wl);
        if wl == Offered(r) {
          AllAdvanced(iov);
        }
      case SendFile(infd, off, len) =>
        assert StreamOf(r)[..wl] == FileBytes(infd, off, wl);
        if wl < len {
          assert StreamOf(r)[wl..] == FileBytes(infd, off + wl, len - wl);
        }
    }
  }

  lemma {:induction false} AllAdvanced(iov: seq<Iovec>)
    ensures Advance(iov, |VecBytes(iov)|) == []
  {
    if iov != [] {
      AllAdvanced(iov[1..]);
    }
  }

  lemma FinalizerLaw(r: Record, rest: seq<Record>, answers: seq<Answer>, i: nat)
    requires !Calls(r)
    ensures var o, later := Drain([r] + rest, answers, i), Drain(rest, answers, i);
            o == Outcome(later.rest, StreamOf(r) + later.trace, later.cont)
  {
    var rs := [r] + rest;
    assert rs[0] == r && rs[1..] == rest;
  }

  /**
   * The two accounts agree: for every queue and every sequence of answers the
   * drain does exactly the first Done items, leaves exactly the others, and wants
   * to continue iff the kernel would block.
   */
  lemma {:induction false} DrainIs(rs: seq<Record>, answers: seq<Answer>, i: nat)
    ensures var o, k := Drain(rs, answers, i), Done(rs, From(answers, i));
            && k <= |Stream(rs)| && o.trace == Stream(rs)[..k] && Stream(o.rest) == Stream(rs)[k..]
            && o.cont == Blocked(rs, From(answers, i))
    decreases |rs|
  {
    DrainConserves(rs, answers, i);
    DoneLength(rs, answers, i);
    var o, k := Drain(rs, answers, i), Done(rs, From(answers, i));
    assert Stream(rs) == o.trace + Stream(o.rest);
  }

  lemma {:induction false} DoneLength(rs: seq<Record>, answers: seq<Answer>, i: nat)
    ensures |Drain(rs, answers, i).trace| == Done(rs, From(answers, i))
    ensures Drain(rs, answers, i).cont == Blocked(rs, From(answers, i))
    decreases |rs|
  {
    if rs != [] {
      assert rs == [rs[0]] + rs[1..];
      FromNext(answers, i);
      if Calls(rs[0]) {
        AnswerLaw(rs[0], rs[1..], answers, i);
        DoneLength(rs[1..], answers, i + 1);
      } else {
        FinalizerLaw(rs[0], rs[1..], answers, i);
        DoneLength(rs[1..], answers, i);
      }
    }
  }

  // ------------------------------------------------------------ kernels that do not fail

  /** The kernel reports no error and never accepts nothing. */
  predicate Benign(answers: seq<Answer>)
  {
    forall a :: a in answers ==> a != Fail && a != Ret(0)
  }

  /** No record that is sent by a system call is empty. */
  predicate Positive(rs: seq<Record>)
  {
    forall r :: r in rs && Calls(r) ==> Offered(r) > 0
  }

  lemma PositiveTail(rs: seq<Record>)
    requires Positive(rs) && rs != []
    ensures Positive(rs[1..])
  {
  }

  lemma PositiveConcat(a: seq<Record>, b: seq<Record>)
    requires Positive(a) && Positive(b)
    ensures Positive(a + b)
  {
  }

  /** Without failures and empty records a drain stops only because the kernel would block, and leaves no empty record. */
  lemma {:induction false} BenignDrain(rs: seq<Record>, answers: seq<Answer>, i: nat)
    requires Positive(rs) && Benign(answers)
    ensures !Drain(rs, answers, i).cont ==> Drain(rs, answers, i).rest == []
    ensures Positive(Drain(rs, answers, i).rest)
    decreases |rs|
  {
    if rs != [] {
      assert rs == [rs[0]] + rs[1..] && rs[0] in rs;
      PositiveTail(rs);
      if Calls(rs[0]) {
        AnswerLaw(rs[0], rs[1..], answers, i);
        BenignDrain(rs[1..], answers, i + 1);
        var o, a := Drain(rs, answers, i), AnswerAt(answers, i);
        if i < |answers| {
          assert answers[i] in answers;
        }
        if a.Ret? && a.n < Offered(rs[0]) {
          assert o.rest == [o.rest[0]] + rs[1..];
        }
      } else {
        FinalizerLaw(rs[0], rs[1..], answers, i);
        BenignDrain(rs[1..], answers, i);
      }
    }
  }

  /** Answers that accept everything: one for each record that needs a call. */
  function TakeAll(rs: seq<Record>): seq<Answer>
  {
    if rs == [] then [] else (if Calls(rs[0]) then [Ret(Offered(rs[0]))] else []) + TakeAll(rs[1..])
  }

  /** A kernel that accepts everything gets everything delivered. */
  lemma {:induction false} TakeAllDrains(rs: seq<Record>, before: seq<Answer>)
    requires Positive(rs)
    ensures Drain(rs, before + TakeAll(rs), |before|) == Outcome([], Stream(rs), false)
    decreases |rs|
  {
    if rs != [] {
      assert rs == [rs[0]] + rs[1..] && rs[0] in rs;
      PositiveTail(rs);
      var answers := before + TakeAll(rs);
      if Calls(rs[0]) {
        var b := before + [Ret(Offered(rs[0]))];
        assert answers == b + TakeAll(rs[1..]);
        AnswerLaw(rs[0], rs[1..], answers, |before|);
        TakeAllDrains(rs[1..], b);
      } else {
        assert answers == before + TakeAll(rs[1..]);
        FinalizerLaw(rs[0], rs[1..], answers, |before|);
        TakeAllDrains(rs[1..], before);
      }
    }
  }

  lemma {:induction false} TakeAllBenign(rs: seq<Record>)
    requires Positive(rs)
    ensures Benign(TakeAll(rs))
  {
    if rs != [] {
      assert rs[0] in rs;
      PositiveTail(rs);
      TakeAllBenign(rs[1..]);
    }
  }
}
