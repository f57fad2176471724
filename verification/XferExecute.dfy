/**
 * xfer_impl::execute: drains the packed records of a buffer range in place.
 */
module XferExecute {
  import opened Sequences
  import opened XferSpec
  import opened XferPacked

  /** t is s with [head, endp) rewritten so that it starts with the given cells. */
  predicate Compacted(s: seq<Cell>, t: seq<Cell>, head: nat, endp: nat, cells: seq<Cell>)
  {
    && head + |cells| <= endp <= |s| == |t|
    && (forall k :: head <= k < head + |cells| ==> t[k] == cells[k - head])
    && (forall k :: 0 <= k < |s| && !(head <= k < endp) ==> t[k] == s[k])
  }

  /** The compaction macro: slides the unsent cells down to the head. */
  method Consumed(a: array<Cell>, head: nat, p: nat, endp: nat) returns (tail: nat)
    requires head <= p <= endp <= a.Length
    modifies a
    ensures tail == head + (endp - p)
    ensures Compacted(old(a[..]), a[..], head, endp, old(a[..])[p..endp])
  {
    MemMove(a, head, p, endp - p);
    tail := head + (endp - p);
  }

  /** Dropping i entries of a packed vector starts at the i-th entry. */
  lemma EntryAt(iov: seq<Iovec>, i: nat)
    requires i < |iov|
    ensures IovCells(iov)[IovSize(i)] == Frag(IovVal(iov[i]), 0)
  {
    IovCellsDrop(iov, i);
    assert IovCells(iov)[IovSize(i)..][0] == IovCells(iov[i..])[0];
  }

  /** The entries named by a packed vector, as the kernel reads them. */
  method LoadVec(a: array<Cell>, at: nat, veclen: nat, ghost want: seq<Iovec>) returns (iov: seq<Iovec>)
    requires at + IovSize(veclen) <= a.Length && |want| == veclen
    requires a[..][at..at + IovSize(veclen)] == IovCells(want)
    ensures iov == want
  {
    iov := [];
    var i := 0;
    while i < veclen
      invariant i <= veclen && iov == want[..i]
    {
      EntryAt(want, i);
      assert a[at + IovSize(i)] == a[..][at..at + IovSize(veclen)][IovSize(i)];
      iov := iov + [a[at + IovSize(i)].val.v];
      i := i + 1;
    }
  }

  /** Rewriting one entry of a vector stores over that entry's cells only. */
  lemma {:induction false} IovCellsUpdate(iov: seq<Iovec>, i: nat, x: Iovec)
    requires i < |iov|
    ensures Stored(IovCells(iov), IovCells(iov[i := x]), IovSize(i), Frags(IovVal(x), IovSize(1)))
  {
    var h := Frags(IovVal(iov[0]), IovSize(1));
    assert IovCells(iov) == h + IovCells(iov[1..]);
    if i == 0 {
      assert iov[0 := x][1..] == iov[1..];
    } else {
      IovCellsUpdate(iov[1..], i - 1, x);
      assert iov[i := x][1..] == iov[1..][i - 1 := x];
      var was, now := IovCells(iov[1..]), IovCells(iov[1..][i - 1 := x]);
      assert IovCells(iov[i := x]) == h + now;
      forall k | IovSize(1) <= k < |h + now|
        ensures (h + now)[k] == now[k - IovSize(1)] && (h + was)[k] == was[k - IovSize(1)]
      {
      }
    }
  }

  /** Storing inside the middle one of three parts. */
  lemma StoredInside(s: seq<Cell>, t: seq<Cell>, p: nat, endp: nat, hdr: seq<Cell>, mid: seq<Cell>, mid': seq<Cell>,
                     rest: seq<Cell>, at: nat, x: seq<Cell>)
    requires p <= endp <= |s| && s[p..endp] == hdr + mid + rest
    requires Stored(mid, mid', at, x) && Stored(s, t, p + |hdr| + at, x)
    ensures t[p..endp] == hdr + mid' + rest
  {
    var whole, want := hdr + mid + rest, hdr + mid' + rest;
    assert |whole| == |want| == endp - p;
    forall k | 0 <= k < |want| ensures t[p + k] == want[k] {
      assert s[p + k] == s[p..endp][k] == whole[k];
    }
  }

  /** Storing over the i-th entry of the vector packed at p packs the changed vector there. */
  lemma EntryStored(s: seq<Cell>, t: seq<Cell>, p: nat, endp: nat, i: nat, x: Iovec, iov: seq<Iovec>, rest: seq<Cell>)
    requires p <= endp <= |s| && i < |iov|
    requires s[p..endp] == Encode(Vec(iov)) + rest
    requires Stored(s, t, p + TYPE_SIZE + IovSize(i), Frags(IovVal(x), IovSize(1)))
    ensures t[p..endp] == Encode(Vec(iov[i := x])) + rest
  {
    IovCellsUpdate(iov, i, x);
    var hdr := Frags(TypeVal(TypeWord(|iov|)), TYPE_SIZE);
    StoredInside(s, t, p, endp, hdr, IovCells(iov), IovCells(iov[i := x]), rest, IovSize(i), Frags(IovVal(x), IovSize(1)));
  }

  /** Where the entries from i on, and the records behind the vector, are packed. */
  lemma VecParts(s: seq<Cell>, p: nat, endp: nat, i: nat, iov: seq<Iovec>, rest: seq<Cell>)
    requires p <= endp <= |s| && i <= |iov| && s[p..endp] == Encode(Vec(iov)) + rest
    ensures var vec, next := p + TYPE_SIZE + IovSize(i), p + TYPE_SIZE + IovSize(|iov|);
            vec <= next <= endp && s[vec..next] == IovCells(iov[i..]) && s[next..endp] == rest
  {
    IovCellsDrop(iov, i);
    PartsAt(s, p, endp, Frags(TypeVal(TypeWord(|iov|)), TYPE_SIZE), IovCells(iov), rest, IovSize(i),
            p + TYPE_SIZE + IovSize(i), p + TYPE_SIZE + IovSize(|iov|), IovCells(iov[i..]));
  }

  /** A fresh header and two block moves behind it: what ends up where. */
  lemma HeaderAndMoves(s0: seq<Cell>, s1: seq<Cell>, s2: seq<Cell>, s3: seq<Cell>, hdr: seq<Cell>,
                       head: nat, m: nat, f: nat, vec: nat, kept: nat, left: nat)
    requires m == head + |hdr| <= vec && f == m + kept && vec + kept + left <= |s0|
    requires Stored(s0, s1, head, hdr)
    requires Stored(s1, s2, m, s1[vec..vec + kept])
    requires Stored(s2, s3, f, s2[vec + kept..vec + kept + left])
    ensures Compacted(s0, s3, head, vec + kept + left, hdr + s0[vec..vec + kept] + s0[vec + kept..vec + kept + left])
  {
    var next, endp := vec + kept, vec + kept + left;
    var cells := hdr + s0[vec..next] + s0[next..endp];
    forall k | head <= k < head + |cells|
      ensures s3[k] == cells[k - head]
    {
      if k < m {
        assert s3[k] == s2[k] == s1[k] == hdr[k - head];
      } else if k < f {
        assert s3[k] == s2[k] == s1[vec..next][k - m] == s1[vec + (k - m)] == s0[vec + (k - m)];
      } else {
        assert s3[k] == s2[next..endp][k - f] == s2[next + (k - f)] == s1[next + (k - f)] == s0[next + (k - f)];
      }
    }
  }

  /**
   * A partly sent vector loses its first i entries: a new header at the head,
   * the remaining entries behind it, the later records behind those.
   */
  method DropEntries(a: array<Cell>, head: nat, p: nat, endp: nat, veclen: nat, i: nat,
                     ghost iov: seq<Iovec>, ghost rest: seq<Cell>) returns (tail: nat)
    requires head <= p <= endp <= a.Length && 0 < i < veclen == |iov|
    requires a[..][p..endp] == Encode(Vec(iov)) + rest
    modifies a
    ensures tail == head + |Encode(Vec(iov[i..])) + rest|
    ensures Compacted(old(a[..]), a[..], head, endp, Encode(Vec(iov[i..])) + rest)
  {
    ghost var s0 := a[..];
    var vec := p + TYPE_SIZE + IovSize(i);
    var kept := IovSize(veclen - i);
    assert vec + kept == p + TYPE_SIZE + IovSize(veclen);
    VecParts(s0, p, endp, i, iov, rest);
    var left := endp - (vec + kept);
    PartsFrom(s0, p, endp, i, veclen, vec, kept, left, iov, rest);
    tail := MoveParts(a, head, TypeVal(TypeWord(veclen - i)), vec, kept, left);
    SameCompacted(s0, a[..], head, vec + kept + left, endp,
                  Frags(TypeVal(TypeWord(veclen - i)), TYPE_SIZE) + s0[vec..vec + kept] + s0[vec + kept..vec + kept + left],
                  Encode(Vec(iov[i..])) + rest);
  }

  lemma SameCompacted(s: seq<Cell>, t: seq<Cell>, head: nat, endp: nat, endp': nat, cells: seq<Cell>, cells': seq<Cell>)
    requires Compacted(s, t, head, endp, cells) && endp == endp' && cells == cells'
    ensures Compacted(s, t, head, endp', cells') && |cells| == |cells'|
  {
  }

  /** The shortened record and what follows it, in terms of where its parts lie before the moves. */
  lemma PartsFrom(s: seq<Cell>, p: nat, endp: nat, i: nat, veclen: nat, vec: nat, kept: nat, left: nat,
                  iov: seq<Iovec>, rest: seq<Cell>)
    requires p <= endp <= |s| && i <= veclen == |iov| && s[p..endp] == Encode(Vec(iov)) + rest
    requires vec == p + TYPE_SIZE + IovSize(i) && kept == IovSize(veclen - i) && endp == vec + kept + left
    ensures Frags(TypeVal(TypeWord(veclen - i)), TYPE_SIZE) + s[vec..vec + kept] + s[vec + kept..vec + kept + left]
         == Encode(Vec(iov[i..])) + rest
  {
    VecParts(s, p, endp, i, iov, rest);
    assert vec + kept == p + TYPE_SIZE + IovSize(|iov|);
    EncodeRest(iov, i);
    SameParts(Frags(TypeVal(TypeWord(veclen - i)), TYPE_SIZE), s[vec..vec + kept], s[vec + kept..vec + kept + left],
              IovCells(iov[i..]), rest);
  }

  /** The packing of the entries from i on. */
  lemma EncodeRest(iov: seq<Iovec>, i: nat)
    requires i <= |iov|
    ensures Encode(Vec(iov[i..])) == Frags(TypeVal(TypeWord(|iov| - i)), TYPE_SIZE) + IovCells(iov[i..])
  {
    assert |iov[i..]| == |iov| - i;
  }

  lemma SameParts(hdr: seq<Cell>, x: seq<Cell>, y: seq<Cell>, x': seq<Cell>, y': seq<Cell>)
    requires x == x' && y == y'
    ensures hdr + x + y == hdr + x' + y'
  {
  }

  /** fill_iovec at the head, then the records behind the vector moved up to it. */
  method MoveParts(a: array<Cell>, head: nat, hdr: Val, vec: nat, kept: nat, left: nat) returns (tail: nat)
    requires head + TYPE_SIZE <= vec && vec + kept + left <= a.Length
    modifies a
    ensures tail == head + TYPE_SIZE + kept + left
    ensures Compacted(old(a[..]), a[..], head, vec + kept + left,
                      Frags(hdr, TYPE_SIZE) + old(a[..])[vec..vec + kept] + old(a[..])[vec + kept..vec + kept + left])
  {
    ghost var s0 := a[..];
    Store(a, head, hdr, TYPE_SIZE);
    ghost var s1 := a[..];
    MemMove(a, head + TYPE_SIZE, vec, kept);
    ghost var s2 := a[..];
    var filltail := head + TYPE_SIZE + kept;
    MemMove(a, filltail, vec + kept, left);
    tail := filltail + left;
    HeaderAndMoves(s0, s1, s2, a[..], Frags(hdr, TYPE_SIZE), head, head + TYPE_SIZE, filltail, vec, kept, left);
  }

  lemma EntryCell(s: seq<Cell>, p: nat, endp: nat, i: nat, iov: seq<Iovec>, rest: seq<Cell>)
    requires p <= endp <= |s| && i < |iov| && s[p..endp] == Encode(Vec(iov)) + rest
    ensures p + TYPE_SIZE + IovSize(i) < endp
    ensures s[p + TYPE_SIZE + IovSize(i)] == Frag(IovVal(iov[i]), 0)
  {
    EntryAt(iov, i);
    var at := TYPE_SIZE + IovSize(i);
    assert |s[p..endp]| == |Encode(Vec(iov)) + rest|;
    assert s[p + at] == s[p..endp][at] == Encode(Vec(iov))[at];
  }

  /**
   * Charges `sent` accepted bytes to the vector packed at p. Either every entry
   * is used up, or the first entry that is not is cut and the range compacted.
   */
  method SettleVec(a: array<Cell>, head: nat, p: nat, endp: nat, veclen: nat, sent: nat,
                   ghost iov: seq<Iovec>, ghost rest: seq<Cell>) returns (partial: bool, tail: nat)
    requires head <= p <= endp <= a.Length && veclen == |iov|
    requires a[..][p..endp] == Encode(Vec(iov)) + rest
    modifies a
    ensures partial <==> Advance(iov, sent) != []
    ensures !partial ==> a[..] == old(a[..])
    ensures partial ==> tail == head + |Encode(Vec(Advance(iov, sent))) + rest|
    ensures partial ==> Compacted(old(a[..]), a[..], head, endp, Encode(Vec(Advance(iov, sent))) + rest)
  {
    var i, wl := FirstUnsent(a, p, endp, veclen, sent, iov, rest);
    if i == veclen {
      return false, head;
    }
    EntryCell(a[..], p, endp, i, iov, rest);
    var v := a[p + TYPE_SIZE + IovSize(i)].val.v;
    var x := Iovec(v.base + wl, v.len - wl);
    AdvanceAt(iov, i, wl);
    tail := CutEntry(a, head, p, endp, veclen, i, x, iov, Advance(iov, sent), rest);
    partial := true;
  }

  /** The entry at which `sent` bytes run out, and how many of them reach into it. */
  method FirstUnsent(a: array<Cell>, p: nat, endp: nat, veclen: nat, sent: nat, ghost iov: seq<Iovec>, ghost rest: seq<Cell>)
    returns (i: nat, wl: nat)
    requires p <= endp <= a.Length && veclen == |iov|
    requires a[..][p..endp] == Encode(Vec(iov)) + rest
    ensures i <= veclen && Advance(iov[i..], wl) == Advance(iov, sent)
    ensures i < veclen ==> wl < iov[i].len
  {
    i, wl := 0, sent;
    assert iov[0..] == iov;
    while i < veclen
      invariant i <= veclen && Advance(iov[i..], wl) == Advance(iov, sent)
    {
      EntryCell(a[..], p, endp, i, iov, rest);
      var v := a[p + TYPE_SIZE + IovSize(i)].val.v;
      if wl < v.len {
        return;
      }
      assert iov[i..][1..] == iov[i + 1..];
      i, wl := i + 1, wl - v.len;
    }
  }

  lemma AdvanceAt(iov: seq<Iovec>, i: nat, wl: nat)
    requires i < |iov| && wl < iov[i].len
    ensures Advance(iov[i..], wl) == iov[i := Iovec(iov[i].base + wl, iov[i].len - wl)][i..]
  {
    assert iov[i..][1..] == iov[i + 1..];
  }

  /** Rewrites entry i in place, then drops the i entries before it. */
  method CutEntry(a: array<Cell>, head: nat, p: nat, endp: nat, veclen: nat, i: nat, x: Iovec,
                  ghost iov: seq<Iovec>, ghost left: seq<Iovec>, ghost rest: seq<Cell>) returns (tail: nat)
    requires head <= p <= endp <= a.Length && i < veclen == |iov| && left == iov[i := x][i..]
    requires a[..][p..endp] == Encode(Vec(iov)) + rest
    modifies a
    ensures tail == head + |Encode(Vec(left)) + rest|
    ensures Compacted(old(a[..]), a[..], head, endp, Encode(Vec(left)) + rest)
  {
    ghost var s0 := a[..];
    assert |s0[p..endp]| == |Encode(Vec(iov)) + rest|;
    Store(a, p + TYPE_SIZE + IovSize(i), IovVal(x), IovSize(1));
    ghost var s1 := a[..];
    EntryStored(s0, s1, p, endp, i, x, iov, rest);
    ghost var cut := iov[i := x];
    if i == 0 {
      assert cut[0..] == cut;
      tail := Consumed(a, head, p, endp);
    } else {
      tail := DropEntries(a, head, p, endp, veclen, i, cut, rest);
    }
    StoredThenCompacted(s0, s1, a[..], p + TYPE_SIZE + IovSize(i), Frags(IovVal(x), IovSize(1)), head, endp,
                        Encode(Vec(left)) + rest);
  }

  lemma StoredThenCompacted(s0: seq<Cell>, s1: seq<Cell>, s2: seq<Cell>, at: nat, x: seq<Cell>,
                            head: nat, endp: nat, cells: seq<Cell>)
    requires head <= at && at + |x| <= endp
    requires Stored(s0, s1, at, x) && Compacted(s1, s2, head, endp, cells)
    ensures Compacted(s0, s2, head, endp, cells)
  {
  }

  /** Prepends what was already done to the outcome of the rest. */
  function After(trace: seq<Item>, o: Outcome): Outcome
  {
    Outcome(o.rest, trace + o.trace, o.cont)
  }

  /** One attempt carries the outcome of the whole drain one record further, or ends it. */
  lemma DrainTurn(trace: seq<Item>, left: seq<Record>, answers: seq<Answer>, i: nat)
    requires left != []
    ensures match Attempted(left[0], AnswerAt(answers, i))
            case Whole(calls) =>
              After(trace, Drain(left, answers, i)) == After(trace + StreamOf(left[0]), Drain(left[1..], answers, i + calls))
            case Stuck(retry) =>
              After(trace, Drain(left, answers, i)) == Outcome(left, trace, retry)
            case Cut(r, sent) =>
              After(trace, Drain(left, answers, i)) == Outcome([r] + left[1..], trace + sent, true)
  {
    match Attempted(left[0], AnswerAt(answers, i)) {
      case Whole(calls) =>
        var o := Drain(left[1..], answers, i + calls);
        assert trace + (StreamOf(left[0]) + o.trace) == (trace + StreamOf(left[0])) + o.trace;
      case Stuck(_) => assert trace + [] == trace;
      case Cut(_, _) =>
    }
  }

  /** The header and body of the first record, as they lie at p. */
  lemma FirstCells(s: seq<Cell>, p: nat, endp: nat, rs: seq<Record>)
    requires p < endp <= |s| && s[p..endp] == EncodeAll(rs)
    ensures rs != [] && p + SizeOf(rs[0]) <= endp
    ensures s[p] == Encode(rs[0])[0]
    ensures !rs[0].Vec? ==> s[p + TYPE_SIZE] == Encode(rs[0])[TYPE_SIZE]
    ensures s[p + SizeOf(rs[0])..endp] == EncodeAll(rs[1..])
    ensures s[p..endp] == Encode(rs[0]) + EncodeAll(rs[1..])
  {
    var all := s[p..endp];
    assert all != [];
    var n := SizeOf(rs[0]);
    assert all == Encode(rs[0]) + EncodeAll(rs[1..]);
    assert s[p] == all[0] && s[p + n..endp] == all[n..];
    if !rs[0].Vec? {
      assert s[p + TYPE_SIZE] == all[TYPE_SIZE];
    }
  }

  /** The range [head, tail) became the packing of rs, ending at newTail. */
  predicate LeftWith(s: seq<Cell>, t: seq<Cell>, head: nat, tail: nat, newTail: nat, rs: seq<Record>)
  {
    newTail == head + |EncodeAll(rs)| && Compacted(s, t, head, tail, EncodeAll(rs))
  }

  /** One turn of the switch over the record at p, with the kernel's answer to its call, if it makes one. */
  method ExecuteOne(a: array<Cell>, head: nat, p: nat, tail: nat, answer: Answer, ghost rs: seq<Record>)
    returns (stop: bool, newTail: nat, cont: bool, size: nat, called: nat, done: seq<Item>)
    requires head <= p < tail <= a.Length
    requires WellFormed(rs) && rs != [] && a[..][p..tail] == EncodeAll(rs)
    modifies a
    ensures match Attempted(rs[0], answer)
            case Whole(calls) =>
              !stop && a[..] == old(a[..]) && size == SizeOf(rs[0]) && called == calls && done == StreamOf(rs[0])
            case Stuck(retry) =>
              stop && cont == retry && done == [] && LeftWith(old(a[..]), a[..], head, tail, newTail, rs)
            case Cut(left, sent) =>
              stop && cont && done == sent && LeftWith(old(a[..]), a[..], head, tail, newTail, [left] + rs[1..])
  {
    ghost var s0 := a[..];
    FirstCells(s0, p, tail, rs);
    stop, newTail, cont, size, called, done := false, head, false, 0, 1, [];
    assert rs[0] in rs;
    var t := a[p].val.t;
    if rs[0].Vec? {
      TypeWordExact(|rs[0].iov|);
    }
    if t == XF_SENDFILE {
      stop, newTail, cont, done := ExecuteFile(a, head, p, tail, answer, rs);
      size := TYPE_SIZE + SENDFILE_SIZE;
    } else if t == XF_FINALIZE {
      var x := a[p + TYPE_SIZE].val;
      if x.fn != 0 {
        done := [Final(x.fn, x.user)];
      }
      size, called := TYPE_SIZE + FINALIZE_SIZE, 0;
    } else {
      var veclen := t / 2;
      stop, newTail, cont, done := ExecuteVec(a, head, p, tail, veclen, answer, rs);
      size := TYPE_SIZE + IovSize(veclen);
    }
  }

  /** The contract shared by the two record kinds that make a system call. */
  ghost predicate CallSettled(r: Record, answer: Answer, rs: seq<Record>, s: seq<Cell>, t: seq<Cell>, head: nat, tail: nat,
                              stop: bool, newTail: nat, cont: bool, done: seq<Item>)
    requires rs != []
  {
    match Attempted(r, answer)
    case Whole(_) => !stop && t == s && done == StreamOf(r)
    case Stuck(retry) => stop && cont == retry && done == [] && LeftWith(s, t, head, tail, newTail, rs)
    case Cut(left, sent) => stop && cont && done == sent && LeftWith(s, t, head, tail, newTail, [left] + rs[1..])
  }

  method ExecuteFile(a: array<Cell>, head: nat, p: nat, tail: nat, answer: Answer, ghost rs: seq<Record>)
    returns (stop: bool, newTail: nat, cont: bool, done: seq<Item>)
    requires head <= p < tail <= a.Length
    requires rs != [] && rs[0].SendFile? && a[..][p..tail] == EncodeAll(rs)
    modifies a
    ensures CallSettled(rs[0], answer, rs, old(a[..]), a[..], head, tail, stop, newTail, cont, done)
  {
    FirstCells(a[..], p, tail, rs);
    var x := a[p + TYPE_SIZE].val;
    var e := Effective(answer, x.len);
    if !e.Ret? {
      newTail := Consumed(a, head, p, tail);
      assert LeftWith(old(a[..]), a[..], head, tail, newTail, rs);
      return true, newTail, e.Retry?, [];
    }
    done := FileBytes(x.infd, x.off, e.n);
    if e.n < x.len {
      newTail := CutFile(a, head, p, tail, x.infd, x.off + e.n, x.len - e.n, rs);
      return true, newTail, true, done;
    }
    return false, head, false, done;
  }

  method ExecuteVec(a: array<Cell>, head: nat, p: nat, tail: nat, veclen: nat, answer: Answer, ghost rs: seq<Record>)
    returns (stop: bool, newTail: nat, cont: bool, done: seq<Item>)
    requires head <= p < tail <= a.Length
    requires rs != [] && rs[0].Vec? && veclen == |rs[0].iov| && a[..][p..tail] == EncodeAll(rs)
    modifies a
    ensures CallSettled(rs[0], answer, rs, old(a[..]), a[..], head, tail, stop, newTail, cont, done)
  {
    ghost var iov, rest := rs[0].iov, EncodeAll(rs[1..]);
    VecParts(a[..], p, tail, 0, iov, rest);
    assert iov[0..] == iov;
    var vec := LoadVec(a, p + TYPE_SIZE, veclen, iov);
    var e := Effective(answer, |VecBytes(vec)|);
    if !e.Ret? {
      newTail := Consumed(a, head, p, tail);
      assert LeftWith(old(a[..]), a[..], head, tail, newTail, rs);
      return true, newTail, e.Retry?, [];
    }
    done := VecBytes(vec)[..e.n];
    AdvanceDropsSent(iov, e.n);
    ghost var now := [Vec(Advance(iov, e.n))] + rs[1..];
    assert now[1..] == rs[1..] && EncodeAll(now) == Encode(Vec(Advance(iov, e.n))) + rest;
    stop, newTail := SettleVec(a, head, p, tail, veclen, e.n, iov, rest);
    cont := stop;
  }

  lemma FileStored(s: seq<Cell>, t: seq<Cell>, p: nat, endp: nat, was: Record, now: Record, rest: seq<Cell>)
    requires was.SendFile? && now.SendFile?
    requires p <= endp <= |s| && s[p..endp] == Encode(was) + rest
    requires Stored(s, t, p + TYPE_SIZE, Frags(FileVal(now.infd, now.off, now.len), SENDFILE_SIZE))
    ensures t[p..endp] == Encode(now) + rest
  {
    var whole, want := Encode(was) + rest, Encode(now) + rest;
    assert |s[p..endp]| == |whole| == |want|;
    forall k | p <= k < endp
      ensures t[k] == want[k - p]
    {
      assert s[k] == s[p..endp][k - p] == whole[k - p];
    }
  }

  /** A partly sent file range: the record is updated in place, then the range compacted. */
  method CutFile(a: array<Cell>, head: nat, p: nat, tail: nat, infd: int, off: nat, len: nat, ghost rs: seq<Record>)
    returns (newTail: nat)
    requires head <= p < tail <= a.Length
    requires rs != [] && rs[0].SendFile? && a[..][p..tail] == EncodeAll(rs)
    modifies a
    ensures LeftWith(old(a[..]), a[..], head, tail, newTail, [SendFile(infd, off, len)] + rs[1..])
  {
    ghost var s0 := a[..];
    FirstCells(s0, p, tail, rs);
    ghost var x := Frags(FileVal(infd, off, len), SENDFILE_SIZE);
    ghost var now := [SendFile(infd, off, len)] + rs[1..];
    Store(a, p + TYPE_SIZE, FileVal(infd, off, len), SENDFILE_SIZE);
    ghost var s1 := a[..];
    FileStored(s0, s1, p, tail, rs[0], SendFile(infd, off, len), EncodeAll(rs[1..]));
    assert now[1..] == rs[1..];
    newTail := Consumed(a, head, p, tail);
    StoredThenCompacted(s0, s1, a[..], p + TYPE_SIZE, x, head, tail, EncodeAll(now));
  }

  /** What one turn comes to, seen from the drain as a whole. */
  ghost predicate Turned(s: seq<Cell>, t: seq<Cell>, head: nat, p: nat, tail: nat, answers: seq<Answer>, calls: nat,
                         left: seq<Record>, trace: seq<Item>, whole: Outcome,
                         stop: bool, newTail: nat, cont: bool, size: nat, called: nat, done: seq<Item>)
  {
    && left != [] && p <= tail <= |s|
    && if stop then
         && cont == whole.cont && whole.trace == trace + done
         && LeftWith(s, t, head, tail, newTail, whole.rest)
       else
         && t == s && 0 < size <= tail - p && WellFormed(left[1..])
         && s[p + size..tail] == EncodeAll(left[1..])
         && whole == After(trace + done, Drain(left[1..], answers, calls + called))
  }

  lemma TurnWhole(s: seq<Cell>, head: nat, p: nat, tail: nat, answers: seq<Answer>, calls: nat, left: seq<Record>,
                  trace: seq<Item>, whole: Outcome, newTail: nat, cont: bool)
    requires p < tail <= |s| && WellFormed(left) && s[p..tail] == EncodeAll(left)
    requires left != [] && Attempted(left[0], AnswerAt(answers, calls)).Whole?
    requires whole == After(trace, Drain(left, answers, calls))
    ensures Turned(s, s, head, p, tail, answers, calls, left, trace, whole, false, newTail, cont, SizeOf(left[0]),
                   Attempted(left[0], AnswerAt(answers, calls)).calls, StreamOf(left[0]))
  {
    FirstCells(s, p, tail, left);
    DrainTurn(trace, left, answers, calls);
  }

  lemma TurnStops(s: seq<Cell>, t: seq<Cell>, head: nat, p: nat, tail: nat, answers: seq<Answer>, calls: nat,
                  left: seq<Record>, trace: seq<Item>, whole: Outcome,
                  newTail: nat, cont: bool, size: nat, called: nat, done: seq<Item>)
    requires left != [] && p <= tail <= |s| && whole == After(trace, Drain(left, answers, calls))
    requires match Attempted(left[0], AnswerAt(answers, calls))
             case Whole(_) => false
             case Stuck(retry) => cont == retry && done == [] && LeftWith(s, t, head, tail, newTail, left)
             case Cut(r, sent) => cont && done == sent && LeftWith(s, t, head, tail, newTail, [r] + left[1..])
    ensures Turned(s, t, head, p, tail, answers, calls, left, trace, whole, true, newTail, cont, size, called, done)
  {
    DrainTurn(trace, left, answers, calls);
    assert trace + [] == trace;
  }

  /** One turn of the loop. */
  method ExecuteTurn(a: array<Cell>, head: nat, p: nat, tail: nat, answers: seq<Answer>, calls: nat,
                     ghost left: seq<Record>, ghost trace: seq<Item>, ghost whole: Outcome)
    returns (stop: bool, newTail: nat, cont: bool, size: nat, called: nat, done: seq<Item>)
    requires head <= p < tail <= a.Length
    requires WellFormed(left) && a[..][p..tail] == EncodeAll(left)
    requires whole == After(trace, Drain(left, answers, calls))
    modifies a
    ensures Turned(old(a[..]), a[..], head, p, tail, answers, calls, left, trace, whole, stop, newTail, cont, size, called, done)
  {
    ghost var s0 := a[..];
    FirstCells(s0, p, tail, left);
    stop, newTail, cont, size, called, done := ExecuteOne(a, head, p, tail, AnswerAt(answers, calls), left);
    if stop {
      TurnStops(s0, a[..], head, p, tail, answers, calls, left, trace, whole, newTail, cont, size, called, done);
    } else {
      TurnWhole(s0, head, p, tail, answers, calls, left, trace, whole, newTail, cont);
    }
  }

  /**
   * Drains [head, tail) as far as the kernel lets it and compacts what is left
   * to the head: afterwards [head, newTail) is the packing of exactly the unsent
   * part, and nothing outside the range was touched.
   */
  method Execute(a: array<Cell>, head: nat, tail: nat, answers: seq<Answer>, ghost rs: seq<Record>)
    returns (newTail: nat, cont: bool, trace: seq<Item>)
    requires head <= tail <= a.Length
    requires WellFormed(rs) && a[..][head..tail] == EncodeAll(rs)
    modifies a
    ensures var o := Drain(rs, answers, 0);
            cont == o.cont && trace == o.trace && LeftWith(old(a[..]), a[..], head, tail, newTail, o.rest)
  {
    var p, calls := head, 0;
    trace := [];
    ghost var left, s0, whole := rs, a[..], Drain(rs, answers, 0);
    assert whole == After(trace, whole);
    while p < tail
      invariant head <= p <= tail && calls >= 0
      invariant a[..] == s0
      invariant WellFormed(left) && s0[p..tail] == EncodeAll(left)
      invariant whole == After(trace, Drain(left, answers, calls))
      decreases tail - p
    {
      var stop, t, c, size, called, done := ExecuteTurn(a, head, p, tail, answers, calls, left, trace, whole);
      trace := trace + done;
      if stop {
        return t, c, trace;
      }
      p, calls, left := p + size, calls + called, left[1..];
    }
    AllDrained(s0, head, tail, left, answers, calls, trace, whole);
    newTail, cont := head, false;
  }

  lemma NothingPacked(rs: seq<Record>)
    requires EncodeAll(rs) == []
    ensures rs == []
  {
  }

  /** Nothing packed means nothing left: the drain is over, without wanting to go on. */
  lemma AllDrained(s: seq<Cell>, head: nat, tail: nat, left: seq<Record>, answers: seq<Answer>, calls: nat, trace: seq<Item>, whole: Outcome)
    requires head <= tail <= |s| && s[tail..tail] == EncodeAll(left) && whole == After(trace, Drain(left, answers, calls))
    ensures whole.trace == trace && !whole.cont && LeftWith(s, s, head, tail, head, whole.rest)
  {
    NothingPacked(left);
    assert trace + [] == trace;
  }
}
