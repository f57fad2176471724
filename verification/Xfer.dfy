/**
 * class xfer: a growable packed queue of output records.
 */
module Xfer {
  import opened Sequences
  import opened XferSpec
  import opened XferPacked
  import XferExecute
  import Growth

  const MIN_GROWTH: nat := 72

  /** fill_mem and fill_iovec. */
  method FillVec(a: array<Cell>, at: nat, iov: seq<Iovec>)
    requires at + SizeOf(Vec(iov)) <= a.Length
    modifies a
    ensures Stored(old(a[..]), a[..], at, Encode(Vec(iov)))
  {
    ghost var s0 := a[..];
    Store(a, at, TypeVal(TypeWord(|iov|)), TYPE_SIZE);
    ghost var s1 := a[..];
    var i := 0;
    assert IovCells(iov[..0]) == [];
    while i < |iov|
      invariant i <= |iov|
      invariant Stored(s1, a[..], at + TYPE_SIZE, IovCells(iov[..i]))
    {
      ghost var s2 := a[..];
      Store(a, at + TYPE_SIZE + IovSize(i), IovVal(iov[i]), IovSize(1));
      PrefixSnoc(iov, i);
      StoredBehind(s1, s2, a[..], at + TYPE_SIZE, IovCells(iov[..i]), Frags(IovVal(iov[i]), IovSize(1)));
      i := i + 1;
    }
    assert iov[..i] == iov;
    StoredBehind(s0, s1, a[..], at, Frags(TypeVal(TypeWord(|iov|)), TYPE_SIZE), IovCells(iov));
  }

  lemma PrefixSnoc(iov: seq<Iovec>, i: nat)
    requires i < |iov|
    ensures IovCells(iov[..i + 1]) == IovCells(iov[..i]) + Frags(IovVal(iov[i]), IovSize(1))
  {
    IovCellsSnoc(iov[..i], iov[i]);
    assert iov[..i + 1] == iov[..i] + [iov[i]];
  }

  lemma {:induction false} IovCellsSnoc(iov: seq<Iovec>, x: Iovec)
    ensures IovCells(iov + [x]) == IovCells(iov) + Frags(IovVal(x), IovSize(1))
  {
    if iov == [] {
      assert iov + [x] == [x];
      assert IovCells([x][1..]) == [];
    } else {
      IovCellsSnoc(iov[1..], x);
      ConcatTail(iov, [x]);
      ConcatAssoc(Frags(IovVal(iov[0]), IovSize(1)), IovCells(iov[1..]), Frags(IovVal(x), IovSize(1)));
    }
  }

  /** Two adjacent stores are one store. */
  lemma StoredBehind(s0: seq<Cell>, s1: seq<Cell>, s2: seq<Cell>, at: nat, x: seq<Cell>, y: seq<Cell>)
    requires Stored(s0, s1, at, x) && Stored(s1, s2, at + |x|, y)
    ensures Stored(s0, s2, at, x + y)
  {
  }

  method FillSendfile(a: array<Cell>, at: nat, infd: int, off: nat, len: nat)
    requires at + SizeOf(SendFile(infd, off, len)) <= a.Length
    modifies a
    ensures Stored(old(a[..]), a[..], at, Encode(SendFile(infd, off, len)))
  {
    ghost var s0 := a[..];
    Store(a, at, TypeVal(XF_SENDFILE), TYPE_SIZE);
    ghost var s1 := a[..];
    Store(a, at + TYPE_SIZE, FileVal(infd, off, len), SENDFILE_SIZE);
    StoredBehind(s0, s1, a[..], at, Frags(TypeVal(XF_SENDFILE), TYPE_SIZE), Frags(FileVal(infd, off, len), SENDFILE_SIZE));
  }

  method FillFinalize(a: array<Cell>, at: nat, fn: nat, user: nat)
    requires at + SizeOf(Finalize(fn, user)) <= a.Length
    modifies a
    ensures Stored(old(a[..]), a[..], at, Encode(Finalize(fn, user)))
  {
    ghost var s0 := a[..];
    Store(a, at, TypeVal(XF_FINALIZE), TYPE_SIZE);
    ghost var s1 := a[..];
    Store(a, at + TYPE_SIZE, FinVal(fn, user), FINALIZE_SIZE);
    StoredBehind(s0, s1, a[..], at, Frags(TypeVal(XF_FINALIZE), TYPE_SIZE), Frags(FinVal(fn, user), FINALIZE_SIZE));
  }

  /** Lays one record at an offset, by its kind. */
  method Fill(a: array<Cell>, at: nat, r: Record)
    requires at + SizeOf(r) <= a.Length
    modifies a
    ensures Stored(old(a[..]), a[..], at, Encode(r))
  {
    match r {
      case Vec(iov) => FillVec(a, at, iov);
      case SendFile(infd, off, len) => FillSendfile(a, at, infd, off, len);
      case Finalize(fn, user) => FillFinalize(a, at, fn, user);
    }
  }

  lemma EncodeOne(r: Record)
    ensures EncodeAll([r]) == Encode(r)
  {
    assert [r][1..] == [];
    assert Encode(r) + [] == Encode(r);
  }

  /** Storing packed records right behind packed records packs them all. */
  lemma StoredAtTail(s: seq<Cell>, t: seq<Cell>, tail: nat, rs: seq<Record>, more: seq<Record>)
    requires tail <= |s| && s[..tail] == EncodeAll(rs) && Stored(s, t, tail, EncodeAll(more))
    ensures t[..tail + |EncodeAll(more)|] == EncodeAll(rs + more)
  {
    EncodeConcat(rs, more);
    CellsAtTail(s, t, tail, EncodeAll(rs), EncodeAll(more));
  }

  lemma CellsAtTail(s: seq<Cell>, t: seq<Cell>, tail: nat, x: seq<Cell>, y: seq<Cell>)
    requires tail <= |s| && s[..tail] == x && Stored(s, t, tail, y)
    ensures t[..tail + |y|] == x + y
  {
    forall k | 0 <= k < tail ensures t[k] == x[k] {
      assert t[k] == s[k] == s[..tail][k];
    }
  }

  // ------------------------------------------------------------ growth by pushes

  /** Size and capacity of a queue's block, and the bytes realloc has moved for it so far. */
  datatype Growing = Growing(used: nat, capacity: nat, moved: nat)

  /** What one push or appending migration of a given size does to them. */
  function Appended(g: Growing, size: nat): Growing
  {
    if g.used + size <= g.capacity then g.(used := g.used + size)
    else Growing(g.used + size, Growth.Doubled(2 * g.capacity + MIN_GROWTH, g.used + size), g.moved + g.used)
  }

  function AppendedAll(sizes: seq<nat>): Growing
  {
    if sizes == [] then Growing(0, 0, 0) else Appended(AppendedAll(sizes[..|sizes| - 1]), sizes[|sizes| - 1])
  }

  /** Growth is amortized: the capacity stays linear in what is stored, and all copying together within the capacity. */
  lemma {:induction false} AppendsAmortized(sizes: seq<nat>)
    ensures var g := AppendedAll(sizes);
            g.used <= g.capacity <= 2 * g.used + MIN_GROWTH && g.moved <= g.capacity
  {
    if sizes != [] {
      AppendsAmortized(sizes[..|sizes| - 1]);
    }
  }

  function SizesOf(rs: seq<Record>): (s: seq<nat>)
    ensures |s| == |rs| && forall k :: 0 <= k < |rs| ==> s[k] == SizeOf(rs[k])
  {
    seq(|rs|, k requires 0 <= k < |rs| => SizeOf(rs[k]))
  }

  lemma SizesSnoc(rs: seq<Record>, i: nat)
    requires i < |rs|
    ensures AppendedAll(SizesOf(rs[..i + 1])) == Appended(AppendedAll(SizesOf(rs[..i])), SizeOf(rs[i]))
  {
    var sizes := SizesOf(rs[..i + 1]);
    assert sizes[..i] == SizesOf(rs[..i]);
  }

  class Queue {
    var mem: array<Cell>  // the block m_head points to; a null head is the empty block
    var tail: nat         // m_tail - m_head
    var free: nat         // m_free
    ghost var recs: seq<Record>
    ghost var peak: nat   // the largest size this block was ever asked to hold
    ghost var moved: nat  // cells copied by realloc over the life of this block

    ghost predicate Valid()
      reads this, mem
    {
      && tail + free == mem.Length
      && WellFormed(recs) && mem[..][..tail] == EncodeAll(recs)
      && tail <= peak && mem.Length <= 2 * peak + MIN_GROWTH
      && moved <= mem.Length
    }

    ghost function Sizes(): Growing
      reads this
    {
      Growing(tail, mem.Length, moved)
    }

    constructor ()
      ensures Valid() && fresh(mem) && recs == [] && Sizes() == Growing(0, 0, 0) && peak == 0
    {
      mem := new Cell[0];
      tail, free := 0, 0;
      recs, peak, moved := [], 0, 0;
    }

    /** A queue is empty iff its head and tail coincide. */
    method Empty() returns (e: bool)
      requires Valid()
      ensures e <==> recs == []
    {
      e := tail == 0;
    }

    /** Grows the block; reached only when the free space does not suffice. */
    method Reserve(reqsz: nat)
      requires Valid() && free < reqsz
      modifies this
      ensures Valid() && fresh(mem)
      ensures recs == old(recs) && tail == old(tail) && free >= reqsz
      ensures mem.Length == Growth.Doubled(2 * old(mem.Length) + MIN_GROWTH, tail + reqsz)
      ensures moved == old(moved) + tail && peak == Growth.Max(old(peak), tail + reqsz)
    {
      var nsize := Growth.DoubleUntil((tail + free) * 2 + MIN_GROWTH, tail + reqsz);
      var tmp := Realloc(mem, tail, nsize);
      mem, free := tmp, nsize - tail;
      moved, peak := moved + tail, Growth.Max(peak, tail + reqsz);
    }

    /** The head of every push: grows the block if the free space does not suffice. */
    method MakeRoom(size: nat)
      requires Valid()
      modifies this
      ensures Valid() && (mem == old(mem) || fresh(mem))
      ensures recs == old(recs) && tail == old(tail) && free >= size
      ensures Sizes().(used := tail + size) == Appended(old(Sizes()), size)
      ensures Growth.Max(peak, tail + size) == Growth.Max(old(peak), tail + size)
    {
      if free < size {
        Reserve(size);
      }
    }

    /** push_write, push_writev, push_sendfile and push_finalize. */
    method Push(r: Record)
      requires Valid() && WellFormed([r])
      modifies this, mem
      ensures Valid() && (mem == old(mem) || fresh(mem))
      ensures recs == old(recs) + [r]
      ensures Sizes() == Appended(old(Sizes()), SizeOf(r)) && peak == Growth.Max(old(peak), tail)
    {
      var sz := SizeOf(r);
      MakeRoom(sz);
      ghost var s0 := mem[..];
      Fill(mem, tail, r);
      EncodeOne(r);
      TakeIn(sz, [r], s0);
    }

    /** The pushed cells become part of the queue. */
    method TakeIn(size: nat, ghost rs: seq<Record>, ghost s0: seq<Cell>)
      requires tail + free == mem.Length && size == |EncodeAll(rs)| && size <= free
      requires WellFormed(recs) && WellFormed(rs) && |s0| == mem.Length && s0[..tail] == EncodeAll(recs)
      requires Stored(s0, mem[..], tail, EncodeAll(rs))
      requires tail <= peak && mem.Length <= 2 * Growth.Max(peak, tail + size) + MIN_GROWTH && moved <= mem.Length
      modifies this`tail, this`free, this`recs, this`peak
      ensures Valid() && recs == old(recs) + rs
      ensures tail == old(tail) + size && peak == Growth.Max(old(peak), tail)
    {
      StoredAtTail(s0, mem[..], tail, recs, rs);
      WellFormedConcat(recs, rs);
      tail, free := tail + size, free - size;
      recs, peak := recs + rs, Growth.Max(peak, tail);
    }

    /** push_xfraw: appends records that are already packed. */
    method PushRaw(buf: array<Cell>, size: nat, ghost rs: seq<Record>)
      requires Valid() && size <= buf.Length && buf != mem
      requires WellFormed(rs) && buf[..][..size] == EncodeAll(rs)
      modifies this, mem
      ensures Valid() && (mem == old(mem) || fresh(mem))
      ensures recs == old(recs) + rs
      ensures Sizes() == Appended(old(Sizes()), size) && peak == Growth.Max(old(peak), tail)
    {
      MakeRoom(size);
      ghost var s0 := mem[..];
      CopyIn(mem, tail, buf, size);
      TakeIn(size, rs, s0);
    }

    /** Moves every record to the end of another queue; a null destination takes the block over. */
    method Migrate(to: Queue)
      requires Valid() && to.Valid() && to != this && to.mem != mem
      modifies this, to, to.mem
      ensures Valid() && to.Valid() && to.mem != mem
      ensures to.mem == old(to.mem) || to.mem == old(mem) || fresh(to.mem)
      ensures mem == old(mem) || fresh(mem)
      ensures recs == [] && to.recs == old(to.recs) + old(recs)
      ensures old(to.mem.Length) == 0 ==> to.Sizes() == old(Sizes()) && to.peak == old(peak) && Sizes() == Growing(0, 0, 0) && peak == 0
      ensures old(to.mem.Length) != 0 ==> to.Sizes() == Appended(old(to.Sizes()), old(tail)) && to.peak == Growth.Max(old(to.peak), to.tail)
      ensures old(to.mem.Length) != 0 ==> Sizes() == old(Sizes()).(used := 0) && peak == old(peak)
    {
      if to.mem.Length == 0 {
        assert EncodeAll(to.recs) == [];
        assert to.recs == [] && to.recs + recs == recs;
        to.mem, to.tail, to.free, to.recs, to.peak, to.moved := mem, tail, free, recs, peak, moved;
        mem := new Cell[0];
        tail, free, recs, peak, moved := 0, 0, [], 0, 0;
        return;
      }
      to.PushRaw(mem, tail, recs);
      free, tail := free + tail, 0;
      recs := [];
    }

    /** Drops every record, running the finalizers on the way. */
    method Clear() returns (ran: seq<Item>)
      requires Valid()
      modifies this
      ensures Valid() && mem == old(mem) && recs == [] && peak == old(peak) && moved == old(moved)
      ensures ran == Finals(Stream(old(recs)))
    {
      assert mem[..][0..tail] == mem[..][..tail];
      ran := RunFinalizers(mem, tail, recs);
      free, tail := free + tail, 0;
      recs := [];
    }

    /** try_write: drains in place; a stop with records left over is an error, and shuts the fd down. */
    method TryWrite(answers: seq<Answer>) returns (cont: bool, trace: seq<Item>, shut: bool)
      requires Valid()
      modifies this, mem
      ensures Valid() && mem == old(mem) && peak == old(peak) && moved == old(moved)
      ensures var o := Drain(old(recs), answers, 0);
              recs == o.rest && cont == o.cont && trace == o.trace && shut == (!o.cont && o.rest != [])
    {
      var allocEnd := tail + free;
      ghost var o := Drain(recs, answers, 0);
      assert mem[..][0..tail] == mem[..][..tail];
      tail, cont, trace := XferExecute.Execute(mem, 0, tail, answers, recs);
      free := allocEnd - tail;
      DrainWellFormed(recs, answers, 0);
      recs := o.rest;
      shut := !cont && tail != 0;
    }
  }

  /** One turn of pushing a list of records. */
  method PushNext(q: Queue, rs: seq<Record>, i: nat)
    requires q.Valid() && WellFormed(rs) && i < |rs|
    requires q.recs == rs[..i] && q.Sizes() == AppendedAll(SizesOf(rs[..i]))
    modifies q, q.mem
    ensures q.Valid() && (q.mem == old(q.mem) || fresh(q.mem))
    ensures q.recs == rs[..i + 1] && q.Sizes() == AppendedAll(SizesOf(rs[..i + 1]))
  {
    ghost var sizes := q.Sizes();
    assert rs[i] in rs;
    q.Push(rs[i]);
    PushedMore(rs, i, sizes);
  }

  lemma PushedMore(rs: seq<Record>, i: nat, sizes: Growing)
    requires i < |rs| && sizes == AppendedAll(SizesOf(rs[..i]))
    ensures rs[..i] + [rs[i]] == rs[..i + 1]
    ensures Appended(sizes, SizeOf(rs[i])) == AppendedAll(SizesOf(rs[..i + 1]))
  {
    SizesSnoc(rs, i);
  }

  /** A queue that records are pushed onto, one after the other, stays within twice its size plus 72. */
  method PushAll(q: Queue, rs: seq<Record>)
    requires q.Valid() && q.recs == [] && q.Sizes() == Growing(0, 0, 0) && WellFormed(rs)
    modifies q, q.mem
    ensures q.Valid() && q.recs == rs && (q.mem == old(q.mem) || fresh(q.mem))
    ensures q.Sizes() == AppendedAll(SizesOf(rs))
    ensures q.mem.Length <= 2 * q.tail + MIN_GROWTH && q.moved <= q.mem.Length
  {
    var i := 0;
    while i < |rs|
      invariant i <= |rs| && q.Valid() && (q.mem == old(q.mem) || fresh(q.mem))
      invariant q.recs == rs[..i] && q.Sizes() == AppendedAll(SizesOf(rs[..i]))
    {
      PushNext(q, rs, i);
      i := i + 1;
    }
    assert rs[..|rs|] == rs;
    AppendsAmortized(SizesOf(rs));
  }

  // ------------------------------------------------------------ clearing and draining

  /** One turn of the clearing loop: the size of the record at p, and its finalizer if it has one. */
  method ClearOne(a: array<Cell>, p: nat, tail: nat, ghost rs: seq<Record>) returns (size: nat, fin: seq<Item>)
    requires p < tail <= a.Length && WellFormed(rs) && a[..][p..tail] == EncodeAll(rs)
    ensures rs != [] && size == SizeOf(rs[0]) && p + size <= tail
    ensures a[..][p + size..tail] == EncodeAll(rs[1..])
    ensures fin == Finals(StreamOf(rs[0]))
  {
    XferExecute.FirstCells(a[..], p, tail, rs);
    assert rs[0] in rs;
    if rs[0].Vec? {
      TypeWordExact(|rs[0].iov|);
    }
    var t := a[p].val.t;
    if t == XF_SENDFILE {
      BytesOnly(rs[0]);
      return TYPE_SIZE + SENDFILE_SIZE, [];
    } else if t == XF_FINALIZE {
      var x := a[p + TYPE_SIZE].val;
      OneFinal(x.fn, x.user);
      return TYPE_SIZE + FINALIZE_SIZE, if x.fn != 0 then [Final(x.fn, x.user)] else [];
    } else {
      BytesOnly(rs[0]);
      return TYPE_SIZE + IovSize(t / 2), [];
    }
  }

  /** The clearing loop: walks over the packed records and runs the finalizers. */
  method RunFinalizers(a: array<Cell>, tail: nat, ghost rs: seq<Record>) returns (ran: seq<Item>)
    requires tail <= a.Length && WellFormed(rs) && a[..][0..tail] == EncodeAll(rs)
    ensures ran == Finals(Stream(rs))
  {
    ran := [];
    var p := 0;
    ghost var left, whole := rs, Finals(Stream(rs));
    assert whole == ran + FinalsOf(left);
    while p < tail
      invariant 0 <= p <= tail && WellFormed(left) && a[..][p..tail] == EncodeAll(left)
      invariant whole == ran + FinalsOf(left)
      decreases tail - p
    {
      var size, fin := ClearOne(a, p, tail, left);
      FinalsTurn(ran, left, fin);
      ran, p := ran + fin, p + size;
      left := left[1..];
    }
    NoFinalsLeft(a[..], tail, ran, left);
  }

  /** The finalizers of the records. */
  function FinalsOf(rs: seq<Record>): seq<Item>
  {
    Finals(Stream(rs))
  }

  lemma NoFinalsLeft(s: seq<Cell>, tail: nat, ran: seq<Item>, left: seq<Record>)
    requires tail <= |s| && s[tail..tail] == EncodeAll(left)
    ensures ran + FinalsOf(left) == ran
  {
    XferExecute.NothingPacked(left);
    assert Stream(left) == [];
  }

  lemma WellFormedConcat(a: seq<Record>, b: seq<Record>)
    requires WellFormed(a) && WellFormed(b)
    ensures WellFormed(a + b)
  {
  }

  lemma {:induction false} DrainWellFormed(rs: seq<Record>, answers: seq<Answer>, i: nat)
    requires WellFormed(rs)
    ensures WellFormed(Drain(rs, answers, i).rest)
    decreases |rs|
  {
    if rs != [] {
      var a := AnswerAt(answers, i);
      assert rs[0] in rs;
      match Attempted(rs[0], a) {
        case Stuck(_) =>
        case Cut(left, sent) =>
          if rs[0].Vec? {
            AdvanceDropsSent(rs[0].iov, |sent|);
          }
        case Whole(calls) => DrainWellFormed(rs[1..], answers, i + calls);
      }
    }
  }

  lemma FinalsTurn(ran: seq<Item>, rs: seq<Record>, fin: seq<Item>)
    requires rs != [] && fin == Finals(StreamOf(rs[0]))
    ensures ran + FinalsOf(rs) == (ran + fin) + FinalsOf(rs[1..])
  {
    FinalsConcat(StreamOf(rs[0]), Stream(rs[1..]));
    ConcatAssoc(ran, fin, FinalsOf(rs[1..]));
  }

  lemma OneFinal(fn: nat, user: nat)
    ensures Finals(StreamOf(Finalize(fn, user))) == StreamOf(Finalize(fn, user))
  {
    var s := StreamOf(Finalize(fn, user));
    assert s == [] || s[1..] == [];
  }

  lemma BytesOnly(r: Record)
    requires !r.Finalize?
    ensures Finals(StreamOf(r)) == []
  {
    var s := StreamOf(r);
    if r.Vec? {
      VecIsBytes(r.iov);
    }
    NoFinals(s);
  }

  lemma {:induction false} VecIsBytes(iov: seq<Iovec>)
    ensures forall x :: x in VecBytes(iov) ==> IsByte(x)
  {
    if iov != [] {
      VecIsBytes(iov[1..]);
    }
  }

  lemma {:induction false} NoFinals(s: seq<Item>)
    requires forall x :: x in s ==> IsByte(x)
    ensures Finals(s) == []
  {
    if s != [] {
      NoFinals(s[1..]);
    }
  }

  /** realloc, worst case: a new block with the used cells copied over. */
  method Realloc(a: array<Cell>, used: nat, nsize: nat) returns (b: array<Cell>)
    requires used <= a.Length && used <= nsize
    ensures fresh(b) && b.Length == nsize && b[..][..used] == a[..][..used]
  {
    b := new Cell[nsize](_ => Undef);
    var i := 0;
    while i < used
      invariant i <= used
      invariant forall k :: 0 <= k < i ==> b[k] == a[k]
    {
      b[i] := a[i];
      i := i + 1;
    }
  }

  /** memcpy between two blocks. */
  method CopyIn(a: array<Cell>, at: nat, b: array<Cell>, n: nat)
    requires at + n <= a.Length && n <= b.Length && a != b
    modifies a
    ensures Stored(old(a[..]), a[..], at, b[..][..n])
  {
    var i := 0;
    while i < n
      invariant i <= n
      invariant forall k :: at <= k < at + i ==> a[k] == b[k - at]
      invariant forall k :: 0 <= k < a.Length && !(at <= k < at + i) ==> a[k] == old(a[k])
    {
      a[at + i] := b[i];
      i := i + 1;
    }
  }
}
