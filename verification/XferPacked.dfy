/**
 * The packed output queue of mpsrc/wavy_out.cc: tagged records laid end to end
 * in one buffer, drained and compacted in place.
 *
 * Memory is a fragment memory: a value of n bytes occupies n consecutive cells
 * holding its fragments 0..n-1, so offsets, sizes and block moves are the
 * source's own while the byte encoding of integers and pointers stays abstract.
 */
module XferPacked {
  import opened Sequences
  import opened XferSpec

  const TYPE_SIZE: nat := 4
  const SENDFILE_SIZE: nat := 24
  const FINALIZE_SIZE: nat := 16

  const XF_SENDFILE: nat := 1
  const XF_FINALIZE: nat := 3

  datatype Val =
    | TypeVal(t: nat)
    | IovVal(v: Iovec)
    | FileVal(infd: int, off: nat, len: nat)
    | FinVal(fn: nat, user: nat)

  datatype Cell = Undef | Frag(val: Val, k: nat)

  function Frags(v: Val, n: nat): (s: seq<Cell>)
    ensures |s| == n
  {
    seq(n, (k: nat) => Frag(v, k))
  }

  /** The type word of an iovec record: the length shifted left, in 32 bits. */
  function TypeWord(veclen: nat): nat
  {
    (veclen * 2) % 0x1_0000_0000
  }

  /** Below 2^31 the word gives the length back and is never one of the other two tags. */
  lemma TypeWordExact(n: nat)
    requires n < 0x8000_0000
    ensures TypeWord(n) / 2 == n && TypeWord(n) != XF_SENDFILE && TypeWord(n) != XF_FINALIZE
  {
    assert TypeWord(n) == n * 2;
  }

  /** The bytes taken by n iovec entries of 16 bytes each. */
  function IovSize(n: nat): nat
  {
    n * 16
  }

  function IovCells(iov: seq<Iovec>): (s: seq<Cell>)
    ensures |s| == IovSize(|iov|)
  {
    if iov == [] then [] else Frags(IovVal(iov[0]), IovSize(1)) + IovCells(iov[1..])
  }

  function SizeOf(r: Record): nat
  {
    match r
    case Vec(iov) => TYPE_SIZE + IovSize(|iov|)
    case SendFile(_, _, _) => TYPE_SIZE + SENDFILE_SIZE
    case Finalize(_, _) => TYPE_SIZE + FINALIZE_SIZE
  }

  function Encode(r: Record): (s: seq<Cell>)
    ensures |s| == SizeOf(r)
  {
    match r
    case Vec(iov) => Frags(TypeVal(TypeWord(|iov|)), TYPE_SIZE) + IovCells(iov)
    case SendFile(infd, off, len) =>
      Frags(TypeVal(XF_SENDFILE), TYPE_SIZE) + Frags(FileVal(infd, off, len), SENDFILE_SIZE)
    case Finalize(fn, user) =>
      Frags(TypeVal(XF_FINALIZE), TYPE_SIZE) + Frags(FinVal(fn, user), FINALIZE_SIZE)
  }

  function EncodeAll(rs: seq<Record>): seq<Cell>
  {
    if rs == [] then [] else Encode(rs[0]) + EncodeAll(rs[1..])
  }

  /** The vector length must survive the shift into the 32-bit type word. */
  predicate WellFormed(rs: seq<Record>)
  {
    forall r :: r in rs && r.Vec? ==> |r.iov| < 0x8000_0000
  }

  lemma {:induction false} EncodeConcat(a: seq<Record>, b: seq<Record>)
    ensures EncodeAll(a + b) == EncodeAll(a) + EncodeAll(b)
  {
    if a == [] {
      assert a + b == b;
    } else {
      EncodeConcat(a[1..], b);
      ConcatTail(a, b);
      ConcatAssoc(Encode(a[0]), EncodeAll(a[1..]), EncodeAll(b));
    }
  }

  /** Dropping i entries of a packed vector leaves the packing of the other entries. */
  lemma {:induction false} IovCellsDrop(iov: seq<Iovec>, i: nat)
    requires i <= |iov|
    ensures IovCells(iov)[IovSize(i)..] == IovCells(iov[i..])
  {
    if i == 0 {
      assert iov[0..] == iov;
    } else {
      IovCellsDrop(iov[1..], i - 1);
      assert iov[1..][i - 1..] == iov[i..];
      var rest := IovCells(iov[1..]);
      assert IovCells(iov)[IovSize(i)..] == rest[IovSize(i - 1)..];
    }
  }

  lemma {:induction false} IovCellsEqual(a: seq<Iovec>, b: seq<Iovec>)
    requires IovCells(a) == IovCells(b)
    ensures a == b
  {
    assert |a| == |b|;
    if a != [] {
      assert IovCells(a)[0] == Frag(IovVal(a[0]), 0);
      assert IovCells(b)[0] == Frag(IovVal(b[0]), 0);
      assert IovCells(a)[IovSize(1)..] == IovCells(a[1..]);
      assert IovCells(b)[IovSize(1)..] == IovCells(b[1..]);
      IovCellsEqual(a[1..], b[1..]);
    }
  }

  /** The type word alone tells how long a record is. */
  lemma TypeTellsSize(q: Record, r: Record)
    requires WellFormed([q]) && WellFormed([r]) && Encode(q)[0] == Encode(r)[0]
    ensures SizeOf(q) == SizeOf(r) && q.Vec? == r.Vec? && q.SendFile? == r.SendFile?
  {
    assert q in [q] && r in [r];
    if q.Vec? {
      TypeWordExact(|q.iov|);
    }
    if r.Vec? {
      TypeWordExact(|r.iov|);
    }
  }

  lemma EncodeOneInjective(q: Record, r: Record)
    requires q.Vec? == r.Vec? && q.SendFile? == r.SendFile? && Encode(q) == Encode(r)
    ensures q == r
  {
    match q {
      case Vec(iov) =>
        assert IovCells(iov) == Encode(q)[TYPE_SIZE..];
        assert IovCells(r.iov) == Encode(r)[TYPE_SIZE..];
        IovCellsEqual(iov, r.iov);
      case SendFile(infd, off, len) =>
        assert Encode(q)[TYPE_SIZE] == Frag(FileVal(infd, off, len), 0);
      case Finalize(fn, user) =>
        assert Encode(q)[TYPE_SIZE] == Frag(FinVal(fn, user), 0);
    }
  }

  /** The first record of a packed queue can be told from the cells alone. */
  lemma FirstRecordEqual(q: Record, qs: seq<Cell>, r: Record, rs: seq<Cell>)
    requires WellFormed([q]) && WellFormed([r])
    requires Encode(q) + qs == Encode(r) + rs
    ensures q == r && qs == rs
  {
    assert Encode(q)[0] == (Encode(q) + qs)[0];
    assert Encode(r)[0] == (Encode(r) + rs)[0];
    TypeTellsSize(q, r);
    SplitEqual(Encode(q), qs, Encode(r), rs);
    EncodeOneInjective(q, r);
  }

  /** A packed buffer decodes in one way only: two queues with the same cells are the same queue. */
  lemma {:induction false} EncodeInjective(a: seq<Record>, b: seq<Record>)
    requires WellFormed(a) && WellFormed(b) && EncodeAll(a) == EncodeAll(b)
    ensures a == b
  {
    if a == [] || b == [] {
      assert a == [] && b == [];
    } else {
      assert a[0] in a && b[0] in b;
      FirstRecordEqual(a[0], EncodeAll(a[1..]), b[0], EncodeAll(b[1..]));
      EncodeInjective(a[1..], b[1..]);
    }
  }

  // ------------------------------------------------------------ raw memory

  /** t is s after cells were stored at an offset. */
  predicate Stored(s: seq<Cell>, t: seq<Cell>, at: nat, cells: seq<Cell>)
  {
    && at + |cells| <= |s| == |t|
    && (forall k :: at <= k < at + |cells| ==> t[k] == cells[k - at])
    && (forall k :: 0 <= k < |s| && !(at <= k < at + |cells|) ==> t[k] == s[k])
  }

  /** memmove towards lower addresses; source and destination may overlap. */
  method MemMove(a: array<Cell>, dst: nat, src: nat, n: nat)
    requires dst <= src && src + n <= a.Length
    modifies a
    ensures Stored(old(a[..]), a[..], dst, old(a[..])[src..src + n])
  {
    ghost var s, cells := a[..], a[..][src..src + n];
    var j := 0;
    while j < n
      invariant 0 <= j <= n
      invariant forall k :: dst <= k < dst + j ==> a[k] == cells[k - dst]
      invariant forall k :: 0 <= k < a.Length && !(dst <= k < dst + j) ==> a[k] == s[k]
    {
      assert a[src + j] == s[src + j] == cells[j];
      a[dst + j] := a[src + j];
      j := j + 1;
    }
  }

  /** Stores a value of n bytes. */
  method Store(a: array<Cell>, at: nat, v: Val, n: nat)
    requires at + n <= a.Length
    modifies a
    ensures Stored(old(a[..]), a[..], at, Frags(v, n))
  {
    var j := 0;
    while j < n
      invariant j <= n
      invariant forall k :: at <= k < at + j ==> a[k] == Frag(v, k - at)
      invariant forall k :: 0 <= k < a.Length && !(at <= k < at + j) ==> a[k] == old(a[k])
    {
      a[at + j] := Frag(v, j);
      j := j + 1;
    }
  }
}
