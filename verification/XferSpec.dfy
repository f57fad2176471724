/**
 * The output records of mpsrc/wavy_out.cc as values, and what draining a
 * sequence of them does under an arbitrary, contract-abiding kernel.
 *
 * A byte is identified by where it comes from (a memory address, or an offset
 * of a file), so equal items are equal bytes as long as queued memory and
 * files stay fixed.
 */
module XferSpec {
  import opened Sequences

  datatype Iovec = Iovec(base: nat, len: nat)

  datatype Record =
    | Vec(iov: seq<Iovec>)
    | SendFile(infd: int, off: nat, len: nat)
    | Finalize(fn: nat, user: nat)  // fn == 0 is the null function pointer

  /** One observable unit of output: a byte, or the run of a finalizer. */
  datatype Item =
    | MemByte(addr: nat)
    | FileByte(infd: int, off: nat)
    | Final(fn: nat, user: nat)

  /** What a write system call reports. */
  datatype Answer =
    | Ret(n: nat)    // accepted n bytes; zero is a failure to this code
    | Retry          // EAGAIN or EINTR
    | Fail           // any other errno

  datatype Outcome = Outcome(rest: seq<Record>, trace: seq<Item>, cont: bool)

  function MemBytes(base: nat, len: nat): (s: seq<Item>)
    ensures |s| == len
  {
    seq(len, (k: nat) => MemByte(base + k))
  }

  function FileBytes(infd: int, off: nat, len: nat): (s: seq<Item>)
    ensures |s| == len
  {
    seq(len, (k: nat) => FileByte(infd, off + k))
  }

  function VecBytes(iov: seq<Iovec>): seq<Item>
  {
    if iov == [] then [] else MemBytes(iov[0].base, iov[0].len) + VecBytes(iov[1..])
  }

  /** The items a record stands for. */
  function StreamOf(r: Record): seq<Item>
  {
    match r
    case Vec(iov) => VecBytes(iov)
    case SendFile(infd, off, len) => FileBytes(infd, off, len)
    case Finalize(fn, user) => if fn == 0 then [] else [Final(fn, user)]
  }

  /** The items a queue stands for, in order. */
  function Stream(rs: seq<Record>): seq<Item>
  {
    if rs == [] then [] else StreamOf(rs[0]) + Stream(rs[1..])
  }

  /** The i-th answer of the kernel; a kernel with nothing more to say blocks. */
  function AnswerAt(answers: seq<Answer>, i: nat): Answer
  {
    if i < |answers| then answers[i] else Retry
  }

  /** A call for `req` bytes accepts at most `req`, and zero counts as failure. */
  function Effective(a: Answer, req: nat): (r: Answer)
    ensures r.Ret? ==> 1 <= r.n <= req
  {
    match a
    case Ret(n) =>
      var m := if n <= req then n else req;
      if m == 0 then Fail else Ret(m)
    case _ => a
  }

  /** The entries still to be sent once `wl` bytes of the vector are gone. */
  function Advance(iov: seq<Iovec>, wl: nat): seq<Iovec>
  {
    if iov == [] then []
    else if wl >= iov[0].len then Advance(iov[1..], wl - iov[0].len)
    else [Iovec(iov[0].base + wl, iov[0].len - wl)] + iov[1..]
  }

  /** What one attempt on one record comes to. */
  datatype Attempt =
    | Whole(calls: nat)                        // the record is finished
    | Cut(left: Record, sent: seq<Item>)       // partly sent, `left` remains
    | Stuck(retry: bool)                       // nothing was sent

  function Attempted(r: Record, a: Answer): Attempt
  {
    match r
    case Finalize(_, _) => Whole(0)
    case SendFile(infd, off, len) =>
      (match Effective(a, len)
       case Retry => Stuck(true)
       case Fail => Stuck(false)
       case Ret(wl) =>
         if wl < len then Cut(SendFile(infd, off + wl, len - wl), FileBytes(infd, off, wl))
         else Whole(1))
    case Vec(iov) =>
      (match Effective(a, |VecBytes(iov)|)
       case Retry => Stuck(true)
       case Fail => Stuck(false)
       case Ret(wl) =>
         var left := Advance(iov, wl);
         if left != [] then Cut(Vec(left), VecBytes(iov)[..wl]) else Whole(1))
  }

  /** Sends records in order until the kernel stops accepting; `i` calls were made before. */
  function Drain(rs: seq<Record>, answers: seq<Answer>, i: nat): Outcome
    decreases |rs|
  {
    if rs == [] then Outcome([], [], false)
    else match Attempted(rs[0], AnswerAt(answers, i))
      case Stuck(retry) => Outcome(rs, [], retry)
      case Cut(left, sent) => Outcome([left] + rs[1..], sent, true)
      case Whole(calls) =>
        var o := Drain(rs[1..], answers, i + calls);
        Outcome(o.rest, StreamOf(rs[0]) + o.trace, o.cont)
  }

  lemma {:induction false} StreamConcat(a: seq<Record>, b: seq<Record>)
    ensures Stream(a + b) == Stream(a) + Stream(b)
  {
    if a == [] {
      assert a + b == b;
    } else {
      StreamConcat(a[1..], b);
      ConcatTail(a, b);
      ConcatAssoc(StreamOf(a[0]), Stream(a[1..]), Stream(b));
    }
  }

  /** Advancing a vector drops exactly the bytes that were sent. */
  lemma {:induction false} AdvanceDropsSent(iov: seq<Iovec>, wl: nat)
    requires wl <= |VecBytes(iov)|
    ensures VecBytes(iov)[wl..] == VecBytes(Advance(iov, wl))
    ensures |Advance(iov, wl)| <= |iov|
    ensures Advance(iov, wl) == [] ==> wl == |VecBytes(iov)|
  {
    if iov != [] {
      var h := MemBytes(iov[0].base, iov[0].len);
      assert VecBytes(iov) == h + VecBytes(iov[1..]);
      if wl >= iov[0].len {
        AdvanceDropsSent(iov[1..], wl - iov[0].len);
      } else {
        var cut := Advance(iov, wl);
        assert cut[1..] == iov[1..];
        assert MemBytes(iov[0].base + wl, iov[0].len - wl) == h[wl..];
      }
    }
  }

  /** A partial write splits the record's items at the point it reached. */
  lemma CutConserves(r: Record, a: Answer)
    requires Attempted(r, a).Cut?
    ensures StreamOf(r) == Attempted(r, a).sent + StreamOf(Attempted(r, a).left)
  {
    var c := Attempted(r, a);
    match r {
      case SendFile(infd, off, len) =>
        var wl := |c.sent|;
        assert FileBytes(infd, off, len) == FileBytes(infd, off, wl) + FileBytes(infd, off + wl, len - wl);
      case Vec(iov) =>
        var wl := |c.sent|;
        AdvanceDropsSent(iov, wl);
        assert VecBytes(iov) == VecBytes(iov)[..wl] + VecBytes(iov)[wl..];
      case Finalize(_, _) =>
    }
  }

  /**
   * However the kernel splits the writes, what was done followed by what is
   * left is what there was: nothing is lost, repeated or reordered. A drain
   * that wants to continue has something left to send.
   */
  lemma {:induction false} DrainConserves(rs: seq<Record>, answers: seq<Answer>, i: nat)
    ensures Stream(rs) == Drain(rs, answers, i).trace + Stream(Drain(rs, answers, i).rest)
    ensures Drain(rs, answers, i).cont ==> Drain(rs, answers, i).rest != []
    decreases |rs|
  {
    if rs != [] {
      var o := Drain(rs, answers, i);
      var a := Attempted(rs[0], AnswerAt(answers, i));
      match a {
        case Stuck(_) =>
        case Cut(left, sent) =>
          CutConserves(rs[0], AnswerAt(answers, i));
          assert o.rest[1..] == rs[1..];
          ConcatAssoc(sent, StreamOf(left), Stream(rs[1..]));
        case Whole(calls) =>
          DrainConserves(rs[1..], answers, i + calls);
          var tail := Drain(rs[1..], answers, i + calls);
          ConcatAssoc(StreamOf(rs[0]), tail.trace, Stream(tail.rest));
      }
    }
  }

  predicate IsByte(x: Item) { !x.Final? }

  /** The bytes of an item stream, without the finalizers. */
  function Bytes(s: seq<Item>): seq<Item>
  {
    if s == [] then [] else (if IsByte(s[0]) then [s[0]] else []) + Bytes(s[1..])
  }

  /** The finalizers of an item stream, in order. */
  function Finals(s: seq<Item>): seq<Item>
  {
    if s == [] then [] else (if IsByte(s[0]) then [] else [s[0]]) + Finals(s[1..])
  }

  lemma {:induction false} BytesConcat(a: seq<Item>, b: seq<Item>)
    ensures Bytes(a + b) == Bytes(a) + Bytes(b)
  {
    if a == [] {
      assert a + b == b;
    } else {
      BytesConcat(a[1..], b);
      ConcatTail(a, b);
      ConcatAssoc(if IsByte(a[0]) then [a[0]] else [], Bytes(a[1..]), Bytes(b));
    }
  }

  lemma {:induction false} FinalsConcat(a: seq<Item>, b: seq<Item>)
    ensures Finals(a + b) == Finals(a) + Finals(b)
  {
    if a == [] {
      assert a + b == b;
    } else {
      FinalsConcat(a[1..], b);
      ConcatTail(a, b);
      ConcatAssoc(if IsByte(a[0]) then [] else [a[0]], Finals(a[1..]), Finals(b));
    }
  }
}
