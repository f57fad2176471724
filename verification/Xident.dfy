/**
 * The ident allocator of the kqueue kernel: slots claimed by compare-and-swap
 * along a shared 32-bit counter that wraps.
 */
module Xident {

  const COUNTER_MODULUS: nat := 0x1_0000_0000

  /** The slot the k-th probe of a scan looks at, when the scan starts with the counter at start. */
  function Probe(start: nat, k: nat, n: nat): (x: nat)
    requires n > 0
    ensures x < n
  {
    ((start + k) % COUNTER_MODULUS) % n
  }

  /** A quotient and a remainder in range are the quotient and the remainder. */
  lemma RemainderUnique(a: nat, q: nat, r: nat, n: nat)
    requires r < n && a == q * n + r
    ensures a % n == r
  {
    var p, t := a / n, a % n;
    assert a == p * n + t;
    if q > p {
      assert (q - p) * n == q * n - p * n;
      AtLeastOnce(q - p, n);
    } else if p > q {
      assert (p - q) * n == p * n - q * n;
      AtLeastOnce(p - q, n);
    }
  }

  lemma AtLeastOnce(d: nat, n: nat)
    requires d > 0
    ensures d * n >= n
  {
    assert d * n == (d - 1) * n + n;
  }

  /** Counting up from a reaches every residue within n steps. */
  lemma CyclicHit(a: nat, x: nat, n: nat) returns (k: nat)
    requires x < n
    ensures k < n && (a + k) % n == x
  {
    var q, r := a / n, a % n;
    assert a == q * n + r;
    if r <= x {
      k := x - r;
      RemainderUnique(a + k, q, x, n);
    } else {
      k := n - r + x;
      assert (q + 1) * n == q * n + n;
      RemainderUnique(a + k, q + 1, x, n);
    }
  }

  /**
   * 2n probes look at every slot, even when the counter wraps on the way and n
   * does not divide its modulus: one side of the wrap is n values long.
   */
  lemma ScanCovers(start: nat, x: nat, n: nat) returns (k: nat)
    requires start < COUNTER_MODULUS && x < n && 2 * n <= COUNTER_MODULUS
    ensures k < 2 * n && Probe(start, k, n) == x
  {
    if start + n <= COUNTER_MODULUS {
      k := CyclicHit(start, x, n);
      assert (start + k) % COUNTER_MODULUS == start + k;
    } else {
      k := COUNTER_MODULUS - start + x;
      assert (start + k) % COUNTER_MODULUS == x;
      RemainderUnique(x, 0, x, n);
    }
  }

  class Idents {
    const fdmax: nat
    const slots: array<bool>   // m_xident
    var index: nat             // m_xident_index

    ghost predicate Valid()
      reads this
    {
      0 < slots.Length && 2 * slots.Length <= COUNTER_MODULUS && index < COUNTER_MODULUS
    }

    constructor (fdmax: nat, n: nat)
      requires 0 < n && 2 * n <= COUNTER_MODULUS
      ensures Valid() && this.fdmax == fdmax && slots.Length == n && fresh(slots)
      ensures forall x :: 0 <= x < n ==> !slots[x]
    {
      this.fdmax := fdmax;
      slots := new bool[n](_ => false);
      index := 0;
    }

    function Max(): nat
    {
      fdmax + slots.Length
    }

    /** Run alone: claims one free slot and nothing else, and fails only when there is none. */
    method AllocXident() returns (xident: int)
      requires Valid()
      modifies this`index, slots
      ensures Valid()
      ensures xident == -1 <==> forall x :: 0 <= x < slots.Length ==> old(slots[x])
      ensures xident == -1 ==> slots[..] == old(slots[..])
      ensures xident != -1 ==> fdmax <= xident < Max() && !old(slots[xident - fdmax])
      ensures xident != -1 ==> slots[..] == old(slots[..])[xident - fdmax := true]
    {
      var n := slots.Length;
      ghost var start := index;
      var i := 0;
      while i < 2 * n
        invariant 0 <= i <= 2 * n && Valid()
        invariant index == (start + i) % COUNTER_MODULUS
        invariant slots[..] == old(slots[..])
        invariant forall k :: 0 <= k < i ==> slots[Probe(start, k, n)]
      {
        var x := index % n;
        assert x == Probe(start, i, n);
        index := (index + 1) % COUNTER_MODULUS;
        Advanced(start, i);
        if !slots[x] {
          slots[x] := true;
          return fdmax + x;
        }
        i := i + 1;
      }
      forall x | 0 <= x < n ensures slots[x] {
        var k := ScanCovers(start, x, n);
        assert slots[Probe(start, k, n)];
      }
      return -1;
    }

    /** Releases a taken ident; says no to one that is not taken. */
    method FreeXident(xident: int) returns (ok: bool)
      requires Valid() && fdmax <= xident < Max()
      modifies slots
      ensures ok == old(slots[xident - fdmax])
      ensures slots[..] == old(slots[..])[xident - fdmax := false]
    {
      var x := xident - fdmax;
      if slots[x] {
        slots[x] := false;
        return true;
      }
      return false;
    }
  }

  lemma Advanced(start: nat, i: nat)
    ensures ((start + i) % COUNTER_MODULUS + 1) % COUNTER_MODULUS == (start + i + 1) % COUNTER_MODULUS
  {
  }

  // ------------------------------------------------------------ interleavings

  /** One use of the allocator: a call in progress, or the ident it got. */
  datatype Use =
    | Unused
    | Scanning(i: nat)            // about to fetch-and-add
    | Probing(i: nat, x: nat)     // fetched, about to compare-and-swap
    | Failed
    | Holding(x: nat)
    | Freeing(x: nat)             // read the flag as set, about to clear it

  datatype State = State(taken: seq<bool>, index: nat, uses: seq<Use>)

  datatype Action = Begin(t: nat) | Fetch(t: nat) | Cas(t: nat) | FreeRead(t: nat) | FreeWrite(t: nat)

  predicate Enabled(s: State, a: Action)
  {
    && a.t < |s.uses|
    && match a
       case Begin(t) => s.uses[t].Unused? || s.uses[t].Failed?
       case Fetch(t) => s.uses[t].Scanning?
       case Cas(t) => s.uses[t].Probing? && s.uses[t].x < |s.taken|
       case FreeRead(t) => s.uses[t].Holding? && s.uses[t].x < |s.taken|
       case FreeWrite(t) => s.uses[t].Freeing? && s.uses[t].x < |s.taken|
  }

  function Apply(s: State, a: Action): State
    requires Enabled(s, a)
  {
    match a
    case Begin(t) => s.(uses := s.uses[t := Scanning(0)])
    case Fetch(t) =>
      var i := s.uses[t].i;
      if i < 2 * |s.taken| then
        s.(index := (s.index + 1) % COUNTER_MODULUS, uses := s.uses[t := Probing(i, s.index % |s.taken|)])
      else s.(uses := s.uses[t := Failed])
    case Cas(t) =>
      var x := s.uses[t].x;
      if s.taken[x] then s.(uses := s.uses[t := Scanning(s.uses[t].i + 1)])
      else s.(taken := s.taken[x := true], uses := s.uses[t := Holding(x)])
    case FreeRead(t) =>
      if s.taken[s.uses[t].x] then s.(uses := s.uses[t := Freeing(s.uses[t].x)]) else s.(uses := s.uses[t := Unused])
    case FreeWrite(t) => s.(taken := s.taken[s.uses[t].x := false], uses := s.uses[t := Unused])
  }

  predicate Owns(u: Use, x: nat)
  {
    (u.Holding? || u.Freeing?) && u.x == x
  }

  predicate UseOk(s: State, u: Use)
  {
    (u.Probing? || u.Holding? || u.Freeing?) ==> u.x < |s.taken|
  }

  /** A slot is taken iff exactly one use owns it. */
  predicate Exact(s: State)
  {
    && (forall t :: 0 <= t < |s.uses| ==> UseOk(s, s.uses[t]))
    && (forall t, x :: 0 <= t < |s.uses| && 0 <= x < |s.taken| && Owns(s.uses[t], x) ==> s.taken[x])
    && (forall t, u, x :: 0 <= t < u < |s.uses| && 0 <= x < |s.taken| && Owns(s.uses[t], x) ==> !Owns(s.uses[u], x))
    && (forall x :: 0 <= x < |s.taken| && s.taken[x] ==> exists t :: 0 <= t < |s.uses| && Owns(s.uses[t], x))
  }

  predicate Init(s: State)
  {
    && s.index < COUNTER_MODULUS
    && (forall x :: 0 <= x < |s.taken| ==> !s.taken[x])
    && (forall t :: 0 <= t < |s.uses| ==> s.uses[t].Unused?)
  }

  predicate IsRun(tr: seq<State>, acts: seq<Action>)
  {
    && |tr| == |acts| + 1 && Init(tr[0])
    && (forall k :: 0 <= k < |acts| ==> Enabled(tr[k], acts[k]) && tr[k + 1] == Apply(tr[k], acts[k]))
  }

  lemma ExactCas(s: State, t: nat)
    requires Exact(s) && Enabled(s, Cas(t))
    ensures Exact(Apply(s, Cas(t)))
  {
    var v := Apply(s, Cas(t));
    forall x | 0 <= x < |v.taken| && v.taken[x] ensures exists u :: 0 <= u < |v.uses| && Owns(v.uses[u], x) {
      if s.taken[x] {
        var u :| 0 <= u < |s.uses| && Owns(s.uses[u], x);
        assert Owns(v.uses[u], x);
      } else {
        assert Owns(v.uses[t], x);
      }
    }
  }

  lemma ExactFree(s: State, t: nat, a: Action)
    requires Exact(s) && Enabled(s, a) && a.t == t && (a.FreeRead? || a.FreeWrite?)
    ensures Exact(Apply(s, a))
  {
    var v := Apply(s, a);
    assert Owns(s.uses[t], s.uses[t].x);
    forall x | 0 <= x < |v.taken| && v.taken[x] ensures exists u :: 0 <= u < |v.uses| && Owns(v.uses[u], x) {
      var u :| 0 <= u < |s.uses| && Owns(s.uses[u], x);
      assert Owns(v.uses[u], x);
    }
  }

  lemma ExactScan(s: State, a: Action)
    requires Exact(s) && Enabled(s, a) && (a.Begin? || a.Fetch?)
    ensures Exact(Apply(s, a))
  {
    var v := Apply(s, a);
    forall x | 0 <= x < |v.taken| && v.taken[x] ensures exists u :: 0 <= u < |v.uses| && Owns(v.uses[u], x) {
      var u :| 0 <= u < |s.uses| && Owns(s.uses[u], x);
      assert Owns(v.uses[u], x);
    }
  }

  lemma {:induction false} ExactRun(tr: seq<State>, acts: seq<Action>, n: nat)
    requires IsRun(tr, acts) && n < |tr|
    ensures Exact(tr[n])
  {
    if n > 0 {
      ExactRun(tr, acts, n - 1);
      var s, a := tr[n - 1], acts[n - 1];
      match a {
        case Cas(t) => ExactCas(s, t);
        case FreeRead(t) => ExactFree(s, t, a);
        case FreeWrite(t) => ExactFree(s, t, a);
        case Begin(_) => ExactScan(s, a);
        case Fetch(_) => ExactScan(s, a);
      }
    }
  }

  // ------------------------------------------------------------ a use that runs alone

  /** Only t moves from the n-th state to the m-th, and only within its call. */
  predicate Alone(acts: seq<Action>, n: nat, m: nat, t: nat)
  {
    forall k :: n <= k < m && k < |acts| ==> acts[k] == Fetch(t) || acts[k] == Cas(t)
  }

  /** What a call that has run alone has found so far: it has probed i slots in order, all taken. */
  predicate Probed(s0: State, s: State, t: nat, steps: nat)
    requires t < |s.uses| && 0 < |s.taken| == |s0.taken|
  {
    match s.uses[t]
    case Scanning(i) =>
      && s.taken == s0.taken && steps == 2 * i && i <= 2 * |s.taken| && s.index == (s0.index + i) % COUNTER_MODULUS
      && (forall k :: 0 <= k < i ==> s0.taken[Probe(s0.index, k, |s.taken|)])
    case Probing(i, x) =>
      && s.taken == s0.taken && steps == 2 * i + 1 && i < 2 * |s.taken| && s.index == (s0.index + i + 1) % COUNTER_MODULUS
      && x == Probe(s0.index, i, |s.taken|)
      && (forall k :: 0 <= k < i ==> s0.taken[Probe(s0.index, k, |s.taken|)])
    case Holding(x) => x < |s.taken| && !s0.taken[x] && s.taken == s0.taken[x := true] && steps <= 4 * |s.taken|
    case Failed =>
      s.taken == s0.taken && steps == 4 * |s.taken| + 1
      && (forall k :: 0 <= k < 2 * |s.taken| ==> s0.taken[Probe(s0.index, k, |s.taken|)])
    case _ => false
  }

  lemma ProbedStep(s0: State, s: State, t: nat, steps: nat, a: Action)
    requires t < |s.uses| && 0 < |s.taken| == |s0.taken| && Probed(s0, s, t, steps)
    requires (a == Fetch(t) || a == Cas(t)) && Enabled(s, a) && s0.index < COUNTER_MODULUS
    ensures |Apply(s, a).uses| == |s.uses| && |Apply(s, a).taken| == |s.taken| && Probed(s0, Apply(s, a), t, steps + 1)
  {
    if a.Fetch? {
      Advanced(s0.index, s.uses[t].i);
    }
  }

  lemma {:induction false} ProbedRun(tr: seq<State>, acts: seq<Action>, n: nat, m: nat, t: nat)
    requires IsRun(tr, acts) && n <= m < |tr| && t < |tr[n].uses| && 0 < |tr[n].taken| && tr[n].index < COUNTER_MODULUS
    requires tr[n].uses[t] == Scanning(0) && Alone(acts, n, m, t)
    ensures |tr[m].uses| == |tr[n].uses| && |tr[m].taken| == |tr[n].taken|
    ensures Probed(tr[n], tr[m], t, m - n)
    decreases m - n
  {
    if n < m {
      ProbedRun(tr, acts, n, m - 1, t);
      ProbedStep(tr[n], tr[m - 1], t, m - 1 - n, acts[m - 1]);
    }
  }

  /**
   * A call that runs alone ends within 4N + 1 steps; it then holds a slot that was
   * free and takes no other, or has failed, which happens iff all slots are taken.
   */
  lemma AloneFinds(tr: seq<State>, acts: seq<Action>, n: nat, m: nat, t: nat)
    requires IsRun(tr, acts) && n <= m < |tr| && t < |tr[n].uses| && t < |tr[m].uses|
    requires 0 < |tr[n].taken| && 2 * |tr[n].taken| <= COUNTER_MODULUS && tr[n].index < COUNTER_MODULUS
    requires tr[n].uses[t] == Scanning(0) && Alone(acts, n, m, t)
    ensures m - n <= 4 * |tr[n].taken| + 1
    ensures m - n == 4 * |tr[n].taken| + 1 ==> tr[m].uses[t].Failed?
    ensures tr[m].uses[t].Failed? ==> tr[m].taken == tr[n].taken && forall x :: 0 <= x < |tr[n].taken| ==> tr[n].taken[x]
    ensures tr[m].uses[t].Holding? ==>
              var x := tr[m].uses[t].x; x < |tr[n].taken| && !tr[n].taken[x] && tr[m].taken == tr[n].taken[x := true]
    ensures tr[m].uses[t].Scanning? || tr[m].uses[t].Probing? || tr[m].uses[t].Failed? || tr[m].uses[t].Holding?
    ensures tr[m].uses[t].Scanning? ==> Enabled(tr[m], Fetch(t))
    ensures tr[m].uses[t].Probing? ==> Enabled(tr[m], Cas(t))
  {
    ProbedRun(tr, acts, n, m, t);
    var s0, size := tr[n], |tr[n].taken|;
    if tr[m].uses[t].Failed? {
      forall x | 0 <= x < size ensures s0.taken[x] {
        var k := ScanCovers(s0.index, x, size);
        assert s0.taken[Probe(s0.index, k, size)];
      }
    }
  }

  /** Under every interleaving two live holders have different idents, and each ident is in range. */
  lemma HoldersDiffer(tr: seq<State>, acts: seq<Action>, n: nat, t: nat, u: nat, fdmax: nat)
    requires IsRun(tr, acts) && n < |tr| && t < |tr[n].uses| && u < |tr[n].uses| && t != u
    requires tr[n].uses[t].Holding? && tr[n].uses[u].Holding?
    ensures tr[n].uses[t].x != tr[n].uses[u].x
    ensures fdmax <= fdmax + tr[n].uses[t].x < fdmax + |tr[n].taken|
  {
    ExactRun(tr, acts, n);
    assert Owns(tr[n].uses[t], tr[n].uses[t].x) && UseOk(tr[n], tr[n].uses[t]);
    if t < u {
      assert !Owns(tr[n].uses[u], tr[n].uses[t].x);
    } else {
      assert Owns(tr[n].uses[u], tr[n].uses[u].x);
    }
  }
}
