/**
 * sparse_array: pages of 64 slots, each with an enable flag and room for one
 * object. Objects are numbered in the order of their construction.
 */
module SparseArray {

  const PAGE: nat := 64  // EXTEND_ARRAY_SIZE

  datatype Slot = Slot(enable: bool, obj: nat)

  datatype Option<T> = None | Some(value: T)

  // ------------------------------------------------------------ indices

  function At(i: nat, k: nat): nat { i * 64 + k }

  function PageOf(x: nat): nat { x / 64 }

  function OffsetOf(x: nat): (k: nat) ensures k < PAGE { x % 64 }

  /** A page number and an offset determine an index, and the other way round. */
  lemma AtUnique(x: nat, i: nat, k: nat)
    requires k < PAGE
    ensures At(PageOf(x), OffsetOf(x)) == x
    ensures At(i, k) == x <==> i == PageOf(x) && k == OffsetOf(x)
  {
  }

  // ------------------------------------------------------------ object accounts

  predicate Holds(live: map<nat, nat>, o: nat)
  {
    exists x :: x in live && live[x] == o
  }

  /** Every object built so far is held at one index, or was destroyed once. */
  predicate Balanced(live: map<nat, nat>, built: nat, destroyed: seq<nat>)
  {
    && (forall x :: x in live ==> live[x] < built && live[x] !in destroyed)
    && (forall x, y :: x in live && y in live && x != y ==> live[x] != live[y])
    && (forall k :: 0 <= k < |destroyed| ==> destroyed[k] < built)
    && (forall j, k :: 0 <= j < k < |destroyed| ==> destroyed[j] != destroyed[k])
    && (forall o :: 0 <= o < built ==> o in destroyed || Holds(live, o))
  }

  lemma BalancedDestroy(live: map<nat, nat>, built: nat, destroyed: seq<nat>, x: nat)
    requires Balanced(live, built, destroyed) && x in live
    ensures Balanced(live - {x}, built, destroyed + [live[x]])
  {
    var less, more := live - {x}, destroyed + [live[x]];
    forall o | 0 <= o < built ensures o in more || Holds(less, o) {
      if o in destroyed {
        assert o in more;
      } else if o != live[x] {
        var y :| y in live && live[y] == o;
        assert y in less && less[y] == o;
      } else {
        assert more[|destroyed|] == o;
      }
    }
  }

  lemma BalancedBuild(live: map<nat, nat>, built: nat, destroyed: seq<nat>, x: nat)
    requires Balanced(live, built, destroyed) && x !in live
    ensures Balanced(live[x := built], built + 1, destroyed)
  {
    var now := live[x := built];
    forall o | 0 <= o < built + 1 ensures o in destroyed || Holds(now, o) {
      if o == built {
        assert x in now && now[x] == o;
      } else if o !in destroyed {
        var y :| y in live && live[y] == o;
        assert y in now && now[y] == o;
      }
    }
  }

  // ------------------------------------------------------------ slots

  /** What a slot must look like, given what its index holds. */
  predicate SlotOk(slot: Slot, x: nat, live: map<nat, nat>, pending: Option<nat>)
  {
    && (slot.enable <==> x in live || pending == Some(x))
    && (x in live ==> live[x] == slot.obj)
  }

  /** The slots and the map tell the same story at every index, beyond the capacity too. */
  predicate Agrees(slots: seq<seq<Slot>>, live: map<nat, nat>, pending: Option<nat>)
  {
    && (forall i :: 0 <= i < |slots| ==> |slots[i]| == PAGE)
    && (forall i, k :: 0 <= i < |slots| && 0 <= k < PAGE ==> SlotOk(slots[i][k], At(i, k), live, pending))
    && (forall x :: x in live ==> PageOf(x) < |slots|)
    && (pending.Some? ==> pending.value !in live && PageOf(pending.value) < |slots|)
  }

  lemma AgreesAt(slots: seq<seq<Slot>>, live: map<nat, nat>, pending: Option<nat>, x: nat)
    requires Agrees(slots, live, pending) && PageOf(x) < |slots|
    ensures SlotOk(slots[PageOf(x)][OffsetOf(x)], x, live, pending)
  {
    AtUnique(x, 0, 0);
    assert SlotOk(slots[PageOf(x)][OffsetOf(x)], At(PageOf(x), OffsetOf(x)), live, pending);
  }

  /** Changing one slot, and what is said about its index, to match. */
  lemma AgreesUpdate(slots: seq<seq<Slot>>, now: seq<seq<Slot>>, x: nat, slot: Slot,
                     live: map<nat, nat>, live': map<nat, nat>, pending: Option<nat>, pending': Option<nat>)
    requires Agrees(slots, live, pending) && PageOf(x) < |slots|
    requires now == slots[PageOf(x) := slots[PageOf(x)][OffsetOf(x) := slot]]
    requires live' - {x} == live - {x} && (pending == pending' || (pending in {None, Some(x)} && pending' in {None, Some(x)}))
    requires SlotOk(slot, x, live', pending') && (pending'.Some? ==> pending'.value !in live')
    ensures Agrees(now, live', pending')
  {
    forall i, k | 0 <= i < |now| && 0 <= k < PAGE ensures SlotOk(now[i][k], At(i, k), live', pending') {
      AtUnique(x, i, k);
      var y := At(i, k);
      assert SlotOk(slots[i][k], y, live, pending);
      if y != x {
        assert y in live' <==> y in live - {x};
        assert y in live' <==> y in live' - {x};
        if y in live' {
          assert live'[y] == (live' - {x})[y] == (live - {x})[y];
        }
      }
    }
    forall y | y in live' ensures PageOf(y) < |now| {
      if y != x {
        assert y in live' - {x};
      }
    }
  }

  /** No index below n holds an object. */
  predicate NoneBelow(live: map<nat, nat>, n: nat)
  {
    forall x :: x in live ==> n <= x
  }

  lemma BelowCapacity(slots: seq<seq<Slot>>, live: map<nat, nat>, pending: Option<nat>)
    requires Agrees(slots, live, pending)
    ensures forall x :: x in live ==> x < At(|slots|, 0)
  {
    forall x | x in live ensures x < At(|slots|, 0) {
      assert PageOf(x) < |slots|;
    }
  }

  lemma NoneLeft(slots: seq<seq<Slot>>, live: map<nat, nat>, pending: Option<nat>)
    requires Agrees(slots, live, pending) && NoneBelow(live, At(|slots|, 0))
    ensures live == map[]
  {
    BelowCapacity(slots, live, pending);
  }

  lemma SameRemoval(live: map<nat, nat>, x: nat)
    ensures (live - {x}) - {x} == live - {x}
  {
  }

  lemma SameUpdate(live: map<nat, nat>, x: nat, o: nat)
    ensures (live - {x})[x := o] == live[x := o]
  {
  }

  lemma SameSlot(slots: seq<seq<Slot>>, i: nat, k: nat)
    requires i < |slots| && k < |slots[i]|
    ensures slots[i := slots[i][k := slots[i][k]]] == slots
  {
    assert slots[i][k := slots[i][k]] == slots[i];
  }

  // ------------------------------------------------------------ the partial map

  datatype Op = SetOp(index: nat, throws: bool) | ResetOp(index: nat)

  /** What is held where, the number of objects built, and the destructor calls so far. */
  datatype Model = Model(live: map<nat, nat>, built: nat, destroyed: seq<nat>)

  /** A set replaces what was there, a throwing set and a reset leave nothing there. */
  function Updated(m: Model, op: Op): Model
  {
    var destroyed := m.destroyed + if op.index in m.live then [m.live[op.index]] else [];
    if op.SetOp? && !op.throws then Model(m.live[op.index := m.built], m.built + 1, destroyed)
    else Model(m.live - {op.index}, m.built, destroyed)
  }

  function UpdatedBy(m: Model, ops: seq<Op>): Model
    decreases |ops|
  {
    if ops == [] then m else UpdatedBy(Updated(m, ops[0]), ops[1..])
  }

  /** Only set indices are reset. */
  predicate LegalOps(m: Model, ops: seq<Op>)
    decreases |ops|
  {
    ops == [] || ((ops[0].ResetOp? ==> ops[0].index in m.live) && LegalOps(Updated(m, ops[0]), ops[1..]))
  }

  /** The latest operation on an index. */
  function LastOn(ops: seq<Op>, x: nat): Option<Op>
  {
    if ops == [] then None
    else
      var later := LastOn(ops[1..], x);
      if later.Some? then later else if ops[0].index == x then Some(ops[0]) else None
  }

  /** How many constructor calls returned. */
  function Successes(ops: seq<Op>): nat
  {
    if ops == [] then 0 else (if ops[0].SetOp? && !ops[0].throws then 1 else 0) + Successes(ops[1..])
  }

  /** An index is set iff the latest operation on it was a set whose constructor returned. */
  lemma {:induction false} SetIffLast(m: Model, ops: seq<Op>, x: nat)
    ensures var last := LastOn(ops, x);
            x in UpdatedBy(m, ops).live <==> if last.None? then x in m.live else last.value.SetOp? && !last.value.throws
    ensures LastOn(ops, x).None? && x in m.live ==> UpdatedBy(m, ops).live[x] == m.live[x]
    ensures UpdatedBy(m, ops).built == m.built + Successes(ops)
    decreases |ops|
  {
    if ops != [] {
      SetIffLast(Updated(m, ops[0]), ops[1..], x);
    }
  }

  class Sparse {
    var pages: seq<array<Slot>>       // base_array
    var built: nat                    // the number of the next object to be constructed
    ghost var live: map<nat, nat>     // which object each set index holds
    ghost var pending: Option<nat>    // the index whose slot set_impl enabled and no object occupies yet
    ghost var destroyed: seq<nat>     // the destructor calls, in order

    ghost function Slots(): (s: seq<seq<Slot>>)
      reads this, pages
      ensures |s| == |pages| && forall i :: 0 <= i < |s| ==> s[i] == pages[i][..]
    {
      seq(|pages|, i requires 0 <= i < |pages| reads this, pages => pages[i][..])
    }

    /** What holds even between set_impl and the constructor call. */
    ghost predicate Consistent()
      reads this, pages
    {
      && (forall i, j :: 0 <= i < j < |pages| ==> pages[i] != pages[j])
      && Agrees(Slots(), live, pending)
      && Balanced(live, built, destroyed)
    }

    ghost predicate Valid()
      reads this, pages
    {
      Consistent() && pending.None?
    }

    /** Pages are only ever added. */
    twostate predicate Extends()
      reads this
    {
      && |old(pages)| <= |pages|
      && (forall i :: 0 <= i < |old(pages)| ==> pages[i] == old(pages)[i])
      && (forall i :: |old(pages)| <= i < |pages| ==> fresh(pages[i]))
    }

    constructor ()
      ensures Valid() && live == map[] && built == 0 && destroyed == []
      ensures forall i :: 0 <= i < |pages| ==> fresh(pages[i])
    {
      pages, live, built, destroyed, pending := [], map[], 0, [], None;
      new;
      ExtendArray();
    }

    /** Adds a page of disabled slots. */
    method ExtendArray()
      requires Valid()
      modifies this`pages
      ensures Valid() && Extends() && |pages| == |old(pages)| + 1
    {
      var ex := new Slot[PAGE](_ => Slot(false, 0));
      ghost var s := Slots();
      pages := pages + [ex];
      forall i, k | 0 <= i < |pages| && 0 <= k < PAGE ensures SlotOk(Slots()[i][k], At(i, k), live, pending) {
        if i < |s| {
          assert Slots()[i] == s[i];
        } else {
          AtUnique(At(i, k), i, k);
        }
      }
    }

    method Capacity() returns (n: nat)
      requires Valid()
      ensures n == |pages| * PAGE && forall x :: x in live ==> x < n
    {
      n := |pages| * PAGE;
    }

    method Test(index: nat) returns (t: bool)
      requires Valid()
      ensures t <==> index in live
    {
      if |pages| * PAGE > index {
        AgreesAt(Slots(), live, pending, index);
        t := pages[PageOf(index)][OffsetOf(index)].enable;
      } else {
        t := false;
      }
    }

    method Get(index: nat) returns (o: Option<nat>)
      requires Valid()
      ensures o == if index in live then Some(live[index]) else None
    {
      if |pages| * PAGE > index {
        AgreesAt(Slots(), live, pending, index);
        var item := pages[PageOf(index)][OffsetOf(index)];
        if item.enable {
          return Some(item.obj);
        }
      }
      return None;
    }

    /** The first loop of set_impl: pages are added until the index is covered. */
    method Cover(index: nat)
      requires Valid()
      modifies this`pages
      ensures Valid() && PageOf(index) < |pages| && Extends()
    {
      while |pages| <= PageOf(index)
        invariant Valid() && Extends()
        decreases PageOf(index) - |pages|
      {
        ExtendArray();
      }
    }

    /** One slot of one page is written. */
    method WriteSlot(index: nat, slot: Slot)
      requires PageOf(index) < |pages| && (forall i :: 0 <= i < |pages| ==> pages[i].Length == PAGE)
      requires forall i, j :: 0 <= i < j < |pages| ==> pages[i] != pages[j]
      modifies pages[PageOf(index)]
      ensures Slots() == old(Slots())[PageOf(index) := old(Slots())[PageOf(index)][OffsetOf(index) := slot]]
    {
      pages[PageOf(index)][OffsetOf(index)] := slot;
    }

    /** set_impl: enables the slot, destroying the object it holds if it was enabled already. */
    method SetImpl(index: nat)
      requires Valid() && PageOf(index) < |pages|
      modifies this`live, this`pending, this`destroyed, pages[PageOf(index)]
      ensures Consistent() && pending == Some(index)
      ensures live == old(live) - {index}
      ensures destroyed == old(destroyed) + if index in old(live) then [old(live)[index]] else []
    {
      ghost var s := Slots();
      AgreesAt(s, live, pending, index);
      SameRemoval(live, index);
      var item := pages[PageOf(index)][OffsetOf(index)];
      if item.enable {
        BalancedDestroy(live, built, destroyed, index);
        destroyed := destroyed + [item.obj];
        SameSlot(s, PageOf(index), OffsetOf(index));
      } else {
        WriteSlot(index, Slot(true, item.obj));
        assert live - {index} == live;
      }
      AgreesUpdate(s, Slots(), index, Slot(true, item.obj), live, live - {index}, None, Some(index));
      live, pending := live - {index}, Some(index);
    }

    /** Placement new returned: the slot holds the new object. */
    method Construct(index: nat)
      requires Consistent() && pending == Some(index)
      modifies this`live, this`built, this`pending, pages[PageOf(index)]
      ensures Valid() && live == old(live)[index := old(built)] && built == old(built) + 1
    {
      ghost var s, was := Slots(), live;
      BalancedBuild(live, built, destroyed, index);
      WriteSlot(index, Slot(true, built));
      live, pending := live[index := built], None;
      built := built + 1;
      assert live - {index} == was - {index};
      AgreesUpdate(s, Slots(), index, Slot(true, built - 1), was, live, Some(index), None);
    }

    /** The constructor threw: the slot is disabled again. */
    method Revert(index: nat)
      requires Consistent() && pending == Some(index)
      modifies this`pending, pages[PageOf(index)]
      ensures Valid()
    {
      ghost var s := Slots();
      var slot := Slot(false, pages[PageOf(index)][OffsetOf(index)].obj);
      WriteSlot(index, slot);
      pending := None;
      AgreesUpdate(s, Slots(), index, slot, live, live, Some(index), None);
    }

    /** The rest of set() once the index is covered. */
    method Put(index: nat, throws: bool)
      requires Valid() && PageOf(index) < |pages|
      modifies this`live, this`pending, this`destroyed, this`built, pages[PageOf(index)]
      ensures Valid()
      ensures live == if throws then old(live) - {index} else old(live)[index := old(built)]
      ensures built == if throws then old(built) else old(built) + 1
      ensures destroyed == old(destroyed) + if index in old(live) then [old(live)[index]] else []
    {
      SameUpdate(live, index, built);
      SetImpl(index);
      if throws {
        Revert(index);
      } else {
        Construct(index);
      }
    }

    /**
     * set(): puts a new object at the index, destroying the one that was there.
     * If the constructor throws, the index is left unset.
     */
    method Set(index: nat, throws: bool) returns (ok: bool)
      requires Valid()
      modifies this, pages
      ensures Valid() && Extends() && ok == !throws
      ensures live == if throws then old(live) - {index} else old(live)[index := old(built)]
      ensures built == if throws then old(built) else old(built) + 1
      ensures destroyed == old(destroyed) + if index in old(live) then [old(live)[index]] else []
    {
      Cover(index);
      Put(index, throws);
      ok := !throws;
    }

    /** reset(): destroys the object of a set index. */
    method Reset(index: nat)
      requires Valid() && index in live
      modifies this`live, this`destroyed, pages[PageOf(index)]
      ensures Valid()
      ensures live == old(live) - {index} && destroyed == old(destroyed) + [old(live)[index]]
    {
      ghost var s, was := Slots(), live;
      AgreesAt(s, live, pending, index);
      BalancedDestroy(live, built, destroyed, index);
      var obj := pages[PageOf(index)][OffsetOf(index)].obj;
      WriteSlot(index, Slot(false, obj));
      destroyed, live := destroyed + [obj], live - {index};
      AgreesUpdate(s, Slots(), index, Slot(false, obj), was, live, None, None);
    }

    ghost function View(): Model
      reads this
    {
      Model(live, built, destroyed)
    }

    /** One operation does to the array what it does to the partial map. */
    method Perform(op: Op)
      requires Valid() && (op.ResetOp? ==> op.index in live)
      modifies this, pages
      ensures Valid() && Extends() && View() == Updated(old(View()), op)
    {
      match op {
        case SetOp(index, throws) => var _ := Set(index, throws);
        case ResetOp(index) => Reset(index);
      }
    }

    /** Any sequence of operations does to the array what it does to the partial map. */
    method Replay(ops: seq<Op>)
      requires Valid() && LegalOps(View(), ops)
      modifies this, pages
      ensures Valid() && Extends() && View() == UpdatedBy(old(View()), ops)
    {
      var k := 0;
      assert ops[0..] == ops;
      while k < |ops|
        invariant k <= |ops| && Valid() && Extends()
        invariant LegalOps(View(), ops[k..])
        invariant UpdatedBy(View(), ops[k..]) == UpdatedBy(old(View()), ops)
      {
        assert ops[k..][0] == ops[k] && ops[k..][1..] == ops[k + 1..];
        Perform(ops[k]);
        k := k + 1;
      }
    }

    /** One turn of the destructor's inner loop. */
    method DestroySlot(i: nat, k: nat)
      requires Valid() && i < |pages| && k < PAGE && NoneBelow(live, At(i, k))
      modifies this`live, this`destroyed, pages[i]
      ensures Valid() && NoneBelow(live, At(i, k + 1))
    {
      AtUnique(At(i, k), i, k);
      AgreesAt(Slots(), live, pending, At(i, k));
      if pages[i][k].enable {
        Reset(At(i, k));
      }
    }

    /** The destructor's inner loop: a page, the pages before it being empty. */
    method DestroyPage(i: nat)
      requires Valid() && i < |pages| && NoneBelow(live, At(i, 0))
      modifies this`live, this`destroyed, pages[i]
      ensures Valid() && NoneBelow(live, At(i + 1, 0))
    {
      var k := 0;
      while k < PAGE
        invariant k <= PAGE && Valid() && NoneBelow(live, At(i, k))
      {
        DestroySlot(i, k);
        k := k + 1;
      }
      assert At(i, k) == At(i + 1, 0);
    }

    /** The destructor: every object still held is destroyed, so that each one ever built has been, once. */
    method Destruct()
      requires Valid()
      modifies this`live, this`destroyed, pages
      ensures forall o :: 0 <= o < built ==> o in destroyed
      ensures forall k :: 0 <= k < |destroyed| ==> destroyed[k] < built
      ensures forall j, k :: 0 <= j < k < |destroyed| ==> destroyed[j] != destroyed[k]
    {
      var i := 0;
      while i < |pages|
        invariant i <= |pages| && Valid() && NoneBelow(live, At(i, 0))
      {
        DestroyPage(i);
        i := i + 1;
      }
      NoneLeft(Slots(), live, pending);
    }
  }
}
