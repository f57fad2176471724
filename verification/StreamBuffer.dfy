/**
 * class stream_buffer. The memory allocator and the refs held by other threads
 * are part of the object's state here; `env` arguments say what those threads
 * do while an operation is under way.
 */
module StreamBuffer {
  import opened RefBlocks
  import opened StreamSpec
  import StreamProofs
  import StreamTheorems
  import Growth

  class Buffer {
    var mem: Mem
    var cur: nat
    var used: nat
    var free: nat
    var off: nat
    var mref: seq<nat>
    var alive: bool
    var handles: seq<seq<nat>>

    function View(): Sb
      reads this
    {
      Sb(mem, cur, used, free, off, mref, alive, handles)
    }

    constructor (init: nat, nhandles: nat)
      ensures View() == New(init, nhandles)
      ensures Inv(View()) && alive && Data(View()) == [] && free == Growth.Max(init, HEADER) - HEADER
    {
      var initsz := Growth.Max(init, HEADER);
      mem := Alloc(Mem(map[], 0, []), Zeros(initsz));
      cur, used, free, off := 0, HEADER, initsz - HEADER, HEADER;
      mref, alive, handles := [], true, seq(nhandles, _ => []);
      new;
      StreamTheorems.NewInv(init, nhandles);
    }

    /** Lets the other threads take the given steps. */
    method Interfere(env: seq<EnvOp>)
      modifies this
      ensures View() == EnvSteps(old(View()), env)
    {
      var k := 0;
      while k < |env|
        invariant k <= |env|
        invariant EnvSteps(View(), env[k..]) == EnvSteps(old(View()), env)
      {
        var s := EnvStep(View(), env[k]);
        assert env[k..][1..] == env[k + 1..];
        mem, cur, used, free, off := s.mem, s.cur, s.used, s.free, s.off;
        mref, alive, handles := s.mref, s.alive, s.handles;
        k := k + 1;
      }
    }

    /** Makes room for len bytes; whatever other threads drop meanwhile, the data stays and the room is there. */
    method ReserveBuffer(len: nat, init: nat, env: seq<EnvOp>)
      requires Inv(View()) && alive
      modifies this
      ensures View() == Step(old(View()), Reserve(len, init, env))
      ensures Inv(View()) && alive && free >= len && Data(View()) == old(Data(View()))
    {
      StreamProofs.ReserveKeeps(View(), len, init, env);
      StreamProofs.RewindKeeps(View());
      RewindBuffer();
      ghost var u := View();
      StreamProofs.EnvStepsKeep(u, env);
      StreamProofs.OwnerUndisturbed(u, EnvSteps(u, env));
      Interfere(env);
      if free < len {
        ExpandBuffer(len, init);
      }
    }

    /** The head of reserve_buffer. */
    method RewindBuffer()
      requires OwnerOk(View()) && alive
      modifies this
      ensures View() == Rewind(old(View()))
    {
      if used == off && CountOf(mem, cur) == 1 {
        free := free + (used - HEADER);
        used := HEADER;
        off := HEADER;
      }
    }

    /** The first branch of expand_buffer: realloc. */
    method GrowBlock(len: nat)
      requires OwnerOk(View()) && alive
      modifies this
      ensures View() == Grow(old(View()), len)
    {
      var nextSize := Growth.DoubleUntil((used + free) * 2, len + used);
      var data := mem.heap[cur].data;
      var tmp := mem.next;
      mem := Moved(mem, cur, data + Zeros(nextSize - |data|));
      cur := tmp;
      free := nextSize - used;
    }

    /** The second branch of expand_buffer: a new block. */
    method ReplaceBlock(len: nat, init: nat)
      requires OwnerOk(View()) && alive
      modifies this
      ensures View() == Replace(old(View()), len, init)
    {
      var initsz := Growth.Max(init, HEADER);
      var notUsed := used - off;
      var nextSize := Growth.DoubleUntil(initsz, len + notUsed + HEADER);
      var tmp := mem.next;
      var rest := mem.heap[cur].data[off..used];
      mref := mref + [cur];
      mem := Alloc(mem, Patch(Zeros(nextSize), HEADER, rest));
      cur := tmp;
      used := notUsed + HEADER;
      free := nextSize - used;
      off := HEADER;
    }

    /** Grows the block where it is free of handles, else moves the data to a new one and keeps the old for m_ref. */
    method ExpandBuffer(len: nat, init: nat)
      requires OwnerOk(View()) && alive
      modifies this
      ensures View() == Expand(old(View()), len, init)
      ensures old(Inv(View())) ==> Inv(View()) && alive && free >= len && Data(View()) == old(Data(View()))
    {
      if Inv(View()) {
        StreamProofs.ExpandKeeps(View(), len, init);
      }
      if off == HEADER && CountOf(mem, cur) == 1 {
        GrowBlock(len);
      } else {
        ReplaceBlock(len, init);
      }
    }

    /** Stores bytes at buffer() and calls buffer_filled. */
    method FillBuffer(bs: seq<Byte>)
      requires Inv(View()) && alive && |bs| <= free
      modifies this
      ensures View() == Step(old(View()), Fill(bs))
      ensures Inv(View()) && alive && Data(View()) == old(Data(View())) + bs
    {
      StreamProofs.FillKeeps(View(), bs);
      mem := Poke(mem, cur, used, bs);
      used := used + |bs|;
      free := free - |bs|;
    }

    method DataConsumed(len: nat)
      requires Inv(View()) && alive && len <= used - off
      modifies this
      ensures View() == Step(old(View()), Consume(len))
      ensures Inv(View()) && alive && Data(View()) == old(Data(View()))[len..]
    {
      StreamProofs.ConsumeKeeps(View(), len);
      off := off + len;
    }

    /** Hands the current block, and the blocks replaced since the last call, to a ref; releases what the ref held. */
    method Retain(h: nat, env: seq<EnvOp>)
      requires Inv(View()) && alive && h < |handles|
      modifies this
      ensures View() == Step(old(View()), RetainTo(h, env))
      ensures Inv(View()) && alive && mref == [] && Data(View()) == old(Data(View()))
      ensures env == [] ==> handles[h] == old(mref) + [old(cur)]
    {
      StreamProofs.RetainKeeps(View(), h, env);
      mref := mref + [cur];
      mem := Incr(mem, cur);
      var tmp := handles[h];
      handles := handles[h := mref];
      mref := tmp;
      ghost var u := View();
      assert u == Pinned(old(View()), h);
      StreamProofs.PinnedKeeps(old(View()), h);
      StreamProofs.EnvStepsKeep(u, env);
      Interfere(env);
      ClearRef();
    }

    /** m_ref.clear(). */
    method ClearRef()
      modifies this
      ensures View() == old(View()).(mem := ReleaseAll(old(mem), old(mref)), mref := [])
    {
      var k := 0;
      var m := mem;
      while k < |mref|
        modifies {}
        invariant k <= |mref|
        invariant ReleaseAll(m, mref[k..]) == ReleaseAll(mem, mref)
      {
        assert mref[k..][1..] == mref[k + 1..];
        m := Release(m, mref[k]);
        k := k + 1;
      }
      mem := m;
      mref := [];
    }

    method Destruct()
      requires Inv(View()) && alive
      modifies this
      ensures View() == Step(old(View()), Destroy) && Inv(View())
    {
      StreamProofs.DestroyKeeps(View());
      mem := Release(mem, cur);
      ClearRef();
      alive := false;
    }
  }
}
