/**
 * class shared_buffer. The allocator and the handles held by other threads are
 * part of the object's state here; `env` says what those threads do meanwhile.
 */
module SharedBuffer {
  import opened RefBlocks
  import opened SharedSpec
  import SharedProofs
  import Growth

  class Buffer {
    var mem: Mem
    var cur: nat
    var used: nat
    var free: nat
    var alive: bool
    var handles: seq<Handle>
    var nextTag: nat

    function View(): Hb
      reads this
    {
      Hb(mem, cur, used, free, alive, handles, nextTag)
    }

    constructor (init: nat, nhandles: nat)
      ensures View() == New(init, nhandles)
      ensures Inv(View()) && alive && free == Growth.Max(init, HEADER) - HEADER
    {
      var initsz := Growth.Max(init, HEADER);
      mem := Alloc(Mem(map[], 0, []), Zeros(initsz));
      cur, used, free := 0, HEADER, initsz - HEADER;
      alive, handles, nextTag := true, seq(nhandles, _ => Null), 0;
      new;
      SharedProofs.NewInv(init, nhandles);
    }

    /** Lets the other threads take the given steps. */
    method Interfere(env: seq<EnvOp>)
      modifies this
      ensures View() == EnvSteps(old(View()), env)
    {
      var k := 0;
      while k < |env|
        invariant k <= |env|
        invariant EnvSteps(View(), env[k..]) == EnvSteps(old(View()), env)
      {
        var s := EnvStep(View(), env[k]);
        assert env[k..][1..] == env[k + 1..];
        mem, cur, used, free := s.mem, s.cur, s.used, s.free;
        alive, handles, nextTag := s.alive, s.handles, s.nextTag;
        k := k + 1;
      }
    }

    method ReserveBuffer(len: nat, init: nat, env: seq<EnvOp>)
      requires Inv(View()) && alive
      modifies this
      ensures View() == Step(old(View()), Reserve(len, init, env))
      ensures Inv(View()) && alive && free >= len
    {
      SharedProofs.ReserveKeeps(View(), len, init, env);
      SharedProofs.RewindKeeps(View());
      RewindBuffer();
      ghost var u := View();
      SharedProofs.EnvStepsKeep(u, env);
      SharedProofs.EnvInv(u, EnvSteps(u, env));
      Interfere(env);
      if free < len {
        ExpandBuffer(len, init);
      }
    }

    method RewindBuffer()
      requires OwnerOk(View()) && alive
      modifies this
      ensures View() == Rewind(old(View()))
    {
      if CountOf(mem, cur) == 1 {
        free := free + (used - HEADER);
        used := HEADER;
      }
    }

    /** The first branch of expand_buffer: realloc. */
    method GrowBlock(len: nat)
      requires OwnerOk(View()) && alive
      modifies this
      ensures View() == Grow(old(View()), len)
    {
      var nextSize := Growth.DoubleUntil((used + free) * 2, len + used);
      var data := mem.heap[cur].data;
      var tmp := mem.next;
      mem := Moved(mem, cur, data + Zeros(nextSize - |data|));
      cur := tmp;
      free := nextSize - used;
    }

    /** The second branch of expand_buffer: a new block. */
    method ReplaceBlock(len: nat, init: nat)
      requires OwnerOk(View()) && alive
      modifies this
      ensures View() == Replace(old(View()), len, init)
    {
      var initsz := Growth.Max(init, HEADER);
      var nextSize := Growth.DoubleUntil(initsz, len + HEADER);
      var tmp := mem.next;
      mem := Alloc(mem, Zeros(nextSize));
      mem := Release(mem, cur);
      cur := tmp;
      used := HEADER;
      free := nextSize - used;
    }

    /** Grows the block where it is free of handles, else leaves it to them and starts a new one. */
    method ExpandBuffer(len: nat, init: nat)
      requires OwnerOk(View()) && alive
      modifies this
      ensures View() == Expand(old(View()), len, init)
      ensures old(Inv(View())) ==> Inv(View()) && alive && free >= len
    {
      if Inv(View()) {
        SharedProofs.ExpandKeeps(View(), len, init);
      }
      if used == HEADER && CountOf(mem, cur) == 1 {
        GrowBlock(len);
      } else {
        ReplaceBlock(len, init);
      }
    }

    /** Hands out the next len bytes, or as many as are free, as a region no live handle overlaps. */
    method HoldRegion(len: nat, h: nat)
      requires Inv(View()) && alive && h < |handles| && handles[h].Null?
      modifies this
      ensures View() == Step(old(View()), Hold(len, h)) && Inv(View())
      ensures handles[h] == Ref(cur, old(used), used, old(nextTag)) && used - old(used) == Min(len, old(free))
      ensures forall g :: 0 <= g < |handles| && g != h && handles[g].Ref? && handles[g].block == cur ==> handles[g].hi <= old(used)
    {
      SharedProofs.HoldKeeps(View(), len, h);
      forall g | 0 <= g < |handles| ensures RegionOk(View(), handles[g]) {
      }
      var n := if free < len then free else len;
      used := used + n;
      free := free - n;
      mem := Incr(mem, cur);
      handles := handles[h := Ref(cur, used - n, used, nextTag)];
      nextTag := nextTag + 1;
    }

    method SkipBytes(len: nat)
      requires Inv(View()) && alive
      modifies this
      ensures View() == Step(old(View()), Skip(len)) && Inv(View())
      ensures used == old(used) + Min(len, old(free)) && free == old(free) - Min(len, old(free))
    {
      SharedProofs.SkipKeeps(View(), len);
      var n := if free < len then free else len;
      used := used + n;
      free := free - n;
    }

    method Destruct()
      requires Inv(View()) && alive
      modifies this
      ensures View() == Step(old(View()), Destroy) && Inv(View())
    {
      SharedProofs.DestroyKeeps(View());
      mem := Release(mem, cur);
      alive := false;
    }
  }
}
