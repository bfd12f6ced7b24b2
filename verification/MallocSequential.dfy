/** mymalloc as one thread runs it, statement by statement on the linked lists, with the block it picks. */
module MallocSequential {
  import opened MallocSizes
  import opened MallocHeap

  /** Position k of the list is the first block that can hold `size` bytes. */
  ghost predicate FirstFit(h: Heap, list: seq<nat>, size: nat, k: nat) {
    && k < |list| && Fits(h, list[k], size) && NoneBefore(h, list, k, size)
  }

  ghost predicate Fits(h: Heap, a: nat, size: nat) {
    a in h.blocks && h.blocks[a].payload >= size
  }

  ghost predicate NoneBefore(h: Heap, list: seq<nat>, k: nat, size: nat)
    requires k <= |list|
  {
    forall i :: 0 <= i < k ==> !Fits(h, list[i], size)
  }

  ghost predicate NoFit(h: Heap, list: seq<nat>, size: nat) {
    NoneBefore(h, list, |list|, size)
  }

  class Allocator {
    var heads: seq<nat>
    var ghead: nat
    var mem: map<nat, Header>
    // Where every block is; see MallocHeap.
    ghost var blocks: map<nat, Extent>
    ghost var locals: seq<seq<nat>>
    ghost var globals: seq<nat>
    ghost var regions: map<nat, nat>
    ghost var returned: seq<Grant>

    ghost function View(): Heap
      reads this
    {
      Heap(heads, ghead, mem, blocks, locals, globals, regions, returned)
    }

    /** Between calls no block is in transit. */
    ghost predicate Valid()
      reads this
    {
      HeapInv(View()) && forall a :: a in blocks ==> !blocks[a].place.Held?
    }

    constructor ()
      ensures Valid() && View() == EmptyHeap()
    {
      heads, ghead, mem := seq(SLOTS, _ => 0), 0, map[];
      blocks, locals, globals, regions, returned := map[], seq(SLOTS, _ => []), [], map[], [];
    }

    /** Follow a list from `head` to its first block of at least `size` bytes. */
    method Walk(head: nat, ghost list: seq<nat>, ghost place: Place, size: nat)
      returns (curr: nat, prev: nat, ghost k: nat)
      requires ListInv(View(), head, list, place) && BlocksInv(View())
      ensures k <= |list| && prev == if k > 0 then list[k - 1] else 0
      ensures curr == 0 <==> k == |list|
      ensures curr != 0 ==> curr == list[k] && FirstFit(View(), list, size, k)
      ensures curr == 0 ==> NoFit(View(), list, size)
    {
      curr, prev, k := head, 0, 0;
      PositiveList(View(), head, list, place);
      hide BlocksInv;
      while curr != 0
        invariant k <= |list| && curr == (if k < |list| then list[k] else 0)
        invariant prev == if k > 0 then list[k - 1] else 0
        invariant NoneBefore(View(), list, k, size)
        decreases |list| - k
      {
        assert list[k] in list;
        if Hdr(mem, curr).length >= size {
          return;
        }
        assert Hdr(mem, list[k]).next == After(list, k);
        prev, curr, k := curr, Hdr(mem, curr).next, k + 1;
      }
    }

    // ----- the single memory steps -----

    method Store(a: nat, hdr: Header, ghost t: nat)
      requires HeapInv(View()) && a in blocks && blocks[a].place == Held(t)
      modifies this`mem
      ensures HeapInv(View()) && View() == Write(old(View()), a, hdr)
    {
      WriteOk(View(), a, hdr, t);
      mem := mem[a := hdr];
    }

    ghost method BeginBlock(a: nat, rem: nat, t: nat)
      requires HeapInv(View()) && a in blocks && blocks[a].place == Held(t)
      requires a + HEADER <= rem && rem + HEADER <= End(View(), a) && rem % 8 == 0
      modifies this`blocks
      ensures HeapInv(View()) && rem !in old(blocks) && View() == Split(old(View()), a, rem, t)
    {
      SplitOk(View(), a, rem, t);
      blocks := Split(View(), a, rem, t).blocks;
    }

    /** `heap->head = a`. */
    method SetHead(a: nat, t: nat)
      requires HeapInv(View()) && a in blocks && blocks[a].place == Held(t)
      requires Hdr(mem, a).length == blocks[a].payload && Hdr(mem, a).next == heads[t % SLOTS]
      modifies this`heads, this`locals, this`blocks
      ensures HeapInv(View()) && View() == PushLocal(old(View()), t % SLOTS, a)
    {
      PushLocalOk(View(), a, t);
      heads := heads[t % SLOTS := a];
      locals := locals[t % SLOTS := [a] + locals[t % SLOTS]];
      blocks := blocks[a := blocks[a].(place := OnLocal(t % SLOTS))];
    }

    /** Lines 95-106 and 128-140: give the rest of a held block, if it can hold a header, to the thread's list. */
    method CutRemainder(t: nat, curr: nat, size: nat)
      requires HeapInv(View()) && curr in blocks && blocks[curr].place == Held(t) && curr % 8 == 0
      requires |heads| == |locals| == SLOTS
      requires size % 8 == 0 && size <= blocks[curr].payload == Hdr(mem, curr).length
      modifies this
      ensures HeapInv(View()) && CutOf(old(View()), View(), t, curr, size)
    {
      hide HeapInv;
      ghost var h := View();
      var length := Hdr(mem, curr).length;
      if length > size + HEADER {
        var rem := (curr + HEADER + size + 7) / 8 * 8;
        assert rem == curr + HEADER + size;
        var remaining := curr + HEADER + length - rem;
        if remaining >= HEADER {
          BeginBlock(curr, rem, t);
          Store(rem, Header(remaining - HEADER, heads[t % SLOTS], t), t);
          SetHead(rem, t);
          Store(curr, Hdr(mem, curr).(length := size), t);
          CutSteps(h, t, curr, size, rem);
        }
      }
    }

    // ----- the three places a block can come from -----

    /** Lines 91-92. */
    method CutLocal(t: nat, curr: nat, prev: nat, ghost n: nat)
      requires HeapInv(View()) && n < |locals[t % SLOTS]| && curr == locals[t % SLOTS][n] && curr in blocks
      requires prev == if n > 0 then locals[t % SLOTS][n - 1] else 0
      modifies this
      ensures HeapInv(View()) && View() == UnlinkLocal(old(View()), t % SLOTS, n, prev, curr, t)
    {
      UnlinkLocalOk(View(), n, prev, curr, t);
      if prev != 0 {
        mem := mem[prev := Hdr(mem, prev).(next := Hdr(mem, curr).next)];
      } else {
        heads := heads[t % SLOTS := Hdr(mem, curr).next];
      }
      locals := locals[t % SLOTS := Without(locals[t % SLOTS], n)];
      blocks := blocks[curr := blocks[curr].(place := Held(t))];
    }

    /** Lines 89-110: take the block at position n of the local list. */
    method TakeLocal(t: nat, req: Size, curr: nat, prev: nat, ghost n: nat) returns (ptr: nat)
      requires Valid() && FirstFit(View(), locals[t % SLOTS], RoundUp8(req), n) && curr == locals[t % SLOTS][n]
      requires prev == if n > 0 then locals[t % SLOTS][n - 1] else 0
      modifies this
      ensures Valid() && LocalHit(old(View()), View(), t, req, n, ptr)
    {
      hide HeapInv, NoneBefore, UnlinkLocal, CutOf, Covers, LocalHit;
      var size := RoundUp8(req);
      ghost var h := View();
      ListedLocal(h, t, n);
      CutLocal(t, curr, prev, n);
      ghost var h1 := View();
      UnlinkKeeps(h, t, n, prev, curr);
      CutRemainder(t, curr, size);
      ghost var h2 := View();
      CutKeeps(h1, h2, t, curr, size);
      Covered(req, blocks[curr].payload);
      Hand(req, curr, t);
      ptr := curr + HEADER;
      HitLocal(h, h1, h2, View(), t, req, n, prev);
      LocalHitEnds(h, View(), t, req, n, ptr);
    }

    /** Lines 123-124. */
    method CutGlobal(t: nat, curr: nat, prev: nat, ghost n: nat)
      requires HeapInv(View()) && n < |globals| && curr == globals[n] && curr in blocks
      requires prev == if n > 0 then globals[n - 1] else 0
      modifies this
      ensures HeapInv(View()) && View() == UnlinkGlobal(old(View()), n, prev, curr, t)
    {
      UnlinkGlobalOk(View(), n, prev, curr, t);
      if prev != 0 {
        mem := mem[prev := Hdr(mem, prev).(next := Hdr(mem, curr).next)];
      } else {
        ghead := Hdr(mem, curr).next;
      }
      globals := Without(globals, n);
      blocks := blocks[curr := blocks[curr].(place := Held(t))];
    }

    /** Lines 122-144: take the block at position n of the global list; the rest of it goes to the local list. */
    method TakeGlobal(t: nat, req: Size, curr: nat, prev: nat, ghost n: nat) returns (ptr: nat)
      requires Valid() && FirstFit(View(), globals, RoundUp8(req), n) && curr == globals[n]
      requires prev == if n > 0 then globals[n - 1] else 0
      modifies this
      ensures Valid() && GlobalHit(old(View()), View(), t, req, n, ptr)
    {
      hide HeapInv, NoneBefore, UnlinkGlobal, CutOf, Covers, GlobalHit, Write;
      var size := RoundUp8(req);
      ghost var h := View();
      ListedGlobal(h, t, n);
      CutGlobal(t, curr, prev, n);
      ghost var h1 := View();
      UnlinkGlobalKeeps(h, t, n, prev, curr);
      Store(curr, Hdr(mem, curr).(owner := t), t);
      ghost var h2 := View();
      OwnerKeeps(h1, curr, t);
      CutRemainder(t, curr, size);
      ghost var h3 := View();
      CutKeeps(h2, h3, t, curr, size);
      Covered(req, blocks[curr].payload);
      Hand(req, curr, t);
      ptr := curr + HEADER;
      HitGlobal(h, h1, h3, View(), t, req, n, prev);
      GlobalHitEnds(h, View(), t, req, n, ptr);
    }

    /** A new region is one block, held by the thread that asked for it. */
    ghost method MapRegion(base: nat, len: nat, t: nat)
      requires HeapInv(View()) && Fresh(View(), base, len)
      modifies this`regions, this`blocks
      ensures HeapInv(View()) && base !in old(blocks) && View() == AddRegion(old(View()), base, len, t)
    {
      AddRegionOk(View(), base, len, t);
      regions := regions[base := len];
      blocks := blocks[base := Extent(len - HEADER, Held(t), base)];
    }

    /** Lines 75-78. */
    method PublishTail(a: nat, t: nat)
      requires HeapInv(View()) && a in blocks && blocks[a].place == Held(t)
      requires Hdr(mem, a).length == blocks[a].payload
      modifies this
      ensures HeapInv(View())
      ensures View() == PushGlobal(Write(old(View()), a, old(Hdr(mem, a)).(next := old(ghead))), a)
    {
      Store(a, Hdr(mem, a).(next := ghead), t);
      PushGlobalOk(View(), a, t);
      ghead, globals := a, [a] + globals;
      blocks := blocks[a := blocks[a].(place := OnGlobal)];
    }

    /** Lines 63-68: one block off the raw rest of a chunk. */
    method CarveOne(t: nat, cut: nat, ghost h: Heap, ghost vm: nat, ghost n: nat)
      requires HeapInv(View()) && n < 3 && cut == CutAt(vm, n) && cut % 8 == 0
      requires Carved(h, View(), t, vm, n)
      modifies this
      ensures HeapInv(View()) && Carved(h, View(), t, vm, n + 1)
    {
      hide HeapInv;
      ghost var k := View();
      CarvedHolds(h, k, t, vm, n);
      hide Carved;
      BeginBlock(cut, cut + HEADER + BLOCK, t);
      Store(cut, Header(BLOCK, heads[t % SLOTS], t), t);
      SetHead(cut, t);
      CarvedStep(h, k, t, vm, n);
    }

    /** Lines 71-79: the raw rest becomes a block of the global list. */
    method ShareTail(t: nat, cut: nat, vm: nat, ghost h: Heap)
      requires HeapInv(View()) && vm != 0 && cut == CutAt(vm, 3) && Carved(h, View(), t, vm, 3)
      requires forall a :: a in h.blocks ==> !h.blocks[a].place.Held?
      modifies this
      ensures Valid() && Refilled(h, View(), t, vm)
    {
      hide HeapInv;
      ghost var k := View();
      CarvedHolds(h, k, t, vm, 3);
      hide Carved, Refilled;
      if vm + CHUNK >= cut + HEADER {
        Store(cut, Hdr(mem, cut).(length := vm + CHUNK - cut - HEADER, owner := t), t);
        PublishTail(cut, t);
        CarvedEnd(h, k, View(), t, vm);
        NothingHeld(h, View(), t, vm);
      }
    }

    /** Lines 54-82: cut a fresh chunk into three blocks for the thread and a tail for everybody. */
    method Refill(t: nat, vm: nat)
      requires Valid() && heads[t % SLOTS] == 0 && locals[t % SLOTS] == []
      requires vm == 0 || Fresh(View(), vm, CHUNK)
      modifies this
      ensures Valid() && Refilled(old(View()), View(), t, vm)
    {
      ghost var h := View();
      assert |heads| == |locals| == SLOTS;
      hide HeapInv;
      if vm != 0 {
        MapRegion(vm, CHUNK, t);
        PageMultiple(vm);
        CarvedStart(h, t, vm);
        CarveAll(t, vm, h);
      }
    }

    method CarveAll(t: nat, vm: nat, ghost h: Heap)
      requires HeapInv(View()) && vm % 8 == 0 && vm > 0 && Carved(h, View(), t, vm, 0)
      requires forall a :: a in h.blocks ==> !h.blocks[a].place.Held?
      modifies this
      ensures Valid() && Refilled(h, View(), t, vm)
    {
      hide HeapInv, Carved, Refilled;
      var cut := vm;
      ghost var n := 0;
      while cut + HEADER + BLOCK <= vm + CHUNK
        invariant n <= 3 && cut == CutAt(vm, n)
        invariant HeapInv(View()) && Carved(h, View(), t, vm, n)
        decreases vm + CHUNK - cut
      {
        CarveOne(t, cut, h, vm, n);
        cut, n := cut + HEADER + BLOCK, n + 1;
      }
      ShareTail(t, cut, vm, h);
    }

    /** Lines 153-160: pages of its own for a request that fits nowhere. */
    method FreshPages(t: nat, req: Size, vm: nat) returns (ptr: nat)
      requires Valid()
      requires vm == 0 || Fresh(View(), vm, FallbackLength(RoundUp8(req)))
      modifies this
      ensures Valid() && Fallback(old(View()), View(), req, vm, ptr)
    {
      if vm == 0 {
        return 0;
      }
      ghost var h := View();
      var len := FallbackLength(RoundUp8(req));
      FreshSteps(h, req, vm, t);
      hide HeapInv, RoundUp8, FallbackLength, Covers, Fallback, AddRegion, Write, MallocHeap.Hand;
      MapRegion(vm, len, t);
      Store(vm, Header(len - HEADER, 0, t), t);
      Hand(req, vm, t);
      ptr := vm + HEADER;
    }

    /** mymalloc(req) called by thread t; vm1 and vm2 are what vmalloc would return. */
    method Malloc(t: nat, req: Size, vm1: nat, vm2: nat) returns (ptr: nat, ghost mid: Heap)
      requires Valid()
      requires vm1 == 0 || Fresh(View(), vm1, CHUNK)
      requires vm2 == 0 || (Fresh(View(), vm2, FallbackLength(RoundUp8(req)))
                            && (vm1 + CHUNK <= vm2 || vm2 + FallbackLength(RoundUp8(req)) <= vm1))
      modifies this
      ensures Valid()
      ensures req == 0 ==> ptr == 0 && View() == old(View())
      // The list is read before it is refilled: a refill never serves the call that makes it.
      ensures req > 0 && old(locals[t % SLOTS]) == [] ==> Refilled(old(View()), mid, t, vm1)
      ensures req > 0 && old(locals[t % SLOTS]) != [] ==> mid == old(View())
      ensures req > 0 ==>
        var size := RoundUp8(req);
        var list := old(locals[t % SLOTS]);
        && (!NoFit(mid, list, size) ==>
              exists n :: FirstFit(mid, list, size, n) && LocalHit(mid, View(), t, req, n, ptr))
        && (NoFit(mid, list, size) && !NoFit(mid, mid.globals, size) ==>
              exists n :: FirstFit(mid, mid.globals, size, n) && GlobalHit(mid, View(), t, req, n, ptr))
        && (NoFit(mid, list, size) && NoFit(mid, mid.globals, size) ==> Fallback(mid, View(), req, vm2, ptr))
    {
      mid := View();
      if req == 0 {
        return 0, mid;
      }
      var size := RoundUp8(req);
      var curr := heads[t % SLOTS];
      ghost var list := locals[t % SLOTS];
      ghost var place := OnLocal(t % SLOTS);
      assert ListInv(mid, curr, list, place);
      if curr == 0 {
        EmptyList(mid, list, place);
        Refill(t, vm1);
        mid := View();
        assert NoFit(mid, [], size);
      } else {
        var prev;
        ghost var n;
        curr, prev, n := Walk(curr, list, place, size);
        if curr != 0 {
          ptr := TakeLocal(t, req, curr, prev, n);
          return;
        }
      }
      var prev;
      ghost var n;
      curr, prev, n := Walk(ghead, globals, OnGlobal, size);
      if curr != 0 {
        ptr := TakeGlobal(t, req, curr, prev, n);
      } else {
        ptr := FreshPages(t, req, vm2);
      }
    }

    /** `return (char *)curr + STRUCTSIZE`: the block is the caller's from here on. */
    ghost method Hand(req: Size, curr: nat, t: nat)
      requires HeapInv(View()) && curr in blocks && blocks[curr].place == Held(t)
      requires Hdr(mem, curr).length == blocks[curr].payload && (Covers(req) ==> req <= blocks[curr].payload)
      modifies this`blocks, this`returned
      ensures HeapInv(View()) && View() == MallocHeap.Hand(old(View()), curr, req)
    {
      HandOk(View(), curr, req, t);
      blocks := blocks[curr := blocks[curr].(place := Out)];
      returned := returned + [Grant(curr + HEADER, req)];
    }
  }

  /** k is h after block curr was cut to `size` bytes, if what is left over can hold a header and more. */
  ghost predicate CutOf(h: Heap, k: Heap, t: nat, curr: nat, size: nat)
    requires curr in h.blocks
  {
    var rem := curr + HEADER + size;
    && |h.locals| == |k.locals| == |h.heads| == |k.heads| == SLOTS
    && k.ghead == h.ghead && k.globals == h.globals && k.regions == h.regions && k.returned == h.returned
    && curr in k.blocks && k.blocks[curr].payload == Hdr(k.mem, curr).length
    && if h.blocks[curr].payload > size + HEADER then
         && rem !in h.blocks
         && k.blocks == h.blocks[curr := h.blocks[curr].(payload := size)]
                          [rem := Extent(h.blocks[curr].payload - size - HEADER, OnLocal(t % SLOTS),
                                        h.blocks[curr].base)]
         && k.locals == h.locals[t % SLOTS := [rem] + h.locals[t % SLOTS]]
       else k.blocks == h.blocks && k.locals == h.locals
  }

  lemma CutSteps(h: Heap, t: nat, curr: nat, size: nat, rem: nat)
    requires |h.heads| == |h.locals| == SLOTS && curr in h.blocks && rem !in h.blocks
    requires h.blocks[curr].payload > size + HEADER && rem == curr + HEADER + size
    ensures var remaining := h.blocks[curr].payload - size;
            var h1 := Split(h, curr, rem, t);
            var h2 := Write(h1, rem, Header(remaining - HEADER, h1.heads[t % SLOTS], t));
            var h3 := PushLocal(h2, t % SLOTS, rem);
            CutOf(h, Write(h3, curr, Hdr(h3.mem, curr).(length := size)), t, curr, size)
  {
  }

  lemma ListedLocal(h: Heap, t: nat, n: nat)
    requires HeapInv(h) && n < |h.locals[t % SLOTS]|
    ensures |h.heads| == |h.locals| == SLOTS
    ensures var a := h.locals[t % SLOTS][n];
            a in h.blocks && a % 8 == 0 && Hdr(h.mem, a).length == h.blocks[a].payload
  {
    var a := h.locals[t % SLOTS][n];
    assert ListInv(h, h.heads[t % SLOTS], h.locals[t % SLOTS], OnLocal(t % SLOTS));
    assert a in h.locals[t % SLOTS] && BlockOk(h, a);
  }

  lemma ListedGlobal(h: Heap, t: nat, n: nat)
    requires HeapInv(h) && n < |h.globals|
    ensures |h.heads| == |h.locals| == SLOTS
    ensures var a := h.globals[n]; a in h.blocks && a % 8 == 0 && Hdr(h.mem, a).length == h.blocks[a].payload
  {
    var a := h.globals[n];
    assert a in h.globals && BlockOk(h, a);
  }

  lemma Covered(req: Size, n: nat)
    requires n >= RoundUp8(req)
    ensures Covers(req) ==> req <= n
  {
  }

  lemma LocalHitEnds(h: Heap, k: Heap, t: nat, req: Size, n: nat, ptr: nat)
    requires LocalHit(h, k, t, req, n, ptr) && forall a :: a in h.blocks ==> !h.blocks[a].place.Held?
    ensures forall a :: a in k.blocks ==> !k.blocks[a].place.Held?
  {
  }

  lemma GlobalHitEnds(h: Heap, k: Heap, t: nat, req: Size, n: nat, ptr: nat)
    requires GlobalHit(h, k, t, req, n, ptr) && forall a :: a in h.blocks ==> !h.blocks[a].place.Held?
    ensures forall a :: a in k.blocks ==> !k.blocks[a].place.Held?
  {
  }

  predicate Splits(h: Heap, a: nat, size: nat)
    requires a in h.blocks
  {
    h.blocks[a].payload > size + HEADER
  }

  /** The blocks after block a of h was handed out for `size` bytes. */
  function BlocksAfter(h: Heap, t: nat, a: nat, size: nat): map<nat, Extent>
    requires a in h.blocks
  {
    var e := h.blocks[a];
    if Splits(h, a, size)
    then h.blocks[a := Extent(size, Out, e.base)]
                 [a + HEADER + size := Extent(e.payload - size - HEADER, OnLocal(t % SLOTS), e.base)]
    else h.blocks[a := e.(place := Out)]
  }

  /** A remainder goes to the front of the thread's list. */
  function ListAfter(h: Heap, a: nat, size: nat, list: seq<nat>): seq<nat>
    requires a in h.blocks
  {
    if Splits(h, a, size) then [a + HEADER + size] + list else list
  }

  /** k is h after the block at position n of the local list was returned. */
  ghost predicate LocalHit(h: Heap, k: Heap, t: nat, req: Size, n: nat, ptr: nat) {
    var size, slot := RoundUp8(req), t % SLOTS;
    && |h.locals| == SLOTS && n < |h.locals[slot]|
    && var a := h.locals[slot][n];
       && a in h.blocks && ptr == a + HEADER
       && k.blocks == BlocksAfter(h, t, a, size)
       && k.locals == h.locals[slot := ListAfter(h, a, size, Without(h.locals[slot], n))]
       && k.globals == h.globals && k.regions == h.regions && k.returned == h.returned + [Grant(ptr, req)]
  }

  lemma UnlinkKeeps(h: Heap, t: nat, n: nat, prev: nat, curr: nat)
    requires |h.heads| == |h.locals| == SLOTS && n < |h.locals[t % SLOTS]| && curr in h.blocks
    requires Hdr(h.mem, curr).length == h.blocks[curr].payload
    ensures var k := UnlinkLocal(h, t % SLOTS, n, prev, curr, t);
            && |k.heads| == |k.locals| == SLOTS && curr in k.blocks && k.blocks[curr].place == Held(t)
            && k.blocks[curr].payload == h.blocks[curr].payload == Hdr(k.mem, curr).length
  {
  }

  lemma CutKeeps(h: Heap, k: Heap, t: nat, curr: nat, size: nat)
    requires curr in h.blocks && CutOf(h, k, t, curr, size) && h.blocks[curr].payload >= size
    requires h.blocks[curr].place == Held(t)
    ensures curr in k.blocks && k.blocks[curr].place == Held(t) && k.blocks[curr].payload >= size
    ensures k.blocks[curr].payload == Hdr(k.mem, curr).length
  {
  }

  lemma HitLocal(h: Heap, h1: Heap, h2: Heap, k: Heap, t: nat, req: Size, n: nat, prev: nat)
    requires |h.heads| == |h.locals| == SLOTS && n < |h.locals[t % SLOTS]|
    requires var curr := h.locals[t % SLOTS][n];
             && curr in h.blocks && h1 == UnlinkLocal(h, t % SLOTS, n, prev, curr, t)
             && CutOf(h1, h2, t, curr, RoundUp8(req)) && k == Hand(h2, curr, req)
    ensures LocalHit(h, k, t, req, n, h.locals[t % SLOTS][n] + HEADER)
  {
    hide RoundUp8, Covers;
  }

  lemma UnlinkGlobalKeeps(h: Heap, t: nat, n: nat, prev: nat, curr: nat)
    requires |h.heads| == |h.locals| == SLOTS && n < |h.globals| && curr in h.blocks
    requires Hdr(h.mem, curr).length == h.blocks[curr].payload
    ensures var k := UnlinkGlobal(h, n, prev, curr, t);
            && |k.heads| == |k.locals| == SLOTS && curr in k.blocks && k.blocks[curr].place == Held(t)
            && k.blocks[curr].payload == h.blocks[curr].payload == Hdr(k.mem, curr).length
  {
  }

  /** k is h after the block at position n of the global list was returned. */
  ghost predicate GlobalHit(h: Heap, k: Heap, t: nat, req: Size, n: nat, ptr: nat) {
    var size, slot := RoundUp8(req), t % SLOTS;
    && |h.locals| == SLOTS && n < |h.globals|
    && var a := h.globals[n];
       && a in h.blocks && ptr == a + HEADER
       && k.blocks == BlocksAfter(h, t, a, size)
       && k.locals == h.locals[slot := ListAfter(h, a, size, h.locals[slot])]
       && k.globals == Without(h.globals, n) && k.regions == h.regions && k.returned == h.returned + [Grant(ptr, req)]
  }

  lemma HitGlobal(h: Heap, h1: Heap, h3: Heap, k: Heap, t: nat, req: Size, n: nat, prev: nat)
    requires |h.heads| == |h.locals| == SLOTS && n < |h.globals|
    requires var curr := h.globals[n];
             && curr in h.blocks && h1 == UnlinkGlobal(h, n, prev, curr, t)
             && CutOf(Write(h1, curr, Hdr(h1.mem, curr).(owner := t)), h3, t, curr, RoundUp8(req))
                 && k == Hand(h3, curr, req)
    ensures GlobalHit(h, k, t, req, n, h.globals[n] + HEADER)
  {
    hide RoundUp8, Covers;
  }

  /** k is h while a chunk is being cut: n blocks are on the list and the rest is one held block. */
  ghost predicate Carved(h: Heap, k: Heap, t: nat, vm: nat, n: nat)
    requires n <= 3
  {
    var slot := t % SLOTS;
    var cut := CutAt(vm, n);
    && |h.locals| == |h.heads| == |k.heads| == SLOTS
    && k.locals == h.locals[slot := ChunkBlocks(vm, n)]
    && k.ghead == h.ghead && k.globals == h.globals && k.regions == h.regions[vm := CHUNK] && k.returned == h.returned
    && k.blocks == h.blocks + ChunkExtents(vm, n, slot) + map[cut := Extent(vm + CHUNK - cut - HEADER, Held(t), vm)]
  }

  /** Where the n-th cut of a chunk falls: a header of 24 and a payload of 4096 bytes apart. */
  function CutAt(vm: nat, n: nat): nat {
    vm + 4120 * n
  }

  /** The first n blocks of a chunk, newest first. */
  function ChunkBlocks(vm: nat, n: nat): seq<nat>
    requires n <= 3
  {
    if n == 0 then []
    else if n == 1 then [CutAt(vm, 0)]
    else if n == 2 then [CutAt(vm, 1), CutAt(vm, 0)]
    else [CutAt(vm, 2), CutAt(vm, 1), CutAt(vm, 0)]
  }

  function ChunkExtents(vm: nat, n: nat, slot: nat): map<nat, Extent>
    requires n <= 3
  {
    var e := Extent(BLOCK, OnLocal(slot), vm);
    if n == 0 then map[]
    else if n == 1 then map[CutAt(vm, 0) := e]
    else if n == 2 then map[CutAt(vm, 0) := e, CutAt(vm, 1) := e]
    else map[CutAt(vm, 0) := e, CutAt(vm, 1) := e, CutAt(vm, 2) := e]
  }

  lemma CarvedStart(h: Heap, t: nat, vm: nat)
    requires |h.heads| == |h.locals| == SLOTS && h.locals[t % SLOTS] == []
    ensures Carved(h, AddRegion(h, vm, CHUNK, t), t, vm, 0)
  {
  }

  lemma CarvedHolds(h: Heap, k: Heap, t: nat, vm: nat, n: nat)
    requires n <= 3 && Carved(h, k, t, vm, n)
    ensures var cut := CutAt(vm, n);
            && |k.heads| == |k.locals| == SLOTS && cut in k.blocks && k.blocks[cut].place == Held(t)
            && End(k, cut) == vm + CHUNK
  {
  }

  lemma CarvedStep(h: Heap, k: Heap, t: nat, vm: nat, n: nat)
    requires n < 3 && Carved(h, k, t, vm, n)
    ensures var cut := CutAt(vm, n);
            && cut in k.blocks && |k.heads| == |k.locals| == SLOTS && cut + 2 * HEADER + BLOCK <= End(k, cut)
            && var k1 := Split(k, cut, cut + HEADER + BLOCK, t);
               var k2 := Write(k1, cut, Header(BLOCK, k1.heads[t % SLOTS], t));
               Carved(h, PushLocal(k2, t % SLOTS, cut), t, vm, n + 1)
  {
    hide ChunkExtents, ChunkBlocks, Covers, RoundUp8;
    NextCut(vm, n, t % SLOTS);
    CarvedStepBlocks(k.blocks, h.blocks + ChunkExtents(vm, n, t % SLOTS), CutAt(vm, n), CutAt(vm, n + 1), vm, t);
    assert h.blocks + ChunkExtents(vm, n, t % SLOTS)[CutAt(vm, n) := Extent(BLOCK, OnLocal(t % SLOTS), vm)]
        == (h.blocks + ChunkExtents(vm, n, t % SLOTS))[CutAt(vm, n) := Extent(BLOCK, OnLocal(t % SLOTS), vm)];
  }

  lemma CarvedStepBlocks(blocks: map<nat, Extent>, done: map<nat, Extent>, cut: nat, next: nat, vm: nat, t: nat)
    requires next == cut + HEADER + BLOCK && next + HEADER <= vm + CHUNK
    requires blocks == done + map[cut := Extent(vm + CHUNK - cut - HEADER, Held(t), vm)]
    ensures blocks[cut := Extent(BLOCK, Held(t), vm)][next := Extent(vm + CHUNK - next - HEADER, Held(t), vm)]
                  [cut := Extent(BLOCK, OnLocal(t % SLOTS), vm)]
         == done[cut := Extent(BLOCK, OnLocal(t % SLOTS), vm)]
            + map[next := Extent(vm + CHUNK - next - HEADER, Held(t), vm)]
  {
  }

  lemma NextCut(vm: nat, n: nat, slot: nat)
    requires n < 3
    ensures ChunkBlocks(vm, n + 1) == [CutAt(vm, n)] + ChunkBlocks(vm, n)
    ensures ChunkExtents(vm, n + 1, slot) == ChunkExtents(vm, n, slot)[CutAt(vm, n) := Extent(BLOCK, OnLocal(slot), vm)]
    ensures CutAt(vm, n + 1) == CutAt(vm, n) + HEADER + BLOCK
  {
  }

  lemma NothingHeld(h: Heap, l: Heap, t: nat, vm: nat)
    requires Refilled(h, l, t, vm) && forall a :: a in h.blocks ==> !h.blocks[a].place.Held?
    ensures forall a :: a in l.blocks ==> !l.blocks[a].place.Held?
  {
  }

  lemma CarvedEnd(h: Heap, k: Heap, l: Heap, t: nat, vm: nat)
    requires vm != 0 && Carved(h, k, t, vm, 3)
    requires var cut := CutAt(vm, 3);
             var k1 := Write(k, cut, Hdr(k.mem, cut).(length := vm + CHUNK - cut - HEADER, owner := t));
             && cut in k.blocks
             && l == PushGlobal(Write(k1, cut, Hdr(k1.mem, cut).(next := k1.ghead)), cut)
    ensures Refilled(h, l, t, vm)
  {
  }

  /** k is h after a refill: three blocks of 4096 bytes for the slot and a block of 4000 bytes for everybody. */
  ghost predicate Refilled(h: Heap, k: Heap, t: nat, vm: nat) {
    var slot := t % SLOTS;
    if vm == 0 then k == h
    else
      && |h.locals| == SLOTS
      && k.locals == h.locals[slot := ChunkBlocks(vm, 3)] && k.globals == [CutAt(vm, 3)] + h.globals
      && k.regions == h.regions[vm := CHUNK] && k.returned == h.returned
      && k.blocks == h.blocks + ChunkExtents(vm, 3, slot) + map[CutAt(vm, 3) := Extent(4000, OnGlobal, vm)]
  }

  /** k is h after a request was given pages of its own, or NULL. */
  ghost predicate Fallback(h: Heap, k: Heap, req: Size, vm: nat, ptr: nat) {
    if vm == 0 then ptr == 0 && k == h
    else
      var len := FallbackLength(RoundUp8(req));
      && ptr == vm + HEADER && len >= HEADER
      && k.blocks == h.blocks[vm := Extent(len - HEADER, Out, vm)] && k.regions == h.regions[vm := len]
      && k.locals == h.locals && k.globals == h.globals && k.returned == h.returned + [Grant(ptr, req)]
  }

  lemma FreshSteps(h: Heap, req: Size, vm: nat, t: nat)
    requires vm != 0 && Fresh(h, vm, FallbackLength(RoundUp8(req)))
    ensures var len := FallbackLength(RoundUp8(req));
            && len >= HEADER
            && var k := AddRegion(h, vm, len, t);
               && vm in k.blocks && k.blocks[vm].place == Held(t)
               && var l := Write(k, vm, Header(len - HEADER, 0, t));
                  && vm in l.blocks && l.blocks[vm].place == Held(t) && Hdr(l.mem, vm).length == l.blocks[vm].payload
                  && (Covers(req) ==> req <= l.blocks[vm].payload)
                  && Fallback(h, Hand(l, vm, req), req, vm, vm + HEADER)
                  && ((forall a :: a in h.blocks ==> !h.blocks[a].place.Held?) ==>
                        (forall a :: a in Hand(l, vm, req).blocks ==> !Hand(l, vm, req).blocks[a].place.Held?))
  {
  }

  lemma OwnerKeeps(h: Heap, curr: nat, t: nat)
    requires curr in h.blocks
    ensures var k := Write(h, curr, Hdr(h.mem, curr).(owner := t));
            && k.heads == h.heads && k.locals == h.locals && k.blocks == h.blocks
            && Hdr(k.mem, curr).length == Hdr(h.mem, curr).length
  {
  }

  lemma EmptyList(h: Heap, list: seq<nat>, place: Place)
    requires ListInv(h, 0, list, place) && BlocksInv(h)
    ensures list == []
  {
    if list != [] {
      ListedOk(h, 0, list, place, list[0]);
    }
  }

  lemma ListedOk(h: Heap, first: nat, list: seq<nat>, place: Place, a: nat)
    requires ListInv(h, first, list, place) && BlocksInv(h) && a in list
    ensures BlockOk(h, a)
  {
  }
}
