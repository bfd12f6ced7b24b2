/** What one call of mymalloc does in any interleaving: which block it takes, and what it returns. */
module MallocCalls {
  import opened MallocSizes
  import opened MallocHeap
  import opened MallocMachine
  import opened MallocSteps
  import opened MallocSafety
  import opened MallocSequential

  // ----- what a call has found out so far -----

  /** The slot's list and the payloads on it are those of the earlier heap. */
  ghost predicate SameSlot(h0: Heap, h: Heap, slot: nat) {
    && slot < |h0.locals| && slot < |h.locals| && h.locals[slot] == h0.locals[slot]
    && forall a :: a in h0.locals[slot] ==>
         a in h0.blocks && a in h.blocks && h.blocks[a].payload == h0.blocks[a].payload
  }

  ghost predicate SameGlobals(g: Heap, h: Heap) {
    && h.globals == g.globals
    && forall a :: a in g.globals ==> a in g.blocks && a in h.blocks && h.blocks[a].payload == g.blocks[a].payload
  }

  /** The thread holds the first fit of the list. */
  ghost predicate Took(h0: Heap, list: seq<nat>, th: Thread) {
    FirstFit(h0, list, th.size, th.pos) && th.curr == list[th.pos]
  }

  /** The payload that a block of h0 has once it was cut for `size` bytes. */
  function CutPayload(h0: Heap, a: nat, size: nat): nat
    requires a in h0.blocks
  {
    if h0.blocks[a].payload > size + HEADER then size else h0.blocks[a].payload
  }

  ghost predicate HasPayload(h: Heap, a: nat, n: nat) {
    a in h.blocks && h.blocks[a].payload == n
  }

  /** On the slot's list, h0 being the heap in which the call began. */
  ghost predicate LocalSoFar(h0: Heap, h: Heap, slot: nat, th: Thread)
    requires slot < |h0.locals|
  {
    var list := h0.locals[slot];
    match th.pc
    case Idle => true
    case ReadHead => SameSlot(h0, h, slot)
    case TestHead => SameSlot(h0, h, slot)
    case LockRefill => list == []
    case Retest => list == []
    case MapChunk => list == []
    case Carve => list == []
    case CarveLink => list == []
    case Tail => list == []
    case LockTail => list == []
    case LinkTail => list == []
    case PublishTail => list == []
    case UnlockTail => list == []
    case UnlockRefill => list == []
    case LockLocal => if th.curr == 0 then list == [] else SameSlot(h0, h, slot)
    case WalkLocal =>
      if th.curr == 0 then NoFit(h0, list, th.size)
      else SameSlot(h0, h, slot) && th.pos < |list| && NoneBefore(h0, list, th.pos, th.size)
    case CutLocal => SameSlot(h0, h, slot) && Took(h0, list, th)
    case SplitLocal => Took(h0, list, th) && HasPayload(h, th.curr, h0.blocks[th.curr].payload)
    case LinkSplit => Took(h0, list, th) && Splits(h0, th.curr, th.size)
    case ShrinkLocal => Took(h0, list, th) && Splits(h0, th.curr, th.size)
    case UnlockHit => Took(h0, list, th) && HasPayload(h, th.curr, CutPayload(h0, th.curr, th.size))
    case _ => NoFit(h0, list, th.size)
  }

  /** On the global list, g being the heap in which the call read its head, under the lock. */
  ghost predicate GlobalSoFar(g: Heap, h: Heap, th: Thread) {
    var list := g.globals;
    match th.pc
    case WalkGlobal =>
      && SameGlobals(g, h)
      && if th.curr == 0 then NoFit(g, list, th.size)
         else th.pos < |list| && NoneBefore(g, list, th.pos, th.size)
    case CutGlobal => SameGlobals(g, h) && Took(g, list, th)
    case SplitGlobal => Took(g, list, th) && HasPayload(h, th.curr, g.blocks[th.curr].payload)
    case LockPiece => Took(g, list, th) && Splits(g, th.curr, th.size)
    case LinkPiece => Took(g, list, th) && Splits(g, th.curr, th.size)
    case PublishPiece => Took(g, list, th) && Splits(g, th.curr, th.size)
    case UnlockPiece => Took(g, list, th) && Splits(g, th.curr, th.size)
    case ShrinkGlobal => Took(g, list, th) && Splits(g, th.curr, th.size)
    case UnlockGlobal =>
      if th.found then Took(g, list, th) && HasPayload(h, th.curr, CutPayload(g, th.curr, th.size))
      else NoFit(g, list, th.size)
    case MapPages => NoFit(g, list, th.size)
    case _ => true
  }

  /** The slot's list and, while the thread has its lock, the global list. */
  ghost predicate ListsAre(h: Heap, slot: nat, local: seq<nat>) {
    slot < |h.locals| && h.locals[slot] == local
  }

  function RestAt(th: Thread): nat {
    th.curr + HEADER + th.size
  }

  /** What has become of the two lists since h0 and g. */
  ghost predicate ListsSoFar(h0: Heap, g: Heap, h: Heap, slot: nat, th: Thread)
    requires slot < |h0.locals|
  {
    var list := h0.locals[slot];
    match th.pc
    case SplitLocal => th.pos < |list| && ListsAre(h, slot, Without(list, th.pos))
    case LinkSplit => th.rem == RestAt(th) && th.pos < |list| && ListsAre(h, slot, Without(list, th.pos))
    case ShrinkLocal => th.pos < |list| && ListsAre(h, slot, [RestAt(th)] + Without(list, th.pos))
    case UnlockHit =>
      && th.pos < |list| && th.curr in h0.blocks
      && ListsAre(h, slot, ListAfter(h0, th.curr, th.size, Without(list, th.pos)))
    case WalkGlobal => slot < |g.locals| && ListsAre(h, slot, g.locals[slot])
    case CutGlobal => slot < |g.locals| && ListsAre(h, slot, g.locals[slot])
    case SplitGlobal => slot < |g.locals| && ListsAre(h, slot, g.locals[slot]) && CutOut(g, h, th)
    case LockPiece => slot < |g.locals| && ListsAre(h, slot, g.locals[slot]) && CutOut(g, h, th) && th.rem == RestAt(th)
    case LinkPiece =>
      slot < |g.locals| && ListsAre(h, slot, g.locals[slot]) && CutOut(g, h, th) && th.rem == RestAt(th)
    case PublishPiece =>
      slot < |g.locals| && ListsAre(h, slot, g.locals[slot]) && CutOut(g, h, th) && th.rem == RestAt(th)
    case UnlockPiece => slot < |g.locals| && ListsAre(h, slot, [RestAt(th)] + g.locals[slot]) && CutOut(g, h, th)
    case ShrinkGlobal => slot < |g.locals| && ListsAre(h, slot, [RestAt(th)] + g.locals[slot]) && CutOut(g, h, th)
    case UnlockGlobal =>
      && slot < |g.locals|
      && if th.found then
           && th.curr in g.blocks && CutOut(g, h, th)
           && ListsAre(h, slot, ListAfter(g, th.curr, th.size, g.locals[slot]))
         else ListsAre(h, slot, g.locals[slot])
    case MapPages => slot < |g.locals| && ListsAre(h, slot, g.locals[slot])
    case _ => true
  }

  /** The chosen block is off the global list, and nothing else is. */
  ghost predicate CutOut(g: Heap, h: Heap, th: Thread) {
    th.pos < |g.globals| && h.globals == Without(g.globals, th.pos)
  }

  // ----- another thread's step -----

  lemma OtherSlot(h0: Heap, h: Heap, k: Heap, u: nat, g: bool)
    requires HeapInv(h) && Untouched(h, k, u, g) && SameSlot(h0, h, u % SLOTS)
    ensures SameSlot(h0, k, u % SLOTS)
  {
    assert ListInv(h, h.heads[u % SLOTS], h.locals[u % SLOTS], OnLocal(u % SLOTS));
  }

  lemma OtherGlobals(g0: Heap, h: Heap, k: Heap, u: nat)
    requires HeapInv(h) && Untouched(h, k, u, true) && SameGlobals(g0, h)
    ensures SameGlobals(g0, k)
  {
    assert ListInv(h, h.ghead, h.globals, OnGlobal);
  }

  lemma OtherHeldPayload(h: Heap, k: Heap, u: nat, g: bool, a: nat)
    requires Untouched(h, k, u, g) && a in h.blocks && h.blocks[a].place == Held(u)
    ensures a in k.blocks && k.blocks[a].payload == h.blocks[a].payload
  {
  }

  lemma HoldsIt(h: Heap, u: nat, th: Thread)
    requires ThreadInv(h, u, th)
    requires th.pc in {SplitLocal, UnlockHit, SplitGlobal} || (th.pc == UnlockGlobal && th.found)
    ensures th.curr in h.blocks && h.blocks[th.curr].place == Held(u)
  {
    assert th.curr in HeldBlocks(th);
  }

  lemma OtherLocalSoFar(h0: Heap, h: Heap, k: Heap, u: nat, th: Thread, g: bool)
    requires HeapInv(h) && ThreadInv(h, u, th) && Untouched(h, k, u, g)
    requires u % SLOTS < |h0.locals| && LocalSoFar(h0, h, u % SLOTS, th)
    ensures LocalSoFar(h0, k, u % SLOTS, th)
  {
    hide HeapInv, ThreadInv, Untouched, SameSlot, Took, NoFit, NoneBefore, CutPayload;
    if SameSlot(h0, h, u % SLOTS) {
      OtherSlot(h0, h, k, u, g);
    }
    if th.pc == SplitLocal || th.pc == UnlockHit {
      HoldsIt(h, u, th);
      OtherHeldPayload(h, k, u, g, th.curr);
    }
  }

  lemma OtherGlobalSoFar(g0: Heap, h: Heap, k: Heap, u: nat, th: Thread)
    requires HeapInv(h) && ThreadInv(h, u, th) && Untouched(h, k, u, HasGlobal(th.pc)) && GlobalSoFar(g0, h, th)
    ensures GlobalSoFar(g0, k, th)
  {
    hide HeapInv, ThreadInv, Untouched, SameGlobals, Took, NoFit, NoneBefore, CutPayload;
    if th.pc == WalkGlobal || th.pc == CutGlobal {
      OtherGlobals(g0, h, k, u);
    }
    if th.pc == SplitGlobal || (th.pc == UnlockGlobal && th.found) {
      HoldsIt(h, u, th);
      OtherHeldPayload(h, k, u, HasGlobal(th.pc), th.curr);
    }
  }

  lemma OtherListsSoFar(h0: Heap, g0: Heap, h: Heap, k: Heap, u: nat, th: Thread)
    requires Untouched(h, k, u, HasGlobal(th.pc)) && u % SLOTS < |h0.locals|
    requires ListsSoFar(h0, g0, h, u % SLOTS, th)
    ensures ListsSoFar(h0, g0, k, u % SLOTS, th)
  {
    hide Without, ListAfter, RestAt;
  }

  // ----- the thread's own steps -----

  ghost predicate AllWhole(h: Heap, list: seq<nat>) {
    forall a :: a in list ==> WholeBlock(h, a)
  }

  lemma ListsWhole(h: Heap, t: nat)
    requires HeapInv(h)
    ensures |h.heads| == |h.locals| == SLOTS && AllWhole(h, h.locals[t % SLOTS]) && AllWhole(h, h.globals)
  {
    assert ListInv(h, h.heads[t % SLOTS], h.locals[t % SLOTS], OnLocal(t % SLOTS));
  }

  /** The comparison at a position of a list tells whether the block there is the first fit, or there is none yet. */
  lemma WalkTells(h0: Heap, h: Heap, head: nat, list: seq<nat>, th: Thread, hit: Pc)
    requires Chain(h.mem, head, list) && 0 !in list && AllWhole(h, list) && AtPosition(list, th)
    requires forall a :: a in list ==> a in h0.blocks && a in h.blocks && h.blocks[a].payload == h0.blocks[a].payload
    requires NoneBefore(h0, list, th.pos, th.size)
    ensures var th' := Walked(h, th, hit);
            if Hdr(h.mem, th.curr).length >= th.size then th' == th.(pc := hit) && Took(h0, list, th)
            else if th'.curr == 0 then NoFit(h0, list, th.size)
            else th'.pos < |list| && NoneBefore(h0, list, th'.pos, th.size)
  {
    assert th.curr in list && Hdr(h.mem, list[th.pos]).next == After(list, th.pos);
  }

  lemma RefillSoFar(h0: Heap, s: State, t: nat, c: Choice)
    requires t in s.threads && WellShaped(s) && |h0.locals| == SLOTS && CanRun(s, t, s.threads[t])
    requires ThreadInv(s.heap, t, s.threads[t]) && Walkable(s.heap, t)
    requires InRefill(s.threads[t].pc) && s.threads[t].pc != Idle
    requires LocalSoFar(h0, s.heap, t % SLOTS, s.threads[t])
    ensures var s' := StepRefill(s, t, s.threads[t], c);
            t in s'.threads && LocalSoFar(h0, s'.heap, t % SLOTS, s'.threads[t])
  {
    hide HeldExactly, GlobalInv, Cutting, WholeBlock, Took, NoFit, NoneBefore;
  }

  lemma LockLocalSoFar(h0: Heap, s: State, t: nat)
    requires t in s.threads && WellShaped(s) && |h0.locals| == SLOTS && s.threads[t].pc in {LockLocal, UnlockMiss}
    requires ThreadInv(s.heap, t, s.threads[t]) && LocalSoFar(h0, s.heap, t % SLOTS, s.threads[t])
    ensures var s' := StepLocal(s, t, s.threads[t]);
            t in s'.threads && LocalSoFar(h0, s'.heap, t % SLOTS, s'.threads[t])
  {
    hide StepLocal;
    QuietLocalGoes(s, t);
  }

  lemma WalkLocalSoFar(h0: Heap, s: State, t: nat)
    requires t in s.threads && WellShaped(s) && |h0.locals| == SLOTS && s.threads[t].pc == WalkLocal
    requires ThreadInv(s.heap, t, s.threads[t]) && Walkable(s.heap, t) && AllWhole(s.heap, s.heap.locals[t % SLOTS])
    requires LocalSoFar(h0, s.heap, t % SLOTS, s.threads[t])
    ensures var s' := StepLocal(s, t, s.threads[t]);
            t in s'.threads && LocalSoFar(h0, s'.heap, t % SLOTS, s'.threads[t])
  {
    hide StepLocal, AllWhole, NoFit, NoneBefore, Took, Chain;
    QuietLocalGoes(s, t);
    var h, th := s.heap, s.threads[t];
    if th.curr != 0 {
      WalkTells(h0, h, h.heads[t % SLOTS], h.locals[t % SLOTS], th, CutLocal);
      TookMoves(h0, h0.locals[t % SLOTS], th, CutLocal);
    }
  }

  lemma TookMoves(h0: Heap, list: seq<nat>, th: Thread, pc: Pc)
    ensures Took(h0, list, th.(pc := pc)) <==> Took(h0, list, th)
  {
  }

  /** Lines 95-99 and 128-131: a whole block is split exactly when more than a header is left over. */
  lemma SplitPointExactly(h: Heap, th: Thread)
    requires WholeBlock(h, th.curr) && th.curr % 8 == 0 && th.size % 8 == 0
    ensures SplitPoint(h, th).Some? <==> h.blocks[th.curr].payload > th.size + HEADER
  {
  }

  lemma CutLocalSoFar(h0: Heap, s: State, t: nat)
    requires t in s.threads && WellShaped(s) && |h0.locals| == SLOTS && s.threads[t].pc == CutLocal
    requires CanRun(s, t, s.threads[t]) && LocalSoFar(h0, s.heap, t % SLOTS, s.threads[t])
    ensures var s' := StepLocal(s, t, s.threads[t]);
            t in s'.threads && LocalSoFar(h0, s'.heap, t % SLOTS, s'.threads[t])
  {
    TookMoves(h0, h0.locals[t % SLOTS], s.threads[t], SplitLocal);
    hide NoneBefore;
  }

  lemma SplitLocalSoFar(h0: Heap, s: State, t: nat)
    requires t in s.threads && WellShaped(s) && |h0.locals| == SLOTS && s.threads[t].pc == SplitLocal
    requires HeapInv(s.heap) && ThreadInv(s.heap, t, s.threads[t]) && LocalSoFar(h0, s.heap, t % SLOTS, s.threads[t])
    ensures var s' := StepLocal(s, t, s.threads[t]);
            CanRun(s, t, s.threads[t]) && t in s'.threads && LocalSoFar(h0, s'.heap, t % SLOTS, s'.threads[t])
  {
    hide HeapInv, ThreadInv, StepLocal, SplitPoint, NoneBefore;
    var h, th := s.heap, s.threads[t];
    SplitHeld(h, t, th);
    SplitPointOk(h, th);
    SplitPointExactly(h, th);
    SplitLocalGoes(s, t);
  }

  lemma AfterSplitSoFar(h0: Heap, s: State, t: nat)
    requires t in s.threads && WellShaped(s) && |h0.locals| == SLOTS && s.threads[t].pc in {LinkSplit, ShrinkLocal}
    requires CanRun(s, t, s.threads[t])
    requires ThreadInv(s.heap, t, s.threads[t]) && LocalSoFar(h0, s.heap, t % SLOTS, s.threads[t])
    ensures var s' := StepLocal(s, t, s.threads[t]);
            t in s'.threads && LocalSoFar(h0, s'.heap, t % SLOTS, s'.threads[t])
  {
    hide NoneBefore, HeldExactly, GlobalInv, RefillInv;
  }

  lemma OwnLocalSoFar(h0: Heap, s: State, t: nat)
    requires Inv(s) && t in s.threads && |h0.locals| == SLOTS && CanRun(s, t, s.threads[t])
    requires InLocal(s.threads[t].pc) && s.threads[t].pc != UnlockHit && LocalSoFar(h0, s.heap, t % SLOTS, s.threads[t])
    ensures var s' := StepLocal(s, t, s.threads[t]);
            t in s'.threads && LocalSoFar(h0, s'.heap, t % SLOTS, s'.threads[t])
  {
    hide HeapInv, ThreadInv, LocalSoFar, StepLocal, Walkable, AllWhole, CanRun;
    WalkableOk(s.heap, t);
    ListsWhole(s.heap, t);
    if s.threads[t].pc in {LockLocal, UnlockMiss} {
      LockLocalSoFar(h0, s, t);
    } else if s.threads[t].pc == WalkLocal {
      WalkLocalSoFar(h0, s, t);
    } else if s.threads[t].pc == CutLocal {
      CutLocalSoFar(h0, s, t);
    } else if s.threads[t].pc == SplitLocal {
      SplitLocalSoFar(h0, s, t);
    } else {
      AfterSplitSoFar(h0, s, t);
    }
  }

  predicate OutsideLocal(pc: Pc) {
    pc == Idle || (!InRefill(pc) && !InLocal(pc))
  }

  /** A call that has come to the global list stays there, with the same request, until it returns. */
  ghost predicate StaysThere(s: State, t: nat, s': State)
    requires t in s.threads
  {
    && t in s'.threads && OutsideLocal(s'.threads[t].pc)
    && (s'.threads[t].pc != Idle ==> s'.threads[t].size == s.threads[t].size && s'.threads[t].req == s.threads[t].req)
  }

  lemma QuietStays(s: State, t: nat, c: Choice)
    requires t in s.threads && WellShaped(s)
    requires s.threads[t].pc in {LockGlobal, ReadGlobal, WalkGlobal, LockPiece, UnlockPiece}
    ensures StaysThere(s, t, StepGlobal(s, t, s.threads[t], c))
  {
    hide StepGlobal;
    QuietGlobalGoes(s, t, c);
  }

  lemma CutStays(s: State, t: nat, c: Choice)
    requires t in s.threads && WellShaped(s) && CanRun(s, t, s.threads[t])
    requires s.threads[t].pc in {CutGlobal, SplitGlobal, LinkPiece, PublishPiece}
    ensures StaysThere(s, t, StepGlobal(s, t, s.threads[t], c))
  {
    hide SplitPoint, Write, Split, UnlinkGlobal, PushLocal;
  }

  lemma EndStays(s: State, t: nat, c: Choice)
    requires t in s.threads && WellShaped(s) && CanRun(s, t, s.threads[t])
    requires s.threads[t].pc in {ShrinkGlobal, UnlockGlobal, MapPages}
    ensures StaysThere(s, t, StepGlobal(s, t, s.threads[t], c))
  {
    hide Write, Hand, AddRegion, FallbackLength;
  }

  lemma StaysGlobal(s: State, t: nat, c: Choice)
    requires t in s.threads && WellShaped(s) && CanRun(s, t, s.threads[t])
    requires !InRefill(s.threads[t].pc) && !InLocal(s.threads[t].pc)
    ensures StaysThere(s, t, StepGlobal(s, t, s.threads[t], c))
  {
    hide StepGlobal, StaysThere, CanRun;
    match s.threads[t].pc
    case CutGlobal | SplitGlobal | LinkPiece | PublishPiece => CutStays(s, t, c);
    case ShrinkGlobal | UnlockGlobal | MapPages => EndStays(s, t, c);
    case _ => QuietStays(s, t, c);
  }

  /** And what is known of the local list stays known. */
  lemma StillNoFit(h0: Heap, s: State, t: nat, c: Choice)
    requires t in s.threads && WellShaped(s) && |h0.locals| == SLOTS && CanRun(s, t, s.threads[t])
    requires !InRefill(s.threads[t].pc) && !InLocal(s.threads[t].pc) && LocalSoFar(h0, s.heap, t % SLOTS, s.threads[t])
    ensures var s' := StepGlobal(s, t, s.threads[t], c);
            t in s'.threads && LocalSoFar(h0, s'.heap, t % SLOTS, s'.threads[t])
  {
    hide NoFit, NoneBefore, Took, HasPayload, CanRun, StepGlobal, SameSlot;
    StaysGlobal(s, t, c);
  }

  lemma WalkGlobalSoFar(g: Heap, s: State, t: nat, c: Choice)
    requires t in s.threads && WellShaped(s) && s.threads[t].pc == WalkGlobal
    requires ThreadInv(s.heap, t, s.threads[t]) && Walkable(s.heap, t) && AllWhole(s.heap, s.heap.globals)
    requires GlobalSoFar(g, s.heap, s.threads[t])
    ensures var s' := StepGlobal(s, t, s.threads[t], c); t in s'.threads && GlobalSoFar(g, s'.heap, s'.threads[t])
  {
    hide StepGlobal, AllWhole, NoFit, NoneBefore, Took, Chain;
    QuietGlobalGoes(s, t, c);
    var h, th := s.heap, s.threads[t];
    if th.curr != 0 {
      WalkTells(g, h, h.ghead, h.globals, th, CutGlobal);
      TookMoves(g, g.globals, th, CutGlobal);
    }
  }

  lemma PieceSoFar(g: Heap, s: State, t: nat, c: Choice)
    requires t in s.threads && WellShaped(s) && s.threads[t].pc in {LockPiece, UnlockPiece}
    requires GlobalSoFar(g, s.heap, s.threads[t])
    ensures var s' := StepGlobal(s, t, s.threads[t], c); t in s'.threads && GlobalSoFar(g, s'.heap, s'.threads[t])
  {
    hide StepGlobal, NoneBefore;
    QuietGlobalGoes(s, t, c);
  }

  lemma CutGlobalSoFar(g: Heap, s: State, t: nat, c: Choice)
    requires t in s.threads && WellShaped(s) && s.threads[t].pc == CutGlobal
    requires CanRun(s, t, s.threads[t]) && GlobalSoFar(g, s.heap, s.threads[t])
    ensures var s' := StepGlobal(s, t, s.threads[t], c); t in s'.threads && GlobalSoFar(g, s'.heap, s'.threads[t])
  {
    TookMoves(g, g.globals, s.threads[t], SplitGlobal);
    hide NoneBefore;
  }

  lemma SplitGlobalSoFar(g: Heap, s: State, t: nat, c: Choice)
    requires t in s.threads && WellShaped(s) && s.threads[t].pc == SplitGlobal
    requires HeapInv(s.heap) && ThreadInv(s.heap, t, s.threads[t]) && GlobalSoFar(g, s.heap, s.threads[t])
    ensures var s' := StepGlobal(s, t, s.threads[t], c);
            CanRun(s, t, s.threads[t]) && t in s'.threads && GlobalSoFar(g, s'.heap, s'.threads[t])
  {
    hide HeapInv, ThreadInv, StepGlobal, SplitPoint, NoneBefore;
    var h, th := s.heap, s.threads[t];
    SplitHeld(h, t, th);
    SplitPointOk(h, th);
    SplitPointExactly(h, th);
    SplitGlobalGoes(s, t, c);
  }

  lemma AfterCutSoFar(g: Heap, s: State, t: nat, c: Choice)
    requires t in s.threads && WellShaped(s) && CanRun(s, t, s.threads[t])
    requires s.threads[t].pc in {LinkPiece, PublishPiece, ShrinkGlobal}
    requires ThreadInv(s.heap, t, s.threads[t]) && GlobalSoFar(g, s.heap, s.threads[t])
    ensures var s' := StepGlobal(s, t, s.threads[t], c); t in s'.threads && GlobalSoFar(g, s'.heap, s'.threads[t])
  {
    hide NoneBefore, HeldExactly, LocalInv, RefillInv, SplitPoint;
  }

  lemma MissSoFar(g: Heap, s: State, t: nat, c: Choice)
    requires t in s.threads && WellShaped(s) && CanRun(s, t, s.threads[t])
    requires s.threads[t].pc in {LockGlobal, ReadGlobal, UnlockGlobal}
    requires s.threads[t].pc == ReadGlobal ==>
      AllWhole(s.heap, s.heap.globals) && Walkable(s.heap, t) && g == s.heap
    requires s.threads[t].pc == UnlockGlobal ==> !s.threads[t].found
    requires ThreadInv(s.heap, t, s.threads[t]) && GlobalSoFar(g, s.heap, s.threads[t])
    ensures var s' := StepGlobal(s, t, s.threads[t], c); t in s'.threads && GlobalSoFar(g, s'.heap, s'.threads[t])
  {
    hide HeldExactly, LocalInv, RefillInv, SplitPoint;
  }

  // ----- the lists -----

  lemma CutLocalLists(h0: Heap, g: Heap, s: State, t: nat)
    requires t in s.threads && WellShaped(s) && |h0.locals| == SLOTS && s.threads[t].pc == CutLocal
    requires CanRun(s, t, s.threads[t]) && LocalSoFar(h0, s.heap, t % SLOTS, s.threads[t])
    ensures var s' := StepLocal(s, t, s.threads[t]);
            t in s'.threads && ListsSoFar(h0, g, s'.heap, t % SLOTS, s'.threads[t])
  {
    hide NoneBefore, ListAfter;
  }

  lemma SplitLocalLists(h0: Heap, g: Heap, s: State, t: nat)
    requires t in s.threads && WellShaped(s) && |h0.locals| == SLOTS && s.threads[t].pc == SplitLocal
    requires HeapInv(s.heap) && ThreadInv(s.heap, t, s.threads[t]) && LocalSoFar(h0, s.heap, t % SLOTS, s.threads[t])
    requires ListsSoFar(h0, g, s.heap, t % SLOTS, s.threads[t])
    ensures var s' := StepLocal(s, t, s.threads[t]);
            && CanRun(s, t, s.threads[t]) && t in s'.threads
            && ListsSoFar(h0, g, s'.heap, t % SLOTS, s'.threads[t])
  {
    hide HeapInv, ThreadInv, StepLocal, SplitPoint, NoneBefore, Without;
    var h, th := s.heap, s.threads[t];
    SplitHeld(h, t, th);
    SplitPointOk(h, th);
    SplitPointExactly(h, th);
    SplitLocalGoes(s, t);
  }

  lemma AfterSplitLists(h0: Heap, g: Heap, s: State, t: nat)
    requires t in s.threads && WellShaped(s) && |h0.locals| == SLOTS && s.threads[t].pc in {LinkSplit, ShrinkLocal}
    requires CanRun(s, t, s.threads[t]) && LocalSoFar(h0, s.heap, t % SLOTS, s.threads[t])
    requires ListsSoFar(h0, g, s.heap, t % SLOTS, s.threads[t])
    ensures var s' := StepLocal(s, t, s.threads[t]);
            t in s'.threads && ListsSoFar(h0, g, s'.heap, t % SLOTS, s'.threads[t])
  {
    hide NoneBefore, Without;
  }

  /** The points at the global list that touch neither list. */
  lemma QuietGlobalLists(h0: Heap, g: Heap, s: State, t: nat, c: Choice)
    requires t in s.threads && WellShaped(s) && |h0.locals| == SLOTS
    requires s.threads[t].pc in {LockGlobal, ReadGlobal, WalkGlobal, LockPiece, UnlockPiece}
    requires s.threads[t].pc == ReadGlobal ==> g == s.heap
    requires ListsSoFar(h0, g, s.heap, t % SLOTS, s.threads[t])
    ensures var s' := StepGlobal(s, t, s.threads[t], c);
            t in s'.threads && ListsSoFar(h0, g, s'.heap, t % SLOTS, s'.threads[t])
  {
    hide StepGlobal, Without, ListAfter;
    QuietGlobalGoes(s, t, c);
  }

  lemma CutGlobalLists(h0: Heap, g: Heap, s: State, t: nat, c: Choice)
    requires t in s.threads && WellShaped(s) && |h0.locals| == SLOTS && s.threads[t].pc == CutGlobal
    requires CanRun(s, t, s.threads[t]) && GlobalSoFar(g, s.heap, s.threads[t])
    requires ListsSoFar(h0, g, s.heap, t % SLOTS, s.threads[t])
    ensures var s' := StepGlobal(s, t, s.threads[t], c);
            t in s'.threads && ListsSoFar(h0, g, s'.heap, t % SLOTS, s'.threads[t])
  {
    hide NoneBefore, ListAfter;
  }

  lemma SplitGlobalLists(h0: Heap, g: Heap, s: State, t: nat, c: Choice)
    requires t in s.threads && WellShaped(s) && |h0.locals| == SLOTS && s.threads[t].pc == SplitGlobal
    requires HeapInv(s.heap) && ThreadInv(s.heap, t, s.threads[t]) && GlobalSoFar(g, s.heap, s.threads[t])
    requires ListsSoFar(h0, g, s.heap, t % SLOTS, s.threads[t])
    ensures var s' := StepGlobal(s, t, s.threads[t], c);
            && CanRun(s, t, s.threads[t]) && t in s'.threads
            && ListsSoFar(h0, g, s'.heap, t % SLOTS, s'.threads[t])
  {
    hide HeapInv, ThreadInv, StepGlobal, SplitPoint, NoneBefore, Without;
    var h, th := s.heap, s.threads[t];
    SplitHeld(h, t, th);
    SplitPointOk(h, th);
    SplitPointExactly(h, th);
    SplitGlobalGoes(s, t, c);
  }

  lemma AfterCutLists(h0: Heap, g: Heap, s: State, t: nat, c: Choice)
    requires t in s.threads && WellShaped(s) && |h0.locals| == SLOTS && CanRun(s, t, s.threads[t])
    requires s.threads[t].pc in {LinkPiece, PublishPiece, ShrinkGlobal}
    requires GlobalSoFar(g, s.heap, s.threads[t]) && ListsSoFar(h0, g, s.heap, t % SLOTS, s.threads[t])
    ensures var s' := StepGlobal(s, t, s.threads[t], c);
            t in s'.threads && ListsSoFar(h0, g, s'.heap, t % SLOTS, s'.threads[t])
  {
    hide NoneBefore, Without, SplitPoint;
  }

  lemma MissLists(h0: Heap, g: Heap, s: State, t: nat, c: Choice)
    requires t in s.threads && WellShaped(s) && |h0.locals| == SLOTS && CanRun(s, t, s.threads[t])
    requires s.threads[t].pc == UnlockGlobal && !s.threads[t].found
    requires ListsSoFar(h0, g, s.heap, t % SLOTS, s.threads[t])
    ensures var s' := StepGlobal(s, t, s.threads[t], c);
            t in s'.threads && ListsSoFar(h0, g, s'.heap, t % SLOTS, s'.threads[t])
  {
    hide Without, ListAfter;
  }

  // ----- the end of a call -----

  /**
   `ptr` is the payload of the first fit of the slot's list in h, cut to the size if there was more than a header to
   spare; the list has lost that block and has its rest, if it was cut, in front.
   */
  ghost predicate FromLocal(h: Heap, k: Heap, slot: nat, size: nat, ptr: nat) {
    && slot < |h.locals|
    && exists n: nat ::
         && FirstFit(h, h.locals[slot], size, n) && ptr == h.locals[slot][n] + HEADER
         && HasPayload(k, h.locals[slot][n], CutPayload(h, h.locals[slot][n], size))
         && ListsAre(k, slot, ListAfter(h, h.locals[slot][n], size, Without(h.locals[slot], n)))
  }

  /** The same for the global list of h, the rest going to the slot's list. */
  ghost predicate FromGlobal(h: Heap, k: Heap, slot: nat, size: nat, ptr: nat) {
    && slot < |h.locals|
    && exists n: nat ::
         && FirstFit(h, h.globals, size, n) && ptr == h.globals[n] + HEADER
         && HasPayload(k, h.globals[n], CutPayload(h, h.globals[n], size))
         && k.globals == Without(h.globals, n) && ListsAre(k, slot, ListAfter(h, h.globals[n], size, h.locals[slot]))
  }

  /** The grant that a step makes. */
  ghost predicate Grants(h: Heap, k: Heap, req: Size, ptr: nat) {
    k.returned == h.returned + [Grant(ptr, req)]
  }

  ghost predicate GrantsOne(h: Heap, k: Heap, req: Size) {
    exists ptr: nat :: Grants(h, k, req, ptr)
  }

  lemma HitEnds(h0: Heap, g: Heap, s: State, t: nat)
    requires t in s.threads && WellShaped(s) && |h0.locals| == SLOTS && s.threads[t].pc == UnlockHit
    requires CanRun(s, t, s.threads[t]) && LocalSoFar(h0, s.heap, t % SLOTS, s.threads[t])
    requires ListsSoFar(h0, g, s.heap, t % SLOTS, s.threads[t])
    ensures var th, s' := s.threads[t], StepLocal(s, t, s.threads[t]);
            && t in s'.threads && s'.threads[t].pc == Idle && Grants(s.heap, s'.heap, th.req, th.curr + HEADER)
            && FromLocal(h0, s'.heap, t % SLOTS, th.size, th.curr + HEADER)
  {
    hide NoneBefore, Without, ListAfter;
  }

  lemma FoundEnds(h0: Heap, g: Heap, s: State, t: nat, c: Choice)
    requires t in s.threads && WellShaped(s) && s.threads[t].pc == UnlockGlobal && s.threads[t].found
    requires CanRun(s, t, s.threads[t]) && GlobalSoFar(g, s.heap, s.threads[t])
    requires |h0.locals| == SLOTS && ListsSoFar(h0, g, s.heap, t % SLOTS, s.threads[t])
    ensures var th, s' := s.threads[t], StepGlobal(s, t, s.threads[t], c);
            && t in s'.threads && s'.threads[t].pc == Idle && Grants(s.heap, s'.heap, th.req, th.curr + HEADER)
            && FromGlobal(g, s'.heap, t % SLOTS, th.size, th.curr + HEADER)
  {
    hide NoneBefore, Without, ListAfter;
  }

  /** Pages of its own: a region that was not mapped before, all of it. */
  ghost predicate PagesFrom(h: Heap, k: Heap, size: Size, vm: nat, ptr: nat) {
    && vm != 0 && ptr == vm + HEADER && vm !in h.regions && vm !in h.blocks
    && k.regions == h.regions[vm := FallbackLength(size)]
    && FallbackLength(size) >= HEADER && HasPayload(k, vm, FallbackLength(size) - HEADER)
  }

  lemma PagesEnd(s: State, t: nat, c: Choice)
    requires Inv(s) && t in s.threads && s.threads[t].pc == MapPages
    requires VmallocMay(s, c.vm, FallbackLength(s.threads[t].size))
    ensures var th, s' := s.threads[t], StepGlobal(s, t, s.threads[t], c);
            && t in s'.threads && s'.threads[t].pc == Idle && s'.heap.locals == s.heap.locals
            && if c.vm == 0 then s'.heap == s.heap
               else Grants(s.heap, s'.heap, th.req, c.vm + HEADER)
                    && PagesFrom(s.heap, s'.heap, th.size, c.vm, c.vm + HEADER)
  {
    hide HeapInv, ThreadInv, LocksInv, FallbackLength;
    if c.vm != 0 {
      AddRegionOk(s.heap, c.vm, FallbackLength(s.threads[t].size), t);
      FreshBase(s.heap, c.vm, FallbackLength(s.threads[t].size), t);
    }
  }

  lemma FreshBase(h: Heap, base: nat, len: nat, t: nat)
    requires HeapInv(h) && Fresh(h, base, len)
    ensures base !in h.regions && len >= HEADER
  {
    AddRegionApart(h, base, len, t);
    PageMultiple(len);
  }

  // ----- calls in a run -----

  /** Thread t is inside mymalloc in all states after i up to k. */
  ghost predicate InCall(states: seq<State>, i: nat, k: nat, t: nat) {
    && i < k < |states|
    && forall m {:trigger states[m]} :: i < m <= k ==> t in states[m].threads && states[m].threads[t].pc != Idle
  }

  /** In state i thread t rests, and its next step calls mymalloc. */
  ghost predicate Called(states: seq<State>, actions: seq<Action>, i: nat, t: nat) {
    && IsRun(states, actions) && i < |actions|
    && actions[i].Run? && actions[i].tid == t && t in states[i].threads && states[i].threads[t].pc == Idle
  }

  ghost predicate SoFar(h0: Heap, g: Heap, s: State, t: nat, req: Size) {
    && t in s.threads && |h0.locals| == SLOTS
    && s.threads[t].pc != Idle && s.threads[t].req == req && s.threads[t].size == RoundUp8(req)
    && LocalSoFar(h0, s.heap, t % SLOTS, s.threads[t]) && GlobalSoFar(g, s.heap, s.threads[t])
    && ListsSoFar(h0, g, s.heap, t % SLOTS, s.threads[t])
  }

  /** The points at which the call has read the head of the global list. */
  predicate PastRead(pc: Pc) {
    pc in {WalkGlobal, CutGlobal, SplitGlobal, LockPiece, LinkPiece, PublishPiece, UnlockPiece, ShrinkGlobal,
           UnlockGlobal, MapPages}
  }

  lemma OtherSoFar(h0: Heap, g: Heap, s: State, t: nat, c: Choice, u: nat, req: Size)
    requires Inv(s) && Enabled(s, Run(t, c)) && u != t && SoFar(h0, g, s, u, req)
    ensures CanRun(s, t, s.threads[t]) && SoFar(h0, g, Step(s, t, s.threads[t], c), u, req)
    ensures Step(s, t, s.threads[t], c).threads[u] == s.threads[u]
  {
    hide HeapInv, LocksInv, ThreadInv, Untouched, LocalSoFar, GlobalSoFar, ListsSoFar, Step, CanRun, RoundUp8;
    OthersKeep(s, t, c, u);
    StepShape(s, t, c);
    OtherLocalSoFar(h0, s.heap, Step(s, t, s.threads[t], c).heap, u, s.threads[u], HasGlobal(s.threads[u].pc));
    OtherGlobalSoFar(g, s.heap, Step(s, t, s.threads[t], c).heap, u, s.threads[u]);
    OtherListsSoFar(h0, g, s.heap, Step(s, t, s.threads[t], c).heap, u, s.threads[u]);
  }

  ghost predicate SameCall(s: State, t: nat, s': State)
    requires t in s.threads
  {
    && t in s'.threads
    && (s'.threads[t].pc != Idle ==> s'.threads[t].req == s.threads[t].req && s'.threads[t].size == s.threads[t].size)
  }

  lemma RefillStays(s: State, t: nat, c: Choice)
    requires t in s.threads && WellShaped(s) && CanRun(s, t, s.threads[t])
    requires InRefill(s.threads[t].pc) && s.threads[t].pc != Idle
    ensures var s' := StepRefill(s, t, s.threads[t], c);
            && SameCall(s, t, s') && s'.threads[t].pc != Idle
            && (InRefill(s'.threads[t].pc) || s'.threads[t].pc == LockLocal)
  {
    hide Write, Split, PushLocal, PushGlobal, AddRegion;
  }

  lemma LocalStays(s: State, t: nat)
    requires t in s.threads && WellShaped(s) && CanRun(s, t, s.threads[t]) && InLocal(s.threads[t].pc)
    ensures var s' := StepLocal(s, t, s.threads[t]);
            && SameCall(s, t, s') && (s'.threads[t].pc == Idle <==> s.threads[t].pc == UnlockHit)
            && (s'.threads[t].pc in {Idle, LockGlobal} || InLocal(s'.threads[t].pc)) && s'.threads[t].pc != LockLocal
  {
    hide SplitPoint, Write, Split, UnlinkLocal, PushLocal, Hand, Hdr;
  }

  lemma OwnRefillSoFar(h0: Heap, g: Heap, s: State, t: nat, c: Choice, req: Size)
    requires Inv(s) && SoFar(h0, g, s, t, req) && InRefill(s.threads[t].pc) && CanRun(s, t, s.threads[t])
    ensures SoFar(h0, g, StepRefill(s, t, s.threads[t], c), t, req)
  {
    hide HeapInv, LocksInv, ThreadInv, LocalSoFar, StepRefill, CanRun, RoundUp8, Walkable;
    WalkableOk(s.heap, t);
    RefillSoFar(h0, s, t, c);
    RefillStays(s, t, c);
  }

  lemma OwnWalkSoFar(h0: Heap, g: Heap, s: State, t: nat, req: Size)
    requires Inv(s) && SoFar(h0, g, s, t, req) && InLocal(s.threads[t].pc) && CanRun(s, t, s.threads[t])
    requires s.threads[t].pc != UnlockHit
    ensures SoFar(h0, g, StepLocal(s, t, s.threads[t]), t, req)
  {
    hide HeapInv, LocksInv, ThreadInv, LocalSoFar, ListsSoFar, StepLocal, CanRun, RoundUp8;
    OwnLocalSoFar(h0, s, t);
    LocalStays(s, t);
    OwnLocalLists(h0, g, s, t);
  }

  lemma QuietLocalLists(h0: Heap, g: Heap, s: State, t: nat)
    requires t in s.threads && WellShaped(s) && |h0.locals| == SLOTS
    requires s.threads[t].pc in {LockLocal, WalkLocal, UnlockMiss}
    ensures var s' := StepLocal(s, t, s.threads[t]);
            t in s'.threads && ListsSoFar(h0, g, s'.heap, t % SLOTS, s'.threads[t])
  {
    hide StepLocal, Without, ListAfter;
    QuietLocalGoes(s, t);
  }

  lemma OwnLocalLists(h0: Heap, g: Heap, s: State, t: nat)
    requires Inv(s) && t in s.threads && |h0.locals| == SLOTS && CanRun(s, t, s.threads[t])
    requires InLocal(s.threads[t].pc) && s.threads[t].pc != UnlockHit && LocalSoFar(h0, s.heap, t % SLOTS, s.threads[t])
    requires ListsSoFar(h0, g, s.heap, t % SLOTS, s.threads[t])
    ensures var s' := StepLocal(s, t, s.threads[t]);
            t in s'.threads && ListsSoFar(h0, g, s'.heap, t % SLOTS, s'.threads[t])
  {
    hide HeapInv, LocksInv, ThreadInv, LocalSoFar, ListsSoFar, StepLocal, CanRun;
    match s.threads[t].pc
    case CutLocal => CutLocalLists(h0, g, s, t);
    case SplitLocal => SplitLocalLists(h0, g, s, t);
    case LinkSplit | ShrinkLocal => AfterSplitLists(h0, g, s, t);
    case _ => QuietLocalLists(h0, g, s, t);
  }

  lemma OwnGlobalLists(h0: Heap, g: Heap, s: State, t: nat, c: Choice)
    requires Inv(s) && t in s.threads && |h0.locals| == SLOTS && CanRun(s, t, s.threads[t])
    requires !InRefill(s.threads[t].pc) && !InLocal(s.threads[t].pc) && s.threads[t].pc != MapPages
    requires s.threads[t].pc == UnlockGlobal ==> !s.threads[t].found
    requires s.threads[t].pc == ReadGlobal ==> g == s.heap
    requires GlobalSoFar(g, s.heap, s.threads[t]) && ListsSoFar(h0, g, s.heap, t % SLOTS, s.threads[t])
    ensures var s' := StepGlobal(s, t, s.threads[t], c);
            t in s'.threads && ListsSoFar(h0, g, s'.heap, t % SLOTS, s'.threads[t])
  {
    hide HeapInv, LocksInv, ThreadInv, GlobalSoFar, ListsSoFar, StepGlobal, CanRun;
    match s.threads[t].pc
    case CutGlobal => CutGlobalLists(h0, g, s, t, c);
    case SplitGlobal => SplitGlobalLists(h0, g, s, t, c);
    case LinkPiece | PublishPiece | ShrinkGlobal => AfterCutLists(h0, g, s, t, c);
    case UnlockGlobal => MissLists(h0, g, s, t, c);
    case _ => QuietGlobalLists(h0, g, s, t, c);
  }

  /** A step at the global list that does not end the call. */
  lemma OwnGlobalSoFar(h0: Heap, g: Heap, s: State, t: nat, c: Choice, req: Size)
    requires Inv(s) && SoFar(h0, g, s, t, req) && CanRun(s, t, s.threads[t])
    requires !InRefill(s.threads[t].pc) && !InLocal(s.threads[t].pc) && s.threads[t].pc != MapPages
    requires s.threads[t].pc == UnlockGlobal ==> !s.threads[t].found
    requires s.threads[t].pc == ReadGlobal ==> g == s.heap
    ensures SoFar(h0, g, StepGlobal(s, t, s.threads[t], c), t, req)
  {
    hide HeapInv, LocksInv, ThreadInv, LocalSoFar, GlobalSoFar, ListsSoFar, StepGlobal, CanRun, RoundUp8, Walkable,
         AllWhole;
    WalkableOk(s.heap, t);
    ListsWhole(s.heap, t);
    StaysGlobal(s, t, c);
    StillNoFit(h0, s, t, c);
    OwnGlobalLists(h0, g, s, t, c);
    NotYet(s, t, c);
    match s.threads[t].pc
    case WalkGlobal => WalkGlobalSoFar(g, s, t, c);
    case LockPiece | UnlockPiece => PieceSoFar(g, s, t, c);
    case CutGlobal => CutGlobalSoFar(g, s, t, c);
    case SplitGlobal => SplitGlobalSoFar(g, s, t, c);
    case LinkPiece | PublishPiece | ShrinkGlobal => AfterCutSoFar(g, s, t, c);
    case _ => MissSoFar(g, s, t, c);
  }

  /**
   What the last step of a call does, which leads from the heap `last` to k: it hands out the first fit of the slot's
   list as it was when the call began; or there was none and it hands out the first fit of the global list as it was
   when the call read it; or there was none either and it hands out fresh pages, or NULL when vmalloc gave none.
   */
  ghost predicate Answered(h0: Heap, g: Heap, last: Heap, k: Heap, slot: nat, req: Size, vm: nat, from: Pc) {
    var size := RoundUp8(req);
    && slot < |h0.locals|
    && match from
       case UnlockHit =>
         exists ptr: nat :: Grants(last, k, req, ptr) && FromLocal(h0, k, slot, size, ptr)
       case UnlockGlobal =>
         && NoFit(h0, h0.locals[slot], size)
         && exists ptr: nat :: Grants(last, k, req, ptr) && FromGlobal(g, k, slot, size, ptr)
       case MapPages =>
         && NoFit(h0, h0.locals[slot], size) && NoFit(g, g.globals, size)
         && slot < |g.locals| && ListsAre(k, slot, g.locals[slot])
         && if vm == 0 then k == last
            else Grants(last, k, req, vm + HEADER) && PagesFrom(last, k, size, vm, vm + HEADER)
       case _ => false
  }

  ghost predicate StepAnswers(h0: Heap, g: Heap, s: State, t: nat, s': State, req: Size, vm: nat)
    requires t in s.threads
  {
    && t in s'.threads
    && if s'.threads[t].pc == Idle then Answered(h0, g, s.heap, s'.heap, t % SLOTS, req, vm, s.threads[t].pc)
       else SoFar(h0, g, s', t, req)
  }

  lemma LocalAnswers(h0: Heap, g: Heap, s: State, t: nat, req: Size, vm: nat)
    requires Inv(s) && SoFar(h0, g, s, t, req) && InLocal(s.threads[t].pc) && CanRun(s, t, s.threads[t])
    ensures StepAnswers(h0, g, s, t, StepLocal(s, t, s.threads[t]), req, vm)
  {
    hide HeapInv, LocksInv, ThreadInv, StepLocal, CanRun, RoundUp8, Grants, FromLocal, NoFit, Took, HasPayload,
         SameSlot, GlobalSoFar;
    LocalStays(s, t);
    if s.threads[t].pc == UnlockHit {
      HitEnds(h0, g, s, t);
    } else {
      OwnWalkSoFar(h0, g, s, t, req);
    }
  }

  lemma GlobalAnswers(h0: Heap, g: Heap, s: State, t: nat, c: Choice, req: Size)
    requires Inv(s) && Enabled(s, Run(t, c)) && SoFar(h0, g, s, t, req) && CanRun(s, t, s.threads[t])
    requires !InRefill(s.threads[t].pc) && !InLocal(s.threads[t].pc)
    requires s.threads[t].pc == ReadGlobal ==> g == s.heap
    ensures StepAnswers(h0, g, s, t, StepGlobal(s, t, s.threads[t], c), req, c.vm)
  {
    hide HeapInv, LocksInv, ThreadInv, StepGlobal, CanRun, RoundUp8, Grants, FromGlobal, PagesFrom, NoFit, Took,
         HasPayload, SameSlot, SameGlobals, VmallocMay;
    if s.threads[t].pc == UnlockGlobal && s.threads[t].found {
      FoundEnds(h0, g, s, t, c);
    } else if s.threads[t].pc == MapPages {
      PagesEnd(s, t, c);
    } else {
      OwnGlobalSoFar(h0, g, s, t, c, req);
    }
  }

  /** No other step ends a call. */
  lemma NotYet(s: State, t: nat, c: Choice)
    requires t in s.threads && WellShaped(s) && CanRun(s, t, s.threads[t])
    requires !InRefill(s.threads[t].pc) && !InLocal(s.threads[t].pc) && s.threads[t].pc != MapPages
    requires s.threads[t].pc == UnlockGlobal ==> !s.threads[t].found
    ensures var s' := StepGlobal(s, t, s.threads[t], c); t in s'.threads && s'.threads[t].pc != Idle
  {
    hide SplitPoint, Write, Split, UnlinkGlobal, PushLocal, Hand, Hdr;
  }

  lemma OwnAnswers(h0: Heap, g: Heap, s: State, t: nat, c: Choice, req: Size)
    requires Inv(s) && Enabled(s, Run(t, c)) && SoFar(h0, g, s, t, req)
    requires s.threads[t].pc == ReadGlobal ==> g == s.heap
    ensures CanRun(s, t, s.threads[t]) && StepAnswers(h0, g, s, t, Step(s, t, s.threads[t], c), req, c.vm)
  {
    StepDefined(s, t, c);
    assert CanRun(s, t, s.threads[t]);
    hide Inv, Enabled, LocalSoFar, GlobalSoFar, StepRefill, StepLocal, StepGlobal, CanRun, RoundUp8, Answered, StepFine;
    if InRefill(s.threads[t].pc) {
      OwnRefillSoFar(h0, g, s, t, c, req);
      OwnNotIdle(h0, g, StepRefill(s, t, s.threads[t], c), t, req);
    } else if InLocal(s.threads[t].pc) {
      LocalAnswers(h0, g, s, t, req, c.vm);
    } else {
      GlobalAnswers(h0, g, s, t, c, req);
    }
  }

  lemma OwnNotIdle(h0: Heap, g: Heap, s: State, t: nat, req: Size)
    requires SoFar(h0, g, s, t, req)
    ensures t in s.threads && s.threads[t].pc != Idle
  {
  }

  lemma RunLength(states: seq<State>, actions: seq<Action>)
    requires IsRun(states, actions)
    ensures |states| == |actions| + 1
  {
  }

  lemma RunStep(states: seq<State>, actions: seq<Action>, n: nat)
    requires IsRun(states, actions) && n < |actions|
    ensures Inv(states[n]) && Enabled(states[n], actions[n]) && Next(states[n], actions[n], states[n + 1])
  {
    RunInv(states, actions, n, n);
    assert Next(states[n], actions[n], states[n + 1]);
  }

  /** A resting thread that calls mymalloc is inside it afterwards, with its request; mymalloc(0) returns at once. */
  lemma CallBegins(states: seq<State>, actions: seq<Action>, i: nat, t: nat)
    requires Called(states, actions, i, t)
    ensures var req, s, s' := actions[i].choice.req, states[i], states[i + 1];
            && s'.heap == s.heap
            && if req == 0 then s' == s
               else && t in s'.threads && s'.threads[t].pc == ReadHead && s'.threads[t].req == req
                    && s'.threads[t].big == 0
                    && SoFar(s.heap, s.heap, s', t, req)
  {
    hide HeapInv, LocksInv, ThreadInv, RoundUp8;
    RunStep(states, actions, i);
    SlotIsSame(states[i].heap, t);
  }

  lemma SlotIsSame(h: Heap, t: nat)
    requires HeapInv(h)
    ensures |h.locals| == SLOTS && SameSlot(h, h, t % SLOTS)
  {
    ListsWhole(h, t);
  }

  lemma OthersStep(s: State, a: Action, s': State, t: nat)
    requires Inv(s) && Next(s, a, s') && !(a.Run? && a.tid == t) && t in s.threads && s.threads[t].pc != Idle
    ensures t in s'.threads && s'.threads[t] == s.threads[t]
    ensures s'.heap != s.heap ==> a.Run? && a.tid in s.threads
  {
    hide HeapInv, LocksInv, ThreadInv, Step, CanRun;
    if a.Run? {
      StepShape(s, a.tid, a.choice);
    }
  }

  lemma OtherActionSoFar(h0: Heap, g: Heap, s: State, a: Action, s': State, t: nat, req: Size)
    requires Inv(s) && Next(s, a, s') && !(a.Run? && a.tid == t) && SoFar(h0, g, s, t, req)
    ensures SoFar(h0, g, s', t, req) && s'.threads[t] == s.threads[t]
  {
    hide HeapInv, LocksInv, ThreadInv, Step, CanRun, LocalSoFar, GlobalSoFar, RoundUp8;
    OthersStep(s, a, s', t);
    if a.Run? {
      OtherSoFar(h0, g, s, a.tid, a.choice, t, req);
    }
  }

  /** State g is the last one before k in which the call was about to read the head of the global list. */
  ghost predicate ReadAt(states: seq<State>, i: nat, g: nat, k: nat, t: nat) {
    i < g < k < |states| && t in states[g].threads && states[g].threads[t].pc == ReadGlobal
  }

  lemma NotReadYet(h0: Heap, s: State, t: nat, req: Size)
    requires t in s.threads && s.threads[t].pc == ReadGlobal
    ensures forall g, g' :: SoFar(h0, g, s, t, req) ==> SoFar(h0, g', s, t, req)
  {
    hide LocalSoFar, RoundUp8;
  }

  predicate FromRead(pc: Pc) {
    PastRead(pc) || pc == ReadGlobal
  }

  lemma GlobalOrder(s: State, t: nat, c: Choice)
    requires t in s.threads && WellShaped(s) && CanRun(s, t, s.threads[t])
    requires !InRefill(s.threads[t].pc) && !InLocal(s.threads[t].pc)
    ensures var s' := StepGlobal(s, t, s.threads[t], c);
            t in s'.threads && (PastRead(s'.threads[t].pc) ==> FromRead(s.threads[t].pc))
  {
    if s.threads[t].pc == LockGlobal {
      QuietGlobalGoes(s, t, c);
    } else {
      hide StepGlobal, CanRun;
      StaysGlobal(s, t, c);
    }
  }

  lemma CallOrder(s: State, t: nat, c: Choice)
    requires t in s.threads && WellShaped(s) && CanRun(s, t, s.threads[t]) && s.threads[t].pc != Idle
    ensures var s' := Step(s, t, s.threads[t], c);
            t in s'.threads && (PastRead(s'.threads[t].pc) ==> FromRead(s.threads[t].pc))
  {
    hide StepRefill, StepLocal, StepGlobal, CanRun;
    if InRefill(s.threads[t].pc) {
      RefillStays(s, t, c);
    } else if InLocal(s.threads[t].pc) {
      LocalStays(s, t);
    } else {
      GlobalOrder(s, t, c);
    }
  }

  lemma CallStep(h0: Heap, g: Heap, s: State, t: nat, c: Choice, s': State, req: Size)
    requires Inv(s) && Enabled(s, Run(t, c)) && Next(s, Run(t, c), s') && SoFar(h0, g, s, t, req)
    requires s.threads[t].pc == ReadGlobal ==> g == s.heap
    ensures StepAnswers(h0, g, s, t, s', req, c.vm)
    ensures PastRead(s'.threads[t].pc) ==> FromRead(s.threads[t].pc)
  {
    hide HeapInv, LocksInv, ThreadInv, LocalSoFar, GlobalSoFar, Step, CanRun, RoundUp8, Answered, SoFar, Enabled,
         PastRead, FromRead, StepAnswers;
    OwnAnswers(h0, g, s, t, c, req);
    InsideCall(h0, g, s, t, req);
    CallOrder(s, t, c);
  }

  lemma InsideCall(h0: Heap, g: Heap, s: State, t: nat, req: Size)
    requires SoFar(h0, g, s, t, req)
    ensures t in s.threads && s.threads[t].pc != Idle
  {
  }

  /** What a call has found out in state k, g being where it read the global list, once it has. */
  ghost predicate Known(states: seq<State>, i: nat, g: nat, k: nat, t: nat, req: Size) {
    && g <= k < |states| && i < |states|
    && SoFar(states[i].heap, states[g].heap, states[k], t, req)
    && (PastRead(states[k].threads[t].pc) ==> ReadAt(states, i, g, k, t))
  }

  lemma KnownNext(states: seq<State>, actions: seq<Action>, i: nat, k: nat, t: nat, g: nat, req: Size) returns (g': nat)
    requires IsRun(states, actions) && i < k && InCall(states, i, k + 1, t) && Known(states, i, g, k, t, req)
    ensures Known(states, i, g', k + 1, t, req)
  {
    hide SoFar, IsRun, Next, Inv, Enabled, PastRead, LocalSoFar, GlobalSoFar;
    RunLength(states, actions);
    RunStep(states, actions, k);
    var h0, s, a, s' := states[i].heap, states[k], actions[k], states[k + 1];
    g' := g;
    if a.Run? && a.tid == t {
      if s.threads[t].pc == ReadGlobal {
        g' := k;
        NotReadYet(h0, s, t, req);
      }
      CallStep(h0, states[g'].heap, s, t, a.choice, s', req);
    } else {
      OtherActionSoFar(h0, states[g].heap, s, a, s', t, req);
    }
  }

  lemma {:induction false} CallSoFar(states: seq<State>, actions: seq<Action>, i: nat, k: nat, t: nat) returns (g: nat)
    requires Called(states, actions, i, t) && actions[i].choice.req > 0 && InCall(states, i, k, t)
    ensures Known(states, i, g, k, t, actions[i].choice.req)
    decreases k
  {
    if k == i + 1 {
      hide SoFar, IsRun;
      CallBegins(states, actions, i, t);
      g := i;
    } else {
      hide SoFar, IsRun, Known;
      var g0 := CallSoFar(states, actions, i, k - 1, t);
      g := KnownNext(states, actions, i, k - 1, t, g0, actions[i].choice.req);
    }
  }

  /** In state j thread t rests again for the first time after its call in state i. */
  ghost predicate Returned(states: seq<State>, i: nat, j: nat, t: nat) {
    && i + 1 < j < |states| && InCall(states, i, j - 1, t)
    && (t in states[j].threads ==> states[j].threads[t].pc == Idle)
  }

  /**
   What a call of mymalloc returns, whatever all other threads do meanwhile. Its last step, and no other, hands out the
   one block that `Answered` says: first fit on the list of its slot as it found it, else first fit on the global list
   as it read it in state g, else fresh pages.
   */
  lemma CallReturns(states: seq<State>, actions: seq<Action>, i: nat, j: nat, t: nat) returns (g: nat)
    requires Called(states, actions, i, t) && actions[i].choice.req > 0 && Returned(states, i, j, t)
    ensures actions[j - 1].Run? && actions[j - 1].tid == t && g < |states|
    ensures var last := states[j - 1].threads[t].pc;
            && Answered(states[i].heap, states[g].heap, states[j - 1].heap, states[j].heap, t % SLOTS,
                        actions[i].choice.req, actions[j - 1].choice.vm, last)
            && (last != UnlockHit ==> ReadAt(states, i, g, j, t))
  {
    hide SoFar, Next, Inv, Enabled, Answered;
    var k, h0, req := j - 1, states[i].heap, actions[i].choice.req;
    g := CallSoFar(states, actions, i, k, t);
    RunStep(states, actions, k);
    var s, a, s' := states[k], actions[k], states[j];
    if a.Run? && a.tid == t {
      if s.threads[t].pc == ReadGlobal {
        g := k;
        NotReadYet(h0, s, t, req);
      }
      CallStep(h0, states[g].heap, s, t, a.choice, s', req);
      AnswersWhere(h0, states[g].heap, s.heap, s'.heap, t % SLOTS, req, a.choice.vm, s.threads[t].pc);
    } else {
      OthersStep(s, a, s', t);
    }
  }

  lemma AnswersWhere(h0: Heap, g: Heap, last: Heap, k: Heap, slot: nat, req: Size, vm: nat, from: Pc)
    requires Answered(h0, g, last, k, slot, req, vm, from)
    ensures from in {UnlockHit, UnlockGlobal, MapPages}
  {
  }

  /** Fresh pages are asked for only when neither list, as the call found it, had a block that was large enough. */
  lemma PagesOnlyWithoutFit(states: seq<State>, actions: seq<Action>, i: nat, k: nat, t: nat) returns (g: nat)
    requires Called(states, actions, i, t) && actions[i].choice.req > 0 && InCall(states, i, k, t)
    requires states[k].threads[t].pc == MapPages
    ensures ReadAt(states, i, g, k, t)
    ensures var size, slot := RoundUp8(actions[i].choice.req), t % SLOTS;
            && slot < |states[i].heap.locals|
            && (forall a :: a in states[i].heap.locals[slot] ==> !Fits(states[i].heap, a, size))
            && (forall a :: a in states[g].heap.globals ==> !Fits(states[g].heap, a, size))
  {
    hide Fits, RoundUp8;
    g := CallSoFar(states, actions, i, k, t);
  }

  /** Nothing is handed out but by the last step of a call. */
  lemma GrantsEndCalls(states: seq<State>, actions: seq<Action>, n: nat)
    requires IsRun(states, actions) && n < |actions| && states[n + 1].heap.returned != states[n].heap.returned
    ensures actions[n].Run?
    ensures var t := actions[n].tid;
            && t in states[n].threads && states[n].threads[t].pc != Idle
            && t in states[n + 1].threads && states[n + 1].threads[t].pc == Idle
            && GrantsOne(states[n].heap, states[n + 1].heap, states[n].threads[t].req)
  {
    hide Inv, Enabled;
    RunStep(states, actions, n);
    StepGrants(states[n], actions[n].tid, actions[n].choice);
  }

  lemma StepGrants(s: State, t: nat, c: Choice)
    requires t in s.threads && WellShaped(s) && CanRun(s, t, s.threads[t])
    ensures var s' := Step(s, t, s.threads[t], c);
            s'.heap.returned != s.heap.returned ==>
              && s.threads[t].pc != Idle && t in s'.threads && s'.threads[t].pc == Idle
              && GrantsOne(s.heap, s'.heap, s.threads[t].req)
  {
    hide SplitPoint, FallbackLength, Hdr;
    var s', th := Step(s, t, s.threads[t], c), s.threads[t];
    if s'.heap.returned != s.heap.returned {
      if th.pc == MapPages {
        assert Grants(s.heap, s'.heap, th.req, c.vm + HEADER);
      } else {
        assert Grants(s.heap, s'.heap, th.req, th.curr + HEADER);
      }
    }
  }

  // ----- the refill -----

  /** The slot's list is the first n blocks cut off the chunk at `big`, newest first, each with a payload of 4096. */
  ghost predicate Blocks(h: Heap, slot: nat, big: nat, n: nat) {
    && n <= 3 && slot < |h.locals| && h.locals[slot] == ChunkBlocks(big, n)
    && forall a :: a in h.locals[slot] ==> HasPayload(h, a, BLOCK)
  }

  /** The first block of the global list is the tail of the chunk, with a payload of 4000. */
  ghost predicate TailShared(h: Heap, big: nat) {
    h.globals != [] && h.globals[0] == CutAt(big, 3) && HasPayload(h, h.globals[0], 4000)
  }

  function CutsMade(th: Thread): nat {
    if th.cut < th.big then 0 else (th.cut - th.big) / (HEADER + BLOCK)
  }

  /** How far the refill of an empty list has come. */
  ghost predicate RefillDone(h: Heap, slot: nat, th: Thread) {
    match th.pc
    case ReadHead => th.big == 0 && Blocks(h, slot, 0, 0)
    case TestHead => th.big == 0 && Blocks(h, slot, 0, 0)
    case LockRefill => th.big == 0 && Blocks(h, slot, 0, 0)
    case Retest => th.big == 0 && Blocks(h, slot, 0, 0)
    case MapChunk => th.big == 0 && Blocks(h, slot, 0, 0)
    case Carve => th.big > 0 && th.cut == CutAt(th.big, CutsMade(th)) && Blocks(h, slot, th.big, CutsMade(th))
    case CarveLink => th.big > 0 && th.cut == CutAt(th.big, CutsMade(th)) && Blocks(h, slot, th.big, CutsMade(th))
    case Tail => th.big > 0 && th.cut == CutAt(th.big, 3) && Blocks(h, slot, th.big, 3)
    case LockTail => th.big > 0 && th.cut == CutAt(th.big, 3) && Blocks(h, slot, th.big, 3)
    case LinkTail => th.big > 0 && th.cut == CutAt(th.big, 3) && Blocks(h, slot, th.big, 3)
    case PublishTail => th.big > 0 && th.cut == CutAt(th.big, 3) && Blocks(h, slot, th.big, 3)
    case UnlockTail => th.big > 0 && Blocks(h, slot, th.big, 3) && TailShared(h, th.big)
    case UnlockRefill => if th.big == 0 then Blocks(h, slot, 0, 0) else Blocks(h, slot, th.big, 3)
    case LockLocal => if th.big == 0 then Blocks(h, slot, 0, 0) else Blocks(h, slot, th.big, 3)
    case _ => true
  }

  lemma OtherBlocks(h: Heap, k: Heap, u: nat, g: bool, big: nat, n: nat)
    requires HeapInv(h) && Untouched(h, k, u, g) && Blocks(h, u % SLOTS, big, n)
    ensures Blocks(k, u % SLOTS, big, n)
  {
    hide ChunkBlocks, BlocksInv, GrantsInv;
    assert ListInv(h, h.heads[u % SLOTS], h.locals[u % SLOTS], OnLocal(u % SLOTS));
  }

  lemma OtherTail(h: Heap, k: Heap, u: nat, big: nat)
    requires HeapInv(h) && Untouched(h, k, u, true) && TailShared(h, big)
    ensures TailShared(k, big)
  {
    hide BlocksInv, GrantsInv;
    assert ListInv(h, h.ghead, h.globals, OnGlobal) && h.globals[0] in h.globals;
  }

  lemma OtherRefillDone(h: Heap, k: Heap, u: nat, th: Thread)
    requires HeapInv(h) && Untouched(h, k, u, HasGlobal(th.pc)) && RefillDone(h, u % SLOTS, th)
    ensures RefillDone(k, u % SLOTS, th)
  {
    hide HeapInv, Untouched, Blocks, TailShared, CutsMade;
    forall big: nat, n: nat | Blocks(h, u % SLOTS, big, n) ensures Blocks(k, u % SLOTS, big, n) {
      OtherBlocks(h, k, u, HasGlobal(th.pc), big, n);
    }
    if th.pc == UnlockTail {
      OtherTail(h, k, u, th.big);
    }
  }

  lemma QuietRefillDone(s: State, t: nat, c: Choice)
    requires t in s.threads && WellShaped(s) && Walkable(s.heap, t) && RefillDone(s.heap, t % SLOTS, s.threads[t])
    requires s.threads[t].pc in {ReadHead, TestHead, LockRefill, Retest, LockTail, UnlockTail, UnlockRefill}
    ensures var s' := StepRefill(s, t, s.threads[t], c);
            t in s'.threads && RefillDone(s'.heap, t % SLOTS, s'.threads[t])
  {
    hide CutAt, CutsMade, TailShared;
    EmptyHead(s.heap, t);
  }

  lemma EmptyHead(h: Heap, t: nat)
    requires Walkable(h, t)
    ensures Blocks(h, t % SLOTS, 0, 0) ==> h.heads[t % SLOTS] == 0
  {
  }

  lemma MapRefillDone(s: State, t: nat, c: Choice)
    requires t in s.threads && WellShaped(s) && RefillDone(s.heap, t % SLOTS, s.threads[t])
    requires s.threads[t].pc == MapChunk
    ensures var s' := StepRefill(s, t, s.threads[t], c);
            t in s'.threads && RefillDone(s'.heap, t % SLOTS, s'.threads[t])
            && s'.threads[t].big == c.vm
  {
  }

  lemma CarveRefillDone(s: State, t: nat, c: Choice)
    requires t in s.threads && WellShaped(s) && RefillDone(s.heap, t % SLOTS, s.threads[t])
    requires ThreadInv(s.heap, t, s.threads[t]) && s.threads[t].pc == Carve
    ensures var s' := StepRefill(s, t, s.threads[t], c);
            t in s'.threads && RefillDone(s'.heap, t % SLOTS, s'.threads[t])
  {
    hide ChunkBlocks, HeldExactly, LocalInv, GlobalInv;
  }

  lemma LinkRefillDone(s: State, t: nat, c: Choice)
    requires t in s.threads && WellShaped(s) && CanRun(s, t, s.threads[t])
    requires ThreadInv(s.heap, t, s.threads[t]) && s.threads[t].pc == CarveLink
    requires RefillDone(s.heap, t % SLOTS, s.threads[t])
    ensures var s' := StepRefill(s, t, s.threads[t], c);
            t in s'.threads && RefillDone(s'.heap, t % SLOTS, s'.threads[t])
  {
  }

  lemma TailRefillDone(s: State, t: nat, c: Choice)
    requires t in s.threads && WellShaped(s) && CanRun(s, t, s.threads[t])
    requires ThreadInv(s.heap, t, s.threads[t]) && s.threads[t].pc in {Tail, LinkTail, PublishTail}
    requires RefillDone(s.heap, t % SLOTS, s.threads[t])
    ensures var s' := StepRefill(s, t, s.threads[t], c);
            t in s'.threads && RefillDone(s'.heap, t % SLOTS, s'.threads[t])
  {
    hide ChunkBlocks, HeldExactly, LocalInv, GlobalInv;
  }

  lemma OwnRefillDone(s: State, t: nat, c: Choice)
    requires Inv(s) && t in s.threads && CanRun(s, t, s.threads[t]) && RefillDone(s.heap, t % SLOTS, s.threads[t])
    requires InRefill(s.threads[t].pc) && s.threads[t].pc != Idle
    ensures var s' := StepRefill(s, t, s.threads[t], c);
            t in s'.threads && RefillDone(s'.heap, t % SLOTS, s'.threads[t])
            && (s.threads[t].pc == MapChunk ==> s'.threads[t].big == c.vm)
  {
    hide HeapInv, LocksInv, ThreadInv, RefillDone, StepRefill, CanRun, Walkable;
    WalkableOk(s.heap, t);
    match s.threads[t].pc
    case MapChunk => MapRefillDone(s, t, c);
    case Carve => CarveRefillDone(s, t, c);
    case CarveLink => LinkRefillDone(s, t, c);
    case Tail | LinkTail | PublishTail => TailRefillDone(s, t, c);
    case _ => QuietRefillDone(s, t, c);
  }

  predicate AfterMap(pc: Pc) {
    pc in {Carve, CarveLink, Tail, LockTail, LinkTail, PublishTail, UnlockTail, UnlockRefill, LockLocal}
  }

  predicate AfterTail(pc: Pc) {
    pc in {UnlockRefill, LockLocal}
  }

  predicate ToRefill(pc: Pc) {
    pc != Idle && (InRefill(pc) || pc == LockLocal)
  }

  /** With an empty list and a chunk that holds three blocks, the refill's points come in one order. */
  lemma RefillOrder(s: State, t: nat, c: Choice)
    requires t in s.threads && WellShaped(s) && CanRun(s, t, s.threads[t])
    requires InRefill(s.threads[t].pc) && s.threads[t].pc != Idle
    requires s.threads[t].pc in {TestHead, Retest} ==> s.heap.heads[t % SLOTS] == 0
    requires s.threads[t].pc == Tail ==> s.threads[t].big + CHUNK >= s.threads[t].cut + HEADER
    ensures var th, s' := s.threads[t], StepRefill(s, t, s.threads[t], c);
            && t in s'.threads && (th.pc != MapChunk ==> s'.threads[t].big == th.big)
            && (AfterMap(s'.threads[t].pc) ==> AfterMap(th.pc) || th.pc == MapChunk)
            && (AfterTail(s'.threads[t].pc) ==>
                  AfterTail(th.pc) || th.pc == UnlockTail || (th.pc == MapChunk && c.vm == 0))
  {
    hide Write, Split, PushLocal, PushGlobal, AddRegion;
  }

  lemma RefillOrders(s: State, t: nat, c: Choice)
    requires Inv(s) && t in s.threads && CanRun(s, t, s.threads[t]) && RefillDone(s.heap, t % SLOTS, s.threads[t])
    requires InRefill(s.threads[t].pc) && s.threads[t].pc != Idle
    ensures var th, s' := s.threads[t], StepRefill(s, t, s.threads[t], c);
            && t in s'.threads && (th.pc != MapChunk ==> s'.threads[t].big == th.big)
            && (AfterMap(s'.threads[t].pc) ==> AfterMap(th.pc) || th.pc == MapChunk)
            && (AfterTail(s'.threads[t].pc) ==>
                  AfterTail(th.pc) || th.pc == UnlockTail || (th.pc == MapChunk && c.vm == 0))
            && (th.pc == MapChunk ==> s'.threads[t].big == c.vm)
  {
    hide HeapInv, LocksInv, ThreadInv, StepRefill, CanRun, Walkable, Blocks, TailShared, AfterMap, AfterTail, CutsMade,
         ChunkBlocks;
    WalkableOk(s.heap, t);
    EmptyHead(s.heap, t);
    RefillOrder(s, t, c);
    if s.threads[t].pc == MapChunk {
      MapRefillDone(s, t, c);
    }
  }

  // ----- the refill in a run -----

  /** In step m of the call vmalloc gave the chunk at `big`. */
  ghost predicate MappedAt(states: seq<State>, actions: seq<Action>, i: nat, m: nat, k: nat, t: nat, big: nat) {
    && i < m < k < |states| && k <= |actions| && t in states[m].threads && states[m].threads[t].pc == MapChunk
    && actions[m].Run? && actions[m].tid == t && actions[m].choice.vm == big
  }

  /** In state u the call has just put the tail of that chunk in front of the global list. */
  ghost predicate SharedAt(states: seq<State>, i: nat, u: nat, k: nat, t: nat, big: nat) {
    && i < u < k < |states| && t in states[u].threads && states[u].threads[t].pc == UnlockTail
    && TailShared(states[u].heap, big)
  }

  ghost predicate Refilling(states: seq<State>, actions: seq<Action>, i: nat, m: nat, u: nat, k: nat, t: nat) {
    && k < |states| && t in states[k].threads
    && var th := states[k].threads[t];
       && RefillDone(states[k].heap, t % SLOTS, th)
       && (AfterMap(th.pc) ==> MappedAt(states, actions, i, m, k, t, th.big))
       && (AfterTail(th.pc) && th.big != 0 ==> SharedAt(states, i, u, k, t, th.big))
  }

  /** The call's own next step, while it refills. */
  lemma RefillingOwn(states: seq<State>, actions: seq<Action>, i: nat, m: nat, u: nat, k: nat, t: nat)
    returns (m': nat, u': nat)
    requires IsRun(states, actions) && i < k && k + 1 < |states| && Refilling(states, actions, i, m, u, k, t)
    requires actions[k].Run? && actions[k].tid == t
    requires InRefill(states[k].threads[t].pc) && states[k].threads[t].pc != Idle
    ensures Refilling(states, actions, i, m', u', k + 1, t)
  {
    hide IsRun, Inv, Enabled, RefillDone, TailShared, StepRefill, AfterMap, AfterTail;
    RunLength(states, actions);
    RunStep(states, actions, k);
    var s, a := states[k], actions[k];
    OwnRefillDone(s, t, a.choice);
    RefillOrders(s, t, a.choice);
    m' := if s.threads[t].pc == MapChunk then k else m;
    u' := if s.threads[t].pc == UnlockTail then k else u;
    if s.threads[t].pc == UnlockTail {
      SharedNow(s.heap, t % SLOTS, s.threads[t]);
    }
    MapIsFirst();
  }

  lemma SharedNow(h: Heap, slot: nat, th: Thread)
    requires RefillDone(h, slot, th) && th.pc == UnlockTail
    ensures TailShared(h, th.big)
  {
  }

  lemma MapIsFirst()
    ensures !AfterMap(MapChunk) && AfterMap(UnlockTail) && !AfterTail(MapChunk) && !AfterTail(UnlockTail)
    ensures forall pc :: AfterTail(pc) ==> AfterMap(pc)
  {
  }

  lemma RefillingOther(states: seq<State>, actions: seq<Action>, i: nat, m: nat, u: nat, k: nat, t: nat)
    requires IsRun(states, actions) && i < k && k + 1 < |states| && Refilling(states, actions, i, m, u, k, t)
    requires states[k].threads[t].pc != Idle && !(actions[k].Run? && actions[k].tid == t)
    ensures Refilling(states, actions, i, m, u, k + 1, t)
  {
    hide IsRun, Inv, Enabled, RefillDone, TailShared, Step, AfterMap, AfterTail, CanRun;
    RunLength(states, actions);
    RunStep(states, actions, k);
    OthersStep(states[k], actions[k], states[k + 1], t);
    if actions[k].Run? {
      OthersRefillDone(states[k], actions[k].tid, actions[k].choice, t);
    }
  }

  lemma OthersRefillDone(s: State, t: nat, c: Choice, u: nat)
    requires Inv(s) && Enabled(s, Run(t, c)) && u in s.threads && u != t && RefillDone(s.heap, u % SLOTS, s.threads[u])
    ensures CanRun(s, t, s.threads[t]) && RefillDone(Step(s, t, s.threads[t], c).heap, u % SLOTS, s.threads[u])
  {
    hide LocksInv, ThreadInv, HeapInv, Untouched, RefillDone, Step, CanRun;
    OthersKeep(s, t, c, u);
    OtherRefillDone(s.heap, Step(s, t, s.threads[t], c).heap, u, s.threads[u]);
  }

  /** A call does not come back to its refill. */
  lemma RefillFirst(s: State, t: nat, c: Choice)
    requires t in s.threads && WellShaped(s) && CanRun(s, t, s.threads[t]) && s.threads[t].pc != Idle
    ensures var s' := Step(s, t, s.threads[t], c);
            t in s'.threads && (ToRefill(s'.threads[t].pc) ==> InRefill(s.threads[t].pc))
  {
    hide StepRefill, StepLocal, StepGlobal, CanRun;
    if InRefill(s.threads[t].pc) {
      RefillStays(s, t, c);
    } else if InLocal(s.threads[t].pc) {
      LocalStays(s, t);
    } else {
      StaysGlobal(s, t, c);
    }
  }

  lemma {:induction false} RefillingAt(states: seq<State>, actions: seq<Action>, i: nat, k: nat, t: nat)
    returns (m: nat, u: nat)
    requires Called(states, actions, i, t) && actions[i].choice.req > 0 && InCall(states, i, k, t)
    requires |states[i].heap.locals| == SLOTS && states[i].heap.locals[t % SLOTS] == []
    requires ToRefill(states[k].threads[t].pc)
    ensures Refilling(states, actions, i, m, u, k, t)
    decreases k
  {
    hide SoFar, IsRun, Refilling, Next, Inv, Enabled, ToRefill, Step, CanRun;
    if k == i + 1 {
      CallBegins(states, actions, i, t);
      m, u := 0, 0;
      RefillingFirst(states, actions, i, m, u, k, t);
    } else {
      RunLength(states, actions);
      RunStep(states, actions, k - 1);
      if actions[k - 1].Run? && actions[k - 1].tid == t {
        CameFromRefill(states[k - 1], actions[k - 1], states[k], t);
        m, u := RefillingAt(states, actions, i, k - 1, t);
        m, u := RefillingOwn(states, actions, i, m, u, k - 1, t);
      } else {
        OthersStep(states[k - 1], actions[k - 1], states[k], t);
        m, u := RefillingAt(states, actions, i, k - 1, t);
        RefillingOther(states, actions, i, m, u, k - 1, t);
      }
    }
  }

  lemma CameFromRefill(s: State, a: Action, s': State, t: nat)
    requires Next(s, a, s') && a.Run? && a.tid == t && t in s.threads && s.threads[t].pc != Idle
    requires t in s'.threads && ToRefill(s'.threads[t].pc)
    ensures InRefill(s.threads[t].pc) && ToRefill(s.threads[t].pc)
  {
    hide Step, CanRun, Enabled;
    RefillFirst(s, t, a.choice);
  }

  lemma RefillingFirst(states: seq<State>, actions: seq<Action>, i: nat, m: nat, u: nat, k: nat, t: nat)
    requires k < |states| && t in states[k].threads && states[k].threads[t].pc == ReadHead
    requires states[k].threads[t].big == 0
    requires |states[k].heap.locals| == SLOTS && states[k].heap.locals[t % SLOTS] == []
    ensures Refilling(states, actions, i, m, u, k, t)
  {
  }

  /**
   A call that finds its list empty asks vmalloc for a chunk, in step m, and before it looks for a block its list holds
   the three blocks of 4096 bytes cut from the front of that chunk, newest first, the rest of which, 4000 bytes, it put
   in front of the global list in state u; or its list is still empty, if vmalloc gave none.
   */
  lemma RefillGives(states: seq<State>, actions: seq<Action>, i: nat, k: nat, t: nat) returns (m: nat, u: nat)
    requires Called(states, actions, i, t) && actions[i].choice.req > 0 && InCall(states, i, k, t)
    requires |states[i].heap.locals| == SLOTS && states[i].heap.locals[t % SLOTS] == []
    requires states[k].threads[t].pc == LockLocal
    ensures i < m < k <= |actions| && actions[m].Run? && actions[m].tid == t
    ensures var vm := actions[m].choice.vm;
            && MappedAt(states, actions, i, m, k, t, vm)
            && if vm == 0 then Blocks(states[k].heap, t % SLOTS, 0, 0)
               else Blocks(states[k].heap, t % SLOTS, vm, 3) && SharedAt(states, i, u, k, t, vm)
  {
    hide IsRun, TailShared, Blocks;
    m, u := RefillingAt(states, actions, i, k, t);
  }
}
