/** MallocMachine's invariant is kept by every action: one lemma for each program point that writes memory. */
module MallocSteps {
  import opened MallocSizes
  import opened MallocHeap
  import opened MallocMachine

  // ----- every action keeps the invariant -----

  lemma InitInv()
    ensures Inv(Init())
  {
  }

  lemma OtherHeld(h: Heap, k: Heap, u: nat, th: Thread, g: bool)
    requires |h.heads| == |h.locals| == |k.heads| == |k.locals| == SLOTS
    requires HeldExactly(h, u, th) && Untouched(h, k, u, g)
    ensures HeldExactly(k, u, th)
    ensures forall a :: a in HeldBlocks(th) ==> k.blocks[a] == h.blocks[a] && Hdr(k.mem, a) == Hdr(h.mem, a)
  {
  }

  /** A thread keeps its assertions while others work elsewhere. */
  lemma OtherThread(h: Heap, k: Heap, u: nat, th: Thread)
    requires HeapInv(h) && ThreadInv(h, u, th) && |k.heads| == |k.locals| == SLOTS
    requires Untouched(h, k, u, HasGlobal(th.pc))
    ensures ThreadInv(k, u, th)
  {
    assert ListInv(h, h.heads[u % SLOTS], h.locals[u % SLOTS], OnLocal(u % SLOTS));
    OtherHeld(h, k, u, th, HasGlobal(th.pc));
    OtherRefill(h, k, u, th);
    OtherLocal(h, k, u, th);
    OtherGlobal(h, k, u, th);
  }

  lemma OtherRefill(h: Heap, k: Heap, u: nat, th: Thread)
    requires forall a :: a in HeldBlocks(th) ==>
               a in h.blocks && a in k.blocks && k.blocks[a] == h.blocks[a] && Hdr(k.mem, a) == Hdr(h.mem, a)
    requires HasGlobal(th.pc) ==> k.ghead == h.ghead
    requires |h.heads| == SLOTS && RefillInv(h, h.heads[u % SLOTS], th)
    ensures RefillInv(k, h.heads[u % SLOTS], th)
  {
    if th.pc in {Carve, CarveLink, Tail, LockTail, LinkTail, PublishTail} {
      assert th.cut in HeldBlocks(th);
    }
  }

  lemma OtherLocal(h: Heap, k: Heap, u: nat, th: Thread)
    requires |h.heads| == |h.locals| == |k.heads| == |k.locals| == SLOTS
    requires ListInv(h, h.heads[u % SLOTS], h.locals[u % SLOTS], OnLocal(u % SLOTS))
    requires forall a :: a in HeldBlocks(th) ==>
               a in h.blocks && a in k.blocks && k.blocks[a] == h.blocks[a] && Hdr(k.mem, a) == Hdr(h.mem, a)
    requires Untouched(h, k, u, HasGlobal(th.pc))
    requires LocalInv(h, h.heads[u % SLOTS], h.locals[u % SLOTS], th)
    ensures LocalInv(k, h.heads[u % SLOTS], h.locals[u % SLOTS], th)
  {
    if th.pc == CutLocal {
      assert h.blocks[th.curr].place == OnLocal(u % SLOTS);
    } else if th.pc in {SplitLocal, ShrinkLocal, UnlockHit} {
      assert th.curr in HeldBlocks(th);
    } else if th.pc == LinkSplit {
      assert th.curr in HeldBlocks(th) && th.rem in HeldBlocks(th);
    }
  }

  lemma OtherGlobal(h: Heap, k: Heap, u: nat, th: Thread)
    requires |h.heads| == |h.locals| == |k.heads| == |k.locals| == SLOTS
    requires ListInv(h, h.ghead, h.globals, OnGlobal)
    requires forall a :: a in HeldBlocks(th) ==>
               a in h.blocks && a in k.blocks && k.blocks[a] == h.blocks[a] && Hdr(k.mem, a) == Hdr(h.mem, a)
    requires Untouched(h, k, u, HasGlobal(th.pc))
    requires GlobalInv(h, h.heads[u % SLOTS], th)
    ensures GlobalInv(k, h.heads[u % SLOTS], th)
  {
    if th.pc == CutGlobal {
      assert h.blocks[th.curr].place == OnGlobal;
    } else if th.pc in {SplitGlobal, UnlockPiece, ShrinkGlobal} || (th.pc == UnlockGlobal && th.found) {
      assert th.curr in HeldBlocks(th);
    } else if th.pc in {LockPiece, LinkPiece, PublishPiece} {
      assert th.curr in HeldBlocks(th) && th.rem in HeldBlocks(th);
    }
  }

  /** Two threads never hold the global lock at once, and their slots differ. */
  lemma Exclusive(s: State, t: nat, u: nat)
    requires LocksInv(s) && t in s.threads && u in s.threads && t != u
    ensures !(HasGlobal(s.threads[t].pc) && HasGlobal(s.threads[u].pc))
    ensures t % SLOTS != u % SLOTS
  {
    assert s.globalLock == LockedBy(t) <==> HasGlobal(s.threads[t].pc);
    assert s.globalLock == LockedBy(u) <==> HasGlobal(s.threads[u].pc);
  }

  lemma OtherKept(h: Heap, k: Heap, t: nat, u: nat, th: Thread, g: bool)
    requires HeapInv(h) && StepOk(h, k, t, g) && u != t && u % SLOTS != t % SLOTS && !(g && HasGlobal(th.pc))
    requires ThreadInv(h, u, th)
    ensures ThreadInv(k, u, th)
  {
    hide ThreadInv;
    assert Untouched(h, k, u, HasGlobal(th.pc));
    OtherThread(h, k, u, th);
  }

  lemma HeldKept(h: Heap, k: Heap, t: nat, threads: map<nat, Thread>, g: bool)
    requires StepOk(h, k, t, g) && t in threads && HeldInv(h, threads)
    ensures HeldInv(k, threads)
  {
  }

  /** What thread t has to show for its own step. */
  lemma OwnStep(s: State, t: nat, s': State, g: bool)
    requires Inv(s) && t in s.threads && t in s'.threads && s'.threads == s.threads[t := s'.threads[t]]
    requires StepOk(s.heap, s'.heap, t, g) && (g ==> HasGlobal(s.threads[t].pc))
    requires WellShaped(s') && ThreadInv(s'.heap, t, s'.threads[t])
    requires LocksInv(s')
    ensures Inv(s')
  {
    hide ThreadInv, HeapInv;
    HeldKept(s.heap, s'.heap, t, s.threads, g);
    assert HeldInv(s'.heap, s'.threads);
    assert HeapInv(s'.heap);
    forall u | u in s.threads && u != t ensures ThreadInv(s'.heap, u, s.threads[u]) {
      Exclusive(s, t, u);
      OtherKept(s.heap, s'.heap, t, u, s.threads[u], g);
    }
  }

  /** A slot's lock is only ever taken by the slot's one live thread. */
  lemma SlotLockIsMine(s: State, t: nat)
    requires LocksInv(s) && t in s.threads
    ensures s.slotLocks[t % SLOTS] == if HasSlot(s.threads[t].pc) then LockedBy(t) else Unlocked
  {
  }

  lemma LocksStep(s: State, t: nat, s': State)
    requires LocksInv(s) && t in s.threads && t in s'.threads && s'.threads == s.threads[t := s'.threads[t]]
    requires s'.slotLocks ==
      s.slotLocks[t % SLOTS := if HasSlot(s'.threads[t].pc) then LockedBy(t) else Unlocked]
    requires HasGlobal(s'.threads[t].pc) ==> s.globalLock == Unlocked || s.globalLock == LockedBy(t)
    requires s'.globalLock ==
      if HasGlobal(s'.threads[t].pc) then LockedBy(t)
      else if HasGlobal(s.threads[t].pc) then Unlocked
      else s.globalLock
    ensures LocksInv(s')
  {
    forall u | u in s'.threads
      ensures s'.slotLocks[u % SLOTS] == LockedBy(u) <==> HasSlot(s'.threads[u].pc)
      ensures s'.globalLock == LockedBy(u) <==> HasGlobal(s'.threads[u].pc)
    {
      assert s.globalLock == LockedBy(u) <==> HasGlobal(s.threads[u].pc);
    }
  }

  /** Two memory steps of one thread make one. */
  lemma TwoSteps(h: Heap, k: Heap, l: Heap, t: nat, g: bool)
    requires StepOk(h, k, t, g) && StepOk(k, l, t, g)
    ensures StepOk(h, l, t, g)
  {
    hide HeapInv;
    assert HeapInv(l);
    forall u: nat, g': bool | u != t && u % SLOTS != t % SLOTS && !(g && g') ensures Untouched(h, l, u, g') {
      assert Untouched(h, k, u, g') && Untouched(k, l, u, g');
    }
  }

  // ----- one lemma a program point -----

  /** The step is defined, thread t's memory step is in order, and t is where it should be afterwards. */
  ghost predicate StepFine(s: State, t: nat, c: Choice)
    requires t in s.threads
  {
    && WellShaped(s) && CanRun(s, t, s.threads[t])
    && var s' := Step(s, t, s.threads[t], c);
       && WellShaped(s') && s'.threads.Keys == s.threads.Keys
       && StepOk(s.heap, s'.heap, t, HasGlobal(s.threads[t].pc))
       && ThreadInv(s'.heap, t, s'.threads[t])
  }

  /** s' is s with the memory h and thread t at th. */
  predicate Goes(s: State, t: nat, s': State, h: Heap, th: Thread) {
    s'.heap == h && WellShaped(s') && s'.threads == s.threads[t := th]
  }

  lemma QuietOk(h: Heap, t: nat, g: bool)
    requires HeapInv(h)
    ensures StepOk(h, h, t, g)
  {
  }

  /** The chains a walk follows: the own list, and the global list. */
  ghost predicate Walkable(h: Heap, t: nat) {
    && |h.heads| == |h.locals| == SLOTS
    && Chain(h.mem, h.heads[t % SLOTS], h.locals[t % SLOTS]) && 0 !in h.locals[t % SLOTS]
    && Chain(h.mem, h.ghead, h.globals) && 0 !in h.globals
  }

  lemma WalkableOk(h: Heap, t: nat)
    requires HeapInv(h)
    ensures Walkable(h, t)
  {
    assert ListInv(h, h.heads[t % SLOTS], h.locals[t % SLOTS], OnLocal(t % SLOTS));
    assert 0 in h.blocks ==> BlockOk(h, 0);
  }

  /** A block on a list has a whole header. */
  lemma ListedBlock(h: Heap, t: nat, a: nat)
    requires HeapInv(h)
    ensures a in h.locals[t % SLOTS] ==>
      a in h.blocks && h.blocks[a].place == OnLocal(t % SLOTS) && WholeBlock(h, a) && a % 8 == 0
    ensures a in h.globals ==> a in h.blocks && h.blocks[a].place == OnGlobal && WholeBlock(h, a) && a % 8 == 0
  {
    assert ListInv(h, h.heads[t % SLOTS], h.locals[t % SLOTS], OnLocal(t % SLOTS));
    assert a in h.blocks ==> BlockOk(h, a);
  }

  // ----- entering mymalloc and refilling (lines 45-83) -----

  lemma QuietRefillThread(h: Heap, s: State, t: nat, c: Choice)
    requires t in s.threads && s.heap == h && WellShaped(s) && Walkable(h, t) && ThreadInv(h, t, s.threads[t])
    requires s.threads[t].pc in {Idle, ReadHead, TestHead, LockRefill, Retest, LockTail, UnlockTail, UnlockRefill}
    ensures var s' := StepRefill(s, t, s.threads[t], c);
            s'.heap == h && WellShaped(s') && s'.threads.Keys == s.threads.Keys && ThreadInv(h, t, s'.threads[t])
  {
  }

  lemma QuietRefillFine(s: State, t: nat, c: Choice)
    requires Inv(s) && t in s.threads
    requires s.threads[t].pc in {Idle, ReadHead, TestHead, LockRefill, Retest, LockTail, UnlockTail, UnlockRefill}
    ensures StepFine(s, t, c)
  {
    hide HeapInv, StepOk, ThreadInv, Walkable, StepRefill;
    WalkableOk(s.heap, t);
    QuietOk(s.heap, t, HasGlobal(s.threads[t].pc));
    assert WellShaped(s);
    QuietRefillThread(s.heap, s, t, c);
  }

  lemma MapChunkThread(h: Heap, s: State, t: nat, c: Choice)
    requires t in s.threads && s.heap == h && WellShaped(s) && ThreadInv(h, t, s.threads[t])
    requires s.threads[t].pc == MapChunk
    requires c.vm != 0 ==> c.vm % 8 == 0 && c.vm !in h.blocks
    ensures var s' := StepRefill(s, t, s.threads[t], c);
            s'.heap == (if c.vm == 0 then h else AddRegion(h, c.vm, CHUNK, t))
            && WellShaped(s') && s'.threads.Keys == s.threads.Keys && ThreadInv(s'.heap, t, s'.threads[t])
  {
  }

  lemma MapChunkFine(s: State, t: nat, c: Choice)
    requires Inv(s) && t in s.threads && s.threads[t].pc == MapChunk && VmallocMay(s, c.vm, CHUNK)
    ensures StepFine(s, t, c)
  {
    hide HeapInv, StepOk, ThreadInv, StepRefill, AddRegion;
    QuietOk(s.heap, t, false);
    if c.vm != 0 {
      AddRegionOk(s.heap, c.vm, CHUNK, t);
      PageMultiple(c.vm);
    }
    MapChunkThread(s.heap, s, t, c);
  }

  lemma CarveThread(h: Heap, s: State, t: nat, c: Choice)
    requires t in s.threads && s.heap == h && WellShaped(s) && ThreadInv(h, t, s.threads[t])
    requires s.threads[t].pc == Carve
    ensures var th := s.threads[t];
            var s' := StepRefill(s, t, th, c);
            && th.cut in h.blocks && h.blocks[th.cut].place == Held(t)
            && s'.heap == (if th.cut + HEADER + BLOCK <= th.big + CHUNK
                           then Write(h, th.cut, Header(BLOCK, h.heads[t % SLOTS], t)) else h)
            && WellShaped(s') && s'.threads.Keys == s.threads.Keys && ThreadInv(s'.heap, t, s'.threads[t])
  {
    assert s.threads[t].cut in HeldBlocks(s.threads[t]);
  }

  lemma CarveFine(s: State, t: nat, c: Choice)
    requires Inv(s) && t in s.threads && s.threads[t].pc == Carve
    ensures StepFine(s, t, c)
  {
    hide HeapInv, StepOk, ThreadInv, StepRefill, Write;
    CarveThread(s.heap, s, t, c);
    QuietOk(s.heap, t, false);
    WriteOk(s.heap, s.threads[t].cut, Header(BLOCK, s.heap.heads[t % SLOTS], t), t);
  }

  /** A chunk holds three blocks and a tail: there is always room for the next header. */
  lemma CarveLinkThread(h: Heap, s: State, t: nat, c: Choice)
    requires t in s.threads && s.heap == h && WellShaped(s) && ThreadInv(h, t, s.threads[t])
    requires s.threads[t].pc == CarveLink
    ensures var th := s.threads[t];
            var next := th.cut + HEADER + BLOCK;
            && th.cut in h.blocks && h.blocks[th.cut].place == Held(t) && next % 8 == 0
            && next + HEADER <= End(h, th.cut) && CanRun(s, t, th)
            && Hdr(h.mem, th.cut).length == BLOCK && Hdr(h.mem, th.cut).next == h.heads[t % SLOTS]
  {
    assert s.threads[t].cut in HeldBlocks(s.threads[t]);
  }

  lemma CarveLinkThread2(h: Heap, s: State, t: nat, c: Choice)
    requires t in s.threads && s.heap == h && WellShaped(s) && ThreadInv(h, t, s.threads[t])
    requires s.threads[t].pc == CarveLink && CanRun(s, t, s.threads[t])
    requires s.threads[t].cut + HEADER + BLOCK !in h.blocks
    ensures var th := s.threads[t];
            var s' := StepRefill(s, t, th, c);
            && s'.heap == PushLocal(Split(h, th.cut, th.cut + HEADER + BLOCK, t), t % SLOTS, th.cut)
            && WellShaped(s') && s'.threads.Keys == s.threads.Keys && ThreadInv(s'.heap, t, s'.threads[t])
  {
  }

  lemma CarveLinkFine(s: State, t: nat, c: Choice)
    requires Inv(s) && t in s.threads && s.threads[t].pc == CarveLink
    ensures StepFine(s, t, c)
  {
    hide HeapInv, Framed, Monotone, ThreadInv, StepRefill;
    var h, th := s.heap, s.threads[t];
    CarveLinkThread(h, s, t, c);
    var next := th.cut + HEADER + BLOCK;
    SplitOk(h, th.cut, next, t);
    var k := Split(h, th.cut, next, t);
    PushLocalOk(k, th.cut, t);
    TwoSteps(h, k, PushLocal(k, t % SLOTS, th.cut), t, false);
    CarveLinkThread2(h, s, t, c);
  }

  lemma TailThread(h: Heap, s: State, t: nat, c: Choice)
    requires t in s.threads && s.heap == h && WellShaped(s) && ThreadInv(h, t, s.threads[t])
    requires s.threads[t].pc == Tail
    ensures var th := s.threads[t];
            var s' := StepRefill(s, t, th, c);
            && th.cut in h.blocks && h.blocks[th.cut].place == Held(t) && th.big + CHUNK >= th.cut + HEADER
            && s'.heap == Write(h, th.cut, Hdr(h.mem, th.cut).(length := th.big + CHUNK - th.cut - HEADER, owner := t))
            && WellShaped(s') && s'.threads.Keys == s.threads.Keys && ThreadInv(s'.heap, t, s'.threads[t])
  {
    assert s.threads[t].cut in HeldBlocks(s.threads[t]);
  }

  lemma TailFine(s: State, t: nat, c: Choice)
    requires Inv(s) && t in s.threads && s.threads[t].pc == Tail
    ensures StepFine(s, t, c)
  {
    hide HeapInv, StepOk, ThreadInv, StepRefill, Write;
    var h, th := s.heap, s.threads[t];
    TailThread(h, s, t, c);
    WriteOk(h, th.cut, Hdr(h.mem, th.cut).(length := th.big + CHUNK - th.cut - HEADER, owner := t), t);
  }

  lemma LinkTailThread(h: Heap, s: State, t: nat, c: Choice)
    requires t in s.threads && s.heap == h && WellShaped(s) && ThreadInv(h, t, s.threads[t])
    requires s.threads[t].pc == LinkTail
    ensures var th := s.threads[t];
            var s' := StepRefill(s, t, th, c);
            && th.cut in h.blocks && h.blocks[th.cut].place == Held(t)
            && s'.heap == Write(h, th.cut, Hdr(h.mem, th.cut).(next := h.ghead))
            && WellShaped(s') && s'.threads.Keys == s.threads.Keys && ThreadInv(s'.heap, t, s'.threads[t])
  {
    assert s.threads[t].cut in HeldBlocks(s.threads[t]);
  }

  lemma LinkTailFine(s: State, t: nat, c: Choice)
    requires Inv(s) && t in s.threads && s.threads[t].pc == LinkTail
    ensures StepFine(s, t, c)
  {
    hide HeapInv, StepOk, ThreadInv, StepRefill, Write;
    var h, th := s.heap, s.threads[t];
    LinkTailThread(h, s, t, c);
    WriteOk(h, th.cut, Hdr(h.mem, th.cut).(next := h.ghead), t);
    WeakerStep(h, Write(h, th.cut, Hdr(h.mem, th.cut).(next := h.ghead)), t);
  }

  lemma PublishTailThread(h: Heap, s: State, t: nat, c: Choice)
    requires t in s.threads && s.heap == h && WellShaped(s) && ThreadInv(h, t, s.threads[t])
    requires s.threads[t].pc == PublishTail
    ensures var th := s.threads[t];
            && th.cut in h.blocks && h.blocks[th.cut].place == Held(t) && CanRun(s, t, th)
            && Hdr(h.mem, th.cut).length == h.blocks[th.cut].payload && Hdr(h.mem, th.cut).next == h.ghead
            && var s' := StepRefill(s, t, th, c);
               && s'.heap == PushGlobal(h, th.cut)
               && WellShaped(s') && s'.threads.Keys == s.threads.Keys && ThreadInv(s'.heap, t, s'.threads[t])
  {
    assert s.threads[t].cut in HeldBlocks(s.threads[t]);
  }

  lemma PublishTailFine(s: State, t: nat, c: Choice)
    requires Inv(s) && t in s.threads && s.threads[t].pc == PublishTail
    ensures StepFine(s, t, c)
  {
    hide HeapInv, StepOk, ThreadInv, StepRefill, PushGlobal;
    PublishTailThread(s.heap, s, t, c);
    PushGlobalOk(s.heap, s.threads[t].cut, t);
  }

  lemma WeakerStep(h: Heap, k: Heap, t: nat)
    requires StepOk(h, k, t, false)
    ensures StepOk(h, k, t, true)
  {
  }

  lemma RefillFine(s: State, t: nat, c: Choice)
    requires Inv(s) && Enabled(s, Run(t, c)) && InRefill(s.threads[t].pc)
    ensures StepFine(s, t, c)
  {
    hide Inv, StepFine;
    match s.threads[t].pc
    case MapChunk => MapChunkFine(s, t, c);
    case Carve => CarveFine(s, t, c);
    case CarveLink => CarveLinkFine(s, t, c);
    case Tail => TailFine(s, t, c);
    case LinkTail => LinkTailFine(s, t, c);
    case PublishTail => PublishTailFine(s, t, c);
    case _ => QuietRefillFine(s, t, c);
  }

  // ----- the thread's own list (lines 86-115) -----

  /** A walk stops at a block that is large enough, and else moves on to the next one. */
  function Walked(h: Heap, th: Thread, hit: Pc): Thread {
    if Hdr(h.mem, th.curr).length >= th.size then th.(pc := hit)
    else th.(prev := th.curr, curr := Hdr(h.mem, th.curr).next, pos := th.pos + 1)
  }

  lemma WalkedPosition(h: Heap, head: nat, list: seq<nat>, th: Thread, hit: Pc)
    requires Chain(h.mem, head, list) && 0 !in list && AtPosition(list, th)
    ensures var th' := Walked(h, th, hit);
            AtPosition(list, th') || (th'.curr == 0 && Hdr(h.mem, th.curr).length < th.size)
  {
    assert Hdr(h.mem, list[th.pos]).next == After(list, th.pos);
  }

  /** Where the points that write no memory lead. */
  function QuietLocal(h: Heap, th: Thread): Thread {
    match th.pc
    case LockLocal => th.(pc := WalkLocal)
    case WalkLocal => if th.curr == 0 then th.(pc := UnlockMiss) else Walked(h, th, CutLocal)
    case _ => th.(pc := LockGlobal)
  }

  lemma QuietLocalGoes(s: State, t: nat)
    requires t in s.threads && WellShaped(s) && s.threads[t].pc in {LockLocal, WalkLocal, UnlockMiss}
    ensures Goes(s, t, StepLocal(s, t, s.threads[t]), s.heap, QuietLocal(s.heap, s.threads[t]))
  {
  }

  lemma QuietLocalInv(h: Heap, t: nat, th: Thread)
    requires ThreadInv(h, t, th) && th.pc in {LockLocal, UnlockMiss}
    ensures ThreadInv(h, t, QuietLocal(h, th))
  {
    hide Hdr;
  }

  lemma WalkLocalInv(h: Heap, t: nat, th: Thread)
    requires Walkable(h, t) && ThreadInv(h, t, th) && th.pc == WalkLocal
    ensures ThreadInv(h, t, QuietLocal(h, th))
  {
    hide Chain;
    if th.curr != 0 {
      WalkedPosition(h, h.heads[t % SLOTS], h.locals[t % SLOTS], th, CutLocal);
    }
  }

  lemma QuietLocalFine(s: State, t: nat, c: Choice)
    requires Inv(s) && t in s.threads && s.threads[t].pc in {LockLocal, WalkLocal, UnlockMiss}
    ensures StepFine(s, t, c)
  {
    hide HeapInv, StepOk, ThreadInv, Walkable, StepLocal, QuietLocal;
    WalkableOk(s.heap, t);
    QuietOk(s.heap, t, false);
    QuietLocalGoes(s, t);
    if s.threads[t].pc == WalkLocal {
      WalkLocalInv(s.heap, t, s.threads[t]);
    } else {
      QuietLocalInv(s.heap, t, s.threads[t]);
    }
  }

  lemma CutLocalThread(h: Heap, s: State, t: nat)
    requires t in s.threads && s.heap == h && WellShaped(s) && ThreadInv(h, t, s.threads[t])
    requires s.threads[t].pc == CutLocal && 0 !in h.locals[t % SLOTS]
    requires forall a :: a in h.locals[t % SLOTS] ==>
      a in h.blocks && h.blocks[a].place == OnLocal(t % SLOTS) && WholeBlock(h, a)
    ensures var th := s.threads[t];
            && CanRun(s, t, th) && AtPosition(h.locals[t % SLOTS], th)
            && var s' := StepLocal(s, t, th);
               && s'.heap == UnlinkLocal(h, t % SLOTS, th.pos, th.prev, th.curr, t)
               && WellShaped(s') && s'.threads.Keys == s.threads.Keys && ThreadInv(s'.heap, t, s'.threads[t])
  {
    var th, list := s.threads[t], h.locals[t % SLOTS];
    assert th.curr in list && (th.pos > 0 ==> th.prev in list);
  }

  lemma CutLocalFine(s: State, t: nat, c: Choice)
    requires Inv(s) && t in s.threads && s.threads[t].pc == CutLocal
    ensures StepFine(s, t, c)
  {
    hide HeapInv, StepOk, ThreadInv, StepLocal, UnlinkLocal;
    var h, th := s.heap, s.threads[t];
    forall a ensures a in h.locals[t % SLOTS] ==>
      a in h.blocks && h.blocks[a].place == OnLocal(t % SLOTS) && WholeBlock(h, a)
    {
      ListedBlock(h, t, a);
    }
    WalkableOk(h, t);
    CutLocalThread(h, s, t);
    UnlinkLocalOk(h, th.pos, th.prev, th.curr, t);
  }

  /** Lines 96-99: the remainder starts right behind the payload, and what is left fits a header. */
  lemma SplitPointOk(h: Heap, th: Thread)
    requires WholeBlock(h, th.curr) && th.curr % 8 == 0 && th.size % 8 == 0
    ensures var p := SplitPoint(h, th);
            p.Some? ==> p.value == th.curr + HEADER + th.size && p.value % 8 == 0 && SplitFits(h, th)
                        && th.curr + HEADER + Hdr(h.mem, th.curr).length - p.value - HEADER ==
                               End(h, th.curr) - p.value - HEADER
  {
  }

  lemma HeldBlockOk(h: Heap, a: nat)
    requires HeapInv(h) && a in h.blocks
    ensures a % 8 == 0
  {
    assert BlockOk(h, a);
  }

  function SplitLocalHeap(h: Heap, t: nat, curr: nat, rem: nat): Heap
    requires curr in h.blocks && curr + HEADER <= rem && rem + HEADER <= End(h, curr) && |h.heads| == SLOTS
  {
    Write(Split(h, curr, rem, t), rem, Header(End(h, curr) - rem - HEADER, h.heads[t % SLOTS], t))
  }

  function SplitLocalTo(h: Heap, th: Thread): Thread {
    match SplitPoint(h, th)
    case None => th.(pc := UnlockHit)
    case Some(rem) => th.(pc := LinkSplit, rem := rem)
  }

  lemma SplitLocalGoes(s: State, t: nat)
    requires t in s.threads && WellShaped(s) && s.threads[t].pc == SplitLocal
    requires var h, th := s.heap, s.threads[t];
             SplitPoint(h, th).Some? ==> SplitFits(h, th) && WholeBlock(h, th.curr)
    ensures var h, th := s.heap, s.threads[t];
            && CanRun(s, t, th)
            && Goes(s, t, StepLocal(s, t, th),
                    if SplitPoint(h, th).None? then h else SplitLocalHeap(h, t, th.curr, SplitPoint(h, th).value),
                    SplitLocalTo(h, th))
  {
    hide SplitPoint;
  }

  lemma SplitLocalInv(h: Heap, t: nat, th: Thread, rem: nat)
    requires ThreadInv(h, t, th) && th.pc == SplitLocal && SplitPoint(h, th) == Some(rem)
    requires SplitFits(h, th) && rem == th.curr + HEADER + th.size && rem !in h.blocks
    ensures ThreadInv(SplitLocalHeap(h, t, th.curr, rem), t, SplitLocalTo(h, th))
  {
    hide SplitPoint;
    assert th.curr in HeldBlocks(th);
  }

  lemma NoSplitLocalInv(h: Heap, t: nat, th: Thread)
    requires ThreadInv(h, t, th) && th.pc == SplitLocal && SplitPoint(h, th) == None
    ensures ThreadInv(h, t, SplitLocalTo(h, th))
  {
    hide SplitPoint;
  }

  /** The block a thread is about to split is its own, and whole. */
  lemma SplitHeld(h: Heap, t: nat, th: Thread)
    requires HeapInv(h) && ThreadInv(h, t, th) && th.pc in {SplitLocal, SplitGlobal}
    ensures WholeBlock(h, th.curr) && h.blocks[th.curr].place == Held(t) && th.curr % 8 == 0 && th.size % 8 == 0
  {
    assert th.curr in HeldBlocks(th);
    HeldBlockOk(h, th.curr);
  }

  /** Cutting a held block in two and writing the header of the second part. */
  lemma SplitWriteOk(h: Heap, a: nat, rem: nat, hdr: Header, t: nat)
    requires HeapInv(h) && a in h.blocks && h.blocks[a].place == Held(t)
    requires a + HEADER <= rem && rem + HEADER <= End(h, a) && rem % 8 == 0
    ensures rem !in h.blocks && StepOk(h, Write(Split(h, a, rem, t), rem, hdr), t, false)
  {
    hide HeapInv, Framed, Monotone;
    SplitOk(h, a, rem, t);
    var k := Split(h, a, rem, t);
    WriteOk(k, rem, hdr, t);
    TwoSteps(h, k, Write(k, rem, hdr), t, false);
  }

  lemma SplitLocalFine(s: State, t: nat, c: Choice)
    requires Inv(s) && t in s.threads && s.threads[t].pc == SplitLocal
    ensures StepFine(s, t, c)
  {
    hide HeapInv, ThreadInv, StepOk, StepLocal, SplitPoint, SplitLocalTo;
    var h, th := s.heap, s.threads[t];
    SplitHeld(h, t, th);
    SplitPointOk(h, th);
    if SplitPoint(h, th).None? {
      QuietOk(h, t, false);
      NoSplitLocalInv(h, t, th);
    } else {
      var rem := SplitPoint(h, th).value;
      SplitWriteOk(h, th.curr, rem, Header(End(h, th.curr) - rem - HEADER, h.heads[t % SLOTS], t), t);
      SplitLocalInv(h, t, th, rem);
    }
    SplitLocalGoes(s, t);
  }

  lemma LinkSplitThread(h: Heap, s: State, t: nat)
    requires t in s.threads && s.heap == h && WellShaped(s) && ThreadInv(h, t, s.threads[t])
    requires s.threads[t].pc == LinkSplit
    ensures var th := s.threads[t];
            && th.rem in h.blocks && h.blocks[th.rem].place == Held(t) && CanRun(s, t, th)
            && Hdr(h.mem, th.rem).length == h.blocks[th.rem].payload && Hdr(h.mem, th.rem).next == h.heads[t % SLOTS]
            && var s' := StepLocal(s, t, th);
               && s'.heap == PushLocal(h, t % SLOTS, th.rem)
               && WellShaped(s') && s'.threads.Keys == s.threads.Keys && ThreadInv(s'.heap, t, s'.threads[t])
  {
    assert s.threads[t].rem in HeldBlocks(s.threads[t]) && s.threads[t].curr in HeldBlocks(s.threads[t]);
  }

  lemma LinkSplitFine(s: State, t: nat, c: Choice)
    requires Inv(s) && t in s.threads && s.threads[t].pc == LinkSplit
    ensures StepFine(s, t, c)
  {
    hide HeapInv, StepOk, ThreadInv, StepLocal, PushLocal;
    LinkSplitThread(s.heap, s, t);
    PushLocalOk(s.heap, s.threads[t].rem, t);
  }

  lemma ShrinkLocalThread(h: Heap, s: State, t: nat)
    requires t in s.threads && s.heap == h && WellShaped(s) && ThreadInv(h, t, s.threads[t])
    requires s.threads[t].pc == ShrinkLocal
    ensures var th := s.threads[t];
            && th.curr in h.blocks && h.blocks[th.curr].place == Held(t)
            && var s' := StepLocal(s, t, th);
               && s'.heap == Write(h, th.curr, Hdr(h.mem, th.curr).(length := th.size))
               && WellShaped(s') && s'.threads.Keys == s.threads.Keys && ThreadInv(s'.heap, t, s'.threads[t])
  {
    assert s.threads[t].curr in HeldBlocks(s.threads[t]);
  }

  lemma ShrinkLocalFine(s: State, t: nat, c: Choice)
    requires Inv(s) && t in s.threads && s.threads[t].pc == ShrinkLocal
    ensures StepFine(s, t, c)
  {
    hide HeapInv, StepOk, ThreadInv, StepLocal, Write;
    var h, th := s.heap, s.threads[t];
    ShrinkLocalThread(h, s, t);
    WriteOk(h, th.curr, Hdr(h.mem, th.curr).(length := th.size), t);
  }

  lemma UnlockHitThread(h: Heap, s: State, t: nat)
    requires t in s.threads && s.heap == h && WellShaped(s) && ThreadInv(h, t, s.threads[t])
    requires s.threads[t].pc == UnlockHit
    ensures var th := s.threads[t];
            && th.curr in h.blocks && h.blocks[th.curr].place == Held(t) && CanRun(s, t, th)
            && Hdr(h.mem, th.curr).length == h.blocks[th.curr].payload
            && (Covers(th.req) ==> th.req <= h.blocks[th.curr].payload)
            && var s' := StepLocal(s, t, th);
               && s'.heap == Hand(h, th.curr, th.req)
               && WellShaped(s') && s'.threads.Keys == s.threads.Keys && ThreadInv(s'.heap, t, s'.threads[t])
  {
    assert s.threads[t].curr in HeldBlocks(s.threads[t]);
  }

  lemma UnlockHitFine(s: State, t: nat, c: Choice)
    requires Inv(s) && t in s.threads && s.threads[t].pc == UnlockHit
    ensures StepFine(s, t, c)
  {
    hide HeapInv, StepOk, ThreadInv, StepLocal, Hand;
    UnlockHitThread(s.heap, s, t);
    HandOk(s.heap, s.threads[t].curr, s.threads[t].req, t);
  }

  lemma LocalFine(s: State, t: nat, c: Choice)
    requires Inv(s) && t in s.threads && InLocal(s.threads[t].pc)
    ensures StepFine(s, t, c)
  {
    hide Inv, StepFine;
    match s.threads[t].pc
    case CutLocal => CutLocalFine(s, t, c);
    case SplitLocal => SplitLocalFine(s, t, c);
    case LinkSplit => LinkSplitFine(s, t, c);
    case ShrinkLocal => ShrinkLocalFine(s, t, c);
    case UnlockHit => UnlockHitFine(s, t, c);
    case _ => QuietLocalFine(s, t, c);
  }

  // ----- the global list and fresh pages (lines 118-160) -----

  function QuietGlobal(h: Heap, th: Thread): Thread {
    match th.pc
    case LockGlobal => th.(pc := ReadGlobal)
    case ReadGlobal => th.(pc := WalkGlobal, curr := h.ghead, prev := 0, pos := 0)
    case WalkGlobal => if th.curr == 0 then th.(pc := UnlockGlobal, found := false) else Walked(h, th, CutGlobal)
    case LockPiece => th.(pc := LinkPiece)
    case _ => th.(pc := ShrinkGlobal)
  }

  lemma QuietGlobalGoes(s: State, t: nat, c: Choice)
    requires t in s.threads && WellShaped(s)
    requires s.threads[t].pc in {LockGlobal, ReadGlobal, WalkGlobal, LockPiece, UnlockPiece}
    ensures Goes(s, t, StepGlobal(s, t, s.threads[t], c), s.heap, QuietGlobal(s.heap, s.threads[t]))
  {
  }

  lemma QuietGlobalInv(h: Heap, t: nat, th: Thread)
    requires ThreadInv(h, t, th) && th.pc in {LockGlobal, ReadGlobal} && Walkable(h, t)
    ensures ThreadInv(h, t, QuietGlobal(h, th))
  {
    hide Hdr;
  }

  lemma WalkGlobalInv(h: Heap, t: nat, th: Thread)
    requires Walkable(h, t) && ThreadInv(h, t, th) && th.pc == WalkGlobal
    ensures ThreadInv(h, t, QuietGlobal(h, th))
  {
    hide Chain;
    if th.curr != 0 {
      WalkedPosition(h, h.ghead, h.globals, th, CutGlobal);
    }
  }

  lemma LockPieceInv(h: Heap, t: nat, th: Thread)
    requires ThreadInv(h, t, th) && th.pc == LockPiece
    ensures ThreadInv(h, t, QuietGlobal(h, th))
  {
    hide Hdr, WholeBlock;
  }

  lemma UnlockPieceInv(h: Heap, t: nat, th: Thread)
    requires ThreadInv(h, t, th) && th.pc == UnlockPiece
    ensures ThreadInv(h, t, QuietGlobal(h, th))
  {
    hide Hdr, WholeBlock;
  }

  lemma QuietGlobalFine(s: State, t: nat, c: Choice)
    requires Inv(s) && t in s.threads
    requires s.threads[t].pc in {LockGlobal, ReadGlobal, WalkGlobal, LockPiece, UnlockPiece}
    ensures StepFine(s, t, c)
  {
    hide HeapInv, StepOk, ThreadInv, Walkable, StepGlobal, QuietGlobal;
    WalkableOk(s.heap, t);
    QuietOk(s.heap, t, HasGlobal(s.threads[t].pc));
    QuietGlobalGoes(s, t, c);
    if s.threads[t].pc == WalkGlobal {
      WalkGlobalInv(s.heap, t, s.threads[t]);
    } else if s.threads[t].pc == LockPiece {
      LockPieceInv(s.heap, t, s.threads[t]);
    } else if s.threads[t].pc == UnlockPiece {
      UnlockPieceInv(s.heap, t, s.threads[t]);
    } else {
      QuietGlobalInv(s.heap, t, s.threads[t]);
    }
  }

  lemma CutGlobalThread(h: Heap, s: State, t: nat, c: Choice)
    requires t in s.threads && s.heap == h && WellShaped(s) && ThreadInv(h, t, s.threads[t])
    requires s.threads[t].pc == CutGlobal && 0 !in h.globals
    requires forall a :: a in h.globals ==> a in h.blocks && h.blocks[a].place == OnGlobal && WholeBlock(h, a)
    ensures var th := s.threads[t];
            && CanRun(s, t, th) && AtPosition(h.globals, th)
            && var s' := StepGlobal(s, t, th, c);
               && s'.heap == UnlinkGlobal(h, th.pos, th.prev, th.curr, t)
               && WellShaped(s') && s'.threads.Keys == s.threads.Keys && ThreadInv(s'.heap, t, s'.threads[t])
  {
    var th := s.threads[t];
    assert th.curr in h.globals && (th.pos > 0 ==> th.prev in h.globals);
  }

  lemma CutGlobalFine(s: State, t: nat, c: Choice)
    requires Inv(s) && t in s.threads && s.threads[t].pc == CutGlobal
    ensures StepFine(s, t, c)
  {
    hide HeapInv, StepOk, ThreadInv, StepGlobal, UnlinkGlobal;
    var h, th := s.heap, s.threads[t];
    forall a ensures a in h.globals ==> a in h.blocks && h.blocks[a].place == OnGlobal && WholeBlock(h, a) {
      ListedBlock(h, t, a);
    }
    WalkableOk(h, t);
    CutGlobalThread(h, s, t, c);
    UnlinkGlobalOk(h, th.pos, th.prev, th.curr, t);
  }

  function OwnedHeap(h: Heap, t: nat, curr: nat): Heap {
    Write(h, curr, Hdr(h.mem, curr).(owner := t))
  }

  function SplitGlobalHeap(h: Heap, t: nat, curr: nat, rem: nat): Heap
    requires curr in h.blocks && curr + HEADER <= rem && rem + HEADER <= End(h, curr)
  {
    Write(Split(OwnedHeap(h, t, curr), curr, rem, t), rem, Hdr(h.mem, rem).(length := End(h, curr) - rem - HEADER))
  }

  function SplitGlobalTo(h: Heap, th: Thread): Thread {
    match SplitPoint(h, th)
    case None => th.(pc := UnlockGlobal, found := true)
    case Some(rem) => th.(pc := LockPiece, rem := rem)
  }

  lemma SplitGlobalGoes(s: State, t: nat, c: Choice)
    requires t in s.threads && WellShaped(s) && s.threads[t].pc == SplitGlobal
    requires var h, th := s.heap, s.threads[t];
             SplitPoint(h, th).Some? ==> SplitFits(h, th) && WholeBlock(h, th.curr)
    ensures var h, th := s.heap, s.threads[t];
            && CanRun(s, t, th)
            && Goes(s, t, StepGlobal(s, t, th, c),
                    if SplitPoint(h, th).None? then OwnedHeap(h, t, th.curr)
                    else SplitGlobalHeap(h, t, th.curr, SplitPoint(h, th).value),
                    SplitGlobalTo(h, th))
  {
    hide SplitPoint;
  }

  lemma SplitGlobalInv(h: Heap, t: nat, th: Thread, rem: nat)
    requires ThreadInv(h, t, th) && th.pc == SplitGlobal && SplitPoint(h, th) == Some(rem)
    requires SplitFits(h, th) && rem == th.curr + HEADER + th.size && rem !in h.blocks
    ensures ThreadInv(SplitGlobalHeap(h, t, th.curr, rem), t, SplitGlobalTo(h, th))
  {
    hide SplitPoint;
    assert th.curr in HeldBlocks(th);
  }

  lemma NoSplitGlobalInv(h: Heap, t: nat, th: Thread)
    requires ThreadInv(h, t, th) && th.pc == SplitGlobal && SplitPoint(h, th) == None
    ensures ThreadInv(OwnedHeap(h, t, th.curr), t, SplitGlobalTo(h, th))
  {
    hide SplitPoint;
  }

  lemma SplitGlobalHeapOk(h: Heap, t: nat, curr: nat, rem: nat)
    requires HeapInv(h) && curr in h.blocks && h.blocks[curr].place == Held(t)
    requires curr + HEADER <= rem && rem + HEADER <= End(h, curr) && rem % 8 == 0
    ensures rem !in h.blocks && StepOk(h, SplitGlobalHeap(h, t, curr, rem), t, true)
  {
    hide HeapInv, Framed, Monotone;
    var own := OwnedHeap(h, t, curr);
    WriteOk(h, curr, Hdr(h.mem, curr).(owner := t), t);
    SplitWriteOk(own, curr, rem, Hdr(h.mem, rem).(length := End(h, curr) - rem - HEADER), t);
    TwoSteps(h, own, SplitGlobalHeap(h, t, curr, rem), t, false);
    WeakerStep(h, SplitGlobalHeap(h, t, curr, rem), t);
  }

  lemma OwnedHeapOk(h: Heap, t: nat, curr: nat)
    requires HeapInv(h) && curr in h.blocks && h.blocks[curr].place == Held(t)
    ensures StepOk(h, OwnedHeap(h, t, curr), t, true)
  {
    hide HeapInv, StepOk;
    WriteOk(h, curr, Hdr(h.mem, curr).(owner := t), t);
    WeakerStep(h, OwnedHeap(h, t, curr), t);
  }

  lemma SplitGlobalFine(s: State, t: nat, c: Choice)
    requires Inv(s) && t in s.threads && s.threads[t].pc == SplitGlobal
    ensures StepFine(s, t, c)
  {
    hide HeapInv, ThreadInv, StepOk, StepGlobal, SplitPoint, SplitGlobalTo, OwnedHeap, SplitGlobalHeap;
    var h, th := s.heap, s.threads[t];
    SplitHeld(h, t, th);
    SplitPointOk(h, th);
    if SplitPoint(h, th).None? {
      OwnedHeapOk(h, t, th.curr);
      NoSplitGlobalInv(h, t, th);
    } else {
      SplitGlobalHeapOk(h, t, th.curr, SplitPoint(h, th).value);
      SplitGlobalInv(h, t, th, SplitPoint(h, th).value);
    }
    SplitGlobalGoes(s, t, c);
  }

  lemma LinkPieceThread(h: Heap, s: State, t: nat, c: Choice)
    requires t in s.threads && s.heap == h && WellShaped(s) && ThreadInv(h, t, s.threads[t])
    requires s.threads[t].pc == LinkPiece
    ensures var th := s.threads[t];
            && th.rem in h.blocks && h.blocks[th.rem].place == Held(t)
            && var s' := StepGlobal(s, t, th, c);
               && s'.heap == Write(h, th.rem, Hdr(h.mem, th.rem).(next := h.heads[t % SLOTS]))
               && WellShaped(s') && s'.threads.Keys == s.threads.Keys && ThreadInv(s'.heap, t, s'.threads[t])
  {
    assert s.threads[t].rem in HeldBlocks(s.threads[t]) && s.threads[t].curr in HeldBlocks(s.threads[t]);
  }

  lemma LinkPieceFine(s: State, t: nat, c: Choice)
    requires Inv(s) && t in s.threads && s.threads[t].pc == LinkPiece
    ensures StepFine(s, t, c)
  {
    hide HeapInv, StepOk, ThreadInv, StepGlobal, Write;
    var h, th := s.heap, s.threads[t];
    LinkPieceThread(h, s, t, c);
    WriteOk(h, th.rem, Hdr(h.mem, th.rem).(next := h.heads[t % SLOTS]), t);
    WeakerStep(h, Write(h, th.rem, Hdr(h.mem, th.rem).(next := h.heads[t % SLOTS])), t);
  }

  lemma PublishPieceThread(h: Heap, s: State, t: nat, c: Choice)
    requires t in s.threads && s.heap == h && WellShaped(s) && ThreadInv(h, t, s.threads[t])
    requires s.threads[t].pc == PublishPiece
    ensures var th := s.threads[t];
            && th.rem in h.blocks && h.blocks[th.rem].place == Held(t) && CanRun(s, t, th)
            && Hdr(h.mem, th.rem).length == h.blocks[th.rem].payload && Hdr(h.mem, th.rem).next == h.heads[t % SLOTS]
            && var s' := StepGlobal(s, t, th, c);
               && s'.heap == PushLocal(h, t % SLOTS, th.rem)
               && WellShaped(s') && s'.threads.Keys == s.threads.Keys && ThreadInv(s'.heap, t, s'.threads[t])
  {
    assert s.threads[t].rem in HeldBlocks(s.threads[t]) && s.threads[t].curr in HeldBlocks(s.threads[t]);
  }

  lemma PublishPieceFine(s: State, t: nat, c: Choice)
    requires Inv(s) && t in s.threads && s.threads[t].pc == PublishPiece
    ensures StepFine(s, t, c)
  {
    hide HeapInv, StepOk, ThreadInv, StepGlobal, PushLocal;
    PublishPieceThread(s.heap, s, t, c);
    PushLocalOk(s.heap, s.threads[t].rem, t);
    WeakerStep(s.heap, PushLocal(s.heap, t % SLOTS, s.threads[t].rem), t);
  }

  lemma ShrinkGlobalThread(h: Heap, s: State, t: nat, c: Choice)
    requires t in s.threads && s.heap == h && WellShaped(s) && ThreadInv(h, t, s.threads[t])
    requires s.threads[t].pc == ShrinkGlobal
    ensures var th := s.threads[t];
            && th.curr in h.blocks && h.blocks[th.curr].place == Held(t)
            && var s' := StepGlobal(s, t, th, c);
               && s'.heap == Write(h, th.curr, Hdr(h.mem, th.curr).(length := th.size))
               && WellShaped(s') && s'.threads.Keys == s.threads.Keys && ThreadInv(s'.heap, t, s'.threads[t])
  {
    assert s.threads[t].curr in HeldBlocks(s.threads[t]);
  }

  lemma ShrinkGlobalFine(s: State, t: nat, c: Choice)
    requires Inv(s) && t in s.threads && s.threads[t].pc == ShrinkGlobal
    ensures StepFine(s, t, c)
  {
    hide HeapInv, StepOk, ThreadInv, StepGlobal, Write;
    var h, th := s.heap, s.threads[t];
    ShrinkGlobalThread(h, s, t, c);
    WriteOk(h, th.curr, Hdr(h.mem, th.curr).(length := th.size), t);
    WeakerStep(h, Write(h, th.curr, Hdr(h.mem, th.curr).(length := th.size)), t);
  }

  lemma UnlockGlobalThread(h: Heap, s: State, t: nat, c: Choice)
    requires t in s.threads && s.heap == h && WellShaped(s) && ThreadInv(h, t, s.threads[t])
    requires s.threads[t].pc == UnlockGlobal
    ensures var th := s.threads[t];
            && CanRun(s, t, th)
            && (th.found ==>
                  && th.curr in h.blocks && h.blocks[th.curr].place == Held(t)
                  && Hdr(h.mem, th.curr).length == h.blocks[th.curr].payload
                  && (Covers(th.req) ==> th.req <= h.blocks[th.curr].payload))
            && var s' := StepGlobal(s, t, th, c);
               && s'.heap == (if th.found then Hand(h, th.curr, th.req) else h)
               && WellShaped(s') && s'.threads.Keys == s.threads.Keys && ThreadInv(s'.heap, t, s'.threads[t])
  {
    assert s.threads[t].found ==> s.threads[t].curr in HeldBlocks(s.threads[t]);
  }

  lemma UnlockGlobalFine(s: State, t: nat, c: Choice)
    requires Inv(s) && t in s.threads && s.threads[t].pc == UnlockGlobal
    ensures StepFine(s, t, c)
  {
    hide HeapInv, StepOk, ThreadInv, StepGlobal, Hand;
    var h, th := s.heap, s.threads[t];
    UnlockGlobalThread(h, s, t, c);
    if th.found {
      HandOk(h, th.curr, th.req, t);
      WeakerStep(h, Hand(h, th.curr, th.req), t);
    } else {
      QuietOk(h, t, true);
    }
  }

  function MappedHeap(h: Heap, t: nat, base: nat, len: nat): Heap
    requires len >= HEADER
  {
    Write(AddRegion(h, base, len, t), base, Header(len - HEADER, 0, t))
  }

  lemma MapPagesThread(h: Heap, s: State, t: nat, c: Choice)
    requires t in s.threads && s.heap == h && WellShaped(s) && ThreadInv(h, t, s.threads[t])
    requires s.threads[t].pc == MapPages
    requires c.vm !in h.blocks
    ensures var th := s.threads[t];
            var len := FallbackLength(th.size);
            && (len != 0 ==> len >= HEADER) && (len != 0 && Covers(th.req) ==> th.req <= len - HEADER)
            && var s' := StepGlobal(s, t, th, c);
               && s'.heap == (if c.vm == 0 || len == 0 then h
                              else Hand(MappedHeap(h, t, c.vm, len), c.vm, th.req))
               && WellShaped(s') && s'.threads.Keys == s.threads.Keys && ThreadInv(s'.heap, t, s'.threads[t])
  {
  }

  lemma MappedOk(h: Heap, t: nat, base: nat, len: nat)
    requires HeapInv(h) && Fresh(h, base, len) && len >= HEADER
    ensures StepOk(h, MappedHeap(h, t, base, len), t, false)
  {
    hide HeapInv, Framed, Monotone, Fresh;
    AddRegionOk(h, base, len, t);
    var k := AddRegion(h, base, len, t);
    WriteOk(k, base, Header(len - HEADER, 0, t), t);
    TwoSteps(h, k, MappedHeap(h, t, base, len), t, false);
  }

  lemma HandedOk(h: Heap, t: nat, base: nat, len: nat, req: Size)
    requires HeapInv(h) && Fresh(h, base, len) && len >= HEADER && (Covers(req) ==> req <= len - HEADER)
    ensures StepOk(h, Hand(MappedHeap(h, t, base, len), base, req), t, false)
  {
    hide HeapInv, Framed, Monotone, Fresh, Covers;
    var l := MappedHeap(h, t, base, len);
    MappedOk(h, t, base, len);
    HandOk(l, base, req, t);
    TwoSteps(h, l, Hand(l, base, req), t, false);
  }

  lemma MapPagesFine(s: State, t: nat, c: Choice)
    requires Inv(s) && t in s.threads && s.threads[t].pc == MapPages
    requires VmallocMay(s, c.vm, FallbackLength(s.threads[t].size))
    ensures StepFine(s, t, c)
  {
    hide HeapInv, StepOk, Fresh, ThreadInv, StepGlobal, FallbackLength, Covers, Hand, MappedHeap;
    var h, th := s.heap, s.threads[t];
    var len := FallbackLength(th.size);
    NoNullBlock(h);
    if c.vm != 0 {
      AddRegionOk(h, c.vm, len, t);
    }
    MapPagesThread(h, s, t, c);
    if c.vm == 0 {
      QuietOk(h, t, false);
    } else {
      HandedOk(h, t, c.vm, len, th.req);
    }
  }

  lemma NoNullBlock(h: Heap)
    requires HeapInv(h)
    ensures 0 !in h.blocks
  {
    assert 0 in h.blocks ==> BlockOk(h, 0);
  }

  lemma GlobalFine(s: State, t: nat, c: Choice)
    requires Inv(s) && Enabled(s, Run(t, c)) && !InRefill(s.threads[t].pc) && !InLocal(s.threads[t].pc)
    ensures StepFine(s, t, c)
  {
    hide Inv, StepFine;
    match s.threads[t].pc
    case CutGlobal => CutGlobalFine(s, t, c);
    case SplitGlobal => SplitGlobalFine(s, t, c);
    case LinkPiece => LinkPieceFine(s, t, c);
    case PublishPiece => PublishPieceFine(s, t, c);
    case ShrinkGlobal => ShrinkGlobalFine(s, t, c);
    case UnlockGlobal => UnlockGlobalFine(s, t, c);
    case MapPages => MapPagesFine(s, t, c);
    case _ => QuietGlobalFine(s, t, c);
  }
}
