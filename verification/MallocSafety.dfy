/** What holds in every interleaving of mymalloc, over runs of any length with any number of threads and calls. */
module MallocSafety {
  import opened MallocSizes
  import opened MallocHeap
  import opened MallocMachine
  import opened MallocSteps

  // ----- locks -----

  ghost predicate SlotChange(s: State, t: nat, s': State) {
    && |s.slotLocks| == SLOTS && t in s'.threads
    && s'.slotLocks == s.slotLocks[t % SLOTS := if HasSlot(s'.threads[t].pc) then LockedBy(t) else Unlocked]
  }

  ghost predicate GlobalChange(s: State, t: nat, s': State)
    requires t in s.threads
  {
    && t in s'.threads && s'.threads == s.threads[t := s'.threads[t]]
    && (HasGlobal(s'.threads[t].pc) ==> s.globalLock == Unlocked || s.globalLock == LockedBy(t))
    && s'.globalLock == (if HasGlobal(s'.threads[t].pc) then LockedBy(t)
                         else if HasGlobal(s.threads[t].pc) then Unlocked
                         else s.globalLock)
  }

  /** What the lock words show of thread t. */
  ghost predicate LocksOf(s: State, t: nat) {
    && WellShaped(s) && t in s.threads
    && s.slotLocks[t % SLOTS] == (if HasSlot(s.threads[t].pc) then LockedBy(t) else Unlocked)
    && (HasGlobal(s.threads[t].pc) ==> s.globalLock == LockedBy(t))
  }

  lemma RefillSlot(s: State, t: nat, c: Choice)
    requires LocksOf(s, t) && InRefill(s.threads[t].pc) && CanRun(s, t, s.threads[t])
    ensures SlotChange(s, t, StepRefill(s, t, s.threads[t], c))
  {
  }

  lemma RefillGlobal(s: State, t: nat, c: Choice)
    requires LocksOf(s, t) && InRefill(s.threads[t].pc) && CanRun(s, t, s.threads[t]) && !Blocked(s, t)
    requires s.threads[t].pc == Tail ==> s.threads[t].big + CHUNK >= s.threads[t].cut + HEADER
    ensures GlobalChange(s, t, StepRefill(s, t, s.threads[t], c))
  {
  }

  lemma LocalSlot(s: State, t: nat)
    requires LocksOf(s, t) && InLocal(s.threads[t].pc) && CanRun(s, t, s.threads[t])
    ensures SlotChange(s, t, StepLocal(s, t, s.threads[t]))
  {
  }

  lemma LocalGlobal(s: State, t: nat)
    requires LocksOf(s, t) && InLocal(s.threads[t].pc) && CanRun(s, t, s.threads[t])
    ensures GlobalChange(s, t, StepLocal(s, t, s.threads[t]))
  {
  }

  lemma GlobalSlot(s: State, t: nat, c: Choice)
    requires LocksOf(s, t) && CanRun(s, t, s.threads[t]) && !InRefill(s.threads[t].pc) && !InLocal(s.threads[t].pc)
    ensures SlotChange(s, t, StepGlobal(s, t, s.threads[t], c))
  {
  }

  lemma GlobalGlobal(s: State, t: nat, c: Choice)
    requires LocksOf(s, t) && CanRun(s, t, s.threads[t]) && !InRefill(s.threads[t].pc) && !InLocal(s.threads[t].pc)
    requires !Blocked(s, t)
    ensures GlobalChange(s, t, StepGlobal(s, t, s.threads[t], c))
  {
  }

  lemma StepLocks(s: State, t: nat, c: Choice)
    requires Inv(s) && Enabled(s, Run(t, c)) && CanRun(s, t, s.threads[t])
    ensures LocksInv(Step(s, t, s.threads[t], c))
  {
    assert ThreadInv(s.heap, t, s.threads[t]);
    SlotLockIsMine(s, t);
    assert LocksOf(s, t);
    hide HeapInv, LocksInv, StepRefill, StepLocal, StepGlobal, CanRun, LocksOf;
    if InRefill(s.threads[t].pc) {
      RefillSlot(s, t, c);
      RefillGlobal(s, t, c);
    } else if InLocal(s.threads[t].pc) {
      LocalSlot(s, t);
      LocalGlobal(s, t);
    } else {
      GlobalSlot(s, t, c);
      GlobalGlobal(s, t, c);
    }
    LocksStep(s, t, Step(s, t, s.threads[t], c));
  }

  // ----- every action keeps the invariant, and no enabled action is undefined -----

  lemma StepDefined(s: State, t: nat, c: Choice)
    requires Inv(s) && Enabled(s, Run(t, c))
    ensures StepFine(s, t, c)
  {
    hide Inv, StepFine;
    if InRefill(s.threads[t].pc) {
      RefillFine(s, t, c);
    } else if InLocal(s.threads[t].pc) {
      LocalFine(s, t, c);
    } else {
      GlobalFine(s, t, c);
    }
  }

  /** A step of one thread, at any point, leaves what another relies on as it was, and that thread's assertions true. */
  lemma OthersKeep(s: State, t: nat, c: Choice, u: nat)
    requires Inv(s) && Enabled(s, Run(t, c)) && u in s.threads && u != t
    ensures CanRun(s, t, s.threads[t])
    ensures var h, k := s.heap, Step(s, t, s.threads[t], c).heap;
            Untouched(h, k, u, HasGlobal(s.threads[u].pc)) && ThreadInv(k, u, s.threads[u])
  {
    hide HeapInv, ThreadInv, Monotone, LocksInv, Step, CanRun;
    StepDefined(s, t, c);
    Exclusive(s, t, u);
    OtherKept(s.heap, Step(s, t, s.threads[t], c).heap, t, u, s.threads[u], HasGlobal(s.threads[t].pc));
  }

  predicate OnlyThread(s: State, t: nat, s': State) {
    t in s'.threads && s'.threads == s.threads[t := s'.threads[t]]
  }

  lemma StepShape(s: State, t: nat, c: Choice)
    requires t in s.threads && WellShaped(s) && CanRun(s, t, s.threads[t])
    ensures OnlyThread(s, t, Step(s, t, s.threads[t], c))
  {
    var pc := s.threads[t].pc;
    hide OnlyThread, StepRefill, StepLocal, StepGlobal;
    if InRefill(pc) {
      RefillShape(s, t, c);
    } else if InLocal(pc) {
      LocalShape(s, t);
    } else {
      GlobalShape(s, t, c);
    }
  }

  lemma RefillShape(s: State, t: nat, c: Choice)
    requires t in s.threads && WellShaped(s) && CanRun(s, t, s.threads[t]) && InRefill(s.threads[t].pc)
    ensures OnlyThread(s, t, StepRefill(s, t, s.threads[t], c))
  {
  }

  lemma LocalShape(s: State, t: nat)
    requires t in s.threads && WellShaped(s) && CanRun(s, t, s.threads[t]) && InLocal(s.threads[t].pc)
    ensures OnlyThread(s, t, StepLocal(s, t, s.threads[t]))
  {
  }

  lemma GlobalShape(s: State, t: nat, c: Choice)
    requires t in s.threads && WellShaped(s) && CanRun(s, t, s.threads[t])
    requires !InRefill(s.threads[t].pc) && !InLocal(s.threads[t].pc)
    ensures OnlyThread(s, t, StepGlobal(s, t, s.threads[t], c))
  {
  }

  lemma SpawnExitLocks(s: State, a: Action)
    requires LocksInv(s) && WellShaped(s) && Enabled(s, a) && !a.Run?
    ensures LocksInv(Apply(s, a))
  {
    var s' := Apply(s, a);
    if a.Spawn? {
      forall i | 0 <= i < SLOTS && s.slotLocks[i].LockedBy? ensures s.slotLocks[i].tid != a.tid {
      }
    }
    forall u | u in s'.threads
      ensures s'.slotLocks[u % SLOTS] == LockedBy(u) <==> HasSlot(s'.threads[u].pc)
      ensures s'.globalLock == LockedBy(u) <==> HasGlobal(s'.threads[u].pc)
    {
      if u in s.threads {
        assert s.globalLock == LockedBy(u) <==> HasGlobal(s.threads[u].pc);
        assert s.slotLocks[u % SLOTS] == LockedBy(u) <==> HasSlot(s.threads[u].pc);
      }
    }
    if a.Exit? {
      assert s.globalLock == LockedBy(a.tid) <==> HasGlobal(s.threads[a.tid].pc);
      assert s.slotLocks[a.tid % SLOTS] == LockedBy(a.tid) <==> HasSlot(s.threads[a.tid].pc);
    }
  }

  lemma RestingThread(h: Heap, threads: map<nat, Thread>, t: nat)
    requires |h.heads| == |h.locals| == SLOTS && HeldInv(h, threads) && t !in threads
    ensures ThreadInv(h, t, AtRest)
  {
  }

  lemma RestingHoldsNothing(h: Heap, t: nat, th: Thread)
    requires ThreadInv(h, t, th) && th.pc == Idle
    ensures forall a :: a in h.blocks ==> h.blocks[a].place != Held(t)
  {
  }

  lemma SpawnExitInv(s: State, a: Action)
    requires Inv(s) && Enabled(s, a) && !a.Run?
    ensures Inv(Apply(s, a))
  {
    hide HeapInv, ThreadInv, LocksInv;
    SpawnExitLocks(s, a);
    if a.Spawn? {
      RestingThread(s.heap, s.threads, a.tid);
    } else {
      RestingHoldsNothing(s.heap, a.tid, s.threads[a.tid]);
    }
  }

  lemma ActionInv(s: State, a: Action)
    requires Inv(s) && Enabled(s, a)
    ensures a.Run? ==> CanRun(s, a.tid, s.threads[a.tid])
    ensures Inv(Apply(s, a)) && Monotone(s.heap, Apply(s, a).heap)
  {
    if a.Run? {
      var t := a.tid;
      StepDefined(s, t, a.choice);
      var s' := Apply(s, a);
      hide HeapInv, ThreadInv, Framed, LocksInv, Step;
      StepLocks(s, t, a.choice);
      StepShape(s, t, a.choice);
      OwnStep(s, t, s', HasGlobal(s.threads[t].pc));
    } else {
      hide HeapInv, ThreadInv, LocksInv;
      SpawnExitInv(s, a);
    }
  }

  lemma MonotoneTrans(h: Heap, k: Heap, l: Heap)
    requires Monotone(h, k) && Monotone(k, l)
    ensures Monotone(h, l)
  {
  }

  /** Every state of every run satisfies the invariant, and what was handed out stays so, in place and size. */
  lemma {:induction false} RunInv(states: seq<State>, actions: seq<Action>, i: nat, n: nat)
    requires IsRun(states, actions) && i <= n < |states|
    ensures Inv(states[n])
    ensures Monotone(states[i].heap, states[n].heap)
    decreases n
  {
    hide Inv, Monotone;
    if n == 0 {
      InitInv();
      MonotoneRefl(states[0].heap);
    } else {
      RunInv(states, actions, if i < n then i else n - 1, n - 1);
      assert Next(states[n - 1], actions[n - 1], states[n]);
      ActionInv(states[n - 1], actions[n - 1]);
      if i < n {
        MonotoneTrans(states[i].heap, states[n - 1].heap, states[n].heap);
      } else {
        MonotoneRefl(states[n].heap);
      }
    }
  }

  lemma MonotoneRefl(h: Heap)
    ensures Monotone(h, h)
  {
  }

  // ----- what a caller and a reader of the code can rely on -----

  predicate Overlap(a: nat, aLen: nat, b: nat, bLen: nat) {
    a < b + bLen && b < a + aLen
  }

  /** A returned pointer is the payload of a block that holds the request. */
  lemma GrantedBlock(h: Heap, i: nat)
    requires HeapInv(h) && i < |h.returned| && h.returned[i].req <= SIZE_MOD - 24
    ensures var p := h.returned[i];
            && p.ptr >= HEADER && p.ptr - HEADER in h.blocks && h.blocks[p.ptr - HEADER].place == Out
            && p.ptr % 8 == 0 && p.ptr + p.req <= End(h, p.ptr - HEADER)
  {
    hide ListsInv;
    var p := h.returned[i];
    CoversExactly(p.req);
    var a: nat := p.ptr - HEADER;
    assert BlockOk(h, a) && h.blocks[a].place == Out;
    hide BlocksInv, GrantsInv;
  }

  /** Pointers returned at any two moments of a run are 8-aligned, and their requested bytes never overlap. */
  lemma ReturnedPayloads(s: State, i: nat, j: nat)
    requires Inv(s) && i < j < |s.heap.returned|
    requires s.heap.returned[i].req <= SIZE_MOD - 24 && s.heap.returned[j].req <= SIZE_MOD - 24
    ensures var p, q := s.heap.returned[i], s.heap.returned[j];
            p.ptr % 8 == 0 && q.ptr % 8 == 0 && !Overlap(p.ptr, p.req, q.ptr, q.req)
  {
    var h := s.heap;
    var p, q := h.returned[i], h.returned[j];
    assert p.ptr != q.ptr;
    assert Apart(h, p.ptr - HEADER, q.ptr - HEADER);
    hide HeapInv;
    GrantedBlock(h, i);
    GrantedBlock(h, j);
  }

  /** Requested bytes lie inside a region that vmalloc gave, and hold no free or in-transit header. */
  lemma ReturnedIsPrivate(s: State, i: nat, a: nat)
    requires Inv(s) && i < |s.heap.returned| && s.heap.returned[i].req <= SIZE_MOD - 24
    ensures var p := s.heap.returned[i];
            && (a in s.heap.blocks ==> !Overlap(p.ptr, p.req, a, HEADER))
            && exists r :: r in s.heap.regions && r <= p.ptr && p.ptr + p.req <= r + s.heap.regions[r]
  {
    var h := s.heap;
    var p := h.returned[i];
    CoversExactly(p.req);
    var b: nat := p.ptr - HEADER;
    assert BlockOk(h, b);
    assert a in h.blocks && a != b ==> Apart(h, a, b);
    assert h.blocks[b].base in h.regions;
  }

  /** Each block has one place; on a list it stands exactly once, and on no other list. */
  lemma OnePlace(s: State, a: nat)
    requires Inv(s) && a in s.heap.blocks
    ensures var h := s.heap;
            var p := h.blocks[a].place;
            && (forall i :: 0 <= i < SLOTS ==> (a in h.locals[i] <==> p == OnLocal(i)))
            && (a in h.globals <==> p == OnGlobal)
            && (p.Held? ==> p.tid in s.threads && a in HeldBlocks(s.threads[p.tid]))
            && (forall t :: t in s.threads && a in HeldBlocks(s.threads[t]) ==> p == Held(t))
            && (forall i :: 0 <= i < SLOTS ==> Distinct(h.locals[i])) && Distinct(h.globals)
  {
    var h := s.heap;
    forall i | 0 <= i < SLOTS ensures (a in h.locals[i] <==> h.blocks[a].place == OnLocal(i)) && Distinct(h.locals[i]) {
      assert ListInv(h, h.heads[i], h.locals[i], OnLocal(i));
    }
    forall t | t in s.threads
      ensures h.blocks[a].place == Held(t) ==> a in HeldBlocks(s.threads[t])
      ensures a in HeldBlocks(s.threads[t]) ==> h.blocks[a].place == Held(t)
    {
      assert ThreadInv(h, t, s.threads[t]);
    }
  }

  /** The free list off `head` ends: no block repeats, and `next` leads from each to the one behind it or to NULL. */
  ghost predicate Acyclic(h: Heap, head: nat, list: seq<nat>) {
    && head == (if list == [] then 0 else list[0])
    && (forall k :: 0 <= k < |list| ==>
          && list[k] != 0 && list[k] !in list[..k]
          && Hdr(h.mem, list[k]).next == if k + 1 < |list| then list[k + 1] else 0)
  }

  lemma ListEnds(h: Heap, head: nat, list: seq<nat>, place: Place)
    requires BlocksInv(h) && ListInv(h, head, list, place)
    ensures Acyclic(h, head, list)
  {
    forall k | 0 <= k < |list|
      ensures list[k] != 0 && Hdr(h.mem, list[k]).next == if k + 1 < |list| then list[k + 1] else 0
    {
      assert list[k] in list && BlockOk(h, list[k]);
      assert Hdr(h.mem, list[k]).next == After(list, k);
    }
  }

  /** All 65 lists are acyclic. */
  lemma WalkEnds(s: State)
    requires Inv(s)
    ensures forall i :: 0 <= i < SLOTS ==> Acyclic(s.heap, s.heap.heads[i], s.heap.locals[i])
    ensures Acyclic(s.heap, s.heap.ghead, s.heap.globals)
  {
    hide Acyclic;
    var h := s.heap;
    forall i | 0 <= i < SLOTS ensures Acyclic(h, h.heads[i], h.locals[i]) {
      ListEnds(h, h.heads[i], h.locals[i], OnLocal(i));
    }
    ListEnds(h, h.ghead, h.globals, OnGlobal);
  }

  /** No byte of a mapped region is lost: from any block start on, every byte is in some block of the region. */
  lemma {:induction false} RegionTiled(h: Heap, a: nat, x: nat) returns (b: nat)
    requires HeapInv(h) && a in h.blocks && a <= x && h.blocks[a].base in h.regions
    requires x < h.blocks[a].base + h.regions[h.blocks[a].base]
    ensures b in h.blocks && h.blocks[b].base == h.blocks[a].base && b <= x < End(h, b)
    decreases x - a
  {
    assert BlockOk(h, a) && Tiled(h, a);
    if x < End(h, a) {
      b := a;
    } else {
      b := RegionTiled(h, End(h, a), x);
    }
  }

  /** A mapped region is exactly tiled: each of its bytes is in exactly one block, header or payload. */
  lemma ExactTiling(s: State, r: nat, x: nat)
    requires Inv(s) && r in s.heap.regions && r <= x < r + s.heap.regions[r]
    ensures var h := s.heap;
            && (exists b :: b in h.blocks && b <= x < End(h, b))
            && (forall b, c :: b in h.blocks && c in h.blocks && b <= x < End(h, b) && c <= x < End(h, c) ==> b == c)
  {
    var h := s.heap;
    assert RegionOk(h, r);
    var b := RegionTiled(h, r, x);
    forall b, c | b in h.blocks && c in h.blocks && b <= x < End(h, b) && c <= x < End(h, c) ensures b == c {
      assert b != c ==> Apart(h, b, c);
    }
  }

  /** Each lock has at most one holder; with a lock, a thread is alone on its list. */
  lemma MutualExclusion(s: State, t: nat, u: nat)
    requires Inv(s) && t in s.threads && u in s.threads && t != u
    ensures !(HasGlobal(s.threads[t].pc) && HasGlobal(s.threads[u].pc))
    ensures t % SLOTS != u % SLOTS
    ensures HasSlot(s.threads[t].pc) ==> s.slotLocks[t % SLOTS] == LockedBy(t)
    ensures HasGlobal(s.threads[t].pc) ==> s.globalLock == LockedBy(t)
  {
    hide HeapInv, ThreadInv;
    Exclusive(s, t, u);
    assert s.slotLocks[t % SLOTS] == LockedBy(t) <==> HasSlot(s.threads[t].pc);
  }

  /**
   Despite the two lock orders (slot then global in a refill, global then slot when splitting a global block)
   a thread only ever waits for the global lock, and whoever holds that lock can take its next step.
   */
  lemma NoDeadlock(s: State, t: nat)
    requires Inv(s) && t in s.threads && Blocked(s, t)
    ensures s.threads[t].pc == LockTail || s.threads[t].pc == LockGlobal
    ensures s.globalLock.LockedBy?
    ensures var u := s.globalLock.tid;
            && u != t && u in s.threads && HasGlobal(s.threads[u].pc) && !Blocked(s, u)
            && Enabled(s, Run(u, Choice(0, 0)))
  {
    hide HeapInv, ThreadInv;
    SlotLockIsMine(s, t);
    assert s.globalLock.LockedBy? ==> (s.globalLock.tid == t <==> HasGlobal(s.threads[t].pc));
    if s.globalLock.LockedBy? {
      var u := s.globalLock.tid;
      SlotLockIsMine(s, u);
      assert s.globalLock == LockedBy(u) <==> HasGlobal(s.threads[u].pc);
    }
  }

  // ----- a call ends after finitely many steps of its own -----

  /** Program points in the order a call passes them; the three loops are one point each. */
  function Phase(pc: Pc): nat {
    match pc
    case Idle => 0
    case ReadHead => 31 case TestHead => 30 case LockRefill => 29 case Retest => 28 case MapChunk => 27
    case Carve => 26 case CarveLink => 26 case Tail => 25 case LockTail => 24 case LinkTail => 23
    case PublishTail => 22 case UnlockTail => 21 case UnlockRefill => 20 case LockLocal => 19
    case WalkLocal => 18 case CutLocal => 17 case SplitLocal => 16 case LinkSplit => 15 case ShrinkLocal => 14
    case UnlockHit => 13 case UnlockMiss => 12 case LockGlobal => 11 case ReadGlobal => 10
    case WalkGlobal => 9 case CutGlobal => 8 case SplitGlobal => 7 case LockPiece => 6 case LinkPiece => 5
    case PublishPiece => 4 case UnlockPiece => 3 case ShrinkGlobal => 2 case UnlockGlobal => 2 case MapPages => 1
  }

  /** What is left to do inside the current point. */
  function Left(h: Heap, t: nat, th: Thread): int
    requires |h.locals| == SLOTS
  {
    match th.pc
    case Carve => 2 * (th.big + CHUNK - th.cut) + 1
    case CarveLink => 2 * (th.big + CHUNK - th.cut)
    case WalkLocal => if th.curr == 0 then 0 else |h.locals[t % SLOTS]| - th.pos + 1
    case WalkGlobal => if th.curr == 0 then 0 else |h.globals| - th.pos + 1
    case ShrinkGlobal => 1
    case _ => 0
  }

  /** The step from s to s' brings thread t nearer to the end of its call. */
  ghost predicate Nearer(s: State, t: nat, s': State)
    requires t in s.threads && WellShaped(s)
  {
    && t in s'.threads && WellShaped(s')
    && var th, th' := s.threads[t], s'.threads[t];
       || Phase(th'.pc) < Phase(th.pc)
       || (Phase(th'.pc) == Phase(th.pc) && Left(s'.heap, t, th') < Left(s.heap, t, th))
  }

  lemma CarveMoves(h: Heap, s: State, t: nat, c: Choice)
    requires t in s.threads && s.heap == h && WellShaped(s) && RefillInv(h, h.heads[t % SLOTS], s.threads[t])
    requires s.threads[t].pc in {Carve, CarveLink} && CanRun(s, t, s.threads[t])
    ensures Nearer(s, t, StepRefill(s, t, s.threads[t], c))
  {
  }

  lemma RefillMoves(s: State, t: nat, c: Choice)
    requires t in s.threads && WellShaped(s)
    requires InRefill(s.threads[t].pc) && s.threads[t].pc !in {Idle, Carve, CarveLink} && CanRun(s, t, s.threads[t])
    ensures Nearer(s, t, StepRefill(s, t, s.threads[t], c))
  {
  }

  lemma WalkLocalMoves(h: Heap, s: State, t: nat)
    requires t in s.threads && s.heap == h && WellShaped(s)
    requires Chain(h.mem, h.heads[t % SLOTS], h.locals[t % SLOTS]) && 0 !in h.locals[t % SLOTS]
    requires s.threads[t].pc == WalkLocal && (s.threads[t].curr == 0 || AtPosition(h.locals[t % SLOTS], s.threads[t]))
    ensures Nearer(s, t, StepLocal(s, t, s.threads[t]))
  {
    hide Chain, StepLocal;
    QuietLocalGoes(s, t);
    if s.threads[t].curr != 0 {
      WalkedPosition(h, h.heads[t % SLOTS], h.locals[t % SLOTS], s.threads[t], CutLocal);
    }
  }

  lemma LocalMoves(s: State, t: nat)
    requires t in s.threads && WellShaped(s)
    requires InLocal(s.threads[t].pc) && s.threads[t].pc != WalkLocal && CanRun(s, t, s.threads[t])
    ensures Nearer(s, t, StepLocal(s, t, s.threads[t]))
  {
    hide SplitPoint, Left;
  }

  lemma WalkGlobalMoves(h: Heap, s: State, t: nat, c: Choice)
    requires t in s.threads && s.heap == h && WellShaped(s) && Chain(h.mem, h.ghead, h.globals) && 0 !in h.globals
    requires s.threads[t].pc == WalkGlobal && (s.threads[t].curr == 0 || AtPosition(h.globals, s.threads[t]))
    ensures Nearer(s, t, StepGlobal(s, t, s.threads[t], c))
  {
    hide Chain, StepGlobal;
    QuietGlobalGoes(s, t, c);
    if s.threads[t].curr != 0 {
      WalkedPosition(h, h.ghead, h.globals, s.threads[t], CutGlobal);
    }
  }

  lemma QuietGlobalMoves(s: State, t: nat, c: Choice)
    requires t in s.threads && WellShaped(s) && s.threads[t].pc in {LockGlobal, ReadGlobal, LockPiece, UnlockPiece}
    ensures Nearer(s, t, StepGlobal(s, t, s.threads[t], c))
  {
    hide StepGlobal, Left;
    QuietGlobalGoes(s, t, c);
  }

  lemma PieceMoves(s: State, t: nat, c: Choice)
    requires t in s.threads && WellShaped(s) && CanRun(s, t, s.threads[t])
    requires s.threads[t].pc in {LinkPiece, PublishPiece}
    ensures Nearer(s, t, StepGlobal(s, t, s.threads[t], c))
  {
    hide SplitPoint, Left;
  }

  lemma CutMoves(s: State, t: nat, c: Choice)
    requires t in s.threads && WellShaped(s) && CanRun(s, t, s.threads[t])
    requires s.threads[t].pc in {CutGlobal, SplitGlobal}
    ensures Nearer(s, t, StepGlobal(s, t, s.threads[t], c))
  {
    hide SplitPoint, Left;
  }

  lemma GlobalMoves(s: State, t: nat, c: Choice)
    requires t in s.threads && WellShaped(s) && CanRun(s, t, s.threads[t])
    requires s.threads[t].pc in {ShrinkGlobal, UnlockGlobal, MapPages}
    ensures Nearer(s, t, StepGlobal(s, t, s.threads[t], c))
  {
  }

  lemma OutsideMoves(h: Heap, s: State, t: nat, c: Choice)
    requires t in s.threads && s.heap == h && WellShaped(s) && CanRun(s, t, s.threads[t])
    requires !InRefill(s.threads[t].pc) && !InLocal(s.threads[t].pc) && Walkable(h, t)
    requires s.threads[t].pc == WalkGlobal ==> s.threads[t].curr == 0 || AtPosition(h.globals, s.threads[t])
    ensures Nearer(s, t, StepGlobal(s, t, s.threads[t], c))
  {
    hide Chain, AtPosition, StepGlobal, Nearer, CanRun;
    if s.threads[t].pc == WalkGlobal {
      WalkGlobalMoves(h, s, t, c);
    } else if s.threads[t].pc in {LockGlobal, ReadGlobal, LockPiece, UnlockPiece} {
      QuietGlobalMoves(s, t, c);
    } else if s.threads[t].pc in {ShrinkGlobal, UnlockGlobal, MapPages} {
      GlobalMoves(s, t, c);
    } else if s.threads[t].pc in {LinkPiece, PublishPiece} {
      PieceMoves(s, t, c);
    } else {
      CutMoves(s, t, c);
    }
  }

  lemma InsideMoves(h: Heap, s: State, t: nat)
    requires t in s.threads && s.heap == h && WellShaped(s) && CanRun(s, t, s.threads[t])
    requires InLocal(s.threads[t].pc) && Walkable(h, t)
    requires s.threads[t].pc == WalkLocal ==> s.threads[t].curr == 0 || AtPosition(h.locals[t % SLOTS], s.threads[t])
    ensures Nearer(s, t, StepLocal(s, t, s.threads[t]))
  {
    hide Chain, AtPosition, StepLocal, Nearer, CanRun;
    if s.threads[t].pc == WalkLocal {
      WalkLocalMoves(h, s, t);
    } else {
      LocalMoves(s, t);
    }
  }

  /** What the proofs of progress need of the invariant. */
  lemma Moving(s: State, t: nat)
    requires Inv(s) && t in s.threads
    ensures var h, th := s.heap, s.threads[t];
            && WellShaped(s) && Walkable(h, t) && RefillInv(h, h.heads[t % SLOTS], th)
            && (th.pc == WalkLocal ==> th.curr == 0 || AtPosition(h.locals[t % SLOTS], th))
            && (th.pc == WalkGlobal ==> th.curr == 0 || AtPosition(h.globals, th))
  {
    hide HeapInv, AtPosition, RefillInv, Walkable;
    assert ThreadInv(s.heap, t, s.threads[t]);
    WalkableOk(s.heap, t);
  }

  lemma OwnMoves(s: State, t: nat, c: Choice)
    requires Inv(s) && t in s.threads && CanRun(s, t, s.threads[t]) && s.threads[t].pc != Idle
    ensures Nearer(s, t, Step(s, t, s.threads[t], c))
  {
    hide Inv, RefillInv, Walkable, AtPosition, StepRefill, StepLocal, StepGlobal, Nearer, CanRun;
    Moving(s, t);
    if InRefill(s.threads[t].pc) {
      if s.threads[t].pc in {Carve, CarveLink} {
        CarveMoves(s.heap, s, t, c);
      } else {
        RefillMoves(s, t, c);
      }
    } else if InLocal(s.threads[t].pc) {
      InsideMoves(s.heap, s, t);
    } else {
      OutsideMoves(s.heap, s, t, c);
    }
  }

  lemma OthersMove(s: State, t: nat, c: Choice, u: nat)
    requires Inv(s) && Enabled(s, Run(t, c)) && CanRun(s, t, s.threads[t]) && u in s.threads && u != t
    ensures var s' := Step(s, t, s.threads[t], c);
            && u in s'.threads && WellShaped(s') && s'.threads[u] == s.threads[u]
            && Left(s'.heap, u, s.threads[u]) == Left(s.heap, u, s.threads[u])
  {
    hide HeapInv, LocksInv, ThreadInv, Framed, Monotone, Step, Left, CanRun;
    StepDefined(s, t, c);
    StepShape(s, t, c);
    Exclusive(s, t, u);
    OtherLeft(s.heap, Step(s, t, s.threads[t], c).heap, t, u, s.threads[u], HasGlobal(s.threads[t].pc));
  }

  /** A thread's own step inside mymalloc lowers (Phase, Left); another thread's step leaves both as they are. */
  lemma CallsEnd(s: State, t: nat, c: Choice, u: nat)
    requires Inv(s) && Enabled(s, Run(t, c)) && CanRun(s, t, s.threads[t]) && u in s.threads && s.threads[u].pc != Idle
    ensures Left(s.heap, u, s.threads[u]) >= 0
    ensures var s' := Step(s, t, s.threads[t], c);
            if u == t then Nearer(s, u, s')
            else u in s'.threads && WellShaped(s') && s'.threads[u] == s.threads[u]
                 && Left(s'.heap, u, s.threads[u]) == Left(s.heap, u, s.threads[u])
  {
    hide HeapInv, LocksInv, ThreadInv, Step, Left, Nearer, CanRun;
    assert ThreadInv(s.heap, u, s.threads[u]);
    LeftNonNegative(s.heap, u, s.threads[u]);
    if u == t {
      OwnMoves(s, t, c);
    } else {
      OthersMove(s, t, c, u);
    }
  }

  lemma OtherLeft(h: Heap, k: Heap, t: nat, u: nat, th: Thread, g: bool)
    requires |h.locals| == |k.locals| == SLOTS && Framed(h, k, t, g)
    requires u != t && u % SLOTS != t % SLOTS && !(g && HasGlobal(th.pc))
    ensures Left(k, u, th) == Left(h, u, th)
  {
    assert Untouched(h, k, u, HasGlobal(th.pc));
  }

  lemma LeftNonNegative(h: Heap, t: nat, th: Thread)
    requires ThreadInv(h, t, th)
    ensures Left(h, t, th) >= 0
  {
  }
}
