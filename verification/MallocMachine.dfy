/**
 Every interleaving of mymalloc: threads come and go, each runs mymalloc any number of times,
 and one action of one thread at a time reads or writes memory or takes or frees a spinlock.
 The numbers beside the program points are lines of mymalloc/mymalloc.c.
 */
module MallocMachine {
  import opened MallocSizes
  import opened MallocHeap

  datatype Pc =
    | Idle
    | ReadHead        // 51
    | TestHead        // 53
    | LockRefill      // 54
    | Retest          // 55
    | MapChunk        // 57
    | Carve           // 62-66
    | CarveLink       // 67-68
    | Tail            // 71-74
    | LockTail        // 75
    | LinkTail        // 76
    | PublishTail     // 77
    | UnlockTail      // 78
    | UnlockRefill    // 82
    | LockLocal       // 86
    | WalkLocal       // 88-89, 112-113
    | CutLocal        // 91-92
    | SplitLocal      // 95-103
    | LinkSplit       // 104
    | ShrinkLocal     // 105
    | UnlockHit       // 108-110
    | UnlockMiss      // 115
    | LockGlobal      // 118
    | ReadGlobal      // 119-120
    | WalkGlobal      // 121-122, 145-146
    | CutGlobal       // 123-124
    | SplitGlobal     // 127-134
    | LockPiece       // 135
    | LinkPiece       // 136
    | PublishPiece    // 137
    | UnlockPiece     // 138
    | ShrinkGlobal    // 139
    | UnlockGlobal    // 148-150
    | MapPages        // 153-160

  /** A thread's locals. `pos` is auxiliary: how far it has walked. */
  datatype Thread = Thread(
    pc: Pc, req: Size, size: Size, curr: nat, prev: nat, big: nat, cut: nat, rem: nat, found: bool, pos: nat)

  const AtRest := Thread(Idle, 0, 0, 0, 0, 0, 0, 0, false, 0)

  datatype Lock = Unlocked | LockedBy(tid: nat)

  datatype State = State(heap: Heap, slotLocks: seq<Lock>, globalLock: Lock, threads: map<nat, Thread>)

  /** What the environment decides: the size a call asks for and the address vmalloc gives back (0 for NULL). */
  datatype Choice = Choice(req: Size, vm: nat)

  datatype Action =
    | Spawn(tid: nat)
    | Exit(tid: nat)
    | Run(tid: nat, choice: Choice)

  function Init(): State {
    State(EmptyHeap(), seq(SLOTS, _ => Unlocked), Unlocked, map[])
  }

  // ----- when an action can happen -----

  predicate Blocked(s: State, t: nat)
    requires t in s.threads && WellShaped(s)
  {
    match s.threads[t].pc
    case LockRefill => s.slotLocks[t % SLOTS] != Unlocked
    case LockLocal => s.slotLocks[t % SLOTS] != Unlocked
    case LockPiece => s.slotLocks[t % SLOTS] != Unlocked
    case LockTail => s.globalLock != Unlocked
    case LockGlobal => s.globalLock != Unlocked
    case _ => false
  }

  /** vmalloc returns NULL or a fresh region; mmap refuses a length of zero. */
  ghost predicate VmallocMay(s: State, vm: nat, len: nat) {
    vm == 0 || (len > 0 && Fresh(s.heap, vm, len))
  }

  ghost predicate Enabled(s: State, a: Action)
    requires WellShaped(s)
  {
    match a
    // No two live threads share a slot.
    case Spawn(t) => t !in s.threads && forall u :: u in s.threads ==> u % SLOTS != t % SLOTS
    case Exit(t) => t in s.threads && s.threads[t].pc == Idle
    case Run(t, c) =>
      && t in s.threads && !Blocked(s, t)
      && (s.threads[t].pc == MapChunk ==> VmallocMay(s, c.vm, CHUNK))
      && (s.threads[t].pc == MapPages ==> VmallocMay(s, c.vm, FallbackLength(s.threads[t].size)))
  }

  // ----- what an action does -----

  function Apply(s: State, a: Action): State
    requires WellShaped(s)
    requires a.Run? ==> a.tid in s.threads && CanRun(s, a.tid, s.threads[a.tid])
  {
    match a
    case Spawn(t) => s.(threads := s.threads[t := AtRest])
    case Exit(t) => s.(threads := s.threads - {t})
    case Run(t, c) => Step(s, t, s.threads[t], c)
  }

  predicate WellShaped(s: State) {
    |s.slotLocks| == SLOTS && |s.heap.heads| == |s.heap.locals| == SLOTS
  }

  /** The pointers a step follows point at blocks, so the step is defined. */
  predicate CanRun(s: State, t: nat, th: Thread)
    requires WellShaped(s)
  {
    var h := s.heap;
    match th.pc
    case CarveLink => th.cut in h.blocks && th.cut + HEADER + BLOCK + HEADER <= End(h, th.cut)
    case PublishTail => th.cut in h.blocks
    case CutLocal => th.curr in h.blocks && th.pos < |h.locals[t % SLOTS]|
    case SplitLocal => SplitPoint(h, th).None? || SplitFits(h, th)
    case LinkSplit => th.rem in h.blocks
    case UnlockHit => th.curr in h.blocks
    case CutGlobal => th.curr in h.blocks && th.pos < |h.globals|
    case SplitGlobal => SplitPoint(h, th).None? || SplitFits(h, th)
    case PublishPiece => th.rem in h.blocks
    case UnlockGlobal => th.found ==> th.curr in h.blocks
    case _ => true
  }

  datatype Option<T> = None | Some(value: T)

  /** Lines 95-100 and 128-133: where the remainder of a block would start, if it is to be split. */
  function SplitPoint(h: Heap, th: Thread): Option<nat> {
    var length := Hdr(h.mem, th.curr).length;
    var rem := (th.curr + HEADER + th.size + 7) / 8 * 8;
    if length > th.size + HEADER && th.curr + HEADER + length - rem >= HEADER then Some(rem) else None
  }

  predicate SplitFits(h: Heap, th: Thread)
    requires SplitPoint(h, th).Some?
  {
    var rem := SplitPoint(h, th).value;
    && th.curr in h.blocks && th.curr + HEADER <= rem && rem + HEADER <= End(h, th.curr)
  }

  function Go(s: State, t: nat, th: Thread): State {
    s.(threads := s.threads[t := th])
  }

  function GoWith(s: State, h: Heap, t: nat, th: Thread): State {
    Go(s.(heap := h), t, th)
  }

  function SetSlotLock(s: State, t: nat, l: Lock): State
    requires |s.slotLocks| == SLOTS
  {
    s.(slotLocks := s.slotLocks[t % SLOTS := l])
  }

  /** Lines 45-83: entering mymalloc and refilling an empty local list. */
  function StepRefill(s: State, t: nat, th: Thread, c: Choice): State
    requires WellShaped(s) && CanRun(s, t, th)
  {
    var h := s.heap;
    var slot := t % SLOTS;
    match th.pc
    case Idle =>
      if c.req == 0 then s  // mymalloc(0) returns NULL
      else Go(s, t, AtRest.(pc := ReadHead, req := c.req, size := RoundUp8(c.req)))
    case ReadHead =>
      Go(s, t, th.(pc := TestHead, curr := h.heads[slot], prev := 0, pos := 0))
    case TestHead =>
      Go(s, t, th.(pc := if h.heads[slot] == 0 then LockRefill else LockLocal))
    case LockRefill =>
      Go(SetSlotLock(s, t, LockedBy(t)), t, th.(pc := Retest))
    case Retest =>
      Go(s, t, th.(pc := if h.heads[slot] == 0 then MapChunk else UnlockRefill))
    case MapChunk =>
      if c.vm == 0 then Go(s, t, th.(pc := UnlockRefill))
      else GoWith(s, AddRegion(h, c.vm, CHUNK, t), t, th.(pc := Carve, big := c.vm, cut := c.vm))
    case Carve =>
      if th.cut + HEADER + BLOCK <= th.big + CHUNK
      then GoWith(s, Write(h, th.cut, Header(BLOCK, h.heads[slot], t)), t, th.(pc := CarveLink))
      else Go(s, t, th.(pc := Tail))
    case CarveLink =>
      var next := th.cut + HEADER + BLOCK;
      GoWith(s, PushLocal(Split(h, th.cut, next, t), slot, th.cut), t, th.(pc := Carve, cut := next))
    case Tail =>
      if th.big + CHUNK >= th.cut + HEADER
      then GoWith(s, Write(h, th.cut, Hdr(h.mem, th.cut).(length := th.big + CHUNK - th.cut - HEADER, owner := t)),
                  t, th.(pc := LockTail))
      else Go(s, t, th.(pc := UnlockRefill))
    case LockTail =>
      Go(s.(globalLock := LockedBy(t)), t, th.(pc := LinkTail))
    case LinkTail =>
      GoWith(s, Write(h, th.cut, Hdr(h.mem, th.cut).(next := h.ghead)), t, th.(pc := PublishTail))
    case PublishTail =>
      GoWith(s, PushGlobal(h, th.cut), t, th.(pc := UnlockTail))
    case UnlockTail =>
      Go(s.(globalLock := Unlocked), t, th.(pc := UnlockRefill))
    case UnlockRefill =>
      Go(SetSlotLock(s, t, Unlocked), t, th.(pc := LockLocal))
    case _ => s
  }

  /** Lines 86-115: the first fit on the thread's own list. */
  function StepLocal(s: State, t: nat, th: Thread): State
    requires WellShaped(s) && CanRun(s, t, th)
  {
    var h := s.heap;
    var slot := t % SLOTS;
    match th.pc
    case LockLocal =>
      Go(SetSlotLock(s, t, LockedBy(t)), t, th.(pc := WalkLocal))
    case WalkLocal =>
      if th.curr == 0 then Go(s, t, th.(pc := UnlockMiss))
      else if Hdr(h.mem, th.curr).length >= th.size then Go(s, t, th.(pc := CutLocal))
      else Go(s, t, th.(prev := th.curr, curr := Hdr(h.mem, th.curr).next, pos := th.pos + 1))
    case CutLocal =>
      GoWith(s, UnlinkLocal(h, slot, th.pos, th.prev, th.curr, t), t, th.(pc := SplitLocal))
    case SplitLocal =>
      (match SplitPoint(h, th)
       case None => Go(s, t, th.(pc := UnlockHit))
       case Some(rem) =>
         var remaining: nat := th.curr + HEADER + Hdr(h.mem, th.curr).length - rem;
         GoWith(s, Write(Split(h, th.curr, rem, t), rem, Header(remaining - HEADER, h.heads[slot], t)),
                t, th.(pc := LinkSplit, rem := rem)))
    case LinkSplit =>
      GoWith(s, PushLocal(h, slot, th.rem), t, th.(pc := ShrinkLocal))
    case ShrinkLocal =>
      GoWith(s, Write(h, th.curr, Hdr(h.mem, th.curr).(length := th.size)), t, th.(pc := UnlockHit))
    case UnlockHit =>
      GoWith(SetSlotLock(s, t, Unlocked), Hand(h, th.curr, th.req), t, AtRest)
    case UnlockMiss =>
      Go(SetSlotLock(s, t, Unlocked), t, th.(pc := LockGlobal))
    case _ => s
  }

  /** Lines 118-160: the first fit on the global list, then fresh pages. */
  function StepGlobal(s: State, t: nat, th: Thread, c: Choice): State
    requires WellShaped(s) && CanRun(s, t, th)
  {
    var h := s.heap;
    var slot := t % SLOTS;
    match th.pc
    case LockGlobal =>
      Go(s.(globalLock := LockedBy(t)), t, th.(pc := ReadGlobal))
    case ReadGlobal =>
      Go(s, t, th.(pc := WalkGlobal, curr := h.ghead, prev := 0, pos := 0))
    case WalkGlobal =>
      if th.curr == 0 then Go(s, t, th.(pc := UnlockGlobal, found := false))
      else if Hdr(h.mem, th.curr).length >= th.size then Go(s, t, th.(pc := CutGlobal))
      else Go(s, t, th.(prev := th.curr, curr := Hdr(h.mem, th.curr).next, pos := th.pos + 1))
    case CutGlobal =>
      GoWith(s, UnlinkGlobal(h, th.pos, th.prev, th.curr, t), t, th.(pc := SplitGlobal))
    case SplitGlobal =>
      var own := Write(h, th.curr, Hdr(h.mem, th.curr).(owner := t));
      (match SplitPoint(h, th)
       case None => GoWith(s, own, t, th.(pc := UnlockGlobal, found := true))
       case Some(rem) =>
         var remaining: nat := th.curr + HEADER + Hdr(h.mem, th.curr).length - rem;
         GoWith(s, Write(Split(own, th.curr, rem, t), rem, Hdr(h.mem, rem).(length := remaining - HEADER)),
                t, th.(pc := LockPiece, rem := rem)))
    case LockPiece =>
      Go(SetSlotLock(s, t, LockedBy(t)), t, th.(pc := LinkPiece))
    case LinkPiece =>
      GoWith(s, Write(h, th.rem, Hdr(h.mem, th.rem).(next := h.heads[slot])), t, th.(pc := PublishPiece))
    case PublishPiece =>
      GoWith(s, PushLocal(h, slot, th.rem), t, th.(pc := UnlockPiece))
    case UnlockPiece =>
      Go(SetSlotLock(s, t, Unlocked), t, th.(pc := ShrinkGlobal))
    case ShrinkGlobal =>
      GoWith(s, Write(h, th.curr, Hdr(h.mem, th.curr).(length := th.size)), t, th.(pc := UnlockGlobal, found := true))
    case UnlockGlobal =>
      if th.found then GoWith(s.(globalLock := Unlocked), Hand(h, th.curr, th.req), t, AtRest)
      else Go(s.(globalLock := Unlocked), t, th.(pc := MapPages))
    case MapPages =>
      var len := FallbackLength(th.size);
      if c.vm == 0 || len == 0 then Go(s, t, AtRest)  // returns NULL
      else
        var mapped := Write(AddRegion(h, c.vm, len, t), c.vm, Header(len - HEADER, 0, t));
        GoWith(s, Hand(mapped, c.vm, th.req), t, AtRest)
    case _ => s
  }

  function Step(s: State, t: nat, th: Thread, c: Choice): State
    requires WellShaped(s) && CanRun(s, t, th)
  {
    if InRefill(th.pc) then StepRefill(s, t, th, c)
    else if InLocal(th.pc) then StepLocal(s, t, th)
    else StepGlobal(s, t, th, c)
  }

  predicate InRefill(pc: Pc) {
    pc in {Idle, ReadHead, TestHead, LockRefill, Retest, MapChunk, Carve, CarveLink, Tail, LockTail, LinkTail,
           PublishTail, UnlockTail, UnlockRefill}
  }

  predicate InLocal(pc: Pc) {
    pc in {LockLocal, WalkLocal, CutLocal, SplitLocal, LinkSplit, ShrinkLocal, UnlockHit, UnlockMiss}
  }

  // ----- the invariant -----

  predicate HasSlot(pc: Pc) {
    pc in {Retest, MapChunk, Carve, CarveLink, Tail, LockTail, LinkTail, PublishTail, UnlockTail, UnlockRefill,
           WalkLocal, CutLocal, SplitLocal, LinkSplit, ShrinkLocal, UnlockHit, UnlockMiss,
           LinkPiece, PublishPiece, UnlockPiece}
  }

  predicate HasGlobal(pc: Pc) {
    pc in {LinkTail, PublishTail, UnlockTail, ReadGlobal, WalkGlobal, CutGlobal, SplitGlobal,
           LockPiece, LinkPiece, PublishPiece, UnlockPiece, ShrinkGlobal, UnlockGlobal}
  }

  /** Live threads have different slots, and a lock is taken exactly while its holder is in a section it guards. */
  ghost predicate LocksInv(s: State) {
    && |s.slotLocks| == SLOTS
    && (forall t, u :: t in s.threads && u in s.threads && t != u ==> t % SLOTS != u % SLOTS)
    && (forall t :: t in s.threads ==> (s.slotLocks[t % SLOTS] == LockedBy(t) <==> HasSlot(s.threads[t].pc)))
    && (forall i :: 0 <= i < SLOTS && s.slotLocks[i].LockedBy? ==>
          s.slotLocks[i].tid in s.threads && s.slotLocks[i].tid % SLOTS == i)
    && (forall t :: t in s.threads ==> (s.globalLock == LockedBy(t) <==> HasGlobal(s.threads[t].pc)))
    && (s.globalLock.LockedBy? ==> s.globalLock.tid in s.threads)
  }

  /** The blocks a thread has off every list. */
  function HeldBlocks(th: Thread): set<nat> {
    match th.pc
    case Carve => {th.cut}
    case CarveLink => {th.cut}
    case Tail => {th.cut}
    case LockTail => {th.cut}
    case LinkTail => {th.cut}
    case PublishTail => {th.cut}
    case SplitLocal => {th.curr}
    case LinkSplit => {th.curr, th.rem}
    case ShrinkLocal => {th.curr}
    case UnlockHit => {th.curr}
    case SplitGlobal => {th.curr}
    case LockPiece => {th.curr, th.rem}
    case LinkPiece => {th.curr, th.rem}
    case PublishPiece => {th.curr, th.rem}
    case UnlockPiece => {th.curr}
    case ShrinkGlobal => {th.curr}
    case UnlockGlobal => if th.found then {th.curr} else {}
    case _ => {}
  }

  /** The raw rest of a chunk while it is being cut. */
  ghost predicate Cutting(h: Heap, th: Thread) {
    && th.curr == 0 && th.cut in h.blocks && th.cut % 8 == 0
    && th.big <= th.cut && (th.cut - th.big) % (HEADER + BLOCK) == 0 && End(h, th.cut) == th.big + CHUNK
  }

  ghost predicate AtPosition(list: seq<nat>, th: Thread) {
    && th.pos < |list| && th.curr == list[th.pos] && th.prev == if th.pos > 0 then list[th.pos - 1] else 0
  }

  ghost predicate WholeBlock(h: Heap, a: nat) {
    a in h.blocks && Hdr(h.mem, a).length == h.blocks[a].payload
  }

  /** A block that was split but whose header still has the old length. */
  ghost predicate Shrinking(h: Heap, th: Thread) {
    th.curr in h.blocks && h.blocks[th.curr].payload == th.size && Hdr(h.mem, th.curr).length >= th.size
  }

  /** What is known of one thread at each program point: refilling its list (lines 51-82). */
  ghost predicate RefillInv(h: Heap, head: nat, th: Thread) {
    match th.pc
    case TestHead => th.prev == 0 && th.pos == 0 && th.curr == head
    case LockRefill => th.curr == 0
    case Retest => th.curr == 0
    case MapChunk => th.curr == 0
    case Carve => Cutting(h, th)
    case CarveLink =>
      && Cutting(h, th) && th.cut + HEADER + BLOCK <= th.big + CHUNK
      && Hdr(h.mem, th.cut).length == BLOCK && Hdr(h.mem, th.cut).next == head
    case Tail => Cutting(h, th) && th.cut + HEADER + BLOCK > th.big + CHUNK
    case LockTail => Cutting(h, th) && WholeBlock(h, th.cut)
    case LinkTail => Cutting(h, th) && WholeBlock(h, th.cut)
    case PublishTail => Cutting(h, th) && WholeBlock(h, th.cut) && Hdr(h.mem, th.cut).next == h.ghead
    case UnlockTail => th.curr == 0
    case UnlockRefill => th.curr == 0
    case _ => true
  }

  /** ... searching its own list (lines 86-115) ... */
  ghost predicate LocalInv(h: Heap, head: nat, list: seq<nat>, th: Thread) {
    match th.pc
    case LockLocal => th.curr == 0 || (AtPosition(list, th) && th.pos == 0)
    case WalkLocal => th.curr == 0 || AtPosition(list, th)
    case CutLocal => AtPosition(list, th) && th.size <= Hdr(h.mem, th.curr).length
    case SplitLocal => WholeBlock(h, th.curr) && th.size <= h.blocks[th.curr].payload
    case LinkSplit => Shrinking(h, th) && WholeBlock(h, th.rem) && Hdr(h.mem, th.rem).next == head && th.curr != th.rem
    case ShrinkLocal => Shrinking(h, th)
    case UnlockHit => WholeBlock(h, th.curr) && th.size <= h.blocks[th.curr].payload
    case _ => true
  }

  /** ... and searching the global list (lines 118-150). */
  ghost predicate GlobalInv(h: Heap, head: nat, th: Thread) {
    match th.pc
    case WalkGlobal => th.curr == 0 || AtPosition(h.globals, th)
    case CutGlobal => AtPosition(h.globals, th) && th.size <= Hdr(h.mem, th.curr).length
    case SplitGlobal => WholeBlock(h, th.curr) && th.size <= h.blocks[th.curr].payload
    case LockPiece => Shrinking(h, th) && WholeBlock(h, th.rem) && th.curr != th.rem
    case LinkPiece => Shrinking(h, th) && WholeBlock(h, th.rem) && th.curr != th.rem
    case PublishPiece => Shrinking(h, th) && WholeBlock(h, th.rem) && Hdr(h.mem, th.rem).next == head
      && th.curr != th.rem
    case UnlockPiece => Shrinking(h, th)
    case ShrinkGlobal => Shrinking(h, th)
    case UnlockGlobal => th.found ==> WholeBlock(h, th.curr) && th.size <= h.blocks[th.curr].payload
    case _ => true
  }

  ghost predicate ThreadInv(h: Heap, t: nat, th: Thread) {
    && |h.heads| == |h.locals| == SLOTS
    && (th.pc != Idle ==> th.req > 0 && th.size == RoundUp8(th.req))
    && RefillInv(h, h.heads[t % SLOTS], th)
    && LocalInv(h, h.heads[t % SLOTS], h.locals[t % SLOTS], th)
    && GlobalInv(h, h.heads[t % SLOTS], th)
    && HeldExactly(h, t, th)
  }

  /** A held block is held by a live thread. */
  ghost predicate HeldInv(h: Heap, threads: map<nat, Thread>) {
    (forall a :: a in h.blocks && h.blocks[a].place.Held? ==> h.blocks[a].place.tid in threads)
  }

  ghost predicate HeldExactly(h: Heap, t: nat, th: Thread) {
    && (forall a :: a in h.blocks && h.blocks[a].place == Held(t) ==> a in HeldBlocks(th))
    && (forall a :: a in HeldBlocks(th) ==> a in h.blocks && h.blocks[a].place == Held(t))
  }

  ghost predicate Inv(s: State) {
    && WellShaped(s) && HeapInv(s.heap) && LocksInv(s) && HeldInv(s.heap, s.threads)
    && forall t :: t in s.threads ==> ThreadInv(s.heap, t, s.threads[t])
  }

  // ----- runs -----

  ghost predicate Next(s: State, a: Action, s': State) {
    && WellShaped(s) && Enabled(s, a)
    && (a.Run? ==> CanRun(s, a.tid, s.threads[a.tid]))
    && s' == Apply(s, a)
  }

  /** A finite run from the empty heap: states[i + 1] is what actions[i] makes of states[i]. */
  ghost predicate IsRun(states: seq<State>, actions: seq<Action>) {
    && |states| == |actions| + 1 && states[0] == Init()
    && forall i {:trigger actions[i]} :: 0 <= i < |actions| ==> Next(states[i], actions[i], states[i + 1])
  }
}
