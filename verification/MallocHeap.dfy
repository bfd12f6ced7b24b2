/**
 The memory that mymalloc manages: block headers inside the mapped regions, 64 local free
 lists and one global free list. The fields `blocks`, `locals`, `globals`, `regions` and
 `returned` are auxiliary: the program never reads them; they say where each block is.
 */
module MallocHeap {
  import opened MallocSizes

  datatype Header = Header(length: nat, next: nat, owner: nat)

  /** Where a block is: on a free list, handed out, or being worked on by a thread. */
  datatype Place = OnLocal(slot: nat) | OnGlobal | Out | Held(tid: nat)

  /** The extent of the block at some address: its payload, its place and the region it was cut from. */
  datatype Extent = Extent(payload: nat, place: Place, base: nat)

  datatype Grant = Grant(ptr: nat, req: Size)

  datatype Heap = Heap(
    heads: seq<nat>,             // thread_heaps[i].head
    ghead: nat,                  // global_free_list
    mem: map<nat, Header>,       // in-band headers
    blocks: map<nat, Extent>,
    locals: seq<seq<nat>>,
    globals: seq<nat>,
    regions: map<nat, nat>,      // base and length of every vmalloc result
    returned: seq<Grant>)        // what mymalloc has returned so far

  function EmptyHeap(): Heap {
    Heap(seq(SLOTS, _ => 0), 0, map[], map[], seq(SLOTS, _ => []), [], map[], [])
  }

  /** Pages fresh from mmap read as zero, and free memory is written only through headers. */
  function Hdr(mem: map<nat, Header>, a: nat): Header {
    if a in mem then mem[a] else Header(0, 0, 0)
  }

  // ----- the invariant -----

  ghost predicate Distinct(list: seq<nat>) {
    forall i, j :: 0 <= i < j < |list| ==> list[i] != list[j]
  }

  /** What the `next` field of position i must be. */
  function After(list: seq<nat>, i: nat): nat {
    if i + 1 < |list| then list[i + 1] else 0
  }

  /** Following `next` from `head` visits exactly `list` and then stops. */
  ghost predicate Chain(mem: map<nat, Header>, head: nat, list: seq<nat>) {
    && head == (if list == [] then 0 else list[0])
    && forall i {:trigger list[i]} :: 0 <= i < |list| ==> Hdr(mem, list[i]).next == After(list, i)
  }

  /** `list` is the free list hanging off `head`, and it holds exactly the blocks at `place`. */
  ghost predicate ListInv(h: Heap, head: nat, list: seq<nat>, place: Place) {
    && Chain(h.mem, head, list)
    && Distinct(list)
    && (forall a :: a in list <==> a in h.blocks && h.blocks[a].place == place)
    && (forall a :: a in list ==> Hdr(h.mem, a).length == h.blocks[a].payload)
  }

  function End(h: Heap, a: nat): nat
    requires a in h.blocks
  {
    a + HEADER + h.blocks[a].payload
  }

  /** A block is aligned, lies in its region and, once handed out, has the header that says its length. */
  ghost predicate BlockOk(h: Heap, a: nat)
    requires a in h.blocks
  {
    var e := h.blocks[a];
    && a > 0 && a % 8 == 0 && e.payload % 8 == 0
    && e.base in h.regions && e.base <= a
    && End(h, a) <= e.base + h.regions[e.base]
    && (e.place == Out ==> Hdr(h.mem, a).length == e.payload)
    && (e.place.OnLocal? ==> e.place.slot < SLOTS)
  }

  /** A block is followed in its region by another block or by the region's end. */
  ghost predicate Tiled(h: Heap, a: nat)
    requires a in h.blocks && h.blocks[a].base in h.regions
  {
    var base := h.blocks[a].base;
    || End(h, a) == base + h.regions[base]
    || (End(h, a) in h.blocks && h.blocks[End(h, a)].base == base)
  }

  ghost predicate Apart(h: Heap, a: nat, b: nat)
    requires a in h.blocks && b in h.blocks
  {
    End(h, a) <= b || End(h, b) <= a
  }

  ghost predicate RegionOk(h: Heap, r: nat)
    requires r in h.regions
  {
    && r > 0 && r % PAGE == 0 && h.regions[r] > 0 && h.regions[r] % PAGE == 0 && r + h.regions[r] <= ADDRESS_LIMIT
    && r in h.blocks && h.blocks[r].base == r
  }

  ghost predicate BlocksInv(h: Heap) {
    && (forall a {:trigger BlockOk(h, a)} :: a in h.blocks ==> BlockOk(h, a))
    && (forall a {:trigger Tiled(h, a)} :: a in h.blocks ==> h.blocks[a].base in h.regions && Tiled(h, a))
    && (forall a, b {:trigger Apart(h, a, b)} :: a in h.blocks && b in h.blocks && a != b ==> Apart(h, a, b))
    && (forall r {:trigger RegionOk(h, r)} :: r in h.regions ==> RegionOk(h, r))
    && (forall q, r :: q in h.regions && r in h.regions && q < r ==> q + h.regions[q] <= r)
  }

  /** Every grant is the payload of its own handed-out block, which is large enough when the size did not wrap. */
  ghost predicate GrantsInv(h: Heap) {
    && (forall i :: 0 <= i < |h.returned| ==>
          && h.returned[i].ptr >= HEADER
          && var a: nat := h.returned[i].ptr - HEADER;
             && a in h.blocks && h.blocks[a].place == Out
             && (Covers(h.returned[i].req) ==> h.returned[i].req <= h.blocks[a].payload))
    && (forall i, j :: 0 <= i < j < |h.returned| ==> h.returned[i].ptr != h.returned[j].ptr)
  }

  ghost predicate ListsInv(h: Heap) {
    && |h.heads| == SLOTS && |h.locals| == SLOTS
    && (forall i :: 0 <= i < SLOTS ==> ListInv(h, h.heads[i], h.locals[i], OnLocal(i)))
    && ListInv(h, h.ghead, h.globals, OnGlobal)
  }

  ghost predicate HeapInv(h: Heap) {
    ListsInv(h) && BlocksInv(h) && GrantsInv(h)
  }

  /** What thread `t` relies on: its slot's list, the blocks it holds and, if `g`, the global list. */
  ghost predicate Untouched(h: Heap, k: Heap, t: nat, g: bool) {
    && |h.heads| == |k.heads| == |h.locals| == |k.locals| == SLOTS
    && k.heads[t % SLOTS] == h.heads[t % SLOTS] && k.locals[t % SLOTS] == h.locals[t % SLOTS]
    && (g ==> k.ghead == h.ghead && k.globals == h.globals)
    && (forall a :: a in h.blocks && Watches(h.blocks[a].place, t, g) ==>
          a in k.blocks && k.blocks[a] == h.blocks[a] && Hdr(k.mem, a) == Hdr(h.mem, a))
    && (forall a :: a in k.blocks && k.blocks[a].place == Held(t) ==> a in h.blocks && h.blocks[a].place == Held(t))
  }

  predicate Watches(p: Place, t: nat, g: bool) {
    p == Held(t) || p == OnLocal(t % SLOTS) || (g && p == OnGlobal)
  }

  /** Handed-out blocks are never taken back, moved or resized. */
  ghost predicate Monotone(h: Heap, k: Heap) {
    && (forall a :: a in h.blocks && h.blocks[a].place == Out ==> a in k.blocks && k.blocks[a] == h.blocks[a])
    && h.returned <= k.returned
    && (forall r :: r in h.regions ==> r in k.regions && k.regions[r] == h.regions[r])
  }

  // ----- the steps the program takes on memory -----

  /** Store a header. */
  function Write(h: Heap, a: nat, hdr: Header): Heap {
    h.(mem := h.mem[a := hdr])
  }

  function Move(h: Heap, a: nat, place: Place): Heap
    requires a in h.blocks
  {
    h.(blocks := h.blocks[a := h.blocks[a].(place := place)])
  }

  /** `heap->head = a` where a->next already is the old head. */
  function PushLocal(h: Heap, slot: nat, a: nat): Heap
    requires slot < |h.heads| == |h.locals| && a in h.blocks
  {
    Move(h, a, OnLocal(slot)).(heads := h.heads[slot := a], locals := h.locals[slot := [a] + h.locals[slot]])
  }

  /** `global_free_list = a` where a->next already is the old head. */
  function PushGlobal(h: Heap, a: nat): Heap
    requires a in h.blocks
  {
    Move(h, a, OnGlobal).(ghead := a, globals := [a] + h.globals)
  }

  /** Drop position k. */
  function Without(list: seq<nat>, k: nat): (rest: seq<nat>)
    requires k < |list|
    ensures |rest| == |list| - 1
    ensures forall i {:trigger rest[i]} :: 0 <= i < |rest| ==> rest[i] == if i < k then list[i] else list[i + 1]
  {
    list[..k] + list[k + 1..]
  }

  /** `if (prev) prev->next = curr->next; else heap->head = curr->next;` */
  function UnlinkLocal(h: Heap, slot: nat, k: nat, prev: nat, curr: nat, t: nat): Heap
    requires slot < |h.heads| == |h.locals| && k < |h.locals[slot]| && curr in h.blocks
  {
    var next := Hdr(h.mem, curr).next;
    var cut := h.(locals := h.locals[slot := Without(h.locals[slot], k)],
                  blocks := h.blocks[curr := h.blocks[curr].(place := Held(t))]);
    if prev != 0 then Write(cut, prev, Hdr(h.mem, prev).(next := next))
    else cut.(heads := h.heads[slot := next])
  }

  /** `if (prev) prev->next = curr->next; else global_free_list = curr->next;` */
  function UnlinkGlobal(h: Heap, k: nat, prev: nat, curr: nat, t: nat): Heap
    requires k < |h.globals| && curr in h.blocks
  {
    var next := Hdr(h.mem, curr).next;
    var cut := h.(globals := Without(h.globals, k), blocks := h.blocks[curr := h.blocks[curr].(place := Held(t))]);
    if prev != 0 then Write(cut, prev, Hdr(h.mem, prev).(next := next)) else cut.(ghead := next)
  }

  /** From now on the block at a ends at rem, and rem starts a block of its own. */
  function Split(h: Heap, a: nat, rem: nat, t: nat): Heap
    requires a in h.blocks && a + HEADER <= rem && rem + HEADER <= End(h, a)
  {
    var e := h.blocks[a];
    h.(blocks := h.blocks[a := e.(payload := rem - a - HEADER)]
                         [rem := Extent(End(h, a) - rem - HEADER, Held(t), e.base)])
  }

  /** A region fresh from vmalloc, as one block that is not yet on any list. */
  function AddRegion(h: Heap, base: nat, len: nat, t: nat): Heap
    requires len >= HEADER
  {
    h.(regions := h.regions[base := len], blocks := h.blocks[base := Extent(len - HEADER, Held(t), base)])
  }

  /** Return the payload of the block at a to the caller. */
  function Hand(h: Heap, a: nat, req: Size): Heap
    requires a in h.blocks
  {
    Move(h, a, Out).(returned := h.returned + [Grant(a + HEADER, req)])
  }

  /** What vmalloc promises about a region it returns. */
  ghost predicate Fresh(h: Heap, base: nat, len: nat) {
    && base > 0 && base % PAGE == 0 && len > 0 && len % PAGE == 0 && base + len <= ADDRESS_LIMIT
    && forall r :: r in h.regions ==> base + len <= r || r + h.regions[r] <= base
  }

  // ----- each step keeps the invariant and everything other threads rely on -----

  /** The frame of thread t's steps: threads with other slots see no difference. */
  ghost predicate Framed(h: Heap, k: Heap, t: nat, touchesGlobal: bool) {
    && (forall u: nat, g: bool :: u != t && u % SLOTS != t % SLOTS && !(touchesGlobal && g) ==> Untouched(h, k, u, g))
    && (forall a :: a in k.blocks && k.blocks[a].place.Held? && k.blocks[a].place.tid != t ==>
          a in h.blocks && h.blocks[a].place == k.blocks[a].place)
  }

  ghost predicate StepOk(h: Heap, k: Heap, t: nat, touchesGlobal: bool) {
    && HeapInv(k)
    && Framed(h, k, t, touchesGlobal)
    && Monotone(h, k)
  }

  predicate Touches(p: Place, t: nat, l: bool, g: bool) {
    p == Held(t) || (l && p == OnLocal(t % SLOTS)) || (g && p == OnGlobal)
  }

  /** A step of thread t touches only blocks it holds and, if l or g say so, its slot's list or the global list. */
  ghost predicate Confined(h: Heap, k: Heap, t: nat, l: bool, g: bool) {
    && |h.heads| == |k.heads| == |h.locals| == |k.locals| == SLOTS
    && (forall i :: 0 <= i < SLOTS && (!l || i != t % SLOTS) ==> k.heads[i] == h.heads[i] && k.locals[i] == h.locals[i])
    && (!g ==> k.ghead == h.ghead && k.globals == h.globals)
    && (forall a :: a in h.blocks && !Touches(h.blocks[a].place, t, l, g) ==>
          a in k.blocks && k.blocks[a] == h.blocks[a] && Hdr(k.mem, a) == Hdr(h.mem, a))
    && (forall a :: a in k.blocks && !Touches(k.blocks[a].place, t, l, g) && k.blocks[a].place != Out ==>
          a in h.blocks && h.blocks[a].place == k.blocks[a].place)
  }

  /** The blocks at `place` are the same in both heaps, with the same extents and headers. */
  ghost predicate SameAt(h: Heap, k: Heap, place: Place) {
    && (forall a :: a in h.blocks && h.blocks[a].place == place ==>
          a in k.blocks && k.blocks[a] == h.blocks[a] && Hdr(k.mem, a) == Hdr(h.mem, a))
    && (forall a :: a in k.blocks && k.blocks[a].place == place ==> a in h.blocks && h.blocks[a].place == place)
  }

  lemma ListKept(h: Heap, k: Heap, head: nat, list: seq<nat>, place: Place)
    requires ListInv(h, head, list, place) && SameAt(h, k, place)
    ensures ListInv(k, head, list, place)
  {
  }

  lemma ConfinedFrame(h: Heap, k: Heap, t: nat, l: bool, g: bool)
    requires Confined(h, k, t, l, g)
    ensures Framed(h, k, t, g)
  {
    forall u: nat, g': bool | u != t && u % SLOTS != t % SLOTS && !(g && g') ensures Untouched(h, k, u, g') {
    }
  }

  /** A confined step leaves only the lists it touched to be looked at. */
  lemma ConfinedLists(h: Heap, k: Heap, t: nat, l: bool, g: bool)
    requires ListsInv(h) && Confined(h, k, t, l, g)
    requires l ==> ListInv(k, k.heads[t % SLOTS], k.locals[t % SLOTS], OnLocal(t % SLOTS))
    requires g ==> ListInv(k, k.ghead, k.globals, OnGlobal)
    ensures ListsInv(k)
  {
    forall i | 0 <= i < SLOTS ensures ListInv(k, k.heads[i], k.locals[i], OnLocal(i)) {
      if !l || i != t % SLOTS {
        assert ListInv(h, h.heads[i], h.locals[i], OnLocal(i));
        ListKept(h, k, h.heads[i], h.locals[i], OnLocal(i));
      }
    }
    if !g {
      ListKept(h, k, h.ghead, h.globals, OnGlobal);
    }
  }

  /** Steps that move blocks between places but cut nothing. */
  lemma BlocksKept(h: Heap, k: Heap)
    requires BlocksInv(h) && k.regions == h.regions && k.blocks.Keys == h.blocks.Keys
    requires forall a :: a in h.blocks ==>
      && k.blocks[a].payload == h.blocks[a].payload && k.blocks[a].base == h.blocks[a].base
      && (k.blocks[a].place == Out ==> Hdr(k.mem, a).length == k.blocks[a].payload)
      && (k.blocks[a].place.OnLocal? ==> k.blocks[a].place.slot < SLOTS)
    ensures BlocksInv(k)
  {
    forall a | a in k.blocks ensures BlockOk(k, a) && Tiled(k, a) {
      assert BlockOk(h, a) && Tiled(h, a) && End(k, a) == End(h, a);
    }
    forall a, b | a in k.blocks && b in k.blocks && a != b ensures Apart(k, a, b) {
      assert Apart(h, a, b);
    }
    forall r | r in k.regions ensures RegionOk(k, r) {
      assert RegionOk(h, r);
    }
  }

  lemma GrantsKept(h: Heap, k: Heap)
    requires GrantsInv(h) && Monotone(h, k) && k.returned == h.returned
    ensures GrantsInv(k)
  {
  }

  lemma MonotoneStep(h: Heap, k: Heap, t: nat, l: bool, g: bool)
    requires Confined(h, k, t, l, g) && h.returned <= k.returned
    requires forall r :: r in h.regions ==> r in k.regions && k.regions[r] == h.regions[r]
    ensures Monotone(h, k)
  {
  }

  /** Taking the block at `a` from one place to another changes neither extents nor regions. */
  lemma MovedBlocks(h: Heap, k: Heap, a: nat, from: Place, to: Place)
    requires BlocksInv(h) && a in h.blocks && h.blocks[a].place == from && from != Out
    requires k.regions == h.regions && k.blocks == h.blocks[a := h.blocks[a].(place := to)]
    requires to.OnLocal? ==> to.slot < SLOTS
    requires to == Out ==> Hdr(k.mem, a).length == h.blocks[a].payload
    requires forall b :: b in h.blocks && h.blocks[b].place == Out ==> Hdr(k.mem, b) == Hdr(h.mem, b)
    ensures BlocksInv(k)
  {
    forall b | b in h.blocks
      ensures h.blocks[b].place == Out ==> Hdr(h.mem, b).length == h.blocks[b].payload
      ensures h.blocks[b].place.OnLocal? ==> h.blocks[b].place.slot < SLOTS
    {
      assert BlockOk(h, b);
    }
    BlocksKept(h, k);
  }

  /** Putting a block in front of a list. */
  lemma Pushed(h: Heap, k: Heap, head: nat, list: seq<nat>, place: Place, a: nat)
    requires ListInv(h, head, list, place)
    requires a in h.blocks && h.blocks[a].place != place && a > 0
    requires k.mem == h.mem && k.blocks == h.blocks[a := h.blocks[a].(place := place)]
    requires Hdr(h.mem, a).length == h.blocks[a].payload && Hdr(h.mem, a).next == head
    ensures ListInv(k, a, [a] + list, place)
  {
    var all := [a] + list;
    forall b | b in k.blocks && k.blocks[b].place == place ensures b in all {
      if b != a {
        assert b in list;
        var i :| 0 <= i < |list| && list[i] == b;
        assert all[i + 1] == b;
      }
    }
    assert a !in list;
  }

  lemma WriteOk(h: Heap, a: nat, hdr: Header, t: nat)
    requires HeapInv(h) && a in h.blocks && h.blocks[a].place == Held(t)
    ensures StepOk(h, Write(h, a, hdr), t, false)
  {
    var k := Write(h, a, hdr);
    ConfinedFrame(h, k, t, false, false);
    ConfinedLists(h, k, t, false, false);
    MonotoneStep(h, k, t, false, false);
    GrantsKept(h, k);
    forall b | b in h.blocks
      ensures h.blocks[b].place == Out ==> Hdr(k.mem, b).length == k.blocks[b].payload
      ensures h.blocks[b].place.OnLocal? ==> h.blocks[b].place.slot < SLOTS
    {
      assert BlockOk(h, b);
    }
    BlocksKept(h, k);
  }

  lemma PushLocalOk(h: Heap, a: nat, t: nat)
    requires HeapInv(h) && a in h.blocks && h.blocks[a].place == Held(t)
    requires Hdr(h.mem, a).length == h.blocks[a].payload && Hdr(h.mem, a).next == h.heads[t % SLOTS]
    ensures StepOk(h, PushLocal(h, t % SLOTS, a), t, false)
  {
    var s := t % SLOTS;
    var k := PushLocal(h, s, a);
    assert a > 0 by { assert BlockOk(h, a); }
    ConfinedFrame(h, k, t, true, false);
    Pushed(h, k, h.heads[s], h.locals[s], OnLocal(s), a);
    ConfinedLists(h, k, t, true, false);
    MonotoneStep(h, k, t, true, false);
    GrantsKept(h, k);
    MovedBlocks(h, k, a, Held(t), OnLocal(s));
  }

  lemma PushGlobalOk(h: Heap, a: nat, t: nat)
    requires HeapInv(h) && a in h.blocks && h.blocks[a].place == Held(t)
    requires Hdr(h.mem, a).length == h.blocks[a].payload && Hdr(h.mem, a).next == h.ghead
    ensures StepOk(h, PushGlobal(h, a), t, true)
  {
    var k := PushGlobal(h, a);
    assert a > 0 by { assert BlockOk(h, a); }
    ConfinedFrame(h, k, t, false, true);
    Pushed(h, k, h.ghead, h.globals, OnGlobal, a);
    ConfinedLists(h, k, t, false, true);
    MonotoneStep(h, k, t, false, true);
    GrantsKept(h, k);
    MovedBlocks(h, k, a, Held(t), OnGlobal);
  }

  lemma UnlinkedChain(mem: map<nat, Header>, head: nat, list: seq<nat>, n: nat)
    requires Chain(mem, head, list) && Distinct(list) && n < |list|
    ensures var next := Hdr(mem, list[n]).next;
            var rest := Without(list, n);
            && Distinct(rest)
            && if n > 0 then Chain(mem[list[n - 1] := Hdr(mem, list[n - 1]).(next := next)], head, rest)
               else Chain(mem, next, rest)
  {
    var rest := Without(list, n);
    var next := Hdr(mem, list[n]).next;
    assert next == After(list, n);
    if n > 0 {
      var mem' := mem[list[n - 1] := Hdr(mem, list[n - 1]).(next := next)];
      forall i | 0 <= i < |rest| ensures Hdr(mem', rest[i]).next == After(rest, i) {
        var j := if i < n then i else i + 1;
        assert rest[i] == list[j] && Hdr(mem, list[j]).next == After(list, j);
        if j != n - 1 {
          assert list[j] != list[n - 1];
        }
      }
    }
  }

  lemma WithoutMembers(list: seq<nat>, n: nat)
    requires Distinct(list) && n < |list|
    ensures forall a :: a in Without(list, n) <==> a in list && a != list[n]
  {
    var rest := Without(list, n);
    forall a | a in rest ensures a in list && a != list[n] {
      var i :| 0 <= i < |rest| && rest[i] == a;
      assert a == list[if i < n then i else i + 1];
    }
    forall a | a in list && a != list[n] ensures a in rest {
      var i :| 0 <= i < |list| && list[i] == a;
      assert rest[if i < n then i else i - 1] == a;
    }
  }

  /** Unlinking position n of a list: the list `without` n hangs off the new head. */
  lemma Unlinked(h: Heap, k: Heap, head: nat, list: seq<nat>, place: Place, n: nat, prev: nat, t: nat)
    requires ListInv(h, head, list, place) && place != Held(t) && n < |list|
    requires prev == if n > 0 then list[n - 1] else 0
    requires k.blocks == h.blocks[list[n] := h.blocks[list[n]].(place := Held(t))]
    requires k.mem == if n > 0 then h.mem[prev := Hdr(h.mem, prev).(next := Hdr(h.mem, list[n]).next)] else h.mem
    ensures ListInv(k, if n > 0 then head else Hdr(h.mem, list[n]).next, Without(list, n), place)
  {
    UnlinkedChain(h.mem, head, list, n);
    WithoutMembers(list, n);
  }

  lemma PositiveList(h: Heap, head: nat, list: seq<nat>, place: Place)
    requires ListInv(h, head, list, place) && BlocksInv(h)
    ensures forall i :: 0 <= i < |list| ==> list[i] > 0
  {
    forall i | 0 <= i < |list| ensures list[i] > 0 {
      assert BlockOk(h, list[i]);
    }
  }

  lemma UnlinkLocalConfined(h: Heap, n: nat, prev: nat, curr: nat, t: nat)
    requires |h.heads| == |h.locals| == SLOTS && n < |h.locals[t % SLOTS]|
    requires curr in h.blocks && h.blocks[curr].place == OnLocal(t % SLOTS)
    requires prev != 0 ==> prev in h.blocks && h.blocks[prev].place == OnLocal(t % SLOTS)
    ensures Confined(h, UnlinkLocal(h, t % SLOTS, n, prev, curr, t), t, true, false)
  {
  }

  lemma UnlinkLocalLists(h: Heap, n: nat, prev: nat, curr: nat, t: nat)
    requires ListsInv(h) && BlocksInv(h) && n < |h.locals[t % SLOTS]| && curr == h.locals[t % SLOTS][n]
    requires prev == if n > 0 then h.locals[t % SLOTS][n - 1] else 0
    ensures curr in h.blocks && h.blocks[curr].place == OnLocal(t % SLOTS)
    ensures n > 0 ==> prev > 0 && prev in h.blocks && h.blocks[prev].place == OnLocal(t % SLOTS)
    ensures var k := UnlinkLocal(h, t % SLOTS, n, prev, curr, t); Confined(h, k, t, true, false) && ListsInv(k)
  {
    var s := t % SLOTS;
    var list := h.locals[s];
    assert ListInv(h, h.heads[s], list, OnLocal(s)) && list[n] in list && (n > 0 ==> list[n - 1] in list);
    PositiveList(h, h.heads[s], list, OnLocal(s));
    UnlinkLocalConfined(h, n, prev, curr, t);
    Unlinked(h, UnlinkLocal(h, s, n, prev, curr, t), h.heads[s], list, OnLocal(s), n, prev, t);
    ConfinedLists(h, UnlinkLocal(h, s, n, prev, curr, t), t, true, false);
  }

  lemma UnlinkLocalOk(h: Heap, n: nat, prev: nat, curr: nat, t: nat)
    requires HeapInv(h) && n < |h.locals[t % SLOTS]| && curr == h.locals[t % SLOTS][n]
    requires prev == if n > 0 then h.locals[t % SLOTS][n - 1] else 0
    ensures curr in h.blocks && StepOk(h, UnlinkLocal(h, t % SLOTS, n, prev, curr, t), t, false)
  {
    hide ListInv;
    UnlinkLocalLists(h, n, prev, curr, t);
    var k := UnlinkLocal(h, t % SLOTS, n, prev, curr, t);
    ConfinedFrame(h, k, t, true, false);
    MonotoneStep(h, k, t, true, false);
    GrantsKept(h, k);
    MovedBlocks(h, k, curr, OnLocal(t % SLOTS), Held(t));
  }

  lemma UnlinkGlobalConfined(h: Heap, n: nat, prev: nat, curr: nat, t: nat)
    requires |h.heads| == |h.locals| == SLOTS && n < |h.globals|
    requires curr in h.blocks && h.blocks[curr].place == OnGlobal
    requires prev != 0 ==> prev in h.blocks && h.blocks[prev].place == OnGlobal
    ensures Confined(h, UnlinkGlobal(h, n, prev, curr, t), t, false, true)
  {
  }

  lemma UnlinkGlobalList(h: Heap, n: nat, prev: nat, curr: nat, t: nat)
    requires ListInv(h, h.ghead, h.globals, OnGlobal) && n < |h.globals| && curr == h.globals[n]
    requires forall i :: 0 <= i < |h.globals| ==> h.globals[i] > 0
    requires prev == if n > 0 then h.globals[n - 1] else 0
    ensures var k := UnlinkGlobal(h, n, prev, curr, t); ListInv(k, k.ghead, k.globals, OnGlobal)
  {
    Unlinked(h, UnlinkGlobal(h, n, prev, curr, t), h.ghead, h.globals, OnGlobal, n, prev, t);
  }

  lemma UnlinkGlobalLists(h: Heap, n: nat, prev: nat, curr: nat, t: nat)
    requires ListsInv(h) && BlocksInv(h) && n < |h.globals| && curr == h.globals[n]
    requires prev == if n > 0 then h.globals[n - 1] else 0
    ensures var k := UnlinkGlobal(h, n, prev, curr, t);
            h.blocks[curr].place == OnGlobal && Confined(h, k, t, false, true) && ListsInv(k)
  {
    var k := UnlinkGlobal(h, n, prev, curr, t);
    PositiveList(h, h.ghead, h.globals, OnGlobal);
    UnlinkGlobalConfined(h, n, prev, curr, t);
    UnlinkGlobalList(h, n, prev, curr, t);
    ConfinedLists(h, k, t, false, true);
  }

  lemma UnlinkGlobalOk(h: Heap, n: nat, prev: nat, curr: nat, t: nat)
    requires HeapInv(h) && n < |h.globals| && curr == h.globals[n]
    requires prev == if n > 0 then h.globals[n - 1] else 0
    ensures StepOk(h, UnlinkGlobal(h, n, prev, curr, t), t, true)
  {
    var k := UnlinkGlobal(h, n, prev, curr, t);
    assert n > 0 ==> prev in h.globals && prev in h.blocks && h.blocks[prev].place == OnGlobal;
    hide ListInv;
    UnlinkGlobalLists(h, n, prev, curr, t);
    ConfinedFrame(h, k, t, false, true);
    MonotoneStep(h, k, t, false, true);
    GrantsKept(h, k);
    MovedBlocks(h, k, curr, OnGlobal, Held(t));
  }

  lemma SplitApart(h: Heap, a: nat, rem: nat, t: nat)
    requires BlocksInv(h) && a in h.blocks
    requires a + HEADER <= rem && rem + HEADER <= End(h, a)
    ensures rem !in h.blocks
    ensures var k := Split(h, a, rem, t);
            forall b, c :: b in k.blocks && c in k.blocks && b != c ==> Apart(k, b, c)
  {
    var k := Split(h, a, rem, t);
    assert rem in h.blocks ==> Apart(h, a, rem);
    assert End(k, a) == rem && End(k, rem) == End(h, a);
    forall b, c | b in k.blocks && c in k.blocks && b != c ensures Apart(k, b, c) {
      var b0 := if b == rem then a else b;
      var c0 := if c == rem then a else c;
      assert b0 != c0 ==> Apart(h, b0, c0);
    }
  }

  lemma BlockFacts(h: Heap, a: nat)
    requires BlocksInv(h) && a in h.blocks
    ensures BlockOk(h, a) && h.blocks[a].base in h.regions && Tiled(h, a)
  {
    assert BlockOk(h, a);
    assert Tiled(h, a);
  }

  lemma SplitBlockOk(h: Heap, a: nat, rem: nat, t: nat, b: nat)
    requires a in h.blocks && BlockOk(h, a) && h.blocks[a].place == Held(t)
    requires a + HEADER <= rem && rem + HEADER <= End(h, a) && rem % 8 == 0
    requires b in h.blocks ==> BlockOk(h, b)
    requires b in h.blocks || b == rem
    ensures BlockOk(Split(h, a, rem, t), b)
  {
  }

  lemma SplitTiled(h: Heap, a: nat, rem: nat, t: nat, b: nat)
    requires a in h.blocks && h.blocks[a].base in h.regions && Tiled(h, a)
    requires a + HEADER <= rem && rem + HEADER <= End(h, a) && rem !in h.blocks
    requires b in h.blocks ==> h.blocks[b].base in h.regions && Tiled(h, b)
    requires b in h.blocks || b == rem
    ensures var k := Split(h, a, rem, t); k.blocks[b].base in k.regions && Tiled(k, b)
  {
    var k := Split(h, a, rem, t);
    assert End(k, a) == rem && End(k, rem) == End(h, a);
    assert b != a && b != rem ==> End(k, b) == End(h, b);
  }

  lemma SplitBlocks(h: Heap, a: nat, rem: nat, t: nat)
    requires BlocksInv(h) && a in h.blocks && h.blocks[a].place == Held(t)
    requires a + HEADER <= rem && rem + HEADER <= End(h, a) && rem % 8 == 0
    ensures rem !in h.blocks && BlocksInv(Split(h, a, rem, t))
  {
    hide BlockOk, Tiled, Apart, RegionOk;
    var k := Split(h, a, rem, t);
    SplitApart(h, a, rem, t);
    forall b | b in k.blocks ensures BlockOk(k, b) && k.blocks[b].base in k.regions && Tiled(k, b) {
      BlockFacts(h, a);
      if b != rem {
        BlockFacts(h, b);
      }
      SplitBlockOk(h, a, rem, t, b);
      SplitTiled(h, a, rem, t, b);
    }
    forall r | r in k.regions ensures RegionOk(k, r) {
      assert RegionOk(h, r);
      SplitRegion(h, a, rem, t, r);
    }
  }

  lemma SplitRegion(h: Heap, a: nat, rem: nat, t: nat, r: nat)
    requires a in h.blocks && a + HEADER <= rem && rem + HEADER <= End(h, a) && rem !in h.blocks
    requires r in h.regions && RegionOk(h, r)
    ensures RegionOk(Split(h, a, rem, t), r)
  {
  }

  lemma SplitOk(h: Heap, a: nat, rem: nat, t: nat)
    requires HeapInv(h) && a in h.blocks && h.blocks[a].place == Held(t)
    requires a + HEADER <= rem && rem + HEADER <= End(h, a) && rem % 8 == 0
    ensures rem !in h.blocks && StepOk(h, Split(h, a, rem, t), t, false)
  {
    var k := Split(h, a, rem, t);
    SplitBlocks(h, a, rem, t);
    ConfinedFrame(h, k, t, false, false);
    ConfinedLists(h, k, t, false, false);
    MonotoneStep(h, k, t, false, false);
    GrantsKept(h, k);
  }

  lemma PageMultiple(n: nat)
    requires n % PAGE == 0
    ensures n % 8 == 0 && (n >= HEADER ==> (n - HEADER) % 8 == 0)
  {
    assert n == 8 * (512 * (n / PAGE));
  }

  lemma AddRegionApart(h: Heap, base: nat, len: nat, t: nat)
    requires BlocksInv(h) && Fresh(h, base, len)
    ensures base !in h.blocks && base !in h.regions
    ensures var k := AddRegion(h, base, len, t);
            forall b, c :: b in k.blocks && c in k.blocks && b != c ==> Apart(k, b, c)
  {
    var k := AddRegion(h, base, len, t);
    assert base in h.regions ==> RegionOk(h, base);
    forall b | b in h.blocks ensures End(h, b) <= base || base + len <= b {
      assert BlockOk(h, b);
    }
    forall b, c | b in k.blocks && c in k.blocks && b != c ensures Apart(k, b, c) {
      assert b != base && c != base ==> Apart(h, b, c);
    }
  }

  lemma AddRegionBlockOk(h: Heap, base: nat, len: nat, t: nat, b: nat)
    requires base !in h.blocks && base !in h.regions && len >= HEADER
    requires if b == base then base > 0 && base % 8 == 0 && (len - HEADER) % 8 == 0 else b in h.blocks && BlockOk(h, b)
    ensures BlockOk(AddRegion(h, base, len, t), b)
  {
  }

  lemma AddRegionTiled(h: Heap, base: nat, len: nat, t: nat, b: nat)
    requires base !in h.blocks && base !in h.regions && len >= HEADER
    requires b != base ==> b in h.blocks && h.blocks[b].base in h.regions && Tiled(h, b)
    ensures var k := AddRegion(h, base, len, t); k.blocks[b].base in k.regions && Tiled(k, b)
  {
    assert b != base ==> End(AddRegion(h, base, len, t), b) == End(h, b);
  }

  lemma AddRegionRegion(h: Heap, base: nat, len: nat, t: nat, r: nat)
    requires base !in h.blocks && base !in h.regions && Fresh(h, base, len) && len >= HEADER
    requires r != base ==> r in h.regions && RegionOk(h, r)
    ensures RegionOk(AddRegion(h, base, len, t), r)
  {
  }

  lemma AddRegionBlocks(h: Heap, base: nat, len: nat, t: nat)
    requires BlocksInv(h) && Fresh(h, base, len)
    ensures base !in h.blocks && BlocksInv(AddRegion(h, base, len, t))
  {
    hide BlockOk, Tiled, Apart, RegionOk;
    var k := AddRegion(h, base, len, t);
    AddRegionApart(h, base, len, t);
    PageMultiple(base);
    PageMultiple(len);
    forall b | b in k.blocks ensures BlockOk(k, b) && k.blocks[b].base in k.regions && Tiled(k, b) {
      if b != base {
        BlockFacts(h, b);
      }
      AddRegionBlockOk(h, base, len, t, b);
      AddRegionTiled(h, base, len, t, b);
    }
    forall r | r in k.regions ensures RegionOk(k, r) {
      assert r != base ==> RegionOk(h, r);
      AddRegionRegion(h, base, len, t, r);
    }
  }

  lemma AddRegionOk(h: Heap, base: nat, len: nat, t: nat)
    requires HeapInv(h) && Fresh(h, base, len)
    ensures base !in h.blocks && StepOk(h, AddRegion(h, base, len, t), t, false)
  {
    var k := AddRegion(h, base, len, t);
    AddRegionApart(h, base, len, t);
    AddRegionBlocks(h, base, len, t);
    ConfinedFrame(h, k, t, false, false);
    ConfinedLists(h, k, t, false, false);
    MonotoneStep(h, k, t, false, false);
    GrantsKept(h, k);
  }

  lemma HandGrants(h: Heap, a: nat, req: Size)
    requires GrantsInv(h) && a in h.blocks && h.blocks[a].place != Out
    requires Covers(req) ==> req <= h.blocks[a].payload
    ensures GrantsInv(Hand(h, a, req))
  {
    forall i | 0 <= i < |h.returned| ensures h.returned[i].ptr != a + HEADER {
      var b: nat := h.returned[i].ptr - HEADER;
      assert h.blocks[b].place == Out;
    }
  }

  lemma HandOk(h: Heap, a: nat, req: Size, t: nat)
    requires HeapInv(h) && a in h.blocks && h.blocks[a].place == Held(t)
    requires Hdr(h.mem, a).length == h.blocks[a].payload
    requires Covers(req) ==> req <= h.blocks[a].payload
    ensures StepOk(h, Hand(h, a, req), t, false)
  {
    var k := Hand(h, a, req);
    ConfinedFrame(h, k, t, false, false);
    ConfinedLists(h, k, t, false, false);
    MonotoneStep(h, k, t, false, false);
    HandGrants(h, a, req);
    MovedBlocks(h, k, a, Held(t), Out);
  }
}
