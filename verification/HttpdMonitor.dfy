/**
 The admission monitor of the server: the accept loop and its handler threads share `thread_count` under a mutex, and
 the loop waits on a condition variable while four handlers are about. Every step a thread can take between two
 points where another may run is one step here.
 */
module HttpdMonitor {
  const MAX_THREADS: nat := 4

  /** The accept loop, by the line it is about to execute. */
  datatype AcceptPc =
    | Accept        // 81: a client connects, or accept fails
    | Lock          // 90
    | Test          // 91
    | Waiting       // 92: mutex released, not signalled yet
    | Relock        // 92: woken, about to take the mutex again
    | LockSeq       // 95
    | Increment     // 96
    | UnlockSeq     // 97
    | Malloc        // 99
    | Create        // 110
    | Count         // 118
    | Unlock        // 103, 114 or 120

  datatype HandlerPc =
    | Working       // up to 315
    | LockMutex     // 316
    | Decrement     // 317
    | Signal        // 318
    | Release       // 319

  datatype Owner = Nobody | Loop | Handler(id: nat)

  datatype State = State(
    pc: AcceptPc, mutex: Owner, seqMutex: bool, threadCount: int, requestCounter: int,
    number: int,                       // the sequence number of the request in hand
    handlers: map<nat, HandlerPc>,     // threads that have not ended
    started: nat,                      // handlers created so far
    served: seq<int>)                  // the sequence numbers of the handlers, in the order of their creation

  function Init(): State {
    State(Accept, Nobody, false, 0, 0, 0, map[], 0, [])
  }

  /** What the environment decides: whether accept, malloc and pthread_create succeed. */
  datatype Choice = Choice(ok: bool)

  predicate LoopEnabled(s: State) {
    match s.pc
    case Lock => s.mutex == Nobody
    case Relock => s.mutex == Nobody
    case LockSeq => !s.seqMutex
    case Waiting => false
    case _ => true
  }

  function LoopStep(s: State, c: Choice): State
    requires LoopEnabled(s)
  {
    match s.pc
    case Accept => if c.ok then s.(pc := Lock) else s
    case Lock => s.(pc := Test, mutex := Loop)
    case Test => if s.threadCount >= MAX_THREADS then s.(pc := Waiting, mutex := Nobody) else s.(pc := LockSeq)
    case Relock => s.(pc := Test, mutex := Loop)
    case LockSeq => s.(pc := Increment, seqMutex := true)
    case Increment => s.(pc := UnlockSeq, requestCounter := s.requestCounter + 1, number := s.requestCounter + 1)
    case UnlockSeq => s.(pc := Malloc, seqMutex := false)
    case Malloc => s.(pc := if c.ok then Create else Unlock)
    case Create =>
      if c.ok
      then s.(pc := Count, handlers := s.handlers[s.started := Working], started := s.started + 1,
              served := s.served + [s.number])
      else s.(pc := Unlock)
    case Count => s.(pc := Unlock, threadCount := s.threadCount + 1)
    case Unlock => s.(pc := Accept, mutex := Nobody)
    case Waiting => s
  }

  /** A wait may end without a signal. */
  function Wake(s: State): State {
    if s.pc == Waiting then s.(pc := Relock) else s
  }

  predicate HandlerEnabled(s: State, id: nat) {
    id in s.handlers && (s.handlers[id] == LockMutex ==> s.mutex == Nobody)
  }

  function HandlerStep(s: State, id: nat): State
    requires HandlerEnabled(s, id)
  {
    match s.handlers[id]
    case Working => s.(handlers := s.handlers[id := LockMutex])
    case LockMutex => s.(handlers := s.handlers[id := Decrement], mutex := Handler(id))
    case Decrement => s.(handlers := s.handlers[id := Signal], threadCount := s.threadCount - 1)
    case Signal => Wake(s.(handlers := s.handlers[id := Release]))
    case Release => s.(handlers := s.handlers - {id}, mutex := Nobody)
  }

  datatype Action = ByLoop(c: Choice) | ByHandler(id: nat) | Spurious

  predicate Enabled(s: State, a: Action) {
    match a
    case ByLoop(_) => LoopEnabled(s)
    case ByHandler(id) => HandlerEnabled(s, id)
    case Spurious => s.pc == Waiting
  }

  function Next(s: State, a: Action): State
    requires Enabled(s, a)
  {
    match a
    case ByLoop(c) => LoopStep(s, c)
    case ByHandler(id) => HandlerStep(s, id)
    case Spurious => Wake(s)
  }

  /** An interleaving: each state follows from the one before by one step of one thread. */
  ghost predicate IsRun(run: seq<State>, actions: seq<Action>) {
    && |run| == |actions| + 1 && run[0] == Init()
    && forall i :: 0 <= i < |actions| ==> Follows(run, actions, i)
  }

  ghost predicate Follows(run: seq<State>, actions: seq<Action>, i: nat)
    requires |run| == |actions| + 1 && i < |actions|
  {
    Enabled(run[i], actions[i]) && run[i + 1] == Next(run[i], actions[i])
  }

  // ----- what every step keeps -----

  /** Handlers that still count: created, and not past their decrement. */
  function Live(s: State): set<nat> {
    set id | id in s.handlers && s.handlers[id] in {Working, LockMutex, Decrement}
  }

  /** The loop holds the mutex. */
  predicate LoopHolds(s: State) {
    s.pc !in {Accept, Lock, Waiting, Relock}
  }

  predicate HandlerHolds(s: State, id: nat) {
    id in s.handlers && s.handlers[id] in {Decrement, Signal, Release}
  }

  ghost predicate MutexOk(s: State) {
    && (s.mutex == Loop <==> LoopHolds(s))
    && (forall id: nat :: s.mutex == Handler(id) <==> HandlerHolds(s, id))
    && (s.seqMutex <==> s.pc in {Increment, UnlockSeq})
  }

  /** The count is the number of live handlers, less the one just created and not counted yet. */
  ghost predicate CountOk(s: State) {
    && s.threadCount == |Live(s)| - (if s.pc == Count then 1 else 0)
    && 0 <= s.threadCount <= MAX_THREADS
    && (s.pc in {LockSeq, Increment, UnlockSeq, Malloc, Create, Count} ==> s.threadCount < MAX_THREADS)
    && (forall id :: id in s.handlers ==> id < s.started)
  }

  ghost predicate SeqOk(s: State) {
    && |s.served| == s.started
    && (forall i :: 0 <= i < |s.served| ==> 0 < s.served[i] <= s.requestCounter)
    && (forall i, j :: 0 <= i < j < |s.served| ==> s.served[i] < s.served[j])
    && (s.pc in {UnlockSeq, Malloc, Create} ==>
          s.number == s.requestCounter && s.number > 0 && forall i :: 0 <= i < |s.served| ==> s.served[i] < s.number)
  }

  /** A loop that waits unsignalled has four live handlers, or one that is about to signal. */
  ghost predicate NoLostWakeup(s: State) {
    s.pc == Waiting ==> |Live(s)| == MAX_THREADS || exists id :: id in s.handlers && s.handlers[id] == Signal
  }

  ghost predicate Inv(s: State) {
    MutexOk(s) && CountOk(s) && SeqOk(s) && NoLostWakeup(s) && s.requestCounter >= 0
  }

  lemma LiveSame(s: State, t: State)
    requires forall id :: id in t.handlers && t.handlers[id] in {Working, LockMutex, Decrement}
                     <==> id in s.handlers && s.handlers[id] in {Working, LockMutex, Decrement}
    ensures Live(t) == Live(s)
  {
  }

  lemma LoopKeepsMutex(s: State, c: Choice)
    requires MutexOk(s) && LoopEnabled(s) && forall id :: id in s.handlers ==> id < s.started
    ensures MutexOk(LoopStep(s, c))
  {
    var t := LoopStep(s, c);
    forall id: nat ensures t.mutex == Handler(id) <==> HandlerHolds(t, id) {
      assert s.mutex == Handler(id) <==> HandlerHolds(s, id);
    }
  }

  lemma LoopKeepsCount(s: State, c: Choice)
    requires CountOk(s) && NoLostWakeup(s) && LoopEnabled(s)
    ensures CountOk(LoopStep(s, c)) && NoLostWakeup(LoopStep(s, c))
  {
    var t := LoopStep(s, c);
    if s.pc == Create && c.ok {
      assert Live(t) == Live(s) + {s.started};
    } else {
      LiveSame(s, t);
    }
  }

  lemma CreateKeepsSeq(s: State, c: Choice)
    requires SeqOk(s) && s.pc == Create && c.ok
    ensures SeqOk(LoopStep(s, c))
  {
    var t := LoopStep(s, c);
    assert t.served == s.served + [s.number];
    forall i, j | 0 <= i < j < |t.served| ensures t.served[i] < t.served[j] {
    }
  }

  lemma LoopKeepsSeq(s: State, c: Choice)
    requires SeqOk(s) && LoopEnabled(s) && s.requestCounter >= 0
    ensures SeqOk(LoopStep(s, c)) && LoopStep(s, c).requestCounter >= 0
  {
    if s.pc == Create {
      if c.ok {
        CreateKeepsSeq(s, c);
      }
    } else {
      var t := LoopStep(s, c);
      assert t.served == s.served && t.started == s.started && t.requestCounter >= s.requestCounter;
    }
  }

  lemma LoopKeeps(s: State, c: Choice)
    requires Inv(s) && LoopEnabled(s)
    ensures Inv(LoopStep(s, c))
  {
    LoopKeepsMutex(s, c);
    LoopKeepsCount(s, c);
    LoopKeepsSeq(s, c);
    hide MutexOk, NoLostWakeup, SeqOk, LoopStep, LoopEnabled;
  }

  lemma WakeKeeps(s: State)
    requires Inv(s)
    ensures Inv(Wake(s))
  {
    LiveSame(s, Wake(s));
  }

  lemma HandlerKeepsMutex(s: State, id: nat)
    requires MutexOk(s) && HandlerEnabled(s, id)
    ensures MutexOk(HandlerStep(s, id))
  {
    var t := HandlerStep(s, id);
    assert s.mutex == Handler(id) <==> HandlerHolds(s, id);
    forall g: nat ensures t.mutex == Handler(g) <==> HandlerHolds(t, g) {
      assert s.mutex == Handler(g) <==> HandlerHolds(s, g);
    }
  }

  lemma HandlerKeepsCount(s: State, id: nat)
    requires MutexOk(s) && CountOk(s) && HandlerEnabled(s, id)
    ensures CountOk(HandlerStep(s, id))
  {
    var t := HandlerStep(s, id);
    if s.handlers[id] == Decrement {
      assert HandlerHolds(s, id);
      assert Live(t) == Live(s) - {id} && id in Live(s);
    } else {
      LiveSame(s, t);
    }
  }

  lemma HandlerKeepsWakeup(s: State, id: nat)
    requires MutexOk(s) && NoLostWakeup(s) && HandlerEnabled(s, id)
    ensures NoLostWakeup(HandlerStep(s, id))
  {
    hide MutexOk;
    var t := HandlerStep(s, id);
    if t.pc == Waiting {
      if s.handlers[id] == Decrement {
        assert t.handlers[id] == Signal;
      } else {
        LiveSame(s, t);
        if g :| g in s.handlers && s.handlers[g] == Signal {
          StillSignals(s, id, g);
        }
      }
    }
  }

  lemma StillSignals(s: State, id: nat, g: nat)
    requires MutexOk(s) && HandlerEnabled(s, id) && g in s.handlers && s.handlers[g] == Signal
        && HandlerStep(s, id).pc == Waiting
    ensures g in HandlerStep(s, id).handlers && HandlerStep(s, id).handlers[g] == Signal
  {
    assert HandlerHolds(s, g);
  }

  lemma HandlerKeeps(s: State, id: nat)
    requires Inv(s) && HandlerEnabled(s, id)
    ensures Inv(HandlerStep(s, id))
  {
    hide MutexOk, CountOk, NoLostWakeup;
    HandlerKeepsMutex(s, id);
    HandlerKeepsCount(s, id);
    HandlerKeepsWakeup(s, id);
  }

  lemma ActionKeeps(s: State, a: Action)
    requires Inv(s) && Enabled(s, a)
    ensures Inv(Next(s, a))
  {
    match a {
      case ByLoop(c) => LoopKeeps(s, c);
      case ByHandler(id) => HandlerKeeps(s, id);
      case Spurious => WakeKeeps(s);
    }
  }

  lemma InitInv()
    ensures Inv(Init())
  {
    assert Live(Init()) == {};
  }

  /** The invariant holds in every state of every interleaving. */
  lemma {:induction false} RunInv(run: seq<State>, actions: seq<Action>, i: nat)
    requires IsRun(run, actions) && i < |run|
    ensures Inv(run[i])
  {
    hide Inv;
    if i == 0 {
      InitInv();
    } else {
      RunInv(run, actions, i - 1);
      assert Follows(run, actions, i - 1);
      ActionKeeps(run[i - 1], actions[i - 1]);
    }
  }

  // ----- what it means -----

  /** Never more than four handlers that count, and `thread_count` is their number. */
  lemma Bounded(run: seq<State>, actions: seq<Action>, i: nat)
    requires IsRun(run, actions) && i < |run|
    ensures 0 <= run[i].threadCount <= 4 && |Live(run[i])| <= 4
    ensures run[i].threadCount == |Live(run[i])| - (if run[i].pc == Count then 1 else 0)
  {
    RunInv(run, actions, i);
  }

  /** A loop that waits unsignalled has four live handlers, or one that is about to signal. */
  lemma WaitsForReason(run: seq<State>, actions: seq<Action>, i: nat)
    requires IsRun(run, actions) && i < |run| && run[i].pc == Waiting
    ensures |Live(run[i])| == 4 || exists id :: id in run[i].handlers && run[i].handlers[id] == Signal
  {
    hide MutexOk, CountOk, SeqOk, Live;
    RunInv(run, actions, i);
  }

  /** Handlers are numbered in strictly increasing order, although failed attempts use up numbers. */
  lemma NumbersIncrease(run: seq<State>, actions: seq<Action>, i: nat, j: nat, k: nat)
    requires IsRun(run, actions) && i < |run| && j < k < |run[i].served|
    ensures run[i].served[j] < run[i].served[k] <= run[i].requestCounter
  {
    RunInv(run, actions, i);
  }

  /** No two threads are inside the mutex. */
  lemma MutualExclusion(run: seq<State>, actions: seq<Action>, i: nat, g: nat, h: nat)
    requires IsRun(run, actions) && i < |run|
    ensures !(LoopHolds(run[i]) && HandlerHolds(run[i], g))
    ensures HandlerHolds(run[i], g) && HandlerHolds(run[i], h) ==> g == h
  {
    RunInv(run, actions, i);
  }

  lemma NotEmpty(s: State)
    requires Live(s) != {} || exists id :: id in s.handlers && s.handlers[id] == Signal
    ensures exists id: nat :: id in s.handlers
  {
    if Live(s) != {} {
      var id :| id in Live(s);
    }
  }

  /** No wakeup is lost: a loop that waits unsignalled has a handler that can move towards its signal. */
  lemma SomeoneMoves(s: State) returns (id: nat)
    requires Inv(s) && s.pc == Waiting
    ensures HandlerEnabled(s, id)
  {
    if s.mutex == Nobody {
      NotEmpty(s);
      id :| id in s.handlers;
    } else {
      id := s.mutex.id;
    }
  }

  /** No reachable state is stuck. */
  lemma NoDeadlock(run: seq<State>, actions: seq<Action>, i: nat) returns (a: Action)
    requires IsRun(run, actions) && i < |run|
    ensures Enabled(run[i], a) && a != Spurious
  {
    RunInv(run, actions, i);
    var s := run[i];
    if s.pc == Waiting {
      var id := SomeoneMoves(s);
      a := ByHandler(id);
    } else if s.mutex.Handler? {
      a := ByHandler(s.mutex.id);
    } else {
      a := ByLoop(Choice(true));
    }
  }

  // ----- one pass of the accept loop -----

  /** Step k is a handler's decrement. */
  ghost predicate Decrements(run: seq<State>, actions: seq<Action>, k: nat)
    requires k < |run| && k < |actions|
  {
    && actions[k].ByHandler? && actions[k].id in run[k].handlers
    && run[k].handlers[actions[k].id] == Decrement
  }

  /** How many handlers take their decrement in steps i to j. */
  ghost function Ended(run: seq<State>, actions: seq<Action>, i: nat, j: nat): nat
    requires i <= j <= |actions| && |run| == |actions| + 1
  {
    if i == j then 0 else Ended(run, actions, i, j - 1) + (if Decrements(run, actions, j - 1) then 1 else 0)
  }

  /** Step k is a malloc or pthread_create of the loop that fails. */
  ghost predicate Fails(run: seq<State>, actions: seq<Action>, k: nat)
    requires k < |run| && k < |actions|
  {
    actions[k].ByLoop? && !actions[k].c.ok && run[k].pc in {Malloc, Create}
  }

  ghost predicate NoneFails(run: seq<State>, actions: seq<Action>, i: nat, j: nat)
    requires i <= j <= |actions| && |run| == |actions| + 1
  {
    forall k :: i <= k < j ==> !Fails(run, actions, k)
  }

  /** Nothing done for the request in hand but for the number it may have been given, and what handlers ended. */
  ghost predicate NotServed(s0: State, s: State, ended: nat) {
    s.served == s0.served && s.threadCount == s0.threadCount - ended
  }

  ghost predicate Numbered(s0: State, s: State) {
    s.requestCounter == s0.requestCounter + 1
  }

  /** The request in hand has its handler. */
  ghost predicate Served(s0: State, s: State, counted: int, ended: nat) {
    s.served == s0.served + [s.requestCounter] && s.threadCount == s0.threadCount + counted - ended
  }

  /** How far a pass has come that began in s0, by the loop's line. */
  ghost predicate PassSoFar(s0: State, s: State, ended: nat, ok: bool) {
    if s.pc in {Lock, Test, Waiting, Relock, LockSeq, Increment} then
      ok && NotServed(s0, s, ended) && s.requestCounter == s0.requestCounter
    else if s.pc in {UnlockSeq, Malloc, Create} then
      ok && NotServed(s0, s, ended) && Numbered(s0, s) && s.number == s.requestCounter
    else if s.pc == Count then
      ok && Served(s0, s, 0, ended) && Numbered(s0, s)
    else
      s.pc == Unlock && PassDone(s0, s, ended, ok)
  }

  /** A pass gives the request a number, and either a handler that counts or, where something failed, none. */
  ghost predicate PassDone(s0: State, s: State, ended: nat, ok: bool) {
    Numbered(s0, s) && if ok then Served(s0, s, 1, ended) else NotServed(s0, s, ended)
  }

  lemma PassStep(s0: State, s: State, a: Action, ended: nat, ok: bool)
    requires PassSoFar(s0, s, ended, ok) && Enabled(s, a)
    ensures var t, more := Next(s, a), ended + if a.ByHandler? && s.handlers[a.id] == Decrement then 1 else 0;
            var okThen := ok && !(a.ByLoop? && !a.c.ok && s.pc in {Malloc, Create});
            if s.pc == Unlock && a.ByLoop? then t.pc == Accept && PassDone(s0, t, more, okThen)
            else PassSoFar(s0, t, more, okThen)
  {
  }

  /** The state after each step of a pass. */
  lemma {:induction false} PassUpTo(run: seq<State>, actions: seq<Action>, i: nat, k: nat)
    requires IsRun(run, actions) && i < k < |run| && run[i].pc == Accept && actions[i].ByLoop?
    requires forall m :: i < m <= k ==> run[m].pc != Accept
    ensures PassSoFar(run[i], run[k], Ended(run, actions, i, k), NoneFails(run, actions, i, k))
  {
    hide PassSoFar;
    assert Follows(run, actions, k - 1);
    if k == i + 1 {
      PassBegins(run[i], actions[i]);
      assert Ended(run, actions, i, i) == 0;
    } else {
      PassUpTo(run, actions, i, k - 1);
      PassStep(run[i], run[k - 1], actions[k - 1], Ended(run, actions, i, k - 1), NoneFails(run, actions, i, k - 1));
      NoneFailsNext(run, actions, i, k - 1);
    }
  }

  lemma NoneFailsNext(run: seq<State>, actions: seq<Action>, i: nat, k: nat)
    requires i <= k < |actions| && |run| == |actions| + 1
    ensures NoneFails(run, actions, i, k + 1) <==> NoneFails(run, actions, i, k) && !Fails(run, actions, k)
  {
  }

  lemma PassBegins(s: State, a: Action)
    requires s.pc == Accept && a.ByLoop? && Next(s, a).pc != Accept
    ensures PassSoFar(s, Next(s, a), 0, true)
  {
  }

  /**
   From the step in which a client connects to the loop's return to accept, whatever the handlers do meanwhile: the
   request is given the next number; if neither malloc nor pthread_create fails, one handler is created for that
   number and counted, and otherwise none; and besides that `thread_count` falls by the handlers that ended.
   */
  lemma PassServes(run: seq<State>, actions: seq<Action>, i: nat, j: nat)
    requires IsRun(run, actions) && i + 1 < j < |run|
    requires run[i].pc == Accept && actions[i].ByLoop? && run[j].pc == Accept
    requires forall m :: i < m < j ==> run[m].pc != Accept
    ensures var s, t, ended := run[i], run[j], Ended(run, actions, i, j);
            && t.requestCounter == s.requestCounter + 1
            && (if NoneFails(run, actions, i, j)
                then t.served == s.served + [t.requestCounter] && t.threadCount == s.threadCount + 1 - ended
                else t.served == s.served && t.threadCount == s.threadCount - ended)
  {
    hide PassSoFar;
    PassUpTo(run, actions, i, j - 1);
    assert Follows(run, actions, j - 1);
    PassStep(run[i], run[j - 1], actions[j - 1], Ended(run, actions, i, j - 1), NoneFails(run, actions, i, j - 1));
    NoneFailsNext(run, actions, i, j - 1);
    NotAccept(run[i], run[j], Ended(run, actions, i, j), NoneFails(run, actions, i, j));
  }

  lemma NotAccept(s0: State, s: State, ended: nat, ok: bool)
    requires s.pc == Accept
    ensures !PassSoFar(s0, s, ended, ok)
  {
  }

  // ----- the wait ends -----

  function StepsLeft(pc: HandlerPc): nat {
    match pc
    case Working => 5
    case LockMutex => 4
    case Decrement => 3
    case Signal => 2
    case Release => 1
  }

  /** The steps that handlers below n still have to take. */
  function Work(handlers: map<nat, HandlerPc>, n: nat): nat {
    if n == 0 then 0
    else Work(handlers, n - 1) + (if n - 1 in handlers then StepsLeft(handlers[n - 1]) else 0)
  }

  lemma {:induction false} WorkDrops(before: map<nat, HandlerPc>, after: map<nat, HandlerPc>, id: nat, n: nat)
    requires id in before && (id in after ==> StepsLeft(after[id]) < StepsLeft(before[id]))
    requires forall g: nat :: g != id ==> (g in before <==> g in after) && (g in before ==> before[g] == after[g])
    ensures Work(after, n) + (if id < n then 1 else 0) <= Work(before, n)
  {
    if n > 0 {
      WorkDrops(before, after, id, n - 1);
    }
  }

  ghost predicate HandlersOnly(run: seq<State>, ids: seq<nat>) {
    |run| == |ids| + 1 && forall i :: 0 <= i < |ids| ==> StepsTo(run, ids, i)
  }

  ghost predicate StepsTo(run: seq<State>, ids: seq<nat>, i: nat)
    requires |run| == |ids| + 1 && i < |ids|
  {
    HandlerEnabled(run[i], ids[i]) && run[i + 1] == HandlerStep(run[i], ids[i])
  }

  /**
   From a state in which the loop waits, however the handlers are scheduled, it is signalled before they have taken
   more steps than are left to them; and until then some handler can always move.
   */
  lemma {:induction false} WaitEnds(run: seq<State>, ids: seq<nat>)
    requires HandlersOnly(run, ids) && Inv(run[0])
    requires forall i :: 0 <= i < |run| ==> run[i].pc == Waiting
    ensures |ids| <= Work(run[0].handlers, run[0].started)
    ensures exists id: nat :: HandlerEnabled(run[|ids|], id)
    decreases |ids|
  {
    hide Inv;
    if ids == [] {
      var id := SomeoneMoves(run[0]);
    } else {
      assert StepsTo(run, ids, 0);
      HandlerKeeps(run[0], ids[0]);
      forall i | 0 <= i < |ids[1..]| ensures StepsTo(run[1..], ids[1..], i) {
        assert StepsTo(run, ids, i + 1);
      }
      WaitEnds(run[1..], ids[1..]);
      HandlerIds(run[0], ids[0]);
      WorkDrops(run[0].handlers, run[1].handlers, ids[0], run[0].started);
    }
  }

  lemma HandlerIds(s: State, id: nat)
    requires Inv(s) && HandlerEnabled(s, id)
    ensures id < s.started && HandlerStep(s, id).started == s.started
  {
  }
}
