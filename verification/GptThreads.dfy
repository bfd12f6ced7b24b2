/**
 Fork and join: one thread for each position, all storing into the same buffer, each step of each thread at a
 moment some scheduler picks.
 */
module GptThreads {

  /** What a thread does next: compute in its registers, or store one float. */
  datatype Action<F, S> = Compute(next: S) | Store(addr: nat, value: F, next: S)

  /** `mem` is `start` except where some of the n threads may store. */
  ghost predicate OnlyOwned<F>(start: seq<F>, mem: seq<F>, n: nat, owner: nat -> int) {
    |mem| == |start| && forall a :: 0 <= a < |start| && !(0 <= owner(a) < n) ==> mem[a] == start[a]
  }

  function After<F, S>(mem: seq<F>, act: Action<F, S>): seq<F> {
    if act.Store? && act.addr < |mem| then mem[act.addr := act.value] else mem
  }

  /** Memory and threads after the scheduler picked the threads in `picks`, for one step each. */
  function Run<F, S>(mem: seq<F>, threads: seq<S>, action: (seq<F>, nat, S) -> Action<F, S>, done: S -> bool,
                     picks: seq<nat>): (seq<F>, seq<S>)
  {
    if picks == [] then (mem, threads)
    else
      var (m, ts) := Run(mem, threads, action, done, picks[..|picks| - 1]);
      var t := picks[|picks| - 1];
      if t >= |ts| || done(ts[t]) then (m, ts)
      else (After(m, action(m, t, ts[t])), ts[t := action(m, t, ts[t]).next])
  }

  /** Under this schedule every thread comes to its end, and the memory is then `end`. */
  predicate Ends<F(==), S>(mem: seq<F>, threads: seq<S>, action: (seq<F>, nat, S) -> Action<F, S>, done: S -> bool,
                           picks: seq<nat>, end: seq<F>)
  {
    var (m, ts) := Run(mem, threads, action, done, picks);
    m == end && forall t :: 0 <= t < |ts| ==> done(ts[t])
  }

  /** A thread's step is in order: it stores where it owns, keeps its own assertion and gets closer to its end. */
  ghost predicate StepFine<F, S>(mem: seq<F>, t: nat, s: S, act: Action<F, S>,
                                 inv: (seq<F>, nat, S) -> bool, owner: nat -> int, work: S -> nat) {
    && (act.Store? ==> act.addr < |mem| && owner(act.addr) == t)
    && inv(After(mem, act), t, act.next) && work(act.next) < work(s)
  }

  /** Whatever the others have stored meanwhile, every step of every thread is in order. */
  ghost predicate StepsFine<F(!new), S(!new)>(
    start: seq<F>, n: nat, action: (seq<F>, nat, S) -> Action<F, S>, done: S -> bool,
    inv: (seq<F>, nat, S) -> bool, owner: nat -> int, work: S -> nat)
  {
    forall mem, t: nat, s {:trigger action(mem, t, s)} ::
      OnlyOwned(start, mem, n, owner) && t < n && inv(mem, t, s) && !done(s) ==>
        StepFine(mem, t, s, action(mem, t, s), inv, owner, work)
  }

  /** An assertion of thread t speaks only of what t owns and of what nobody owns. */
  ghost predicate Stable<F(!new), S(!new)>(start: seq<F>, n: nat, inv: (seq<F>, nat, S) -> bool, owner: nat -> int) {
    forall mem, mem', t: nat, s {:trigger inv(mem, t, s), inv(mem', t, s)} ::
      OnlyOwned(start, mem, n, owner) && OnlyOwned(start, mem', n, owner) && t < n && inv(mem, t, s)
      && (forall a :: 0 <= a < |start| && owner(a) == t ==> mem'[a] == mem[a])
      ==> inv(mem', t, s)
  }

  function TotalWork<S>(threads: seq<S>, work: S -> nat): nat {
    if threads == [] then 0 else work(threads[0]) + TotalWork(threads[1..], work)
  }

  lemma {:induction false} WorkDrops<S>(threads: seq<S>, t: nat, s: S, work: S -> nat)
    requires t < |threads| && work(s) < work(threads[t])
    ensures TotalWork(threads[t := s], work) < TotalWork(threads, work)
  {
    if t == 0 {
      assert threads[t := s][1..] == threads[1..];
    } else {
      assert threads[t := s][1..] == threads[1..][t - 1 := s];
      WorkDrops(threads[1..], t - 1, s, work);
    }
  }

  /** Each thread's assertion is true of the memory. */
  ghost predicate AllHold<F, S>(mem: seq<F>, threads: seq<S>, inv: (seq<F>, nat, S) -> bool) {
    forall t: nat :: t < |threads| ==> inv(mem, t, threads[t])
  }

  /** One step of thread t leaves every thread's assertion true. */
  lemma StepKeeps<F(!new), S(!new)>(
      start: seq<F>, mem: seq<F>, threads: seq<S>, t: nat, action: (seq<F>, nat, S) -> Action<F, S>, done: S -> bool,
      inv: (seq<F>, nat, S) -> bool, owner: nat -> int, work: S -> nat)
    requires StepsFine(start, |threads|, action, done, inv, owner, work) && Stable(start, |threads|, inv, owner)
    requires OnlyOwned(start, mem, |threads|, owner) && t < |threads| && !done(threads[t])
    requires AllHold(mem, threads, inv)
    ensures var act := action(mem, t, threads[t]);
            && OnlyOwned(start, After(mem, act), |threads|, owner)
            && (act.Store? ==> act.addr < |mem|) && work(act.next) < work(threads[t])
            && AllHold(After(mem, act), threads[t := act.next], inv)
  {
    var act := action(mem, t, threads[t]);
    assert StepFine(mem, t, threads[t], act, inv, owner, work);
    var now := threads[t := act.next];
    forall u: nat | u < |now| ensures inv(After(mem, act), u, now[u]) {
      if u != t {
        assert inv(mem, u, threads[u]);
      }
    }
  }

  /** Under any schedule every thread's assertion stays true, and nothing changes that no thread owns. */
  lemma {:induction false} RunFine<F(!new), S(!new)>(
      start: seq<F>, threads: seq<S>, action: (seq<F>, nat, S) -> Action<F, S>, done: S -> bool,
      inv: (seq<F>, nat, S) -> bool, owner: nat -> int, work: S -> nat, picks: seq<nat>)
    requires StepsFine(start, |threads|, action, done, inv, owner, work) && Stable(start, |threads|, inv, owner)
    requires AllHold(start, threads, inv)
    ensures var (m, ts) := Run(start, threads, action, done, picks);
            && |ts| == |threads| && OnlyOwned(start, m, |threads|, owner)
            && AllHold(m, ts, inv)
  {
    hide StepsFine, Stable, OnlyOwned, After, AllHold;
    if picks == [] {
      Untouched(start, |threads|, owner);
    } else {
      RunFine(start, threads, action, done, inv, owner, work, picks[..|picks| - 1]);
      var (m, ts) := Run(start, threads, action, done, picks[..|picks| - 1]);
      var t := picks[|picks| - 1];
      if t < |ts| && !done(ts[t]) {
        StepKeeps(start, m, ts, t, action, done, inv, owner, work);
      }
    }
  }

  lemma Untouched<F>(start: seq<F>, n: nat, owner: nat -> int)
    ensures OnlyOwned(start, start, n, owner)
  {
  }

  /**
   Runs the threads to their ends, one step at a time in an order of the scheduler's choosing: any order ends,
   with every thread's final assertion true of the one shared buffer and nothing else changed.
   */
  method ForkJoin<F(!new), S(!new)>(
      acts: array<F>, threads: seq<S>, action: (seq<F>, nat, S) -> Action<F, S>, done: S -> bool,
      ghost inv: (seq<F>, nat, S) -> bool, ghost owner: nat -> int, ghost work: S -> nat)
    returns (final: seq<S>, ghost picks: seq<nat>)
    requires StepsFine(acts[..], |threads|, action, done, inv, owner, work)
    requires Stable(acts[..], |threads|, inv, owner)
    requires AllHold(acts[..], threads, inv)
    modifies acts
    ensures Ends(old(acts[..]), threads, action, done, picks, acts[..])
    ensures |final| == |threads| && OnlyOwned(old(acts[..]), acts[..], |threads|, owner)
    ensures AllHold(acts[..], final, inv) && forall t :: 0 <= t < |final| ==> done(final[t])
  {
    hide StepsFine, Stable, OnlyOwned, AllHold;
    ghost var start := acts[..];
    final, picks := threads, [];
    RunFine(start, threads, action, done, inv, owner, work, picks);
    while exists t :: 0 <= t < |final| && !done(final[t])
      invariant (acts[..], final) == Run(start, threads, action, done, picks)
      invariant |final| == |threads| && OnlyOwned(start, acts[..], |threads|, owner)
      invariant AllHold(acts[..], final, inv)
      decreases TotalWork(final, work)
    {
      var t :| 0 <= t < |final| && !done(final[t]);
      ghost var before := acts[..];
      var act := action(acts[..], t, final[t]);
      StepKeeps(start, before, final, t, action, done, inv, owner, work);
      if act.Store? {
        acts[act.addr] := act.value;
      }
      assert acts[..] == After(before, act);
      WorkDrops(final, t, act.next, work);
      assert (picks + [t])[..|picks|] == picks;
      final, picks := final[t := act.next], picks + [t];
    }
  }
}
