/** The shape of `withEffectForEach` (src/Value.php:50-64). The loop wraps
    the chain built so far, so the last element's `withEffect` is the
    outermost one: the elements are entered from the last to the first, the
    action runs once inside all of them, and their `finally` blocks run from
    the first element to the last. */
module Nesting {
  import opened Effects

  /** Enters elements n-1, n-2, ..., 0, in that order (outermost first). */
  function EnterAll(s: State, cfg: Configurator, n: nat): (r: State)
    requires n <= |s.slots|
    ensures |r.slots| == |s.slots| && |r.disposers| == |s.disposers| + n && |r.objects| == |s.objects|
    decreases n
  {
    if n == 0 then s else EnterAll(Enter(s, n - 1, cfg), cfg, n - 1)
  }

  /** Runs the `finally` blocks of elements 0, 1, ..., n-1, in that order;
      element k restores `originals[k]`, and its `$disposer` is cell
      `base + (n - 1 - k)`. */
  function LeaveAll(s: State, originals: seq<Slot>, base: nat, n: nat): (r: State)
    requires n <= |s.slots| && n <= |originals| && base + n <= |s.disposers|
    ensures |r.slots| == |s.slots| && r.disposers == s.disposers && |r.objects| == |s.objects|
    decreases n
  {
    if n == 0 then s else Finally(LeaveAll(s, originals, base + 1, n - 1), n - 1, originals[n - 1], base)
  }

  /** LeaveAll only reads the first n originals. */
  lemma {:induction false} LeaveAllPrefix(s: State, o1: seq<Slot>, o2: seq<Slot>, base: nat, n: nat)
    requires n <= |s.slots| && n <= |o1| && n <= |o2| && base + n <= |s.disposers|
    requires forall k :: 0 <= k < n ==> o1[k] == o2[k]
    ensures LeaveAll(s, o1, base, n) == LeaveAll(s, o2, base, n)
    decreases n
  {
    if n > 0 {
      LeaveAllPrefix(s, o1, o2, base + 1, n - 1);
    }
  }

  /** The chain of n elements is `withEffect` on element n-1 around the
      chain of the first n-1. */
  lemma ChainStep(s: State, cfg: Configurator, a: Action, args: Args, n: nat)
    requires 0 < n <= |s.slots|
    ensures var c := Call(Enter(s, n - 1, cfg), Chain(cfg, a, args, n - 1), []);
            Call(s, Chain(cfg, a, args, n), []) == (Finally(c.0, n - 1, s.slots[n - 1], |s.disposers|), c.1)
  {
  }

  /** The last `finally` of LeaveAll is element n-1's, with the first cell. */
  lemma LeaveAllStep(x: State, s: State, cfg: Configurator, n: nat)
    requires 0 < n <= |s.slots| == |x.slots| && |s.disposers| + n <= |x.disposers|
    ensures LeaveAll(x, s.slots, |s.disposers|, n) ==
            Finally(LeaveAll(x, Enter(s, n - 1, cfg).slots, |s.disposers| + 1, n - 1), n - 1, s.slots[n - 1], |s.disposers|)
  {
    LeaveAllPrefix(x, Enter(s, n - 1, cfg).slots, s.slots, |s.disposers| + 1, n - 1);
  }

  /** The chain built from n elements is: enter them all, run the action once,
      leave them all, with each element's `finally` given the slot as it was
      before the call; the outcome is the action's own. */
  lemma {:induction false} Unfold(s: State, cfg: Configurator, a: Action, args: Args, n: nat)
    requires n <= |s.slots|
    ensures var r := RunAction(EnterAll(s, cfg, n), a, args);
            Call(s, Chain(cfg, a, args, n), []) == (LeaveAll(r.0, s.slots, |s.disposers|, n), r.1)
    decreases n
  {
    if n > 0 {
      var s1 := Enter(s, n - 1, cfg);
      Unfold(s1, cfg, a, args, n - 1);
      ChainStep(s, cfg, a, args, n);
      LeaveAllStep(RunAction(EnterAll(s1, cfg, n - 1), a, args).0, s, cfg, n);
    }
  }

  /** `withEffectForEach` in the flat form of Unfold. */
  lemma ForEachUnfolds(s: State, cfg: Configurator, a: Action, args: Args)
    ensures var n := |s.slots|;
            var (s2, out) := RunAction(EnterAll(s, cfg, n), a, args);
            WithEffectForEach(s, cfg, a, args) == (LeaveAll(s2, s.slots, |s.disposers|, n), out)
  {
    Unfold(s, cfg, a, args, |s.slots|);
  }

  /** With no elements the action is called directly, with the caller's args. */
  lemma ForEachEmpty(s: State, cfg: Configurator, a: Action, args: Args)
    requires s.slots == []
    ensures WithEffectForEach(s, cfg, a, args) == RunAction(s, a, args)
  {
  }
}
