/** Which `$disposer` cells the Closures in the slots can write.

    Each `withEffect` call has its own local `$disposer` (src/Value.php:21),
    and only the configurator closure created by that same call assigns it
    (src/Value.php:24-27). In the model, cells are numbered in call order, and
    a wrapped Closure names the cell it writes. A state is wired when every
    cell its Closures name already exists. The two effect operations keep
    states wired, and in a wired state the caller's action cannot write the
    cell of a `withEffect` call that has just started. */
module Cells {
  import opened Effects

  /** Every cell `t` writes when called is below `n`. */
  predicate Below(t: Thunk, n: nat)
  {
    match t
    case Source(_) => true
    case Wrapped(inner, _, cell, _) => cell < n && Below(inner, n)
  }

  /** Every Closure in the slots writes only cells below `n`. */
  ghost predicate SlotsBelow(slots: seq<Slot>, n: nat)
  {
    forall j :: 0 <= j < |slots| && slots[j].Deferred? ==> Below(slots[j].thunk, n)
  }

  /** Every cell a Closure in the slots names exists. */
  ghost predicate Wired(s: State)
  {
    SlotsBelow(s.slots, |s.disposers|)
  }

  lemma {:induction false} BelowMono(t: Thunk, n: nat, m: nat)
    requires Below(t, n) && n <= m
    ensures Below(t, m)
  {
    match t
    case Source(_) =>
    case Wrapped(inner, _, _, _) => BelowMono(inner, n, m);
  }

  lemma SlotsBelowMono(slots: seq<Slot>, n: nat, m: nat)
    requires SlotsBelow(slots, n) && n <= m
    ensures SlotsBelow(slots, m)
  {
    forall j | 0 <= j < |slots| && slots[j].Deferred?
      ensures Below(slots[j].thunk, m)
    {
      BelowMono(slots[j].thunk, n, m);
    }
  }

  /** Calling a Closure writes no cell at or above the bound it is below. */
  lemma {:induction false} InvokeKeeps(s: State, t: Thunk, xs: Args, n: nat)
    requires Below(t, n)
    ensures forall c :: n <= c < |s.disposers| ==> Invoke(s, t, xs).0.disposers[c] == s.disposers[c]
  {
    match t
    case Source(_) =>
    case Wrapped(inner, _, _, _) => InvokeKeeps(s, inner, xs, n);
  }

  /** One statement of the action: it writes no cell at or above `n`, keeps
      every object slot as it is, and leaves the slots below `n`. */
  lemma PerformKeeps(s: State, step: Step, n: nat)
    requires SlotsBelow(s.slots, n)
    ensures var r := Perform(s, step).0;
            SlotsBelow(r.slots, n) &&
            (forall c :: n <= c < |s.disposers| ==> r.disposers[c] == s.disposers[c]) &&
            forall j :: 0 <= j < |s.slots| && s.slots[j].Materialized? ==> r.slots[j] == s.slots[j]
  {
    match step
    case Store(i, xs) =>
      if i < |s.slots| && s.slots[i].Deferred? {
        InvokeKeeps(s, s.slots[i].thunk, xs, n);
      }
    case Discard(i, xs) =>
      if i < |s.slots| && s.slots[i].Deferred? {
        InvokeKeeps(s, s.slots[i].thunk, xs, n);
      }
    case Bump(_, _) =>
  }

  /** The statements of an action, as PerformKeeps. */
  lemma {:induction false} RunStepsKeeps(s: State, steps: seq<Step>, n: nat)
    requires SlotsBelow(s.slots, n)
    ensures var r := RunSteps(s, steps).0;
            SlotsBelow(r.slots, n) &&
            (forall c :: n <= c < |s.disposers| ==> r.disposers[c] == s.disposers[c]) &&
            forall j :: 0 <= j < |s.slots| && s.slots[j].Materialized? ==> r.slots[j] == s.slots[j]
    decreases |steps|
  {
    if steps != [] {
      var (s1, e) := Perform(s, steps[0]);
      PerformKeeps(s, steps[0], n);
      if e.None? {
        RunStepsKeeps(s1, steps[1..], n);
      }
    }
  }

  /** The caller's action, as PerformKeeps. */
  lemma ActionKeeps(s: State, a: Action, args: Args, n: nat)
    requires SlotsBelow(s.slots, n)
    ensures var r := RunAction(s, a, args).0;
            SlotsBelow(r.slots, n) &&
            (forall c :: n <= c < |s.disposers| ==> r.disposers[c] == s.disposers[c]) &&
            forall j :: 0 <= j < |s.slots| && s.slots[j].Materialized? ==> r.slots[j] == s.slots[j]
  {
    RunStepsKeeps(s.(trace := s.trace + [Acted(args)]), a.steps, n);
  }

  /** Entering slot i keeps the state wired: the new wrapper names the new cell. */
  lemma EnterWired(s: State, i: nat, cfg: Configurator)
    requires i < |s.slots| && Wired(s)
    ensures Wired(Enter(s, i, cfg))
  {
    var e := Enter(s, i, cfg);
    SlotsBelowMono(s.slots, |s.disposers|, |e.disposers|);
    if s.slots[i].Deferred? {
      BelowMono(s.slots[i].thunk, |s.disposers|, |e.disposers|);
      assert Below(e.slots[i].thunk, |e.disposers|);
    }
  }

  /** The `finally` block keeps the state wired when the original it may
      restore names only existing cells. */
  lemma FinallyWired(s: State, i: nat, original: Slot, cell: nat)
    requires i < |s.slots| && cell < |s.disposers| && Wired(s)
    requires original.Deferred? ==> Below(original.thunk, |s.disposers|)
    ensures Wired(Finally(s, i, original, cell))
  {
  }

  /** `withEffect` keeps the state wired. */
  lemma {:induction false} WithEffectWired(s: State, i: nat, cfg: Configurator, callback: Callable, args: Args)
    requires i < |s.slots| && Fits(callback, |s.slots|) && Wired(s)
    ensures Wired(WithEffect(s, i, cfg, callback, args).0)
    decreases callback, 1
  {
    var e := Enter(s, i, cfg);
    EnterWired(s, i, cfg);
    CallWired(e, callback, args);
    var s2 := Call(e, callback, args).0;
    if s.slots[i].Deferred? {
      BelowMono(s.slots[i].thunk, |s.disposers|, |s2.disposers|);
    }
    FinallyWired(s2, i, s.slots[i], |s.disposers|);
  }

  /** Calling any callable of the chain keeps the state wired. */
  lemma {:induction false} CallWired(s: State, c: Callable, args: Args)
    requires Fits(c, |s.slots|) && Wired(s)
    ensures Wired(Call(s, c, args).0)
    decreases c, 0
  {
    match c
    case User(a) => ActionKeeps(s, a, args, |s.disposers|);
    case Bound(a, captured) => ActionKeeps(s, a, captured, |s.disposers|);
    case Scoped(i, cfg, inner) => WithEffectWired(s, i, cfg, inner, []);
  }

  /** `withEffectForEach` keeps the state wired. */
  lemma ForEachWired(s: State, cfg: Configurator, a: Action, args: Args)
    requires Wired(s)
    ensures Wired(WithEffectForEach(s, cfg, a, args).0)
  {
    CallWired(s, Chain(cfg, a, args, |s.slots|), []);
  }

  /** Slots that hold no wrapped Closure, such as the caller's variables
      before any call, are wired. */
  lemma SourcesWired(s: State)
    requires forall j :: 0 <= j < |s.slots| && s.slots[j].Deferred? ==> s.slots[j].thunk.Source?
    ensures Wired(s)
  {
  }
}
