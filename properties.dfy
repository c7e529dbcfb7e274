/** What `withEffect` and `withEffectForEach` promise, proved of module
    Effects: what ends up in each slot, how often and in which order the
    configurator, the disposer and the action run, and what is returned. */
module Properties {
  import opened Effects
  import opened Nesting
  import opened Cells

  /** An object's `value` after the disposer, when the configurator returned
      one, has run on it. */
  function Dispose(cfg: Configurator, x: int): int
  {
    match cfg.disposer
    case Some(d) => d.dispose(x)
    case None => x
  }

  /** The disposer of `cfg` as a function on values. */
  function Disposing(cfg: Configurator): int -> int
  {
    x => Dispose(cfg, x)
  }

  /** An object's `value` after the configurator and then the disposer. */
  function Finish(cfg: Configurator, x: int): int
  {
    Dispose(cfg, cfg.configure(x))
  }

  /** Configured(n-1), ..., Configured(0). */
  function ConfiguredDown(n: nat): seq<Event>
  {
    if n == 0 then [] else [Configured(n - 1)] + ConfiguredDown(n - 1)
  }

  /** Configured(lo), ..., Configured(hi-1). */
  function ConfiguredUp(lo: nat, hi: nat): seq<Event>
    decreases hi - lo
  {
    if hi <= lo then [] else [Configured(lo)] + ConfiguredUp(lo + 1, hi)
  }

  /** Disposed(0), ..., Disposed(n-1). */
  function DisposedUp(n: nat): seq<Event>
  {
    if n == 0 then [] else DisposedUp(n - 1) + [Disposed(n - 1)]
  }

  /** The disposals of n elements: none unless the configurator returns a disposer. */
  function Teardown(cfg: Configurator, n: nat): seq<Event>
  {
    if cfg.disposer.Some? then DisposedUp(n) else []
  }

  /** n cells that all hold d. */
  function Fill(d: Option<Disposer>, n: nat): (r: seq<Option<Disposer>>)
    ensures |r| == n && forall c :: 0 <= c < n ==> r[c] == d
  {
    seq(n, _ => d)
  }

  lemma FillCons(xs: seq<Option<Disposer>>, d: Option<Disposer>, n: nat)
    requires 0 < n
    ensures xs + [d] + Fill(d, n - 1) == xs + Fill(d, n)
  {
  }

  lemma TraceCons(t: seq<Event>, e: Event, rest: seq<Event>)
    ensures t + [e] + rest == t + ([e] + rest)
  {
  }

  /** The number of action calls in a trace. */
  function Acts(t: seq<Event>): nat
  {
    if t == [] then 0 else Acts(t[..|t| - 1]) + (if t[|t| - 1].Acted? then 1 else 0)
  }

  lemma ActsSnoc(t: seq<Event>, e: Event)
    ensures Acts(t + [e]) == Acts(t) + (if e.Acted? then 1 else 0)
  {
    assert (t + [e])[..|t|] == t;
  }

  /** The first n slots hold existing objects. */
  ghost predicate Held(s: State, n: nat)
    requires n <= |s.slots|
  {
    forall k :: 0 <= k < n ==> s.slots[k].Materialized? && s.slots[k].obj < |s.objects|
  }

  /** The first n slots hold distinct existing objects. */
  ghost predicate Eager(s: State, n: nat)
    requires n <= |s.slots|
  {
    Held(s, n) && forall j, k :: 0 <= j < k < n ==> s.slots[j] != s.slots[k]
  }

  /** Eager depends on the slots and the number of objects only. */
  lemma EagerFrame(s: State, s1: State, n: nat, m: nat)
    requires m <= n <= |s.slots| && s1.slots == s.slots && |s1.objects| == |s.objects| && Eager(s, n)
    ensures Held(s1, m) && Eager(s1, m)
  {
  }

  /** Held depends on the slots and the number of objects only. */
  lemma HeldFrame(s: State, s1: State, n: nat, m: nat)
    requires m <= n <= |s.slots| && s1.slots == s.slots && |s1.objects| == |s.objects| && Held(s, n)
    ensures Held(s1, m)
  {
  }

  /** The first n slots hold Closures. */
  ghost predicate Lazy(s: State, n: nat)
    requires n <= |s.slots|
  {
    forall k :: 0 <= k < n ==> s.slots[k].Deferred?
  }

  /** `StoresFrom(lo, hi, xs)`: `$values[k] = $values[k](...xs)` for k = lo, ..., hi-1. */
  function StoresFrom(lo: nat, hi: nat, xs: Args): seq<Step>
    decreases hi - lo
  {
    if hi <= lo then [] else [Store(lo, xs)] + StoresFrom(lo + 1, hi, xs)
  }

  // ---------------------------------------------------------------- one withEffect

  /** An action of one statement is that statement. */
  lemma RunOneStep(s: State, step: Step)
    ensures RunSteps(s, [step]) == Perform(s, step)
  {
    assert [step][1..] == [];
  }

  /** The caller's action of one statement, called with `args`. */
  lemma ActOneStep(e: State, a: Action, args: Args, y: State, err: Option<Error>)
    requires |a.steps| == 1 && Perform(e.(trace := e.trace + [Acted(args)]), a.steps[0]) == (y, err)
    ensures RunAction(e, a, args) == (y, if err.Some? then Threw(err.value) else a.result(args))
  {
    RunOneStep(e.(trace := e.trace + [Acted(args)]), a.steps[0]);
    assert a.steps == [a.steps[0]];
  }

  /** `withEffect` on a callable of the caller's, one phase after the other. */
  lemma WithEffectPhases(s: State, i: nat, cfg: Configurator, a: Action, args: Args)
    requires i < |s.slots|
    ensures var e := Enter(s, i, cfg);
            var (s2, out) := RunAction(e, a, args);
            WithEffect(s, i, cfg, User(a), args) == (Finally(s2, i, s.slots[i], |s.disposers|), out)
  {
  }

  /** Entering a materialized slot: the configurator runs on its object and
      its return value fills the new cell; the slot is unchanged. */
  lemma EnterMaterialized(s: State, i: nat, cfg: Configurator)
    requires i < |s.slots| && s.slots[i].Materialized? && s.slots[i].obj < |s.objects|
    ensures var o := s.slots[i].obj;
            Enter(s, i, cfg) == State(s.slots, s.objects[o := cfg.configure(s.objects[o])],
                                      s.disposers + [cfg.disposer], s.trace + [Configured(i)])
  {
  }

  /** Entering a deferred slot wraps its Closure; nothing runs. */
  lemma EnterDeferred(s: State, i: nat, cfg: Configurator)
    requires i < |s.slots| && s.slots[i].Deferred?
    ensures Enter(s, i, cfg) == State(s.slots[i := Deferred(Wrapped(s.slots[i].thunk, cfg, |s.disposers|, i))],
                                      s.objects, s.disposers + [None], s.trace)
  {
  }

  /** Calling an object is an Error; nothing else happens. */
  lemma StoreOnObject(s: State, i: nat, xs: Args)
    requires i < |s.slots| && s.slots[i].Materialized?
    ensures Perform(s, Store(i, xs)) == (s, Some(NotCallable(i)))
  {
  }

  /** The `finally` block on a slot that holds an object. */
  lemma FinallyOnObject(s: State, i: nat, original: Slot, cell: nat)
    requires i < |s.slots| && cell < |s.disposers| && s.slots[i].Materialized?
    ensures var o := s.slots[i].obj;
            Finally(s, i, original, cell) ==
              match s.disposers[cell]
              case Some(d) => s.(objects := Update(s.objects, o, d.dispose), trace := s.trace + [Disposed(i)])
              case None => s
  {
  }

  /** The disposal of slot i: none unless the configurator returns a disposer. */
  function Disposal(cfg: Configurator, i: nat): seq<Event>
  {
    if cfg.disposer.Some? then [Disposed(i)] else []
  }

  /** A materialized slot: the configurator runs once, before the action; the
      slot keeps its object; the disposer, if any, runs once after the action;
      the action's outcome, returned or thrown, is passed on. */
  lemma EagerEffect(s: State, i: nat, cfg: Configurator, a: Action, args: Args)
    requires i < |s.slots| && s.slots[i].Materialized? && s.slots[i].obj < |s.objects|
    requires a.steps == []
    ensures var o := s.slots[i].obj;
            WithEffect(s, i, cfg, User(a), args) ==
              (State(s.slots, s.objects[o := Finish(cfg, s.objects[o])], s.disposers + [cfg.disposer],
                     s.trace + [Configured(i), Acted(args)] + Disposal(cfg, i)),
               a.result(args))
  {
    var o := s.slots[i].obj;
    var e := State(s.slots, s.objects[o := cfg.configure(s.objects[o])], s.disposers + [cfg.disposer], s.trace + [Configured(i)]);
    assert Enter(s, i, cfg) == e by {
      EnterMaterialized(s, i, cfg);
    }
    var x := e.(trace := e.trace + [Acted(args)]);
    assert x.trace == s.trace + [Configured(i), Acted(args)];
    assert RunAction(e, a, args) == (x, a.result(args));
    FinallyMaterialized(s, i, cfg, x, cfg.configure(s.objects[o]));
    WithEffectPhases(s, i, cfg, a, args);
  }

  /** The `finally` block after an action that left value `v` in the slot's
      object: the disposer, if any, runs on `v`. */
  lemma FinallyMaterialized(s: State, i: nat, cfg: Configurator, x: State, v: int)
    requires i < |s.slots| && s.slots[i].Materialized? && s.slots[i].obj < |s.objects|
    requires var o := s.slots[i].obj;
             x.slots == s.slots && x.objects == s.objects[o := v] &&
             x.disposers == s.disposers + [cfg.disposer]
    ensures var o := s.slots[i].obj;
            Finally(x, i, s.slots[i], |s.disposers|) ==
              x.(objects := s.objects[o := Dispose(cfg, v)], trace := x.trace + Disposal(cfg, i))
  {
    FinallyOnObject(x, i, s.slots[i], |s.disposers|);
  }

  /** An object slot and any action, whether it returns or throws and
      whatever it does to the slots: the configurator runs before the
      action; the slot still holds its object afterwards; the disposer, if
      the configurator returned one, then runs once on the object as the
      action left it; and the outcome is the action's. */
  lemma AnyActionDisposes(s: State, i: nat, cfg: Configurator, a: Action, args: Args)
    requires i < |s.slots| && s.slots[i].Materialized? && Wired(s)
    ensures var o := s.slots[i].obj;
            var e := Enter(s, i, cfg);
            var (s2, out) := RunAction(e, a, args);
            e.trace == s.trace + [Configured(i)] && s2.slots[i] == s.slots[i] &&
            WithEffect(s, i, cfg, User(a), args) ==
              (s2.(objects := Update(s2.objects, o, Disposing(cfg)), trace := s2.trace + Disposal(cfg, i)), out)
  {
    var o := s.slots[i].obj;
    var c := |s.disposers|;
    var e := Enter(s, i, cfg);
    assert e.slots == s.slots && e.disposers[c] == cfg.disposer;
    ActionKeeps(e, a, args, c);
    var (s2, out) := RunAction(e, a, args);
    assert s2.disposers[c] == cfg.disposer;
    FinallyOnObject(s2, i, s.slots[i], c);
    assert Finally(s2, i, s.slots[i], c) ==
           s2.(objects := Update(s2.objects, o, Disposing(cfg)), trace := s2.trace + Disposal(cfg, i)) by {
      DisposingUpdate(s2.objects, o, cfg);
    }
    WithEffectPhases(s, i, cfg, a, args);
  }

  /** Update with the disposer of `cfg`: the disposer's update, or nothing. */
  lemma DisposingUpdate(objects: seq<int>, o: Ref, cfg: Configurator)
    ensures Update(objects, o, Disposing(cfg)) ==
            match cfg.disposer
            case Some(d) => Update(objects, o, d.dispose)
            case None => objects
  {
    if o < |objects| && cfg.disposer.None? {
      assert objects[o := objects[o]] == objects;
    }
  }

  /** Any action, whether it returns or throws: if the slot still holds a
      Closure when the action ends, it gets its original content back, no
      disposer runs and nothing else changes; the outcome is the action's. */
  lemma AnyActionRestores(s: State, i: nat, cfg: Configurator, a: Action, args: Args)
    requires i < |s.slots|
    ensures var (s2, out) := RunAction(Enter(s, i, cfg), a, args);
            s2.slots[i].Deferred? ==>
              WithEffect(s, i, cfg, User(a), args) == (s2.(slots := s2.slots[i := s.slots[i]]), out)
  {
    WithEffectPhases(s, i, cfg, a, args);
  }

  /** The disposer is handed the object as the action left it: here the
      action adds `delta` to it in between. This is the instance of
      AnyActionDisposes for one Bump, with the final value spelt out; it needs
      no wiring because the action touches no other slot. */
  lemma DisposerSeesFinalValue(s: State, i: nat, cfg: Configurator, a: Action, args: Args, delta: int)
    requires i < |s.slots| && s.slots[i].Materialized? && s.slots[i].obj < |s.objects|
    requires a.steps == [Bump(i, delta)]
    ensures var o := s.slots[i].obj;
            WithEffect(s, i, cfg, User(a), args) ==
              (State(s.slots, s.objects[o := Dispose(cfg, cfg.configure(s.objects[o]) + delta)],
                     s.disposers + [cfg.disposer], s.trace + [Configured(i), Acted(args)] + Disposal(cfg, i)),
               a.result(args))
  {
    var o := s.slots[i].obj;
    var acted := cfg.configure(s.objects[o]) + delta;
    var e := State(s.slots, s.objects[o := cfg.configure(s.objects[o])], s.disposers + [cfg.disposer], s.trace + [Configured(i)]);
    assert Enter(s, i, cfg) == e by {
      EnterMaterialized(s, i, cfg);
    }
    var x := e.(trace := e.trace + [Acted(args)]);
    assert x.trace == s.trace + [Configured(i), Acted(args)];
    var y := x.(objects := s.objects[o := acted]);
    assert Perform(x, Bump(i, delta)) == (y, None) by {
      assert Update(x.objects, o, n => n + delta) == y.objects;
    }
    ActOneStep(e, a, args, y, None);
    FinallyMaterialized(s, i, cfg, y, acted);
    WithEffectPhases(s, i, cfg, a, args);
  }

  /** An action that throws (here: it calls the object, which is not
      callable) still gets the `finally` block: the disposer runs, and the
      exception is what `withEffect` throws. This is the instance of
      AnyActionDisposes for one failing Store, with the whole final state
      spelt out. */
  lemma FailingActionStillDisposes(s: State, i: nat, cfg: Configurator, a: Action, args: Args, xs: Args)
    requires i < |s.slots| && s.slots[i].Materialized? && s.slots[i].obj < |s.objects|
    requires a.steps == [Store(i, xs)]
    ensures var o := s.slots[i].obj;
            WithEffect(s, i, cfg, User(a), args) ==
              (State(s.slots, s.objects[o := Finish(cfg, s.objects[o])], s.disposers + [cfg.disposer],
                     s.trace + [Configured(i), Acted(args)] + Disposal(cfg, i)),
               Threw(NotCallable(i)))
  {
    var o := s.slots[i].obj;
    var e := State(s.slots, s.objects[o := cfg.configure(s.objects[o])], s.disposers + [cfg.disposer], s.trace + [Configured(i)]);
    assert Enter(s, i, cfg) == e by {
      EnterMaterialized(s, i, cfg);
    }
    var x := e.(trace := e.trace + [Acted(args)]);
    assert x.trace == s.trace + [Configured(i), Acted(args)];
    StoreOnObject(x, i, xs);
    ActOneStep(e, a, args, x, Some(NotCallable(i)));
    FinallyMaterialized(s, i, cfg, x, cfg.configure(s.objects[o]));
    WithEffectPhases(s, i, cfg, a, args);
  }

  /** A Closure that the action calls and stores: the configurator runs at
      that call, on the new object; after the action the disposer runs on it
      and the slot keeps the object. */
  lemma LazyEffect(s: State, i: nat, cfg: Configurator, a: Action, args: Args, xs: Args)
    requires i < |s.slots| && s.slots[i].Deferred? && s.slots[i].thunk.Source?
    requires a.steps == [Store(i, xs)]
    ensures WithEffect(s, i, cfg, User(a), args) ==
              (State(s.slots[i := Materialized(|s.objects|)], s.objects + [Finish(cfg, s.slots[i].thunk.make(xs))],
                     s.disposers + [cfg.disposer], s.trace + [Acted(args), Configured(i)] + Disposal(cfg, i)),
               a.result(args))
  {
    var make := s.slots[i].thunk.make;
    var cell := |s.disposers|;
    var e := State(s.slots[i := Deferred(Wrapped(Source(make), cfg, cell, i))], s.objects, s.disposers + [None], s.trace);
    assert Enter(s, i, cfg) == e by {
      EnterDeferred(s, i, cfg);
    }
    var x := e.(trace := e.trace + [Acted(args)]);
    var y := State(s.slots[i := Materialized(|s.objects|)], s.objects + [cfg.configure(make(xs))],
                   s.disposers + [cfg.disposer], s.trace + [Acted(args), Configured(i)]);
    assert Perform(x, Store(i, xs)) == (y, None) by {
      StoreArmed(x, cfg, i, make, cell, xs);
      assert x.slots[i := Materialized(|s.objects|)] == y.slots;
      assert x.disposers[cell := cfg.disposer] == y.disposers;
      assert x.trace + [Configured(i)] == y.trace;
    }
    ActOneStep(e, a, args, y, None);
    var f := y.(objects := s.objects + [Finish(cfg, make(xs))], trace := y.trace + Disposal(cfg, i));
    assert Finally(y, i, s.slots[i], cell) == f by {
      assert y.disposers[cell] == cfg.disposer;
    }
    WithEffectPhases(s, i, cfg, a, args);
  }

  /** A Closure the action never calls: the configurator never runs, nothing
      is disposed, and the slot gets its original Closure back. */
  lemma CanceledEffect(s: State, i: nat, cfg: Configurator, a: Action, args: Args)
    requires i < |s.slots| && s.slots[i].Deferred?
    requires a.steps == []
    ensures WithEffect(s, i, cfg, User(a), args) ==
              (State(s.slots, s.objects, s.disposers + [None], s.trace + [Acted(args)]), a.result(args))
  {
    var e := State(s.slots[i := Deferred(Wrapped(s.slots[i].thunk, cfg, |s.disposers|, i))], s.objects, s.disposers + [None], s.trace);
    assert Enter(s, i, cfg) == e by {
      EnterDeferred(s, i, cfg);
    }
    var x := e.(trace := e.trace + [Acted(args)]);
    assert RunAction(e, a, args) == (x, a.result(args));
    assert Finally(x, i, s.slots[i], |s.disposers|) == x.(slots := s.slots) by {
      assert x.slots[i := s.slots[i]] == s.slots;
    }
    WithEffectPhases(s, i, cfg, a, args);
  }

  /** `$values[k](...xs)` on the caller's Closure `make` wrapped by
      `withEffect` with cell `cell`, the result thrown away. */
  lemma DiscardArmed(s: State, cfg: Configurator, k: nat, make: Args -> int, cell: nat, xs: Args)
    requires k < |s.slots| && cell < |s.disposers| && s.slots[k] == Deferred(Wrapped(Source(make), cfg, cell, k))
    ensures Perform(s, Discard(k, xs)) ==
            (State(s.slots, s.objects + [cfg.configure(make(xs))], s.disposers[cell := cfg.disposer], s.trace + [Configured(k)]), None)
  {
    var o := |s.objects|;
    var y := s.(objects := s.objects + [make(xs)]);
    assert Invoke(s, Source(make), xs) == (y, o);
    assert Update(y.objects, o, cfg.configure) == s.objects + [cfg.configure(make(xs))];
  }

  /** The action phase of DiscardedEffect: the call runs the configurator on
      a new object that nobody keeps. */
  lemma DiscardedAction(s: State, i: nat, cfg: Configurator, a: Action, args: Args, xs: Args)
    requires i < |s.slots| && s.slots[i].Deferred? && s.slots[i].thunk.Source?
    requires a.steps == [Discard(i, xs)]
    ensures RunAction(Enter(s, i, cfg), a, args) ==
              (State(Enter(s, i, cfg).slots, s.objects + [cfg.configure(s.slots[i].thunk.make(xs))],
                     s.disposers + [cfg.disposer], s.trace + [Acted(args), Configured(i)]),
               a.result(args))
  {
    var make := s.slots[i].thunk.make;
    var cell := |s.disposers|;
    var e := State(s.slots[i := Deferred(Wrapped(Source(make), cfg, cell, i))], s.objects, s.disposers + [None], s.trace);
    assert Enter(s, i, cfg) == e by {
      EnterDeferred(s, i, cfg);
    }
    var x := e.(trace := e.trace + [Acted(args)]);
    var y := State(e.slots, s.objects + [cfg.configure(make(xs))], s.disposers + [cfg.disposer], s.trace + [Acted(args), Configured(i)]);
    assert Perform(x, Discard(i, xs)) == (y, None) by {
      DiscardArmed(x, cfg, i, make, cell, xs);
      assert x.disposers[cell := cfg.disposer] == y.disposers;
      assert x.trace + [Configured(i)] == y.trace;
    }
    ActOneStep(e, a, args, y, None);
  }

  /** A Closure the action calls without storing the result: the configurator
      runs, but the slot still holds a Closure when the action returns, so it
      is restored and no disposer runs. Teardown follows what the slot holds,
      not whether setup happened. */
  lemma DiscardedEffect(s: State, i: nat, cfg: Configurator, a: Action, args: Args, xs: Args)
    requires i < |s.slots| && s.slots[i].Deferred? && s.slots[i].thunk.Source?
    requires a.steps == [Discard(i, xs)]
    ensures WithEffect(s, i, cfg, User(a), args) ==
              (State(s.slots, s.objects + [cfg.configure(s.slots[i].thunk.make(xs))],
                     s.disposers + [cfg.disposer], s.trace + [Acted(args), Configured(i)]),
               a.result(args))
  {
    DiscardedAction(s, i, cfg, a, args, xs);
    var y := RunAction(Enter(s, i, cfg), a, args).0;
    assert Finally(y, i, s.slots[i], |s.disposers|) == y.(slots := s.slots) by {
      assert y.slots[i := s.slots[i]] == s.slots;
    }
    WithEffectPhases(s, i, cfg, a, args);
  }

  // ------------------------------------------------------------ the action runs once

  lemma {:induction false} InvokeActs(s: State, t: Thunk, xs: Args)
    ensures Acts(Invoke(s, t, xs).0.trace) == Acts(s.trace)
  {
    match t
    case Source(_) =>
    case Wrapped(inner, cfg, cell, tag) =>
      InvokeActs(s, inner, xs);
      ActsSnoc(Invoke(s, inner, xs).0.trace, Configured(tag));
  }

  lemma {:induction false} RunStepsActs(s: State, steps: seq<Step>)
    ensures Acts(RunSteps(s, steps).0.trace) == Acts(s.trace)
    decreases |steps|
  {
    if steps != [] {
      var (s1, e) := Perform(s, steps[0]);
      assert Acts(s1.trace) == Acts(s.trace) by {
        match steps[0]
        case Store(i, xs) =>
          if i < |s.slots| && s.slots[i].Deferred? { InvokeActs(s, s.slots[i].thunk, xs); }
        case Discard(i, xs) =>
          if i < |s.slots| && s.slots[i].Deferred? { InvokeActs(s, s.slots[i].thunk, xs); }
        case Bump(_, _) =>
      }
      if e.None? {
        RunStepsActs(s1, steps[1..]);
      }
    }
  }

  lemma RunActionActs(s: State, a: Action, args: Args)
    ensures Acts(RunAction(s, a, args).0.trace) == Acts(s.trace) + 1
  {
    ActsSnoc(s.trace, Acted(args));
    RunStepsActs(s.(trace := s.trace + [Acted(args)]), a.steps);
  }

  lemma EnterActs(s: State, i: nat, cfg: Configurator)
    requires i < |s.slots|
    ensures Acts(Enter(s, i, cfg).trace) == Acts(s.trace)
  {
    ActsSnoc(s.trace, Configured(i));
  }

  lemma FinallyActs(s: State, i: nat, original: Slot, cell: nat)
    requires i < |s.slots| && cell < |s.disposers|
    ensures Acts(Finally(s, i, original, cell).trace) == Acts(s.trace)
  {
    ActsSnoc(s.trace, Disposed(i));
  }

  lemma {:induction false} EnterAllActs(s: State, cfg: Configurator, n: nat)
    requires n <= |s.slots|
    ensures Acts(EnterAll(s, cfg, n).trace) == Acts(s.trace)
    decreases n
  {
    if n > 0 {
      EnterActs(s, n - 1, cfg);
      EnterAllActs(Enter(s, n - 1, cfg), cfg, n - 1);
    }
  }

  lemma {:induction false} LeaveAllActs(s: State, originals: seq<Slot>, base: nat, n: nat)
    requires n <= |s.slots| && n <= |originals| && base + n <= |s.disposers|
    ensures Acts(LeaveAll(s, originals, base, n).trace) == Acts(s.trace)
    decreases n
  {
    if n > 0 {
      LeaveAllActs(s, originals, base + 1, n - 1);
      FinallyActs(LeaveAll(s, originals, base + 1, n - 1), n - 1, originals[n - 1], base);
    }
  }

  /** `withEffect` calls the caller's action exactly once, whatever the slot
      holds and whatever the action does or throws, and returns (or throws)
      what the action returns (or throws). */
  lemma WithEffectActsOnce(s: State, i: nat, cfg: Configurator, a: Action, args: Args)
    requires i < |s.slots|
    ensures Acts(WithEffect(s, i, cfg, User(a), args).0.trace) == Acts(s.trace) + 1
    ensures WithEffect(s, i, cfg, User(a), args).1 == RunAction(Enter(s, i, cfg), a, args).1
  {
    var e := Enter(s, i, cfg);
    EnterActs(s, i, cfg);
    RunActionActs(e, a, args);
    var (s2, _) := RunAction(e, a, args);
    FinallyActs(s2, i, s.slots[i], |s.disposers|);
  }

  /** `withEffectForEach` calls the caller's action exactly once, for any
      number of elements (none included), whatever they hold and whatever the
      action does or throws; the outcome is the action's. */
  lemma ForEachActsOnce(s: State, cfg: Configurator, a: Action, args: Args)
    ensures var (r, out) := WithEffectForEach(s, cfg, a, args);
            Acts(r.trace) == Acts(s.trace) + 1 &&
            out == RunAction(EnterAll(s, cfg, |s.slots|), a, args).1
  {
    var n := |s.slots|;
    ForEachUnfolds(s, cfg, a, args);
    var e := EnterAll(s, cfg, n);
    EnterAllActs(s, cfg, n);
    RunActionActs(e, a, args);
    var (s2, _) := RunAction(e, a, args);
    LeaveAllActs(s2, s.slots, |s.disposers|, n);
  }

  // ------------------------------------------------------------ materialized elements

  /** `after` is `before` with `f` applied to exactly the objects that
      `slots` hold. */
  ghost predicate AppliedOn(slots: seq<Slot>, before: seq<int>, after: seq<int>, f: int -> int)
  {
    |after| == |before| &&
    forall p :: 0 <= p < |before| ==> after[p] == if Materialized(p) in slots then f(before[p]) else before[p]
  }

  /** Applying `f` to object o first, then to the objects of `slots`. */
  lemma AppliedOnFirst(slots: seq<Slot>, o: Ref, before: seq<int>, after: seq<int>, f: int -> int)
    requires o < |before| && Materialized(o) !in slots
    requires AppliedOn(slots, before[o := f(before[o])], after, f)
    ensures AppliedOn(slots + [Materialized(o)], before, after, f)
  {
    forall p | 0 <= p < |before|
      ensures after[p] == if Materialized(p) in slots + [Materialized(o)] then f(before[p]) else before[p]
    {
      assert Materialized(p) in slots + [Materialized(o)] <==> Materialized(p) in slots || p == o;
    }
  }

  /** Applying `f` to the objects of `slots` first, then to object o. */
  lemma AppliedOnLast(slots: seq<Slot>, o: Ref, before: seq<int>, mid: seq<int>, f: int -> int)
    requires o < |before| && Materialized(o) !in slots
    requires AppliedOn(slots, before, mid, f)
    ensures AppliedOn(slots + [Materialized(o)], before, mid[o := f(mid[o])], f)
  {
    forall p | 0 <= p < |before|
      ensures mid[o := f(mid[o])][p] == if Materialized(p) in slots + [Materialized(o)] then f(before[p]) else before[p]
    {
      assert Materialized(p) in slots + [Materialized(o)] <==> Materialized(p) in slots || p == o;
    }
  }

  lemma SliceSnoc(xs: seq<Slot>, n: nat)
    requires 0 < n <= |xs|
    ensures xs[..n] == xs[..n - 1] + [xs[n - 1]]
  {
  }

  lemma EagerNotEarlier(s: State, n: nat)
    requires 0 < n <= |s.slots| && Eager(s, n)
    ensures s.slots[n - 1] !in s.slots[..n - 1]
  {
    forall j | 0 <= j < n - 1
      ensures s.slots[j] != s.slots[n - 1]
    {
    }
  }

  /** The outermost element entered first, when it holds an object. */
  lemma EnterAllHeldStep(s: State, cfg: Configurator, n: nat)
    requires 0 < n <= |s.slots| && s.slots[n - 1].Materialized? && s.slots[n - 1].obj < |s.objects|
    ensures var o := s.slots[n - 1].obj;
            EnterAll(s, cfg, n) ==
              EnterAll(State(s.slots, s.objects[o := cfg.configure(s.objects[o])], s.disposers + [cfg.disposer],
                             s.trace + [Configured(n - 1)]), cfg, n - 1)
  {
    EnterMaterialized(s, n - 1, cfg);
  }

  /** Entering elements that hold objects keeps the slots, records the
      configurator's disposer in each new cell and configures them from the
      last element to the first. */
  lemma {:induction false} EnterAllHeld(s: State, cfg: Configurator, n: nat)
    requires n <= |s.slots| && Held(s, n)
    ensures var r := EnterAll(s, cfg, n);
            r.slots == s.slots && r.disposers == s.disposers + Fill(cfg.disposer, n) &&
            r.trace == s.trace + ConfiguredDown(n)
    decreases n
  {
    if n > 0 {
      var o := s.slots[n - 1].obj;
      var s1 := State(s.slots, s.objects[o := cfg.configure(s.objects[o])], s.disposers + [cfg.disposer], s.trace + [Configured(n - 1)]);
      EnterAllHeldStep(s, cfg, n);
      HeldFrame(s, s1, n, n - 1);
      EnterAllHeld(s1, cfg, n - 1);
      FillCons(s.disposers, cfg.disposer, n);
      TraceCons(s.trace, Configured(n - 1), ConfiguredDown(n - 1));
    }
  }

  /** Entering distinct objects configures each of them once. */
  lemma {:induction false} EnterAllEager(s: State, cfg: Configurator, n: nat)
    requires n <= |s.slots| && Eager(s, n)
    ensures AppliedOn(s.slots[..n], s.objects, EnterAll(s, cfg, n).objects, cfg.configure)
    decreases n
  {
    if n > 0 {
      var o := s.slots[n - 1].obj;
      var s1 := State(s.slots, s.objects[o := cfg.configure(s.objects[o])], s.disposers + [cfg.disposer], s.trace + [Configured(n - 1)]);
      EnterAllHeldStep(s, cfg, n);
      EagerFrame(s, s1, n, n - 1);
      EnterAllEager(s1, cfg, n - 1);
      EagerNotEarlier(s, n);
      SliceSnoc(s.slots, n);
      AppliedOnFirst(s.slots[..n - 1], o, s.objects, EnterAll(s1, cfg, n - 1).objects, cfg.configure);
    }
  }

  /** The last `finally` of LeaveAll, when element n-1 holds an object. */
  lemma LeaveAllHeldStep(s: State, originals: seq<Slot>, base: nat, n: nat, cfg: Configurator)
    requires 0 < n <= |s.slots| && n <= |originals| && base + n <= |s.disposers|
    requires s.slots[n - 1].Materialized? && s.slots[n - 1].obj < |s.objects| && s.disposers[base] == cfg.disposer
    requires LeaveAll(s, originals, base + 1, n - 1).slots == s.slots
    ensures var inner := LeaveAll(s, originals, base + 1, n - 1);
            var o := s.slots[n - 1].obj;
            LeaveAll(s, originals, base, n) ==
              inner.(objects := inner.objects[o := Dispose(cfg, inner.objects[o])], trace := inner.trace + Disposal(cfg, n - 1))
  {
    var inner := LeaveAll(s, originals, base + 1, n - 1);
    var o := s.slots[n - 1].obj;
    if cfg.disposer.None? {
      assert inner.objects[o := inner.objects[o]] == inner.objects;
      assert inner.trace + [] == inner.trace;
    }
  }

  /** Leaving elements that hold objects keeps the slots and traces the
      disposals, if any, first element first. */
  lemma {:induction false} LeaveAllHeld(s: State, originals: seq<Slot>, base: nat, n: nat, cfg: Configurator)
    requires n <= |s.slots| && n <= |originals| && base + n <= |s.disposers| && Held(s, n)
    requires forall c :: base <= c < base + n ==> s.disposers[c] == cfg.disposer
    ensures var r := LeaveAll(s, originals, base, n);
            r.slots == s.slots && r.trace == s.trace + Teardown(cfg, n)
    decreases n
  {
    if n > 0 {
      LeaveAllHeld(s, originals, base + 1, n - 1, cfg);
      LeaveAllHeldStep(s, originals, base, n, cfg);
      if cfg.disposer.Some? {
        assert s.trace + DisposedUp(n - 1) + [Disposed(n - 1)] == s.trace + DisposedUp(n);
      }
    }
  }

  /** Leaving distinct objects runs the disposer, if any, once on each. */
  lemma {:induction false} LeaveAllEager(s: State, originals: seq<Slot>, base: nat, n: nat, cfg: Configurator)
    requires n <= |s.slots| && n <= |originals| && base + n <= |s.disposers| && Eager(s, n)
    requires forall c :: base <= c < base + n ==> s.disposers[c] == cfg.disposer
    ensures AppliedOn(s.slots[..n], s.objects, LeaveAll(s, originals, base, n).objects, Disposing(cfg))
    decreases n
  {
    if n > 0 {
      var o := s.slots[n - 1].obj;
      var inner := LeaveAll(s, originals, base + 1, n - 1).objects;
      assert AppliedOn(s.slots[..n - 1], s.objects, inner, Disposing(cfg)) by {
        EagerFrame(s, s, n, n - 1);
        LeaveAllEager(s, originals, base + 1, n - 1, cfg);
      }
      assert LeaveAll(s, originals, base, n).objects == inner[o := Disposing(cfg)(inner[o])] by {
        LeaveAllHeld(s, originals, base + 1, n - 1, cfg);
        LeaveAllHeldStep(s, originals, base, n, cfg);
      }
      EagerAppliedStep(s, n, inner, Disposing(cfg));
    }
  }

  /** `f` applied to the objects of the first n-1 elements, then to that of
      element n-1, is `f` applied to the objects of the first n. */
  lemma EagerAppliedStep(s: State, n: nat, mid: seq<int>, f: int -> int)
    requires 0 < n <= |s.slots| && Eager(s, n)
    requires AppliedOn(s.slots[..n - 1], s.objects, mid, f)
    ensures var o := s.slots[n - 1].obj;
            AppliedOn(s.slots[..n], s.objects, mid[o := f(mid[o])], f)
  {
    EagerNotEarlier(s, n);
    SliceSnoc(s.slots, n);
    AppliedOnLast(s.slots[..n - 1], s.slots[n - 1].obj, s.objects, mid, f);
  }

  /** `withEffectForEach` over distinct objects with an action that does not
      touch them: every object is configured once and disposed once (+1 and
      +1 in the tests), the slots keep their objects, configurators run from
      the last element to the first, the action runs once, and disposers run
      from the first element to the last. */
  lemma ForEachEager(s: State, cfg: Configurator, a: Action, args: Args)
    requires Eager(s, |s.slots|) && a.steps == []
    ensures var (r, out) := WithEffectForEach(s, cfg, a, args);
            var n := |s.slots|;
            out == a.result(args) && r.slots == s.slots && |r.objects| == |s.objects| &&
            (forall p :: 0 <= p < |s.objects| ==>
               r.objects[p] == if Materialized(p) in s.slots then Finish(cfg, s.objects[p]) else s.objects[p]) &&
            r.trace == s.trace + ConfiguredDown(n) + [Acted(args)] + Teardown(cfg, n)
  {
    var n := |s.slots|;
    ForEachUnfolds(s, cfg, a, args);
    var e := EnterAll(s, cfg, n);
    EnterAllHeld(s, cfg, n);
    EnterAllEager(s, cfg, n);
    var s2 := e.(trace := e.trace + [Acted(args)]);
    assert RunAction(e, a, args) == (s2, a.result(args));
    EagerFrame(s, s2, n, n);
    LeaveEager(s, s2, cfg, n);
  }

  /** The `finally` blocks after an action that did not touch the configured
      objects: `s2` is the state the action left. */
  lemma LeaveEager(s: State, s2: State, cfg: Configurator, n: nat)
    requires n == |s.slots| == |s2.slots| && s2.slots == s.slots && Eager(s, n) && Eager(s2, n)
    requires s2.disposers == s.disposers + Fill(cfg.disposer, n)
    requires AppliedOn(s.slots[..n], s.objects, s2.objects, cfg.configure)
    ensures var r := LeaveAll(s2, s.slots, |s.disposers|, n);
            r.slots == s.slots && |r.objects| == |s.objects| && r.trace == s2.trace + Teardown(cfg, n) &&
            forall p :: 0 <= p < |s.objects| ==>
              r.objects[p] == if Materialized(p) in s.slots then Finish(cfg, s.objects[p]) else s.objects[p]
  {
    var r := LeaveAll(s2, s.slots, |s.disposers|, n);
    assert s.slots[..n] == s.slots;
    forall c | |s.disposers| <= c < |s.disposers| + n
      ensures s2.disposers[c] == cfg.disposer
    {
      assert s2.disposers[c] == Fill(cfg.disposer, n)[c - |s.disposers|];
    }
    LeaveAllHeld(s2, s.slots, |s.disposers|, n, cfg);
    LeaveAllEager(s2, s.slots, |s.disposers|, n, cfg);
  }

  /** Each element's object ends as a lone `withEffect` leaves it (EagerEffect). */
  lemma ForEachEagerElement(s: State, cfg: Configurator, a: Action, args: Args, k: nat)
    requires Eager(s, |s.slots|) && a.steps == [] && k < |s.slots|
    ensures var r := WithEffectForEach(s, cfg, a, args).0;
            r.objects[s.slots[k].obj] == Finish(cfg, s.objects[s.slots[k].obj])
  {
    ForEachEager(s, cfg, a, args);
    assert Materialized(s.slots[k].obj) in s.slots;
  }

  // ------------------------------------------------------------ deferred elements

  /** The Closure element k holds inside the chain built from n elements. */
  function Armed(s: State, cfg: Configurator, n: nat, k: nat): Slot
    requires k < n <= |s.slots| && s.slots[k].Deferred?
  {
    Deferred(Wrapped(s.slots[k].thunk, cfg, |s.disposers| + (n - 1 - k), k))
  }

  /** Entering Closure elements only wraps them: nothing runs, no object
      changes, and every new cell is empty. */
  lemma {:induction false} EnterAllLazy(s: State, cfg: Configurator, n: nat)
    requires n <= |s.slots| && Lazy(s, n)
    ensures var r := EnterAll(s, cfg, n);
            (forall k :: 0 <= k < |s.slots| ==> r.slots[k] == if k < n then Armed(s, cfg, n, k) else s.slots[k]) &&
            r.objects == s.objects && r.trace == s.trace &&
            r.disposers == s.disposers + Fill(None, n)
    decreases n
  {
    if n > 0 {
      var s1 := Enter(s, n - 1, cfg);
      EnterAllLazy(s1, cfg, n - 1);
      assert s1.disposers == s.disposers + [None];
      FillCons(s.disposers, None, n);
      forall k | 0 <= k < n - 1
        ensures Armed(s1, cfg, n - 1, k) == Armed(s, cfg, n, k)
      {
      }
    }
  }

  /** Leaving elements that still hold Closures restores each of them to
      `originals`; nothing else changes. */
  lemma {:induction false} LeaveAllLazy(s: State, originals: seq<Slot>, base: nat, n: nat)
    requires n <= |s.slots| && n <= |originals| && base + n <= |s.disposers| && Lazy(s, n)
    ensures var r := LeaveAll(s, originals, base, n);
            (forall k :: 0 <= k < |s.slots| ==> r.slots[k] == if k < n then originals[k] else s.slots[k]) &&
            r.objects == s.objects && r.trace == s.trace
    decreases n
  {
    if n > 0 {
      LeaveAllLazy(s, originals, base + 1, n - 1);
    }
  }

  /** `withEffectForEach` over Closures that the action never calls: every
      slot gets its original Closure back, no configurator or disposer runs,
      and the action runs once. */
  lemma ForEachCanceled(s: State, cfg: Configurator, a: Action, args: Args)
    requires Lazy(s, |s.slots|) && a.steps == []
    ensures var (r, out) := WithEffectForEach(s, cfg, a, args);
            out == a.result(args) && r.slots == s.slots && r.objects == s.objects &&
            r.trace == s.trace + [Acted(args)]
  {
    var n := |s.slots|;
    ForEachUnfolds(s, cfg, a, args);
    var e := EnterAll(s, cfg, n);
    EnterAllLazy(s, cfg, n);
    var s2 := e.(trace := e.trace + [Acted(args)]);
    assert RunAction(e, a, args) == (s2, a.result(args));
    assert Lazy(s2, n) by {
      forall k | 0 <= k < n ensures s2.slots[k].Deferred? {
        assert s2.slots[k] == Armed(s, cfg, n, k);
      }
    }
    LeaveAllLazy(s2, s.slots, |s.disposers|, n);
  }

  /** One `$values[k] = $values[k](...xs)` on the caller's Closure `make`,
      wrapped by `withEffect` with cell `cell`. */
  lemma StoreArmed(s: State, cfg: Configurator, k: nat, make: Args -> int, cell: nat, xs: Args)
    requires k < |s.slots| && cell < |s.disposers| && s.slots[k] == Deferred(Wrapped(Source(make), cfg, cell, k))
    ensures Perform(s, Store(k, xs)) ==
            (State(s.slots[k := Materialized(|s.objects|)], s.objects + [cfg.configure(make(xs))],
                   s.disposers[cell := cfg.disposer], s.trace + [Configured(k)]), None)
  {
    var o := |s.objects|;
    var y := s.(objects := s.objects + [make(xs)]);
    assert Invoke(s, Source(make), xs) == (y, o);
    assert Update(y.objects, o, cfg.configure) == s.objects + [cfg.configure(make(xs))];
  }

  /** A statement that does not fail is followed by the rest of the action. */
  lemma RunStepsCons(s: State, step: Step, rest: seq<Step>)
    requires Perform(s, step).1.None?
    ensures RunSteps(s, [step] + rest) == RunSteps(Perform(s, step).0, rest)
  {
    assert ([step] + rest)[1..] == rest;
  }

  /** `r` is `s` after the stores of elements k to n-1 (n = |makes|): each
      slot holds its new object, appended in order and configured, each
      element's cell holds the disposer, and the configurator calls are
      traced in order. */
  ghost predicate Stored(s: State, r: State, cfg: Configurator, makes: seq<Args -> int>, xs: Args, base: nat, k: nat)
    requires k <= |makes| <= |s.slots|
  {
    var n := |makes|;
    |r.slots| == |s.slots| &&
    (forall j :: 0 <= j < |s.slots| ==> r.slots[j] == if k <= j < n then Materialized(|s.objects| + (j - k)) else s.slots[j]) &&
    |r.objects| == |s.objects| + (n - k) && r.objects[..|s.objects|] == s.objects &&
    (forall j :: k <= j < n ==> r.objects[|s.objects| + (j - k)] == cfg.configure(makes[j](xs))) &&
    |r.disposers| == |s.disposers| &&
    (forall c :: 0 <= c < |s.disposers| ==> r.disposers[c] == if base <= c < base + (n - k) then cfg.disposer else s.disposers[c]) &&
    r.trace == s.trace + ConfiguredUp(k, n)
  }

  /** One store in front of the stores of elements k+1 to n-1. */
  lemma StoredStep(s: State, s1: State, r: State, cfg: Configurator, makes: seq<Args -> int>, xs: Args, base: nat, k: nat)
    requires k < |makes| <= |s.slots| && base + |makes| <= |s.disposers|
    requires s1 == State(s.slots[k := Materialized(|s.objects|)], s.objects + [cfg.configure(makes[k](xs))],
                         s.disposers[base + (|makes| - 1 - k) := cfg.disposer], s.trace + [Configured(k)])
    requires Stored(s1, r, cfg, makes, xs, base, k + 1)
    ensures Stored(s, r, cfg, makes, xs, base, k)
  {
    var n := |makes|;
    assert r.objects[..|s.objects|] == s.objects by {
      assert r.objects[..|s1.objects|][..|s.objects|] == r.objects[..|s.objects|];
    }
    assert r.objects[|s.objects|] == cfg.configure(makes[k](xs)) by {
      assert r.objects[..|s1.objects|][|s.objects|] == r.objects[|s.objects|];
    }
    assert s.trace + [Configured(k)] + ConfiguredUp(k + 1, n) == s.trace + ([Configured(k)] + ConfiguredUp(k + 1, n));
  }

  /** The action's stores, k to n-1, run in that order on the caller's
      Closures `makes`: each allocates an object, runs the configurator on it
      and records the disposer in the element's cell. */
  lemma {:induction false} RunStores(s: State, cfg: Configurator, makes: seq<Args -> int>, base: nat, k: nat, xs: Args)
    requires k <= |makes| <= |s.slots| && base + |makes| <= |s.disposers|
    requires forall j :: k <= j < |makes| ==> s.slots[j] == Deferred(Wrapped(Source(makes[j]), cfg, base + (|makes| - 1 - j), j))
    ensures var r := RunSteps(s, StoresFrom(k, |makes|, xs));
            r.1 == None && Stored(s, r.0, cfg, makes, xs, base, k)
    decreases |makes| - k
  {
    var n := |makes|;
    if k < n {
      var cell := base + (n - 1 - k);
      var s1 := State(s.slots[k := Materialized(|s.objects|)], s.objects + [cfg.configure(makes[k](xs))],
                      s.disposers[cell := cfg.disposer], s.trace + [Configured(k)]);
      assert Perform(s, Store(k, xs)) == (s1, None) by {
        StoreArmed(s, cfg, k, makes[k], cell, xs);
      }
      RunStepsCons(s, Store(k, xs), StoresFrom(k + 1, n, xs));
      RunStores(s1, cfg, makes, base, k + 1, xs);
      StoredStep(s, s1, RunSteps(s1, StoresFrom(k + 1, n, xs)).0, cfg, makes, xs, base, k);
    }
  }

  /** Entering the caller's Closures `makes` wraps element j with the cell
      of its `withEffect`, |s.disposers| + (n - 1 - j). */
  lemma EnterAllMakes(s: State, cfg: Configurator, makes: seq<Args -> int>)
    requires |makes| == |s.slots| && forall k :: 0 <= k < |s.slots| ==> s.slots[k] == Deferred(Source(makes[k]))
    ensures var n := |s.slots|;
            var x := EnterAll(s, cfg, n);
            x.objects == s.objects && x.trace == s.trace && |x.disposers| == |s.disposers| + n &&
            forall j :: 0 <= j < n ==> x.slots[j] == Deferred(Wrapped(Source(makes[j]), cfg, |s.disposers| + (n - 1 - j), j))
  {
    var n := |s.slots|;
    var x := EnterAll(s, cfg, n);
    EnterAllLazy(s, cfg, n);
    forall j | 0 <= j < n
      ensures x.slots[j] == Deferred(Wrapped(Source(makes[j]), cfg, |s.disposers| + (n - 1 - j), j))
    {
      assert x.slots[j] == Armed(s, cfg, n, j);
    }
  }

  /** Inside all the brackets of `withEffectForEach` over the caller's
      Closures, the action that stores each of them in order. */
  lemma LazyAction(s: State, cfg: Configurator, a: Action, args: Args, makes: seq<Args -> int>, xs: Args)
    requires |makes| == |s.slots| && forall k :: 0 <= k < |s.slots| ==> s.slots[k] == Deferred(Source(makes[k]))
    requires a.steps == StoresFrom(0, |s.slots|, xs)
    ensures var r := RunAction(EnterAll(s, cfg, |s.slots|), a, args);
            var n := |s.slots|;
            r.1 == a.result(args) &&
            Stored(EnterAll(s, cfg, n).(trace := s.trace + [Acted(args)]), r.0, cfg, makes, xs, |s.disposers|, 0)
  {
    var n := |s.slots|;
    var e := EnterAll(s, cfg, n);
    EnterAllMakes(s, cfg, makes);
    var x := e.(trace := e.trace + [Acted(args)]);
    RunStores(x, cfg, makes, |s.disposers|, 0, xs);
  }

  /** Leaving elements that hold the objects base, base+1, ...: each object
      gets the disposer, if any, first element first; older objects are
      untouched. */
  lemma LeaveStored(s: State, originals: seq<Slot>, cells: nat, n: nat, base: nat, cfg: Configurator)
    requires n <= |s.slots| && n <= |originals| && cells + n <= |s.disposers| && |s.objects| == base + n
    requires forall k :: 0 <= k < n ==> s.slots[k] == Materialized(base + k)
    requires forall c :: cells <= c < cells + n ==> s.disposers[c] == cfg.disposer
    ensures var r := LeaveAll(s, originals, cells, n);
            r.slots == s.slots && |r.objects| == base + n && r.objects[..base] == s.objects[..base] &&
            (forall p :: base <= p < base + n ==> r.objects[p] == Dispose(cfg, s.objects[p])) &&
            r.trace == s.trace + Teardown(cfg, n)
  {
    var r := LeaveAll(s, originals, cells, n);
    assert Eager(s, n) by {
      forall j, k | 0 <= j < k < n ensures s.slots[j] != s.slots[k] {
        assert s.slots[j] == Materialized(base + j);
      }
    }
    LeaveAllHeld(s, originals, cells, n, cfg);
    LeaveAllEager(s, originals, cells, n, cfg);
    forall p | base <= p < base + n
      ensures r.objects[p] == Dispose(cfg, s.objects[p])
    {
      assert s.slots[..n][p - base] == Materialized(p);
    }
    forall p | 0 <= p < base
      ensures r.objects[p] == s.objects[p]
    {
      forall j | 0 <= j < n
        ensures s.slots[..n][j] != Materialized(p)
      {
        assert s.slots[..n][j] == Materialized(base + j);
      }
    }
  }

  /** Leaving the elements after the stores: `x` is the state the action
      started in, `s2` the state it ended in. */
  lemma LazyFinish(s: State, x: State, s2: State, cfg: Configurator, makes: seq<Args -> int>, xs: Args, args: Args)
    requires |makes| == |s.slots| == |x.slots| && x.objects == s.objects && x.trace == s.trace + [Acted(args)]
    requires |x.disposers| == |s.disposers| + |s.slots|
    requires Stored(x, s2, cfg, makes, xs, |s.disposers|, 0)
    ensures var n := |s.slots|;
            var base := |s.objects|;
            var r := LeaveAll(s2, s.slots, |s.disposers|, n);
            |r.objects| == base + n && r.objects[..base] == s.objects &&
            (forall k :: 0 <= k < n ==> r.slots[k] == Materialized(base + k) && r.objects[base + k] == Finish(cfg, makes[k](xs))) &&
            r.trace == s.trace + [Acted(args)] + ConfiguredUp(0, n) + Teardown(cfg, n)
  {
    var n := |s.slots|;
    var base := |s.objects|;
    LeaveStored(s2, s.slots, |s.disposers|, n, base, cfg);
    var r := LeaveAll(s2, s.slots, |s.disposers|, n);
    forall k | 0 <= k < n
      ensures r.objects[base + k] == Finish(cfg, makes[k](xs))
    {
      assert s2.objects[base + k] == cfg.configure(makes[k](xs));
    }
  }

  /** The flat form of `withEffectForEach` over the caller's Closures, after
      the action that stores each of them. */
  lemma LazyBrackets(s: State, cfg: Configurator, a: Action, args: Args, makes: seq<Args -> int>, xs: Args)
    requires |makes| == |s.slots| && forall k :: 0 <= k < |s.slots| ==> s.slots[k] == Deferred(Source(makes[k]))
    requires a.steps == StoresFrom(0, |s.slots|, xs)
    ensures var n := |s.slots|;
            var base := |s.objects|;
            var r := LeaveAll(RunAction(EnterAll(s, cfg, n), a, args).0, s.slots, |s.disposers|, n);
            |r.objects| == base + n && r.objects[..base] == s.objects &&
            (forall k :: 0 <= k < n ==> r.slots[k] == Materialized(base + k) && r.objects[base + k] == Finish(cfg, makes[k](xs))) &&
            r.trace == s.trace + [Acted(args)] + ConfiguredUp(0, n) + Teardown(cfg, n)
  {
    var n := |s.slots|;
    LazyAction(s, cfg, a, args, makes, xs);
    EnterAllMakes(s, cfg, makes);
    var x := EnterAll(s, cfg, n).(trace := s.trace + [Acted(args)]);
    LazyFinish(s, x, RunAction(EnterAll(s, cfg, n), a, args).0, cfg, makes, xs, args);
  }

  /** `withEffectForEach` over the caller's Closures `makes`, with an action
      that calls and stores each of them in order: each slot ends with its new
      object, configured at its call and disposed (if a disposer was returned)
      after the action, first element first; the action runs once and its
      outcome is returned, thrown or not. */
  lemma ForEachLazy(s: State, cfg: Configurator, a: Action, args: Args, makes: seq<Args -> int>, xs: Args)
    requires |makes| == |s.slots| && forall k :: 0 <= k < |s.slots| ==> s.slots[k] == Deferred(Source(makes[k]))
    requires a.steps == StoresFrom(0, |s.slots|, xs)
    ensures var (r, out) := WithEffectForEach(s, cfg, a, args);
            var n := |s.slots|;
            var base := |s.objects|;
            out == a.result(args) &&
            |r.objects| == base + n && r.objects[..base] == s.objects &&
            (forall k :: 0 <= k < n ==> r.slots[k] == Materialized(base + k) && r.objects[base + k] == Finish(cfg, makes[k](xs))) &&
            r.trace == s.trace + [Acted(args)] + ConfiguredUp(0, n) + Teardown(cfg, n)
  {
    ForEachUnfolds(s, cfg, a, args);
    LazyAction(s, cfg, a, args, makes, xs);
    LazyBrackets(s, cfg, a, args, makes, xs);
  }
}
