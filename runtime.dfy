/** `Mpyw\Unclosure\Value` (src/Value.php) as the code runs it: the caller's
    slots, objects, the `$disposer` cells and the trace are fields that the
    two effect operations overwrite step by step. Each method is proved to
    leave exactly the state, and return exactly the outcome, that the
    functions of module Effects give. */
module Unclosure {
  import opened Effects

  class Runtime {
    var slots: seq<Slot>
    var objects: seq<int>
    var disposers: seq<Option<Disposer>>
    var trace: seq<Event>

    function Snapshot(): State
      reads this
    {
      State(slots, objects, disposers, trace)
    }

    /** The caller's variables and objects, before any call. */
    constructor (slots: seq<Slot>, objects: seq<int>)
      ensures Snapshot() == State(slots, objects, [], [])
    {
      this.slots := slots;
      this.objects := objects;
      this.disposers := [];
      this.trace := [];
    }

    /** `Value::withEffect($values[i], $configurator, $callback, ...$args)`. */
    method WithEffect(i: nat, configurator: Configurator, callback: Callable, args: Args) returns (out: Outcome)
      requires i < |slots| && Fits(callback, |slots|)
      modifies this
      ensures (Snapshot(), out) == Effects.WithEffect(old(Snapshot()), i, configurator, callback, args)
      decreases callback, 1
    {
      var original := slots[i];
      var cell := |disposers|;
      disposers := disposers + [None];
      match original {
        case Materialized(o) =>
          // withCallback calls the configurator closure at once; it stores
          // the configurator's return value and gives back the same object
          objects := Update(objects, o, configurator.configure);
          disposers := disposers[cell := configurator.disposer];
          trace := trace + [Configured(i)];
          slots := slots[i := Materialized(o)];
        case Deferred(t) =>
          slots := slots[i := Deferred(Wrapped(t, configurator, cell, i))];
      }
      ghost var entered := Snapshot();
      assert entered == Enter(old(Snapshot()), i, configurator);
      out := Call(callback, args);
      // finally
      var effected := slots[i];
      if effected.Deferred? {
        slots := slots[i := original];
      } else if disposers[cell].Some? {
        objects := Update(objects, effected.obj, disposers[cell].value.dispose);
        trace := trace + [Disposed(i)];
      }
    }

    /** Calls `callable` with `args`. */
    method Call(callable: Callable, args: Args) returns (out: Outcome)
      requires Fits(callable, |slots|)
      modifies this
      ensures (Snapshot(), out) == Effects.Call(old(Snapshot()), callable, args)
      decreases callable, 0
    {
      match callable
      case User(a) =>
        out := Act(a, args);
      case Bound(a, captured) =>
        out := Act(a, captured);
      case Scoped(k, cfg, inner) =>
        out := WithEffect(k, cfg, inner, []);
    }

    /** The caller's action: code outside the library, given by its effect. */
    method Act(a: Action, args: Args) returns (out: Outcome)
      modifies this
      ensures (Snapshot(), out) == RunAction(old(Snapshot()), a, args)
    {
      var r := RunAction(Snapshot(), a, args);
      slots, objects, disposers, trace := r.0.slots, r.0.objects, r.0.disposers, r.0.trace;
      out := r.1;
    }

    /** `Value::withEffectForEach($values, $configurator, $callback, ...$args)`. */
    method WithEffectForEach(configurator: Configurator, callback: Action, args: Args) returns (out: Outcome)
      modifies this
      ensures (Snapshot(), out) == Effects.WithEffectForEach(old(Snapshot()), configurator, callback, args)
    {
      var current := Bound(callback, args);
      var k := 0;
      while k < |slots|
        invariant k <= |slots|
        invariant current == Chain(configurator, callback, args, k)
      {
        current := Scoped(k, configurator, current);
        k := k + 1;
      }
      out := Call(current, []);
    }
  }
}
