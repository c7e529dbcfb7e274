/** The effect scenarios of tests/SimpleValueTest.php, as instances of the
    general lemmas of module Properties. Objects are `(object)['value' => n]`;
    the configurators increment `value` and return nothing (no disposer), or
    return a disposer that increments it once more; the callback returns its
    argument, 123. */
module Scenarios {
  import opened Effects
  import opened Properties
  import Unclosure

  /** `function ($value) { ++$value->value; }` */
  const Increment: Configurator := Configurator(x => x + 1, None)

  /** The same, returning `function ($value) { ++$value->value; }` as disposer. */
  const IncrementTwice: Configurator := Configurator(x => x + 1, Some(Disposer(x => x + 1)))

  /** `function ($arg) { return $arg; }`, totalised to 0 for a missing
      argument, where PHP throws ArgumentCountError; the tests pass 123. */
  function Echo(args: Args): Outcome
  {
    if |args| == 0 then Returned(0) else Returned(args[0])
  }

  /** `function (int $initialValue) { return (object)['value' => $initialValue]; }`,
      totalised in the same way as Echo; the tests pass 0. */
  function FromInitial(xs: Args): int
  {
    if |xs| == 0 then 0 else xs[0]
  }

  /** The test's one object, `value` 0, in slot 0. */
  const OneObject: State := State([Materialized(0)], [0], [], [])

  /** The test's one Closure in slot 0, no object yet. */
  const OneClosure: State := State([Deferred(Source(FromInitial))], [], [], [])

  /** Two objects, `value` 0 and 1000. */
  const TwoObjects: State := State([Materialized(0), Materialized(1)], [0, 1000], [], [])

  /** Two Closures creating objects with `value` 0 and 1000. */
  const TwoClosures: State := State([Deferred(Source(_ => 0)), Deferred(Source(_ => 1000))], [], [], [])

  /** testEagerEffect and testEagerEffectWithDisposer: 123 is returned and
      the object ends at 1, or at 2 with the disposer. */
  lemma EagerEffectScenario()
    ensures WithEffect(OneObject, 0, Increment, User(Action([], Echo)), [123]).1 == Returned(123)
    ensures WithEffect(OneObject, 0, Increment, User(Action([], Echo)), [123]).0.objects == [1]
    ensures WithEffect(OneObject, 0, IncrementTwice, User(Action([], Echo)), [123]).0.objects == [2]
    ensures WithEffect(OneObject, 0, IncrementTwice, User(Action([], Echo)), [123]).0.slots == [Materialized(0)]
  {
    EagerEffect(OneObject, 0, Increment, Action([], Echo), [123]);
    EagerEffect(OneObject, 0, IncrementTwice, Action([], Echo), [123]);
  }

  /** testLazyEffect and testLazyEffectWithDisposer: the callback runs
      `$value = $value(0)`; the slot then holds an object whose `value` is 1,
      or 2 with the disposer. */
  lemma LazyEffectScenario()
    ensures var r := WithEffect(OneClosure, 0, Increment, User(Action([Store(0, [0])], Echo)), [123]);
            r.1 == Returned(123) && r.0.slots == [Materialized(0)] && r.0.objects == [1]
    ensures var r := WithEffect(OneClosure, 0, IncrementTwice, User(Action([Store(0, [0])], Echo)), [123]);
            r.1 == Returned(123) && r.0.slots == [Materialized(0)] && r.0.objects == [2]
  {
    LazyEffect(OneClosure, 0, Increment, Action([Store(0, [0])], Echo), [123], [0]);
    LazyEffect(OneClosure, 0, IncrementTwice, Action([Store(0, [0])], Echo), [123], [0]);
  }

  /** testCanceledEffect: the callback does not touch the Closure; the slot
      gets it back, and calling it with 0 gives an object with `value` 0. */
  lemma CanceledEffectScenario()
    ensures var r := WithEffect(OneClosure, 0, Increment, User(Action([], Echo)), [123]);
            r.1 == Returned(123) && r.0.slots == OneClosure.slots && r.0.objects == [] &&
            Invoke(r.0, r.0.slots[0].thunk, [0]).0.objects == [0]
  {
    CanceledEffect(OneClosure, 0, Increment, Action([], Echo), [123]);
  }

  /** testMultiEagerEffects and its disposer variant: the objects end at 1
      and 1001, or at 2 and 1002. */
  lemma MultiEagerScenario()
    ensures var r := WithEffectForEach(TwoObjects, Increment, Action([], Echo), [123]);
            r.1 == Returned(123) && r.0.objects == [1, 1001]
    ensures var r := WithEffectForEach(TwoObjects, IncrementTwice, Action([], Echo), [123]);
            r.1 == Returned(123) && r.0.objects == [2, 1002]
  {
    assert Eager(TwoObjects, 2);
    ForEachEager(TwoObjects, Increment, Action([], Echo), [123]);
    assert Materialized(0) in TwoObjects.slots && Materialized(1) in TwoObjects.slots;
    ForEachEager(TwoObjects, IncrementTwice, Action([], Echo), [123]);
  }

  /** The callback of testMultiLazyEffects: `$values[0] = $values[0]();
      $values[1] = $values[1]();`, then `return $arg;`. */
  function CallBoth(): Action
  {
    Action([Store(0, []), Store(1, [])], Echo)
  }

  /** The caller's Closures of the multi-element lazy tests. */
  lemma TwoClosuresMake(cfg: Configurator)
    ensures var makes: seq<Args -> int> := [_ => 0, _ => 1000];
            var r := WithEffectForEach(TwoClosures, cfg, CallBoth(), [123]);
            r.1 == Returned(123) && r.0.slots == [Materialized(0), Materialized(1)] &&
            r.0.objects == [Finish(cfg, makes[0]([])), Finish(cfg, makes[1]([]))]
  {
    var makes: seq<Args -> int> := [_ => 0, _ => 1000];
    assert TwoClosures.slots == [Deferred(Source(makes[0])), Deferred(Source(makes[1]))];
    assert CallBoth().steps == StoresFrom(0, 2, []);
    ForEachLazy(TwoClosures, cfg, CallBoth(), [123], makes, []);
    var r := WithEffectForEach(TwoClosures, cfg, CallBoth(), [123]).0;
    assert r.slots == [r.slots[0], r.slots[1]];
    assert r.objects == [r.objects[0], r.objects[1]];
  }

  /** testMultiLazyEffects: both slots end with an object, at 1 and 1001. */
  lemma MultiLazyScenario()
    ensures var r := WithEffectForEach(TwoClosures, Increment, CallBoth(), [123]);
            r.1 == Returned(123) && r.0.slots == [Materialized(0), Materialized(1)] && r.0.objects == [1, 1001]
  {
    TwoClosuresMake(Increment);
  }

  /** testMultiLazyEffectsWithDisposers: the objects end at 2 and 1002. */
  lemma MultiLazyWithDisposersScenario()
    ensures var r := WithEffectForEach(TwoClosures, IncrementTwice, CallBoth(), [123]);
            r.1 == Returned(123) && r.0.slots == [Materialized(0), Materialized(1)] && r.0.objects == [2, 1002]
  {
    TwoClosuresMake(IncrementTwice);
  }

  /** testMultiCanceledEffects: both slots get their Closures back; calling
      them gives objects with `value` 0 and 1000. */
  lemma MultiCanceledScenario()
    ensures var r := WithEffectForEach(TwoClosures, Increment, Action([], Echo), [123]);
            r.1 == Returned(123) && r.0.slots == TwoClosures.slots && r.0.objects == [] &&
            Invoke(r.0, r.0.slots[0].thunk, []).0.objects == [0] &&
            Invoke(r.0, r.0.slots[1].thunk, []).0.objects == [1000]
  {
    ForEachCanceled(TwoClosures, Increment, Action([], Echo), [123]);
  }

  /** testEagerEffectWithDisposer driven through the class: a fresh runtime
      holding the object, one `withEffect` call. */
  method EagerEffectClient() returns (out: Outcome, objects: seq<int>)
    ensures out == Returned(123) && objects == [2]
  {
    var rt := new Unclosure.Runtime([Materialized(0)], [0]);
    out := rt.WithEffect(0, IncrementTwice, User(Action([], Echo)), [123]);
    objects := rt.objects;
    EagerEffectScenario();
  }
}
