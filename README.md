# unclosure in Dafny

A model of `Mpyw\Unclosure\Value` (src/Value.php), a PHP helper for values
that are either *materialized* (any value that is not a `Closure`) or
*deferred* (a `Closure` that will produce the value once called with some
initial arguments). It has three operations:

- `withCallback($value, $callback, ...$args)`: applies the callback now to a
  materialized value; for a Closure, returns a new Closure that resolves the
  original and then applies the callback.
- `withEffect(&$value, $configurator, $callback, ...$args)`: a scoped
  acquire/release on a variable passed by reference. The variable is replaced
  by `withCallback` of a closure that runs the configurator and keeps its
  return value as `$disposer`. Then the callback runs. In `finally`, a
  variable that still holds a Closure gets its original back; otherwise a
  callable `$disposer` is called on the variable's final content.
- `withEffectForEach(&$values, ...)`: `withEffect` on every element of an
  array by reference, built as a chain of closures and called once.

The project has two layers.

- **Values** (`closures.dfy`, module `Closures`). `withCallback` is pure:
  - a value is `Materialized(x)` or `Deferred(f)`, where `f` is a Dafny
    function of the initial arguments;
  - `withCallback` is a function, proved to compose.
- **Effects** (`effects.dfy`, `nesting.dfy`, `cells.dfy`, `properties.dfy`, `runtime.dfy`).
  `withEffect` and `withEffectForEach` change state, so the model makes that
  state explicit. `State` holds:
  - the caller's by-reference variables (`slots`). Each slot holds an object
    reference or a Closure;
  - the objects. Each object has the one integer property `value` that the
    repository's tests increment;
  - one `$disposer` cell per `withEffect` call;
  - a trace of configurator, disposer and action calls.

  Closures are data:
  - `Thunk` is the caller's Closure, or the wrapper `withCallback` builds
    around the configurator closure;
  - `Callable` is the caller's callback, or one of the two closures of the
    `withEffectForEach` chain.

  The caller's callback is a small statement list (`Action`). It can:
  - call a slot and store the result;
  - call a slot and discard the result;
  - add to an object's `value`.

  It then returns or throws.

  Module `Effects` gives the semantics as functions. Module `Unclosure`
  holds class `Runtime`, whose fields are the state. Its methods `WithEffect`
  and `WithEffectForEach` update those fields the way the PHP code does:
  - `WithEffect` saves the slot, assigns the wrapper and calls the callback,
    then runs the `finally` branch;
  - `WithEffectForEach` runs a loop that reassigns `current`, then makes one
    call.

  Each method is proved to end in exactly the state, and with exactly the
  outcome, that the functions give. Module `Nesting` proves the shape of the
  chain:
  - elements are entered from the last to the first;
  - the action runs once;
  - the `finally` blocks then run from the first element to the last.

  Module `Properties` proves what the library promises about slots,
  objects, counts, order and outcome. Module `Scenarios` instantiates those
  lemmas on the repository's test cases (tests/SimpleValueTest.php).

Order of the elements. Each iteration of the loop at src/Value.php:56-60
wraps the chain built so far, so the last element's `withEffect` is the
outermost. Therefore:
- materialized elements are configured from the last to the first;
- they are disposed from the first to the last (`Properties.ForEachEager`).

Disposer cells. Each `withEffect` call has its own `$disposer`
(src/Value.php:21), and only the closure created by that same call assigns
it (src/Value.php:25). Module `Cells` states this as the invariant `Wired`:
every cell that a Closure in the slots can write already exists. Both effect
operations preserve it (`Cells.WithEffectWired`, `Cells.ForEachWired`), and
slots holding only the caller's own Closures satisfy it
(`Cells.SourcesWired`). Under that invariant, `Properties.AnyActionDisposes`
states what `withEffect` does on an object slot for every action.

Teardown follows the slot. The `finally` block looks only at what the slot
holds at the end, not at whether the configurator ran. If the action calls
the wrapped Closure but does not store the result, the configurator has run
and a disposer was recorded. Even so, the slot is restored and no disposer
is called (`Properties.DiscardedEffect`).

## Model

| member | source | states |
|---|---|---|
| Closures.WithCallback | src/Value.php:74-81 | the result is a Closure exactly when the input is one (both directions) |
| Closures.WithCallbackOnMaterialized | src/Value.php:80 | a materialized value yields `callback(value, ...args)` at once, as a materialized value |
| Closures.WithCallbackOnDeferred | src/Value.php:76-79 | a Closure yields a Closure whose call with `initialArgs` equals `callback(original(...initialArgs), ...args)` |
| Closures.ForceWithCallback | src/Value.php:76-80 | for either kind, resolving the decorated value equals applying the callback to the resolved original |
| Closures.WithCallbackTwice | src/Value.php:76-80 | two decorations keep the kind and apply in the order they were made |
| Closures.EagerCallbackScenario | tests/SimpleValueTest.php:12-26 | 1 decorated with `+10` then `*5` is the materialized 55 |
| Closures.LazyCallbackScenario | tests/SimpleValueTest.php:28-44 | the identity Closure decorated with `+10` then `*5` is still a Closure, and calling it with 1 gives 55 |
| Effects.Invoke | src/Value.php:24-27 | calling a slot's Closure leaves the slots alone and allocates exactly one new object, whose reference it returns |
| Effects.Enter | src/Value.php:20-27 | the setup of `withEffect` adds one `$disposer` cell, changes no other slot, and keeps the slot's kind (object stays object, Closure stays Closure) |
| Effects.Configure | src/Value.php:25-26 | the configurator closure leaves the slots alone and adds no object or cell; its content (the `value` update, the stored disposer and the Configured event) is used by Properties.EnterMaterialized and the Lazy lemmas |
| Effects.Finally | src/Value.php:30-38 | the `finally` block keeps every cell and every other slot. If slot i still holds a Closure, it gets the original back, and the objects and the trace are unchanged, so no disposer runs. Otherwise the slot keeps its object; whether the disposer then runs is stated, for an object slot, by Properties.AnyActionDisposes |
| Effects.Call | src/Value.php:29 | calling any callable of the chain keeps the number of slots and never removes an object or a cell; what it does is given by Nesting.Unfold and the Properties lemmas |
| Effects.WithEffect | src/Value.php:18-39 | the contract states sizes only: the slots keep their number and at least one cell, the call's own `$disposer`, is added. The content is given by Properties.AnyActionDisposes, Properties.AnyActionRestores, Properties.WithEffectActsOnce and the single-slot lemmas, and Unclosure.Runtime.WithEffect is proved equal to it |
| Effects.WithEffectForEach | src/Value.php:50-64 | the contract states sizes only. The content is given by Nesting.ForEachUnfolds and the ForEach lemmas of Properties |
| Nesting.EnterAll | src/Value.php:56-60 | entering n elements keeps the slots' number and the objects' number, and adds exactly n cells, one per element |
| Nesting.LeaveAll | src/Value.php:30-38 | running n `finally` blocks keeps every cell and the numbers of slots and objects |
| Effects.Chain | src/Value.php:52-60 | the closure chain over n elements only refers to slots below n |
| Nesting.Unfold | src/Value.php:52-63 | calling the chain of n elements equals entering elements n-1 down to 0, running the action once, then running the `finally` blocks of elements 0 up to n-1, each given that element's original content, which it restores if the slot still holds a Closure; the outcome is the action's |
| Nesting.ForEachUnfolds | src/Value.php:50-64 | `withEffectForEach` is the flat enter-all / act / leave-all form of Unfold over the whole array |
| Nesting.ForEachEmpty | src/Value.php:52-54 | with an empty array the action is called directly with the caller's args |
| Properties.EagerEffect | src/Value.php:18-39 | on an object slot with an action that has no statements, the whole result is known: the slot keeps its object; the object's `value` is configured and then disposed (if a disposer was returned); the trace is configure, act, dispose; the outcome is the action's |
| Properties.AnyActionDisposes | src/Value.php:23-38 | on an object slot in a wired state, for any action, returning or throwing: the configurator runs before the action; the slot still holds its object afterwards; the disposer, if the configurator returned one, then runs exactly once on the object as the action left it; and the action's outcome is returned or rethrown |
| Properties.AnyActionRestores | src/Value.php:30-34 | for any action, returning or throwing: if the slot still holds a Closure when the action ends, the result of `withEffect` is the state the action left, with that slot's original content put back and nothing disposed, and the outcome is the action's |
| Cells.ActionKeeps | src/Value.php:24-27 | any action keeps the Closures in the slots below a bound, never writes a cell at or above it, and never replaces an object in a slot |
| Cells.WithEffectWired | src/Value.php:18-39 | `withEffect` keeps the state wired: every cell a Closure can write exists |
| Cells.ForEachWired | src/Value.php:50-64 | `withEffectForEach` keeps the state wired |
| Cells.SourcesWired | src/Value.php:21 | slots holding only the caller's own Closures are wired |
| Properties.DisposerSeesFinalValue | src/Value.php:30-36 | the disposer is called on the object as the action left it (configured value plus the action's change) |
| Properties.FailingActionStillDisposes | src/Value.php:23-38 | an action that throws still gets the `finally` block (the object is disposed), and its exception is what `withEffect` throws |
| Properties.LazyEffect | src/Value.php:24-36 | on a Closure slot that the action calls and stores, the configurator runs at that call on the new object, the disposer runs after the action, and the slot keeps the new object |
| Properties.CanceledEffect | src/Value.php:31-34 | on a Closure slot the action never calls, the slot gets its original Closure back, no object is created, and neither configurator nor disposer runs |
| Properties.DiscardedEffect | src/Value.php:24-34 | a Closure slot whose wrapper the action calls without storing the result is restored without disposal, although the configurator ran |
| Properties.WithEffectActsOnce | src/Value.php:29 | for any slot and any action, the action is called exactly once, and its outcome, returned or thrown, is `withEffect`'s |
| Properties.ForEachActsOnce | src/Value.php:52-63 | for any array, empty included, and any action, `withEffectForEach` calls the action exactly once, and the outcome is the action's |
| Properties.ForEachEager | src/Value.php:50-64 | over distinct objects: the slots keep their objects; each held object is configured once and disposed once, and no other object changes; the trace is configure(n-1) ... configure(0), act, dispose(0) ... dispose(n-1) |
| Properties.ForEachEagerElement | src/Value.php:50-64 | each element's object ends as a lone `withEffect` leaves it |
| Properties.ForEachCanceled | src/Value.php:50-64 | over Closures the action never calls: every slot gets its Closure back, objects are unchanged, and only the action appears in the trace |
| Properties.ForEachLazy | src/Value.php:50-64 | over Closures the action calls and stores in order: each slot ends with its new object, configured at its call and disposed after the action; older objects are unchanged; the trace is act, configure(0) ... configure(n-1), dispose(0) ... dispose(n-1) |
| Unclosure.Runtime.constructor | src/Value.php:18 | a runtime starts with the caller's slots and objects, no `$disposer` cell and an empty trace |
| Unclosure.Runtime.WithEffect | src/Value.php:18-39 | the method that assigns the slot, captures `$disposer`, calls the callback and runs `finally` ends in exactly the state and outcome of `Effects.WithEffect` |
| Unclosure.Runtime.Call | src/Value.php:52-59 | calling one closure of the chain ends in exactly the state and outcome of `Effects.Call` |
| Unclosure.Runtime.WithEffectForEach | src/Value.php:50-64 | the loop builds exactly the closure chain (loop invariant), and the single call ends in exactly the state and outcome of `Effects.WithEffectForEach` |
| Scenarios.EagerEffectScenario | tests/SimpleValueTest.php:46-87 | 123 is returned, and the object's `value` ends at 1, or at 2 with the disposer |
| Scenarios.LazyEffectScenario | tests/SimpleValueTest.php:89-141 | the stored slot holds the new object, whose `value` ends at 1, or at 2 with the disposer, and 123 is returned |
| Scenarios.CanceledEffectScenario | tests/SimpleValueTest.php:143-164 | the slot has its Closure back, and calling it with 0 gives an object with `value` 0 |
| Scenarios.MultiEagerScenario | tests/SimpleValueTest.php:166-208 | the two objects end at 1 and 1001, or at 2 and 1002 with the disposer |
| Scenarios.TwoClosuresMake | tests/SimpleValueTest.php:210-276 | two Closures called and stored by the action end as two objects holding the configured-and-disposed initial values |
| Scenarios.MultiLazyScenario | tests/SimpleValueTest.php:210-240 | both slots end with objects, at 1 and 1001 |
| Scenarios.MultiLazyWithDisposersScenario | tests/SimpleValueTest.php:242-276 | both slots end with objects, at 2 and 1002 |
| Scenarios.MultiCanceledScenario | tests/SimpleValueTest.php:278-305 | both slots get their Closures back; calling them gives objects at 0 and 1000 |
| Scenarios.EagerEffectClient | tests/SimpleValueTest.php:65-87 | one `withEffect` call on a fresh runtime returns 123 and leaves the object at 2 |

## Left out

- phpstan/CallableReturnTypeExtension.php, the static-analysis plugin, is not part of this model. It depends on PHPStan classes that are not available. The only trace of it here is that `Closures.WithCallback` keeps the kind of the value.
- A configurator or disposer that throws, and PHP's rule that an exception thrown in `finally` replaces the action's. Configurators and disposers are total functions on `value`.
- The disposer is fixed per configurator (`Configurator.disposer`), not computed from the object the configurator was called on. The repository's configurators return the same closure whatever the object.
- `is_callable($disposer)` is modelled as `Option`: any non-callable return value is `None`. Strings and arrays as callables are not distinguished.
- In module `Effects`, slots hold objects or Closures only. Other materialized values, such as scalars and non-Closure callables, are covered only in module `Closures`.
- Objects have one integer property. Calling one of the caller's Closures always creates a new object. A Closure that returns an existing object is not modelled.
- The caller's callback is the statement list `Action`, not arbitrary PHP code. It can call and store a slot, call a slot and discard the result, and add to an object's `value`. What it finally returns or throws is any function of its arguments.
- Properties.EagerEffect: gives the full result only for an action with no statements. For any action, Properties.AnyActionDisposes covers an object slot.
- Properties.DisposerSeesFinalValue: gives the full result only for an action of one Bump. It is an instance of Properties.AnyActionDisposes that needs no `Wired` requirement.
- Properties.FailingActionStillDisposes: gives the full result only for one failing Store. Properties.AnyActionDisposes covers every action, returning or throwing, on an object slot.
- Properties.LazyEffect: gives the full result only for an action that calls and stores the slot once.
- Properties.CanceledEffect: gives the full result only for an action with no statements. For a Closure slot and any action, Properties.AnyActionRestores gives the restore and the absence of disposal whenever the slot still holds a Closure at the end.
- Properties.DiscardedEffect: gives the full result only for an action that calls the slot once and discards the result.
- Properties.ForEachEager: states the result only for an action that does not touch the slots, over distinct objects.
- Properties.ForEachEagerElement: has the same limits as Properties.ForEachEager, from which it follows.
- Properties.ForEachLazy: states the result only for an action that calls and stores every slot in order, as in the tests.
- Properties.AnyActionDisposes: requires `Wired`, which holds for every state the library can produce from the caller's own Closures (module `Cells`). A caller-made state whose Closures already write the new cell is not covered.
- Effects.Finally: its own contract states the Closure branch completely. For the object branch it states only that the slot keeps its object; Properties.AnyActionDisposes states the disposal.
- Effects.WithEffect, Effects.Configure, Effects.Call, Effects.WithEffectForEach, Nesting.EnterAll, Nesting.LeaveAll: their own contracts state sizes and frames only. Their content is carried by the lemmas of modules Nesting, Properties and Cells.
- Variadic arguments are one sequence of integers (`Args`). PHP types and argument unpacking are not modelled.
- PHP references are slot indices. The by-reference `foreach` variable and `unset($value)` (src/Value.php:61) become the index each closure of the chain stores. Aliasing between two slots is not modelled.
- Integers are unbounded. PHP's integer overflow into floats is not modelled.
- Unclosure.Runtime.Act: the caller's callback is code outside the library, so the method assigns the result of `Effects.RunAction` instead of executing statements one by one.
