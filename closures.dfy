/** `Value::withCallback` (src/Value.php:74-81), on plain values.

    A value is either materialized or deferred. Deferred means a PHP Closure: a
    computation of the initial arguments its eventual caller passes. Any other
    value, callables that are not Closures included, is materialized. The
    callback and the deferred computation are free of side effects here; the
    effectful use of `withCallback` inside `withEffect` is modelled in module
    Effects. */
module Closures {

  /** A value as `withCallback` tells its two cases apart (the `instanceof
      Closure` test at src/Value.php:76). */
  datatype Value<T, !A> = Materialized(value: T) | Deferred(call: seq<A> -> T)

  /** Decorates `v` with `callback`: applied now to a materialized value,
      composed after a deferred one. The result has the same kind as `v`
      (the result type the static-analysis consumer derives). */
  function WithCallback<T, A, X, R>(v: Value<T, A>, callback: (T, seq<X>) -> R, args: seq<X>): (r: Value<R, A>)
    ensures r.Deferred? <==> v.Deferred?
  {
    match v
    case Deferred(f) => Deferred(initial => callback(f(initial), args))
    case Materialized(x) => Materialized(callback(x, args))
  }

  /** What the holder of `v` ends up with once it needs the real value: the
      value itself, or the Closure's result for the initial arguments. */
  function Force<T, A>(v: Value<T, A>, initial: seq<A>): T
  {
    match v
    case Materialized(x) => x
    case Deferred(f) => f(initial)
  }

  /** A materialized value yields exactly `callback(value, ...args)`, at once. */
  lemma WithCallbackOnMaterialized<T, A, X, R>(x: T, callback: (T, seq<X>) -> R, args: seq<X>)
    ensures WithCallback(Materialized(x), callback, args) == Value<R, A>.Materialized(callback(x, args))
  {
  }

  /** A Closure yields a new Closure; calling it with `initial` resolves the
      original with `initial` and then applies the callback with `args`. */
  lemma WithCallbackOnDeferred<T, A, X, R>(f: seq<A> -> T, callback: (T, seq<X>) -> R, args: seq<X>, initial: seq<A>)
    ensures WithCallback(Deferred(f), callback, args).Deferred?
    ensures WithCallback(Deferred(f), callback, args).call(initial) == callback(f(initial), args)
  {
  }

  /** Both cases at once: forcing the decorated value is applying the callback
      to the forced original. */
  lemma ForceWithCallback<T, A, X, R>(v: Value<T, A>, callback: (T, seq<X>) -> R, args: seq<X>, initial: seq<A>)
    ensures Force(WithCallback(v, callback, args), initial) == callback(Force(v, initial), args)
  {
  }

  /** Two decorations apply in the order they were made, whatever the kind. */
  lemma WithCallbackTwice<T, A, X, R, S>(v: Value<T, A>, f: (T, seq<X>) -> R, a: seq<X>, g: (R, seq<X>) -> S, b: seq<X>, initial: seq<A>)
    ensures WithCallback(WithCallback(v, f, a), g, b).Deferred? <==> v.Deferred?
    ensures Force(WithCallback(WithCallback(v, f, a), g, b), initial) == g(f(Force(v, initial), a), b)
  {
    ForceWithCallback(v, f, a, initial);
    ForceWithCallback(WithCallback(v, f, a), g, b, initial);
  }

  /** `function ($value, $plus) { return $value + $plus; }`. PHP throws
      ArgumentCountError when `$plus` is missing; this total version returns
      the value unchanged instead. The scenarios always pass the argument. */
  function Plus(v: int, args: seq<int>): int
  {
    if |args| == 0 then v else v + args[0]
  }

  /** `function ($value, $mul) { return $value * $mul; }`, totalised as Plus is. */
  function Times(v: int, args: seq<int>): int
  {
    if |args| == 0 then v else v * args[0]
  }

  /** `function (int $initialValue) { return $initialValue; }`, totalised to
      0 for a missing argument, where PHP throws ArgumentCountError. */
  function Identity(xs: seq<int>): int
  {
    if |xs| == 0 then 0 else xs[0]
  }

  /** The eager scenario: 1, then `+10`, then `*5`, gives 55 right away. */
  lemma EagerCallbackScenario()
    ensures WithCallback(WithCallback(Value<int, int>.Materialized(1), Plus, [10]), Times, [5]) == Materialized(55)
  {
  }

  /** The lazy scenario: the identity Closure, then `+10`, then `*5`, is still
      a Closure, and calling it with 1 gives 55. */
  lemma LazyCallbackScenario()
    ensures var v := WithCallback(WithCallback(Deferred(Identity), Plus, [10]), Times, [5]);
      v.Deferred? && v.call([1]) == 55
  {
    WithCallbackTwice(Deferred(Identity), Plus, [10], Times, [5], [1]);
  }
}
