/** The semantics of `Value::withEffect` and `Value::withEffectForEach`
    (src/Value.php:18-64) as functions on an explicit state.

    The state is what the two operations can observe or change:
    - `slots`: the caller's variables passed by reference (`&$value`, or the
      elements of `&$values`), each holding an object or a Closure;
    - `objects`: the objects the slots refer to; each has one integer
      property, `value`, as the objects of the repository's tests do;
    - `disposers`: one cell per `withEffect` call, the local `$disposer` that
      the configurator closure assigns through a captured reference;
    - `trace`: the configurator, disposer and action calls, in order.
    Closures are data here (Thunk, Callable) rather than Dafny functions,
    because calling them changes the state. */
module Effects {

  type Args = seq<int>

  /** An object: an index into `State.objects`. */
  type Ref = nat

  datatype Option<T> = None | Some(value: T)

  /** A disposer returned by a configurator; it is handed the slot's final
      object and updates that object's `value`. */
  datatype Disposer = Disposer(dispose: int -> int)

  /** A configurator: it updates the object's `value` and returns a disposer,
      or anything that is not callable (`None`). */
  datatype Configurator = Configurator(configure: int -> int, disposer: Option<Disposer>)

  /** A Closure a slot can hold.
      - Source(make): the caller's own Closure; called with some arguments it
        allocates a new object whose `value` is `make(arguments)`.
      - Wrapped(inner, cfg, cell, tag): the Closure `withCallback` builds
        (src/Value.php:77-79) around the configurator closure of
        `withEffect` (src/Value.php:24-27): it resolves `inner`, runs `cfg` on
        the result, stores the disposer in `cell` and returns the object.
        `tag` is the slot the `withEffect` call works on. */
  datatype Thunk =
    | Source(make: Args -> int)
    | Wrapped(inner: Thunk, cfg: Configurator, cell: nat, tag: nat)

  /** The content of a slot: an object (materialized) or a Closure (deferred). */
  datatype Slot = Materialized(obj: Ref) | Deferred(thunk: Thunk)

  /** What user code can throw: its own exception, or PHP's Error for calling
      something that is not callable / reading a property of a Closure. */
  datatype Error = Thrown(code: int) | NotCallable(index: nat) | NotAnObject(index: nat)

  datatype Outcome = Returned(value: int) | Threw(error: Error)

  datatype Event = Configured(tag: nat) | Disposed(tag: nat) | Acted(args: Args)

  /** One statement of the caller's action:
      - Store(i, xs): `$values[i] = $values[i](...xs)`;
      - Discard(i, xs): `$values[i](...xs)`, result thrown away;
      - Bump(i, d): `$values[i]->value += d`. */
  datatype Step = Store(index: nat, args: Args) | Discard(index: nat, args: Args) | Bump(index: nat, delta: int)

  /** The caller's action: its statements, then what it returns (or throws)
      for the arguments it was called with. */
  datatype Action = Action(steps: seq<Step>, result: Args -> Outcome)

  /** The callables `withEffect` may be given.
      - User(act): a callable of the caller's, called with the forwarded args;
      - Bound(act, args): the closure of src/Value.php:52-54, which ignores its
        own arguments and calls `act` with the captured `args`;
      - Scoped(i, cfg, inner): the closure of src/Value.php:57-59, which calls
        `withEffect` on slot `i` with `cfg` and `inner`. */
  datatype Callable =
    | User(act: Action)
    | Bound(act: Action, args: Args)
    | Scoped(index: nat, cfg: Configurator, inner: Callable)

  datatype State = State(slots: seq<Slot>, objects: seq<int>, disposers: seq<Option<Disposer>>, trace: seq<Event>)

  /** `f` applied to the `value` of object `o`; nothing happens to a missing object. */
  function Update(objects: seq<int>, o: Ref, f: int -> int): (r: seq<int>)
    ensures |r| == |objects|
  {
    if o < |objects| then objects[o := f(objects[o])] else objects
  }

  /** The configurator closure of src/Value.php:24-27 called on object `o`:
      the configurator runs, and its return value is stored in `cell`. */
  function Configure(s: State, o: Ref, cfg: Configurator, cell: nat, tag: nat): (r: State)
    ensures r.slots == s.slots && |r.objects| == |s.objects| && |r.disposers| == |s.disposers|
  {
    State(s.slots,
          Update(s.objects, o, cfg.configure),
          if cell < |s.disposers| then s.disposers[cell := cfg.disposer] else s.disposers,
          s.trace + [Configured(tag)])
  }

  /** Calls the Closure `t` with `args`; the result is the object it yields. */
  function Invoke(s: State, t: Thunk, args: Args): (r: (State, Ref))
    ensures r.0.slots == s.slots && |r.0.disposers| == |s.disposers|
    ensures |r.0.objects| == |s.objects| + 1 && r.1 == |s.objects|
  {
    match t
    case Source(make) => (s.(objects := s.objects + [make(args)]), |s.objects|)
    case Wrapped(inner, cfg, cell, tag) =>
      var (s1, o) := Invoke(s, inner, args);
      (Configure(s1, o, cfg, cell, tag), o)
  }

  /** One statement of an action; an error stops the action. */
  function Perform(s: State, step: Step): (r: (State, Option<Error>))
    ensures |r.0.slots| == |s.slots| && |r.0.disposers| == |s.disposers| && |r.0.objects| >= |s.objects|
  {
    match step
    case Store(i, xs) =>
      if i < |s.slots| && s.slots[i].Deferred? then
        var (s1, o) := Invoke(s, s.slots[i].thunk, xs);
        (s1.(slots := s1.slots[i := Materialized(o)]), None)
      else (s, Some(NotCallable(i)))
    case Discard(i, xs) =>
      if i < |s.slots| && s.slots[i].Deferred? then
        (Invoke(s, s.slots[i].thunk, xs).0, None)
      else (s, Some(NotCallable(i)))
    case Bump(i, d) =>
      if i < |s.slots| && s.slots[i].Materialized? then
        (s.(objects := Update(s.objects, s.slots[i].obj, x => x + d)), None)
      else (s, Some(NotAnObject(i)))
  }

  function RunSteps(s: State, steps: seq<Step>): (r: (State, Option<Error>))
    ensures |r.0.slots| == |s.slots| && |r.0.disposers| == |s.disposers| && |r.0.objects| >= |s.objects|
    decreases |steps|
  {
    if steps == [] then (s, None)
    else
      var (s1, e) := Perform(s, steps[0]);
      if e.Some? then (s1, e) else RunSteps(s1, steps[1..])
  }

  /** Calls the caller's action with `args`. */
  function RunAction(s: State, a: Action, args: Args): (r: (State, Outcome))
    ensures |r.0.slots| == |s.slots| && |r.0.disposers| == |s.disposers| && |r.0.objects| >= |s.objects|
  {
    var (s1, e) := RunSteps(s.(trace := s.trace + [Acted(args)]), a.steps);
    (s1, if e.Some? then Threw(e.value) else a.result(args))
  }

  /** Every `withEffect` reachable from `c` works on an existing slot. */
  predicate Fits(c: Callable, n: nat)
  {
    match c
    case User(_) => true
    case Bound(_, _) => true
    case Scoped(i, _, inner) => i < n && Fits(inner, n)
  }

  /** The first half of `withEffect` (src/Value.php:20-27): a fresh
      `$disposer` cell, then the slot replaced by `withCallback` of the
      configurator closure. A materialized slot is configured at once and
      keeps its object; a deferred one gets the wrapping Closure. */
  function Enter(s: State, i: nat, cfg: Configurator): (r: State)
    requires i < |s.slots|
    ensures |r.slots| == |s.slots| && |r.disposers| == |s.disposers| + 1 && |r.objects| == |s.objects|
    ensures forall j :: 0 <= j < |s.slots| && j != i ==> r.slots[j] == s.slots[j]
    ensures r.slots[i].Deferred? <==> s.slots[i].Deferred?
  {
    var cell := |s.disposers|;
    var s1 := s.(disposers := s.disposers + [None]);
    match s.slots[i]
    case Materialized(o) => Configure(s1, o, cfg, cell, i)
    case Deferred(t) => s1.(slots := s1.slots[i := Deferred(Wrapped(t, cfg, cell, i))])
  }

  /** The `finally` block of `withEffect` (src/Value.php:30-38). */
  function Finally(s: State, i: nat, original: Slot, cell: nat): (r: State)
    requires i < |s.slots| && cell < |s.disposers|
    ensures |r.slots| == |s.slots| && r.disposers == s.disposers && |r.objects| == |s.objects|
    ensures forall j :: 0 <= j < |s.slots| && j != i ==> r.slots[j] == s.slots[j]
    ensures r.slots[i] == if s.slots[i].Deferred? then original else s.slots[i]
    ensures s.slots[i].Deferred? ==> r.objects == s.objects && r.trace == s.trace
  {
    match s.slots[i]
    case Deferred(_) => s.(slots := s.slots[i := original])
    case Materialized(o) =>
      match s.disposers[cell]
      case Some(d) => s.(objects := Update(s.objects, o, d.dispose), trace := s.trace + [Disposed(i)])
      case None => s
  }

  /** Calls `c` with `args`. */
  function Call(s: State, c: Callable, args: Args): (r: (State, Outcome))
    requires Fits(c, |s.slots|)
    ensures |r.0.slots| == |s.slots| && |r.0.disposers| >= |s.disposers| && |r.0.objects| >= |s.objects|
    decreases c, 0
  {
    match c
    case User(a) => RunAction(s, a, args)
    case Bound(a, captured) => RunAction(s, a, captured)
    case Scoped(i, cfg, inner) => WithEffect(s, i, cfg, inner, [])
  }

  /** `withEffect(&$value, $configurator, $callback, ...$args)` with `$value`
      the slot `i`: enter, call the callback, and run the `finally` block
      whatever the callback's outcome, which is returned as it is. */
  function WithEffect(s: State, i: nat, cfg: Configurator, callback: Callable, args: Args): (r: (State, Outcome))
    requires i < |s.slots| && Fits(callback, |s.slots|)
    ensures |r.0.slots| == |s.slots| && |r.0.disposers| >= |s.disposers| + 1 && |r.0.objects| >= |s.objects|
    decreases callback, 1
  {
    var s1 := Enter(s, i, cfg);
    var (s2, out) := Call(s1, callback, args);
    (Finally(s2, i, s.slots[i], |s.disposers|), out)
  }

  /** The value of `$current` after the loop of src/Value.php:56-60 has run
      over the first `n` elements. */
  function Chain(cfg: Configurator, a: Action, args: Args, n: nat): (c: Callable)
    ensures forall m :: n <= m ==> Fits(c, m)
  {
    if n == 0 then Bound(a, args) else Scoped(n - 1, cfg, Chain(cfg, a, args, n - 1))
  }

  /** `withEffectForEach(&$values, $configurator, $callback, ...$args)`:
      the whole chain, called once with no arguments (src/Value.php:63). */
  function WithEffectForEach(s: State, cfg: Configurator, a: Action, args: Args): (r: (State, Outcome))
    ensures |r.0.slots| == |s.slots| && |r.0.disposers| >= |s.disposers| && |r.0.objects| >= |s.objects|
  {
    Call(s, Chain(cfg, a, args, |s.slots|), [])
  }
}
