# Objar, modelled in Dafny

Objar is a small dependency-injection container for JavaScript. A container holds
three things:

- `definitions`: service names mapped to factory functions;
- `resolved`: names mapped to the instance their factory returned;
- `resolving`: the resolution path, the names whose resolution has started.

`define` registers a factory and `isDefined` asks whether one is registered. `resolve`
builds a service at most once and then returns the cached instance. It reports a
circular dependency when a name is requested while it is still being built, or after
its resolution failed. `invoke`
resolves a list of names and hands their instances to a callable.

The project has three modules:

- `Resolution` (resolution.dfy) gives the semantics as functions over a `State`. A
  `State` holds the three fields plus a log of factory invocations, `calls`. It also
  holds the lemmas the container promises:
  - a factory runs at most once;
  - resolution is memoized;
  - the cleanup pass only turns entries of cached names into holes;
  - cycles are reported with the path the code builds;
  - once a name has failed, it can never be resolved again.
- `Container` (container.dfy) is the container as a class. Its methods update `resolved`,
  `resolving` and the ghost `calls` log in place. `PruneResolving` and `Invoke` have the
  loops of objar.js. The loop of `RunFactory` stands for a factory's body, which resolves
  its dependencies one after the other; it is not a loop of objar.js. Each method is proved to produce exactly the state and the result that `Resolution`
  prescribes.
- `Scenarios` (scenarios.dfy) proves the behaviour the test suite objarSpec.js exercises,
  on concrete containers.

A factory is abstracted as a `Script`: the names it resolves through the container, in
order, and then how it ends. It either returns a value or throws. `Value` includes
`Undefined`, the result of a factory that returns nothing. A failure inside a nested
`resolve` aborts the factory and reaches the caller unchanged. The JavaScript `delete`
on the path leaves a hole, modelled as `None`. `join` renders a hole as the empty string.

Two behaviours of the code worth stating:

- One might expect a factory that returns nothing to run again on the next attempt. In
  objar.js (lines 64 and 74-76) the name stays on the resolution path and is not cached.
- So the next `resolve` of that name reports the cycle `foo -> foo`. The factory does
  not run again.
- The model follows the code: `Scenarios.EmptyDefinitionScenario`.
- After the cycle test, resolving E and then A reports an empty name inside the cycle path, because the cleanup left a hole where E was (`Scenarios.LoopAfterEMessage`).

## Model

| member | source | states |
|---|---|---|
| Resolution.Prune | objar.js:47-53 | The cleanup keeps the length of the path and leaves each entry alone or makes it a hole. It makes an entry a hole only when it names a cached service. Afterwards no entry names a cached service. |
| Resolution.PruneMembership | objar.js:47-53 | After the cleanup, a name is on the path exactly when it was on the path before and is not cached. |
| Resolution.PruneAbsorbs | objar.js:47-53 | Cleaning against a smaller cache and then a larger one is the same as one cleanup against the larger cache. In particular the cleanup is idempotent. |
| Resolution.JoinSnoc | objar.js:60-61 | Closing the path with one more entry appends ` -> ` and that entry's rendering to the joined message. |
| Resolution.Resolve | objar.js:46-79 | Resolution never makes a name eligible for a factory run again. The set of defined names that are neither cached nor in flight only shrinks. |
| Resolution.ResolveKeeps | objar.js:46-79 | The result is a later state. Definitions are unchanged and cached instances are kept. A name gets cached only if it was not in flight. The path only grows, and its old entries become holes only for cached names. The invocation log only grows, by names that were pending. Validity is preserved. A returned value is the cached instance of the name. A failed name is stuck: it is not cached and it is still on the path. |
| Resolution.ResolveAll | objar.js:100-103 | Resolving names in order also never widens the pending set. On success it yields one value per name. |
| Resolution.ResolveAllKeeps | objar.js:100-103 | On success each value is the cached instance of its name, in order. On failure, some name is stuck and every name before it is cached. The result is a later, still valid state. |
| Resolution.ResolveAllStops | objar.js:100-103 | A failing list stops at the first name that fails: every name before it resolved, that name's own error comes back unchanged, and the state is the one its resolution left, so no later name is resolved. |
| Resolution.Define | objar.js:18-26 | A non-callable definition is refused with the error for that name and nothing changes. A callable one makes the name defined and overwrites its definition. The caches, the path and every other name's definition are untouched. |
| Resolution.Invoke | objar.js:88-98 | An array with fewer than two elements, or whose last element is not callable, is refused with the invocation error and the state is unchanged. |
| Resolution.InvokeKeeps | objar.js:88-106 | On success every name is cached and the callable received exactly their cached instances, in order. If a well-formed call fails, one of its names is stuck, and the result is exactly the error and state of the first failing name, every earlier name having resolved. The result is a later, still valid state. |
| Resolution.MemoHit | objar.js:55-57 | A cached name is returned from the cache. No factory runs and nothing is pushed. |
| Resolution.CycleDetected | objar.js:59-62 | A stuck name is reported as a circular dependency. The path is the cleaned path closed with its first entry. The state changes only by the cleanup. |
| Resolution.CycleRepeats | objar.js:47-62 | Resolving a second stuck name right after the first one gives the same error and changes nothing. |
| Resolution.NotDefinedFails | objar.js:64-70 | A fresh name without a definition is pushed, fails with the not-defined error and stays stuck. No factory runs and nothing is cached. |
| Resolution.FactoryOutcome | objar.js:72-78 | A fresh defined name has its factory logged first. Once its dependencies resolve, a thrown error propagates and an undefined result fails with the empty-definition error, and in both cases the name is not cached. Any other value is cached and returned. |
| Resolution.FactoryFails | objar.js:72 | When a nested resolve inside a fresh name's factory fails, `resolve(name)` fails with that very error, in the state the nested resolve left. |
| Resolution.Settle | objar.js:72-78 | The end of `resolve` once the factory's nested resolves are done: a failure passes through, a throw becomes the thrown error, an undefined result is the empty-definition error, and any other value is cached and returned. It has no contract of its own; `FactoryOutcome`, `FactoryFails` and `Container.Objar.Construct` state what it does. |
| Resolution.IsDefined | objar.js:35-37 | A name is defined when the definitions hold an entry for it. A stored definition is never `undefined`, so this is the code's test. It has no contract of its own; `DefinedAfterReplay` states its behaviour over time. |
| Resolution.IsFunction | objar.js:108-110 | A definition is callable when it is a factory. It has no contract of its own; `Define` states that exactly the callable definitions are accepted. |
| Resolution.DefinedAfterReplay | objar.js:18-37 | After any sequence of defines and resolves, a name is defined exactly when it was defined before or one of the calls defined it with a callable. |
| Resolution.Join | objar.js:60-61 | `path.join(' -> ')`, with a hole rendered as the empty string. It has no contract of its own; `JoinSnoc` and the message scenarios state its results. |
| Resolution.Message | objar.js:20-97 | The message of each error the container throws: lines 20, 61, 69, 75, 90 and 97. It has no contract of its own; the `...Message` scenarios state its strings. |
| Resolution.StuckPersists | objar.js:47-53 | A stuck name stays stuck in every later state. |
| Resolution.ReplayValid | objar.js:46-79 | Any sequence of defines and resolves from a valid container keeps it valid. In particular no factory is ever invoked twice. |
| Resolution.ReplayKeeps | objar.js:46-79 | Across any later defines and resolves, cached instances keep their value, stuck names stay stuck, and the invocation log only grows. |
| Resolution.Memoized | objar.js:55-57 | Once a name has resolved, every later resolution of it returns the same value without running a factory, whatever was defined since. |
| Resolution.FailureIsSticky | objar.js:59-64 | Once a name has failed, every later resolution of it fails with a circular-dependency error. |
| Container.Objar.constructor | objar.js:4-8 | A new container has no definitions, no cached instances, an empty path and an empty log, and it is valid. |
| Container.Objar.Define | objar.js:18-26 | The new definitions are those of `Resolution.Define`, and validity is unchanged. The container itself is returned on success, for chaining. |
| Container.Objar.IsDefined | objar.js:35-37 | The container's answer is `Resolution.IsDefined` of its state. |
| Container.Objar.PruneResolving | objar.js:47-53 | The in-place loop leaves the path equal to `Prune` of the old path. |
| Container.Objar.Resolve | objar.js:46-79 | The new state and the result are those of `Resolution.Resolve`, and validity is kept. |
| Container.Objar.Construct | objar.js:72-78 | After the factory runs, the new state and the result are those of `Settle`. `Settle` passes on a failure, rejects an undefined result, and otherwise memoizes. |
| Container.Objar.RunFactory | objar.js:72 | The factory's nested resolves leave the state and yield the values of `Resolution.ResolveAll`, and validity is kept. |
| Container.Objar.Invoke | objar.js:88-106 | The callable is popped off the caller's array exactly when the array has at least two elements. The new state and the result are those of `Resolution.Invoke`, and validity is kept. |
| Scenarios.DefineScenario | objarSpec.js:10-22 | `foo` is not defined in a new container and is defined after a callable definition. A non-callable definition is refused. |
| Scenarios.InvalidDefinitionMessage | objarSpec.js:18-22 | The refusal reads `The service "foo" definition must be a function`. |
| Scenarios.NotDefinedScenario | objarSpec.js:24-28 | Resolving `foo` in a new container fails with the not-defined error. |
| Scenarios.NotDefinedMessage | objarSpec.js:24-28 | That error reads `The service "foo" is not defined`. |
| Scenarios.EmptyDefinitionScenario | objarSpec.js:30-36 | A factory that returns nothing fails with the empty-definition error. A second attempt reports the cycle `foo -> foo` and the factory ran only once. |
| Scenarios.EmptyDefinitionMessage | objarSpec.js:30-36 | The first error reads `The definition of the service "foo" must return it`. |
| Scenarios.SelfCycleMessage | objar.js:59-61 | The second error reads `Circular dependency detected: foo -> foo`. |
| Scenarios.SameInstanceScenario | objarSpec.js:38-47 | Two resolutions of `foo` return the same object, and its factory ran once. |
| Scenarios.ReplayDefines | objar.js:18-26 | A sequence of factory `define` calls changes only the definitions: each entry is registered in order, a later one overriding an earlier one. |
| Scenarios.DiamondScenario | objarSpec.js:49-92 | A needs B and C, both need D, and D needs E. Resolving A succeeds and the factories run in the order A, B, D, E, C. |
| Scenarios.DiamondBuilt | objarSpec.js:59-91 | The test's own `define` calls, in its order, on a new container give exactly the diamond with nothing resolved, and resolving A there logs A, B, D, E, C. |
| Scenarios.LoopA | objarSpec.js:94-126 | In the loop A, B, C, D, A, resolving A fails with the path A, B, C, D closed with A. The factories of A, B, C and D each ran once and E's never ran. |
| Scenarios.CycleBuilt | objarSpec.js:99-126 | The test's own `define` calls, in its order, on a new container give exactly the loop with nothing resolved, and resolving A there fails with the loop error. |
| Scenarios.LoopMessage | objarSpec.js:124-126 | That error reads `Circular dependency detected: A -> B -> C -> D -> A`. |
| Scenarios.LoopRepeats | objarSpec.js:128-138 | Afterwards, resolving any of A, B, C or D reports the same cycle and changes nothing. |
| Scenarios.LoopThenE | objarSpec.js:140 | E, which the failure never reached, still resolves to its value. |
| Scenarios.LoopAfterE | objar.js:47-61 | Once E is cached, the cleanup leaves a hole where E was. Resolving A then reports the path A, B, C, D, hole, A. |
| Scenarios.LoopAfterEMessage | objar.js:60-61 | That error reads `Circular dependency detected: A -> B -> C -> D ->  -> A`. |
| Scenarios.BadlyAnnotatedScenario | objarSpec.js:143-151 | `invoke(['a'])` and `invoke(['a', 'b'])` are refused with the invocation error and change nothing. |
| Scenarios.InvalidInvocationMessage | objarSpec.js:143-151 | The invocation error reads `Objar.invoke() expects an annotated function`. |
| Scenarios.MissingDependencyScenario | objarSpec.js:153-157 | `invoke(['a', fn])` without a definition for `a` fails with the not-defined error for `a`. |
| Scenarios.InjectionScenario | objarSpec.js:159-180 | With A needing B and B needing C, `invoke(['A', 'B', 'C', f])` returns `f` applied to the instances of A, B and C, in that order. |
| Scenarios.ChainBuilt | objarSpec.js:161-179 | The test's own `define` calls on a new container give exactly the chain with nothing resolved, and the `invoke` there hands A, B and C to the callable. |

## Left out

- The module wrapper (objar.js:1-2 and 112-121), which picks AMD, CommonJS or a global, is not modelled. It does not affect the container.
- gulpfile.js is a build script and is not part of this model.
- `isFunction` (objar.js:108-110) is duck typing over `constructor`, `call` and `apply`. Here it is reduced to the shape of the value: a `Definition` is either a `Factory` or `NotCallable`, and an `Item` is either a name or a `Callable`.
- `definitions` and `resolved` are JavaScript arrays used as maps. Property names such as `length` or `constructor` would collide with array members, and non-string keys are converted to strings. The model uses Dafny maps keyed by strings for these two. `resolving` is used as an ordered array, and the model makes it a sequence in which a hole left by `delete` is `None`.
- The test `!annotated instanceof Array` (objar.js:89) is always false, because `!` binds before `instanceof`. So only the length test has any effect. The model takes a sequence and performs only the length test, which is what the code does.
- Container.Objar.Invoke: it requires every element before the last to be a service name. Passing a callable or another value there, which JavaScript would turn into a string key, is not modelled. Resolution.Invoke has the same requirement.
- The `this` binding of factories (`definition.apply(this)`) and the `null` receiver of the callable in `invoke` are not modelled. A factory reaches the container only through the names its `Script` lists.
- Factories are not arbitrary code. A `Script` resolves a fixed list of names and then returns or throws. A factory that catches a nested failure and carries on, or that picks its dependencies at run time, is not modelled.
- The callable passed to `invoke` is a total function of its arguments. It cannot throw, and it cannot call back into the container; a callable that defines or resolves services is not modelled.
- Resolution.Replay covers `define` and `resolve` calls. `invoke` is a sequence of `resolve` calls and is covered through `Resolution.InvokeKeeps`.
- Object identity is modelled as the `Obj` value's number. `null` and other falsy values are not singled out, because the code compares only against `undefined`.

