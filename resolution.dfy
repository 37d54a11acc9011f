/** The resolution semantics of the Objar container (objar.js), as functions over a
    snapshot of the container's three fields plus a log of factory invocations.

    The container in container.dfy is proved to compute exactly these functions; the
    lemmas here state what the container promises: memoization, at most one factory
    invocation per name, the cleanup shape of the resolution path, the cycle message,
    and the "sticky" failure of a name whose resolution went wrong. */
module Resolution {

  type Name = string

  datatype Option<T> = None | Some(value: T)

  /** A JavaScript value. `Undefined` is what a factory that returns nothing yields;
      `Obj` stands for an object, compared by identity. */
  datatype Value = Undefined | Str(s: string) | Obj(id: nat)

  /** How a factory body ends once every service it asked for has been resolved. */
  datatype Completion = Returns(value: Value) | Throws(message: string)

  /** A factory, as the container sees it: the names it resolves, in order, through the
      container, and then how it ends. A failing nested resolve aborts the factory. */
  datatype Script = Script(deps: seq<Name>, completion: Completion)

  /** The second argument of `define`: a callable factory, or any other value. */
  datatype Definition = Factory(script: Script) | NotCallable(value: Value)

  /** An element of the array handed to `invoke`: a service name or a callable. */
  datatype Item = ServiceName(name: Name) | Callable(call: seq<Value> -> Value)

  /** The errors the container throws, plus an error thrown by a factory itself. */
  datatype Error =
    | InvalidDefinition(name: Name)
    | NotDefined(name: Name)
    | EmptyDefinition(name: Name)
    | CircularDependency(path: seq<Option<Name>>)
    | InvalidInvocation
    | Thrown(message: string)

  datatype Result<T> = Ok(value: T) | Err(error: Error)

  /** The container's fields `definitions`, `resolved` and `resolving` (a hole left by
      `delete` is `None`), and `calls`, the names whose factory has been invoked, in order. */
  datatype State = State(
    definitions: map<Name, Script>,
    resolved: map<Name, Value>,
    resolving: seq<Option<Name>>,
    calls: seq<Name>)

  /** A freshly constructed container. */
  const Empty: State := State(map[], map[], [], [])

  /** The duck-typed callable check, reduced to the shape of the definition. */
  predicate IsFunction(definition: Definition) {
    definition.Factory?
  }

  predicate IsDefined(st: State, name: Name) {
    name in st.definitions
  }

  /** A name that sits on the path but is not cached: its resolution is still running in
      an outer call, or it failed. No `resolve` started from this state caches it
      (`StuckPersists`), and resolving it reports a cycle (`CycleDetected`). */
  predicate Stuck(st: State, name: Name) {
    name !in st.resolved && Some(name) in st.resolving
  }

  // ---------------------------------------------------------------------------
  // Error messages

  /** How an entry of the path is rendered by `join`: a hole becomes the empty string. */
  function Render(entry: Option<Name>): string {
    if entry.Some? then entry.value else ""
  }

  /** `path.join(' -> ')`. */
  function Join(path: seq<Option<Name>>): string {
    if |path| == 0 then ""
    else if |path| == 1 then Render(path[0])
    else Render(path[0]) + " -> " + Join(path[1..])
  }

  /** The message of the `Error` object the container throws. */
  function Message(e: Error): string {
    match e
    case InvalidDefinition(n) => "The service \"" + n + "\" definition must be a function"
    case NotDefined(n) => "The service \"" + n + "\" is not defined"
    case EmptyDefinition(n) => "The definition of the service \"" + n + "\" must return it"
    case CircularDependency(path) => "Circular dependency detected: " + Join(path)
    case InvalidInvocation => "Objar.invoke() expects an annotated function"
    case Thrown(msg) => msg
  }

  /** Joining a path with one more entry appends the separator and that entry. */
  lemma {:induction false} JoinSnoc(path: seq<Option<Name>>, entry: Option<Name>)
    requires |path| > 0
    ensures Join(path + [entry]) == Join(path) + " -> " + Render(entry)
  {
    if |path| == 1 {
      assert (path + [entry])[1..] == [entry];
    } else {
      assert (path + [entry])[1..] == path[1..] + [entry];
      JoinSnoc(path[1..], entry);
    }
  }

  // ---------------------------------------------------------------------------
  // The cleanup pass

  /** One step of the cleanup loop: an entry naming a resolved service becomes a hole. */
  function Cleared(entry: Option<Name>, resolved: map<Name, Value>): Option<Name> {
    if entry.Some? && entry.value in resolved then None else entry
  }

  /** The cleanup of a longer path is the cleanup of its prefix, then of its last entry. */
  lemma PruneSnoc(path: seq<Option<Name>>, entry: Option<Name>, resolved: map<Name, Value>)
    ensures Prune(path + [entry], resolved) == Prune(path, resolved) + [Cleared(entry, resolved)]
  {
    assert (path + [entry])[..|path|] == path;
  }

  /** The resolution path after the cleanup loop, which visits the entries in order. */
  function Prune(path: seq<Option<Name>>, resolved: map<Name, Value>): (r: seq<Option<Name>>)
    ensures |r| == |path|
    ensures forall i :: 0 <= i < |r| ==>
      r[i] == path[i] || (r[i] == None && path[i].Some? && path[i].value in resolved)
    ensures forall i :: 0 <= i < |r| && r[i].Some? ==> r[i].value !in resolved
  {
    if path == [] then []
    else Prune(path[..|path| - 1], resolved) + [Cleared(path[|path| - 1], resolved)]
  }

  /** Entry by entry, the cleanup is `Cleared`. */
  lemma PruneAt(path: seq<Option<Name>>, resolved: map<Name, Value>)
    ensures forall k :: 0 <= k < |path| ==> Prune(path, resolved)[k] == Cleared(path[k], resolved)
  {
  }

  /** A name stays a non-hole entry of the path exactly when it is not resolved. */
  lemma PruneMembership(path: seq<Option<Name>>, resolved: map<Name, Value>, n: Name)
    ensures Some(n) in Prune(path, resolved) <==> Some(n) in path && n !in resolved
  {
    var r := Prune(path, resolved);
    if Some(n) in path && n !in resolved {
      var i :| 0 <= i < |path| && path[i] == Some(n);
      assert r[i] == Some(n);
    }
  }

  /** Running the cleanup twice, or after a smaller cache, is the same as running it once. */
  lemma {:induction false} PruneAbsorbs(path: seq<Option<Name>>, r1: map<Name, Value>, r2: map<Name, Value>)
    requires r1.Keys <= r2.Keys
    ensures Prune(Prune(path, r1), r2) == Prune(path, r2)
  {
    if path != [] {
      var init := path[..|path| - 1];
      PruneAbsorbs(init, r1, r2);
      assert Prune(path, r1)[..|path| - 1] == Prune(init, r1);
    }
  }

  // ---------------------------------------------------------------------------
  // Invariants and the "later state" relation

  predicate NoDuplicates(s: seq<Name>) {
    forall i, j :: 0 <= i < j < |s| ==> s[i] != s[j]
  }

  /** What holds of every container reachable from `Empty`. */
  predicate Valid(st: State) {
    // `undefined !== resolved[n]` is the same test as `n in resolved`
    && (forall n :: n in st.resolved ==> st.resolved[n] != Undefined)
    // no factory has been invoked twice
    && NoDuplicates(st.calls)
    // a name whose factory ran is resolved, or still (forever) in the path
    && (forall n :: n in st.calls ==> n in st.resolved || Some(n) in st.resolving)
    // a name is cached only after its factory ran
    && (forall n :: n in st.resolved ==> n in st.calls)
  }

  /** `t` is what resolution can turn `s` into: the definitions are untouched, cached
      instances are kept, a name is newly cached only if it was not in flight, the path
      only grows and its old entries only become holes for names that got resolved, and
      the invocation log only grows, by names that were defined, uncached and not in
      flight. */
  predicate Extends(s: State, t: State) {
    && t.definitions == s.definitions
    && (forall n :: n in s.resolved ==> n in t.resolved && t.resolved[n] == s.resolved[n])
    && (forall n :: n in t.resolved && n !in s.resolved ==> Some(n) !in s.resolving)
    && |s.resolving| <= |t.resolving|
    && (forall i :: 0 <= i < |s.resolving| ==>
          t.resolving[i] == s.resolving[i]
          || (t.resolving[i] == None && s.resolving[i].Some? && s.resolving[i].value in t.resolved))
    && s.calls <= t.calls
    && (forall i :: |s.calls| <= i < |t.calls| ==> t.calls[i] in Pending(s))
  }

  /** An unresolved name that was in flight is still in flight in every later state. */
  lemma InFlightPersists(s: State, t: State, n: Name)
    requires Extends(s, t)
    ensures Some(n) in s.resolving && n !in t.resolved ==> Some(n) in t.resolving
  {
    if Some(n) in s.resolving && n !in t.resolved {
      var i :| 0 <= i < |s.resolving| && s.resolving[i] == Some(n);
      assert t.resolving[i] == Some(n);
    }
  }

  lemma ExtendsTrans(s: State, t: State, u: State)
    requires Extends(s, t) && Extends(t, u)
    ensures Extends(s, u)
  {
    forall n | n in u.resolved && n !in s.resolved
      ensures Some(n) !in s.resolving
    {
      InFlightPersists(s, t, n);
    }
  }

  /** Once a name is stuck, no later state resolves it or removes it from the path. */
  lemma StuckPersists(s: State, t: State, n: Name)
    requires Extends(s, t) && Stuck(s, n)
    ensures Stuck(t, n)
  {
    InFlightPersists(s, t, n);
  }

  /** The defined names that could still have their factory invoked. */
  function Pending(st: State): set<Name> {
    set n | n in st.definitions && n !in st.resolved && Some(n) !in st.resolving
  }

  lemma ExtendsPending(s: State, t: State)
    requires Extends(s, t)
    ensures Pending(t) <= Pending(s)
  {
    forall n | n in Pending(t) ensures n in Pending(s) {
      InFlightPersists(s, t, n);
    }
  }

  /** The state right after the cleanup pass. */
  function Pruned(st: State): State {
    st.(resolving := Prune(st.resolving, st.resolved))
  }

  /** The cleanup turns into holes only entries of cached names, which are not pending. */
  lemma PrunedPending(st: State)
    ensures Pending(Pruned(st)) == Pending(st)
  {
    forall n ensures n in Pending(Pruned(st)) <==> n in Pending(st) {
      PruneMembership(st.resolving, st.resolved, n);
    }
  }

  /** The state once `name` has been pushed onto the path. */
  function Pushed(st: State, name: Name): State {
    Pruned(st).(resolving := Pruned(st).resolving + [Some(name)])
  }

  /** The state once `name` has been pushed and its factory is about to run. */
  function Invoked(st: State, name: Name): State {
    Pushed(st, name).(calls := st.calls + [name])
  }

  lemma PushedKeeps(st: State, name: Name)
    ensures Extends(st, Pushed(st, name))
    ensures Valid(st) ==> Valid(Pushed(st, name))
    ensures Stuck(Pushed(st, name), name) <==> name !in st.resolved
  {
    PrunedExtends(st);
    var p, q := Pruned(st), Pushed(st, name);
    assert Extends(p, q);
    ExtendsTrans(st, p, q);
    assert q.resolving[|q.resolving| - 1] == Some(name);
    if Valid(st) {
      forall n | n in q.calls ensures n in q.resolved || Some(n) in q.resolving {
        assert Some(n) in p.resolving ==> Some(n) in q.resolving;
      }
    }
  }

  lemma PrunedExtends(st: State)
    ensures Extends(st, Pruned(st))
    ensures Valid(st) ==> Valid(Pruned(st))
  {
    var p := Pruned(st);
    forall n | n in st.calls && Valid(st) ensures n in p.resolved || Some(n) in p.resolving {
      PruneMembership(st.resolving, st.resolved, n);
    }
  }

  /** Pushing a defined, unresolved, not-in-flight name removes it from the pending set. */
  lemma PushShrinksPending(st: State, name: Name)
    requires name in st.definitions && name !in st.resolved
    requires Some(name) !in Pruned(st).resolving
    ensures Pending(Invoked(st, name)) < Pending(st)
    ensures Extends(st, Invoked(st, name))
    ensures Valid(st) ==> Valid(Invoked(st, name))
  {
    PruneMembership(st.resolving, st.resolved, name);
    PrunedExtends(st);
    var p, v := Pruned(st), Invoked(st, name);
    assert Extends(p, v);
    ExtendsTrans(st, p, v);
    ExtendsPending(st, v);
    assert name in Pending(st) && name !in Pending(v);
    if Valid(st) {
      assert name !in st.calls;
      forall i, j | 0 <= i < j < |v.calls| ensures v.calls[i] != v.calls[j] {
        if j == |v.calls| - 1 { assert v.calls[i] in st.calls; }
      }
      forall n | n in v.calls ensures n in v.resolved || Some(n) in v.resolving {
        if n != name { assert n in st.calls; assert Some(n) in p.resolving ==> Some(n) in v.resolving; }
        else { assert v.resolving[|v.resolving| - 1] == Some(name); }
      }
    }
  }

  // ---------------------------------------------------------------------------
  // Resolution

  /** `resolve(name)`: cleanup, memo hit, cycle check, push, lookup, run the factory,
      reject an undefined result, memoize. No call makes a name invocable again: the
      set of pending names only shrinks (the properties are in ResolveKeeps). */
  function Resolve(st: State, name: Name): (out: (State, Result<Value>))
    ensures Pending(out.0) <= Pending(st)
    decreases Pending(st), 0
  {
    PrunedPending(st);
    var pruned := Pruned(st);
    if name in st.resolved then (pruned, Ok(st.resolved[name]))
    else if Some(name) in pruned.resolving then
      (pruned, Err(CircularDependency(pruned.resolving + [pruned.resolving[0]])))
    else if name !in st.definitions then
      (Pushed(st, name), Err(NotDefined(name)))
    else
      var script := st.definitions[name];
      PushShrinksPending(st, name);
      var run := ResolveAll(Invoked(st, name), script.deps);
      SettlePending(run.0, name, run.1, script.completion);
      Settle(run.0, name, run.1, script.completion)
  }

  /** Resolves `names` left to right, stopping at the first failure, which is returned
      unchanged. This is what a factory does with the services it asks for, and what
      `invoke` does with the names before its callable. */
  function ResolveAll(st: State, names: seq<Name>): (out: (State, Result<seq<Value>>))
    ensures Pending(out.0) <= Pending(st)
    ensures out.1.Ok? ==> |out.1.value| == |names|
    decreases Pending(st), |names|
  {
    if names == [] then (st, Ok([]))
    else
      var step := Resolve(st, names[0]);
      if step.1.Err? then (step.0, Err(step.1.error))
      else
        var rest := ResolveAll(step.0, names[1..]);
        if rest.1.Err? then (rest.0, Err(rest.1.error))
        else (rest.0, Ok([step.1.value] + rest.1.value))
  }

  /** What one resolution promises: the result is a later state; validity is kept; a
      returned value is the cached instance of the name; a failed name is stuck. */
  lemma {:induction false} ResolveKeeps(st: State, name: Name)
    ensures var out := Resolve(st, name);
      && Extends(st, out.0)
      && (Valid(st) ==> Valid(out.0))
      && (out.1.Ok? ==> name in out.0.resolved && out.0.resolved[name] == out.1.value)
      && (out.1.Err? ==> Stuck(out.0, name))
    decreases Pending(st), 0
  {
    PrunedExtends(st);
    if name in st.resolved || Some(name) in Pruned(st).resolving {
    } else if name !in st.definitions {
      PushedKeeps(st, name);
    } else {
      var script := st.definitions[name];
      PushShrinksPending(st, name);
      ResolveAllKeeps(Invoked(st, name), script.deps);
      var run := ResolveAll(Invoked(st, name), script.deps);
      SettleKeeps(st, run.0, name, run.1, script.completion);
    }
  }

  /** Validity alone, as the container's `resolve` needs it. */
  lemma ResolveValid(st: State, name: Name)
    requires Valid(st)
    ensures Valid(Resolve(st, name).0)
  {
    ResolveKeeps(st, name);
  }

  /** Just before a factory runs: the container is valid and its pending set is smaller. */
  lemma InvokedReady(st: State, name: Name)
    requires name in st.definitions && name !in st.resolved
    requires Some(name) !in Pruned(st).resolving
    requires Valid(st)
    ensures Pending(Invoked(st, name)) < Pending(st) && Valid(Invoked(st, name))
  {
    PushShrinksPending(st, name);
  }

  /** What resolving a list promises: on success the values are the cached instances of
      the names, in order; on failure the names before the failing one are cached and the
      failing one is stuck. */
  lemma {:induction false} ResolveAllKeeps(st: State, names: seq<Name>)
    ensures var out := ResolveAll(st, names);
      && Extends(st, out.0)
      && (Valid(st) ==> Valid(out.0))
      && (out.1.Ok? ==>
            forall i :: 0 <= i < |names| ==>
              names[i] in out.0.resolved && out.0.resolved[names[i]] == out.1.value[i])
      && (out.1.Err? ==>
            exists k :: 0 <= k < |names| && Stuck(out.0, names[k])
                     && (forall j :: 0 <= j < k ==> names[j] in out.0.resolved))
    decreases Pending(st), |names|
  {
    if names != [] {
      var step := Resolve(st, names[0]);
      ResolveKeeps(st, names[0]);
      if step.1.Ok? {
        var rest := ResolveAll(step.0, names[1..]);
        ResolveAllKeeps(step.0, names[1..]);
        ExtendsTrans(st, step.0, rest.0);
        if rest.1.Err? {
          FailureShifts(rest.0, names);
        } else {
          SuccessShifts(rest.0, names, step.1.value, rest.1.value);
        }
      }
    }
  }

  /** What resolving the `k`-th name gives once every name before it has been resolved. */
  function FailureAt(st: State, names: seq<Name>, k: nat): (State, Result<Value>)
    requires k < |names|
  {
    Resolve(ResolveAll(st, names[..k]).0, names[k])
  }

  /** The names before the `k`-th resolve, and the `k`-th one fails. */
  predicate StopsAt(st: State, names: seq<Name>, k: nat)
    requires k < |names|
  {
    ResolveAll(st, names[..k]).1.Ok? && FailureAt(st, names, k).1.Err?
  }

  /** A failing list stops at its first failing name: that name's own error comes back
      unchanged, with the state it left, and no later name is resolved. */
  lemma {:induction false} ResolveAllStops(st: State, names: seq<Name>)
    ensures ResolveAll(st, names).1.Err? ==>
      exists k: nat :: k < |names| && StopsAt(st, names, k)
        && ResolveAll(st, names) == (FailureAt(st, names, k).0, Err(FailureAt(st, names, k).1.error))
    decreases |names|
  {
    if names != [] {
      var step := Resolve(st, names[0]);
      if step.1.Err? {
        assert names[..0] == [];
        assert StopsAt(st, names, 0);
      } else {
        var tail := names[1..];
        var rest := ResolveAll(step.0, tail);
        if rest.1.Err? {
          ResolveAllStops(step.0, tail);
          var k: nat :| k < |tail| && StopsAt(step.0, tail, k)
            && rest == (FailureAt(step.0, tail, k).0, Err(FailureAt(step.0, tail, k).1.error));
          StopShifts(st, names, k);
        }
      }
    }
  }

  /** Once the first name resolves, stopping at the `k`-th later name is stopping at the
      `k + 1`-th name of the whole list, with the same outcome. */
  lemma StopShifts(st: State, names: seq<Name>, k: nat)
    requires names != [] && Resolve(st, names[0]).1.Ok?
    requires k < |names| - 1 && StopsAt(Resolve(st, names[0]).0, names[1..], k)
    ensures StopsAt(st, names, k + 1)
    ensures FailureAt(st, names, k + 1) == FailureAt(Resolve(st, names[0]).0, names[1..], k)
  {
    var step := Resolve(st, names[0]);
    var prefix := names[..k + 1];
    assert prefix[0] == names[0] && prefix[1..] == names[1..][..k];
    var pre := ResolveAll(step.0, names[1..][..k]);
    assert ResolveAll(st, prefix) == (pre.0, Ok([step.1.value] + pre.1.value));
    assert names[k + 1] == names[1..][k];
  }

  /** The values of the later names, after the value of the first, are the values of
      the whole list. */
  lemma SuccessShifts(st: State, names: seq<Name>, first: Value, later: seq<Value>)
    requires names != [] && names[0] in st.resolved && st.resolved[names[0]] == first
    requires |later| == |names| - 1
    requires forall i :: 0 <= i < |later| ==>
      names[1..][i] in st.resolved && st.resolved[names[1..][i]] == later[i]
    ensures forall i :: 0 <= i < |names| ==>
      names[i] in st.resolved && st.resolved[names[i]] == ([first] + later)[i]
  {
    forall i | 0 <= i < |names|
      ensures names[i] in st.resolved && st.resolved[names[i]] == ([first] + later)[i]
    {
      if i > 0 { assert names[i] == names[1..][i - 1]; }
    }
  }

  /** A failure among the later names is a failure of the whole list, once the first
      name is cached. */
  lemma FailureShifts(st: State, names: seq<Name>)
    requires names != [] && names[0] in st.resolved
    requires exists k :: 0 <= k < |names[1..]| && Stuck(st, names[1..][k])
                     && (forall j :: 0 <= j < k ==> names[1..][j] in st.resolved)
    ensures exists k :: 0 <= k < |names| && Stuck(st, names[k])
                    && (forall j :: 0 <= j < k ==> names[j] in st.resolved)
  {
    var tail := names[1..];
    var k :| 0 <= k < |tail| && Stuck(st, tail[k]) && (forall j :: 0 <= j < k ==> tail[j] in st.resolved);
    assert Stuck(st, names[k + 1]);
    forall j | 0 <= j < k + 1 ensures names[j] in st.resolved {
      if j > 0 { assert names[j] == tail[j - 1]; }
    }
  }

  /** The outcome of resolving the remaining names, after `done` were already resolved. */
  function Continue(rest: (State, Result<seq<Value>>), done: seq<Value>): (State, Result<seq<Value>>) {
    if rest.1.Err? then rest else (rest.0, Ok(done + rest.1.value))
  }

  lemma ContinueNothing(rest: (State, Result<seq<Value>>))
    ensures Continue(rest, []) == rest
  {
    if rest.1.Ok? { assert [] + rest.1.value == rest.1.value; }
  }

  /** Resolving a list of names is resolving the first one, then the rest. */
  lemma ResolveAllStep(st: State, names: seq<Name>, done: seq<Value>)
    requires names != []
    ensures var step := Resolve(st, names[0]);
      Continue(ResolveAll(st, names), done) ==
        if step.1.Err? then (step.0, Err(step.1.error))
        else Continue(ResolveAll(step.0, names[1..]), done + [step.1.value])
  {
    var step := Resolve(st, names[0]);
    if step.1.Err? {
      assert ResolveAll(st, names) == (step.0, Err(step.1.error));
    } else {
      var rest := ResolveAll(step.0, names[1..]);
      if rest.1.Ok? {
        assert ResolveAll(st, names) == (rest.0, Ok([step.1.value] + rest.1.value));
        assert done + ([step.1.value] + rest.1.value) == (done + [step.1.value]) + rest.1.value;
      } else {
        assert ResolveAll(st, names) == (rest.0, Err(rest.1.error));
      }
    }
  }

  /** The end of `resolve` once the factory has run: a failure propagates, an undefined
      result is rejected, anything else is memoized and returned. */
  function Settle(after: State, name: Name, deps: Result<seq<Value>>, completion: Completion): (State, Result<Value>) {
    if deps.Err? then (after, Err(deps.error))
    else match completion
      case Throws(msg) => (after, Err(Thrown(msg)))
      case Returns(v) =>
        if v == Undefined then (after, Err(EmptyDefinition(name)))
        else (after.(resolved := after.resolved[name := v]), Ok(v))
  }

  lemma SettlePending(after: State, name: Name, deps: Result<seq<Value>>, completion: Completion)
    ensures Pending(Settle(after, name, deps, completion).0) <= Pending(after)
  {
  }

  /** Settling a name whose factory ran from `st` keeps the postconditions of `Resolve`. */
  lemma SettleKeeps(st: State, after: State, name: Name, deps: Result<seq<Value>>, completion: Completion)
    requires name in st.definitions && name !in st.resolved && Some(name) !in Pruned(st).resolving
    requires Extends(Invoked(st, name), after)
    requires Valid(Invoked(st, name)) ==> Valid(after)
    requires Valid(st) ==> Valid(Invoked(st, name))
    ensures var out := Settle(after, name, deps, completion);
      && Extends(st, out.0)
      && (Valid(st) ==> Valid(out.0))
      && (out.1.Ok? ==> name in out.0.resolved && out.0.resolved[name] == out.1.value)
      && (out.1.Err? ==> Stuck(out.0, name))
  {
    var invoked := Invoked(st, name);
    PushShrinksPending(st, name);
    ExtendsTrans(st, invoked, after);
    var out := Settle(after, name, deps, completion);
    if out.1.Ok? {
      PruneMembership(st.resolving, st.resolved, name);
      assert name in invoked.calls;
      assert out.0 == after.(resolved := after.resolved[name := out.1.value]);
    } else {
      PushedKeeps(st, name);
      StuckPersists(invoked, after, name);
      assert out.0 == after;
    }
  }

  // ---------------------------------------------------------------------------
  // define and invoke

  /** `define(name, definition)`: a non-callable is refused and nothing changes;
      a callable overwrites the definition of `name` and nothing else. */
  function Define(st: State, name: Name, definition: Definition): (out: (State, Option<Error>))
    ensures out.1.Some? <==> !IsFunction(definition)
    ensures out.1.Some? ==> out == (st, Some(InvalidDefinition(name)))
    ensures out.0.resolved == st.resolved && out.0.resolving == st.resolving && out.0.calls == st.calls
    ensures IsDefined(out.0, name) <==> IsDefined(st, name) || IsFunction(definition)
    ensures IsFunction(definition) ==> out.0.definitions[name] == definition.script
    ensures forall n :: n != name ==> (n in out.0.definitions <==> n in st.definitions)
    ensures forall n :: n != name && n in st.definitions ==> out.0.definitions[n] == st.definitions[n]
  {
    if !IsFunction(definition) then (st, Some(InvalidDefinition(name)))
    else (st.(definitions := st.definitions[name := definition.script]), None)
  }

  /** The preconditions of `Invoke`: every element before the last is a service name. */
  predicate NamesBeforeLast(annotated: seq<Item>) {
    forall i :: 0 <= i < |annotated| - 1 ==> annotated[i].ServiceName?
  }

  /** Whether `invoke` accepts the array: at least two elements, the last one callable. */
  predicate Annotated(annotated: seq<Item>) {
    |annotated| >= 2 && annotated[|annotated| - 1].Callable?
  }

  /** The service names of an accepted array: every element but the callable. */
  function Dependencies(annotated: seq<Item>): seq<Name>
    requires NamesBeforeLast(annotated) && |annotated| > 0
  {
    seq(|annotated| - 1, i requires 0 <= i < |annotated| - 1 => annotated[i].name)
  }

  /** The cached instances of `names`, in order: the arguments the callable receives. */
  function Instances(resolved: map<Name, Value>, names: seq<Name>): seq<Value>
    requires forall n :: n in names ==> n in resolved
  {
    seq(|names|, i requires 0 <= i < |names| => resolved[names[i]])
  }

  /** `invoke(annotated)`: reject a malformed array, resolve the names in order, and apply
      the callable to the resolved instances. */
  function Invoke(st: State, annotated: seq<Item>): (out: (State, Result<Value>))
    requires NamesBeforeLast(annotated)
    ensures !Annotated(annotated) ==> out == (st, Err(InvalidInvocation))
  {
    if !Annotated(annotated) then (st, Err(InvalidInvocation))
    else
      var all := ResolveAll(st, Dependencies(annotated));
      if all.1.Err? then (all.0, Err(all.1.error))
      else (all.0, Ok(annotated[|annotated| - 1].call(all.1.value)))
  }

  /** What `invoke` promises: a later, still valid state; on success every name is cached
      and the callable received exactly their cached instances, in order; on failure of a
      well-formed call, one of the names is stuck. */
  lemma InvokeKeeps(st: State, annotated: seq<Item>)
    requires NamesBeforeLast(annotated)
    ensures var out := Invoke(st, annotated);
      && Extends(st, out.0)
      && (Valid(st) ==> Valid(out.0))
      && (out.1.Ok? ==>
            && Annotated(annotated)
            && (forall i :: 0 <= i < |annotated| - 1 ==> annotated[i].name in out.0.resolved)
            && out.1.value == annotated[|annotated| - 1].call(Instances(out.0.resolved, Dependencies(annotated))))
      && (Annotated(annotated) && out.1.Err? ==>
            exists k :: 0 <= k < |annotated| - 1 && Stuck(out.0, annotated[k].name))
      && (Annotated(annotated) && out.1.Err? ==>
            exists k: nat :: k < |annotated| - 1 && StopsAt(st, Dependencies(annotated), k)
              && out == FailureAt(st, Dependencies(annotated), k))
  {
    if Annotated(annotated) {
      var names := Dependencies(annotated);
      ResolveAllKeeps(st, names);
      ResolveAllStops(st, names);
      var all := ResolveAll(st, names);
      assert forall i :: 0 <= i < |names| ==> names[i] == annotated[i].name;
      if all.1.Ok? {
        assert all.1.value == Instances(all.0.resolved, names);
      }
    }
  }

  // ---------------------------------------------------------------------------
  // Properties of single calls

  /** A cached name is returned from the cache: no factory runs, nothing is pushed. */
  lemma MemoHit(st: State, name: Name)
    requires name in st.resolved
    ensures Resolve(st, name) == (Pruned(st), Ok(st.resolved[name]))
    ensures Resolve(st, name).0.calls == st.calls
  {
  }

  /** Resolving a name that failed before reports the cycle through the current path
      and changes nothing beyond the cleanup. */
  lemma CycleDetected(st: State, name: Name)
    requires Stuck(st, name)
    ensures var path := Pruned(st).resolving;
      |path| > 0 &&
      Resolve(st, name) == (Pruned(st), Err(CircularDependency(path + [path[0]])))
  {
    PruneMembership(st.resolving, st.resolved, name);
  }

  /** Two stuck names reported one after the other give the same error, and the second
      call changes nothing. */
  lemma CycleRepeats(st: State, n: Name, m: Name)
    requires Stuck(st, n) && Stuck(st, m)
    ensures Resolve(Resolve(st, n).0, m) == Resolve(st, n)
  {
    CycleDetected(st, n);
    var s1 := Pruned(st);
    StuckPersists(st, s1, m);
    CycleDetected(s1, m);
    PruneAbsorbs(st.resolving, st.resolved, st.resolved);
  }

  /** A name that is neither cached nor in flight, and not defined, fails with
      `NotDefined`; it is pushed, no factory runs, nothing is cached. */
  lemma NotDefinedFails(st: State, name: Name)
    requires name !in st.resolved && Some(name) !in st.resolving && name !in st.definitions
    ensures Resolve(st, name) == (Pushed(st, name), Err(NotDefined(name)))
    ensures Resolve(st, name).0.resolved == st.resolved && Resolve(st, name).0.calls == st.calls
    ensures Stuck(Resolve(st, name).0, name)
  {
    PruneMembership(st.resolving, st.resolved, name);
  }

  /** A fresh defined name runs its factory once; once its dependencies resolved, an
      undefined result fails with `EmptyDefinition` and is not cached, a thrown error
      propagates, and any other value is cached and returned. */
  lemma FactoryOutcome(st: State, name: Name)
    requires name !in st.resolved && Some(name) !in st.resolving && name in st.definitions
    requires ResolveAll(Invoked(st, name), st.definitions[name].deps).1.Ok?
    ensures var out := Resolve(st, name);
      && st.calls + [name] <= out.0.calls
      && match st.definitions[name].completion
         case Throws(msg) => out.1 == Err(Thrown(msg)) && name !in out.0.resolved
         case Returns(v) =>
           if v == Undefined then out.1 == Err(EmptyDefinition(name)) && name !in out.0.resolved
           else out.1 == Ok(v) && out.0.resolved[name] == v
  {
    PruneMembership(st.resolving, st.resolved, name);
    ResolveAllKeeps(Invoked(st, name), st.definitions[name].deps);
  }

  /** A fresh defined name whose factory fails at a nested resolve fails with that very
      error, in the state the nested resolve left; nothing is cached for it. */
  lemma FactoryFails(st: State, name: Name)
    requires name !in st.resolved && Some(name) !in st.resolving && name in st.definitions
    ensures var run := ResolveAll(Invoked(st, name), st.definitions[name].deps);
      run.1.Err? ==> Resolve(st, name) == (run.0, Err(run.1.error))
  {
    PruneMembership(st.resolving, st.resolved, name);
  }

  // ---------------------------------------------------------------------------
  // Properties over the container's lifetime

  /** A call on the container that changes its definitions or its caches. */
  datatype Op = DefineOp(name: Name, definition: Definition) | ResolveOp(name: Name)

  /** The state after performing `ops` in order; failures are thrown to the caller and
      leave the state they reached. */
  function Replay(st: State, ops: seq<Op>): State
    decreases |ops|
  {
    if ops == [] then st
    else
      var next := match ops[0]
        case DefineOp(n, d) => Define(st, n, d).0
        case ResolveOp(n) => Resolve(st, n).0;
      Replay(next, ops[1..])
  }

  /** Every reachable container is valid; in particular no factory has been invoked twice. */
  lemma {:induction false} ReplayValid(st: State, ops: seq<Op>)
    requires Valid(st)
    ensures Valid(Replay(st, ops))
    ensures NoDuplicates(Replay(st, ops).calls)
    decreases |ops|
  {
    if ops != [] {
      var next := match ops[0]
        case DefineOp(n, d) => Define(st, n, d).0
        case ResolveOp(n) => Resolve(st, n).0;
      if ops[0].ResolveOp? { ResolveKeeps(st, ops[0].name); }
      ReplayValid(next, ops[1..]);
    }
  }

  /** Cached instances and stuck names survive any later calls, and the path only grows. */
  lemma {:induction false} ReplayKeeps(st: State, ops: seq<Op>)
    ensures forall n :: n in st.resolved ==>
      n in Replay(st, ops).resolved && Replay(st, ops).resolved[n] == st.resolved[n]
    ensures forall n :: Stuck(st, n) ==> Stuck(Replay(st, ops), n)
    ensures st.calls <= Replay(st, ops).calls
    decreases |ops|
  {
    if ops != [] {
      var next := match ops[0]
        case DefineOp(n, d) => Define(st, n, d).0
        case ResolveOp(n) => Resolve(st, n).0;
      if ops[0].ResolveOp? { ResolveKeeps(st, ops[0].name); }
      forall n | Stuck(st, n) ensures Stuck(next, n) {
        if ops[0].ResolveOp? { StuckPersists(st, next, n); }
      }
      ReplayKeeps(next, ops[1..]);
    }
  }

  /** `op` is a `define` of `name` with a callable definition. */
  predicate Registers(op: Op, name: Name) {
    op.DefineOp? && op.name == name && IsFunction(op.definition)
  }

  /** `isDefined(name)` holds after a run of calls exactly when it held before or one of
      the calls defined `name` with a callable: definitions are never removed, a refused
      definition registers nothing, and resolution never touches them. */
  lemma {:induction false} DefinedAfterReplay(st: State, ops: seq<Op>, name: Name)
    ensures IsDefined(Replay(st, ops), name) <==>
      IsDefined(st, name) || exists i :: 0 <= i < |ops| && Registers(ops[i], name)
    decreases |ops|
  {
    if ops != [] {
      var next := match ops[0]
        case DefineOp(n, d) => Define(st, n, d).0
        case ResolveOp(n) => Resolve(st, n).0;
      if ops[0].ResolveOp? { ResolveKeeps(st, ops[0].name); }
      assert IsDefined(next, name) <==> IsDefined(st, name) || Registers(ops[0], name);
      DefinedAfterReplay(next, ops[1..], name);
      if exists i :: 0 <= i < |ops[1..]| && Registers(ops[1..][i], name) {
        var i :| 0 <= i < |ops[1..]| && Registers(ops[1..][i], name);
        assert Registers(ops[i + 1], name);
      }
      if exists i :: 0 <= i < |ops| && Registers(ops[i], name) {
        var i :| 0 <= i < |ops| && Registers(ops[i], name);
        if i > 0 { assert Registers(ops[1..][i - 1], name); }
      }
    }
  }

  /** Memoization: once `resolve(name)` has returned a value, every later `resolve(name)`
      returns the same value without invoking any factory, whatever was defined since. */
  lemma Memoized(st: State, name: Name, ops: seq<Op>)
    requires Resolve(st, name).1.Ok?
    ensures var later := Replay(Resolve(st, name).0, ops);
      && Resolve(later, name).1 == Resolve(st, name).1
      && Resolve(later, name).0.calls == later.calls
  {
    ResolveKeeps(st, name);
    ReplayKeeps(Resolve(st, name).0, ops);
  }

  /** Sticky failure: once `resolve(name)` has failed, every later `resolve(name)` fails
      with a circular dependency, whatever was defined or resolved since. */
  lemma FailureIsSticky(st: State, name: Name, ops: seq<Op>)
    requires Resolve(st, name).1.Err?
    ensures var later := Replay(Resolve(st, name).0, ops);
      && Stuck(later, name)
      && Resolve(later, name).1.Err?
      && Resolve(later, name).1.error.CircularDependency?
  {
    var later := Replay(Resolve(st, name).0, ops);
    ResolveKeeps(st, name);
    ReplayKeeps(Resolve(st, name).0, ops);
    CycleDetected(later, name);
  }
}
