/** The behaviours exercised by objarSpec.js, proved on concrete containers. */
module Scenarios {
  import opened Resolution

  // ---------------------------------------------------------------------------
  // Unfolding helpers

  /** A name that is neither cached nor in flight, and defined, runs its factory. */
  lemma RunsFactory(st: State, name: Name)
    requires name !in st.resolved && Some(name) !in st.resolving && name in st.definitions
    ensures var script := st.definitions[name];
      var run := ResolveAll(Invoked(st, name), script.deps);
      Resolve(st, name) == Settle(run.0, name, run.1, script.completion)
  {
    PruneMembership(st.resolving, st.resolved, name);
  }

  /** The cleanup leaves a path alone when none of its entries is cached. */
  lemma PruneKeeps(path: seq<Option<Name>>, resolved: map<Name, Value>)
    requires forall k :: 0 <= k < |path| && path[k].Some? ==> path[k].value !in resolved
    ensures Prune(path, resolved) == path
  {
    PruneAt(path, resolved);
  }

  /** A factory without dependencies that returns a proper value is cached at once. */
  lemma Leaf(st: State, name: Name, v: Value)
    requires name !in st.resolved && Some(name) !in st.resolving
    requires name in st.definitions && st.definitions[name] == Script([], Returns(v))
    requires v != Undefined
    ensures Resolve(st, name) == (Invoked(st, name).(resolved := st.resolved[name := v]), Ok(v))
  {
    RunsFactory(st, name);
  }

  /** Resolving a single name. */
  lemma ResolveAllOne(st: State, name: Name)
    ensures var step := Resolve(st, name);
      ResolveAll(st, [name]) == if step.1.Ok? then (step.0, Ok([step.1.value])) else (step.0, Err(step.1.error))
  {
    var step := Resolve(st, name);
    assert [name][0] == name && [name][1..] == [];
    if step.1.Ok? {
      assert ResolveAll(step.0, []) == (step.0, Ok([]));
      assert [step.1.value] + [] == [step.1.value];
    }
  }

  /** A factory with one dependency, which resolves, and a proper result. */
  lemma OneDep(st: State, name: Name, dep: Name, v: Value)
    requires name !in st.resolved && Some(name) !in st.resolving
    requires name in st.definitions && st.definitions[name] == Script([dep], Returns(v))
    requires v != Undefined
    requires Resolve(Invoked(st, name), dep).1.Ok?
    ensures var inner := Resolve(Invoked(st, name), dep).0;
      Resolve(st, name) == (inner.(resolved := inner.resolved[name := v]), Ok(v))
  {
    RunsFactory(st, name);
    ResolveAllOne(Invoked(st, name), dep);
  }

  // ---------------------------------------------------------------------------
  // "should add a service definition" and "should throw an error when adding an
  // invalid service definition"

  const FooScript: Script := Script([], Returns(Str("bar")))

  lemma DefineScenario()
    ensures !IsDefined(Empty, "foo")
    ensures Define(Empty, "foo", Factory(FooScript)).1 == None
    ensures IsDefined(Define(Empty, "foo", Factory(FooScript)).0, "foo")
    ensures Define(Empty, "foo", NotCallable(Str("bar"))) == (Empty, Some(InvalidDefinition("foo")))
  {
  }

  lemma InvalidDefinitionMessage()
    ensures Message(InvalidDefinition("foo")) == "The service \"foo\" definition must be a function"
  {
    assert Message(InvalidDefinition("foo")) == "The service \"" + "foo" + "\" definition must be a function";
  }

  // ---------------------------------------------------------------------------
  // "should throw an error when resolving a non existing service"

  lemma NotDefinedScenario()
    ensures Resolve(Empty, "foo").1 == Err(NotDefined("foo"))
  {
    NotDefinedFails(Empty, "foo");
  }

  lemma NotDefinedMessage()
    ensures Message(NotDefined("foo")) == "The service \"foo\" is not defined"
  {
  }

  // ---------------------------------------------------------------------------
  // "should throw an error when the service definition does not return it", and what a
  // second attempt then reports

  /** A container where `foo` is defined by a factory that returns nothing. */
  lemma EmptyDefinitionScenario(defs: map<Name, Script>)
    requires "foo" in defs && defs["foo"] == Script([], Returns(Undefined))
    ensures var first := Resolve(State(defs, map[], [], []), "foo");
      && first.1 == Err(EmptyDefinition("foo"))
      && first.0.calls == ["foo"]
      && var retry := Resolve(first.0, "foo");
      && retry.1 == Err(CircularDependency([Some("foo"), Some("foo")]))
      && retry.0.calls == ["foo"]
  {
    var s0 := State(defs, map[], [], []);
    RunsFactory(s0, "foo");
    var first := Invoked(s0, "foo");
    assert first == State(defs, map[], [Some("foo")], ["foo"]);
    assert ResolveAll(first, []) == (first, Ok([]));
    assert Resolve(s0, "foo") == (first, Err(EmptyDefinition("foo")));
    PruneKeeps(first.resolving, first.resolved);
    CycleDetected(first, "foo");
    assert Pruned(first) == first;
    assert first.resolving + [first.resolving[0]] == [Some("foo"), Some("foo")];
  }

  lemma EmptyDefinitionMessage()
    ensures Message(EmptyDefinition("foo")) == "The definition of the service \"foo\" must return it"
  {
    assert Message(EmptyDefinition("foo")) == "The definition of the service \"" + "foo" + "\" must return it";
  }

  lemma SelfCycleMessage()
    ensures Message(CircularDependency([Some("foo"), Some("foo")]))
      == "Circular dependency detected: foo -> foo"
  {
    assert Join([Some("foo"), Some("foo")]) == "foo -> foo";
  }

  // ---------------------------------------------------------------------------
  // "should return the same instance of a service"

  lemma SameInstanceScenario(defs: map<Name, Script>, id: nat)
    requires "foo" in defs && defs["foo"] == Script([], Returns(Obj(id)))
    ensures var first := Resolve(State(defs, map[], [], []), "foo");
      var second := Resolve(first.0, "foo");
      && first.1 == Ok(Obj(id))
      && second.1 == first.1
      && second.0.calls == ["foo"]
  {
    var s0 := State(defs, map[], [], []);
    Leaf(s0, "foo", Obj(id));
    MemoHit(Resolve(s0, "foo").0, "foo");
  }

  // ---------------------------------------------------------------------------
  // "should resolve a service": A needs B then C, both need D, D needs E

  predicate Diamond(defs: map<Name, Script>) {
    && "A" in defs && defs["A"] == Script(["B", "C"], Returns(Str("A")))
    && "B" in defs && defs["B"] == Script(["D"], Returns(Str("B")))
    && "C" in defs && defs["C"] == Script(["D"], Returns(Str("C")))
    && "D" in defs && defs["D"] == Script(["E"], Returns(Str("D")))
    && "E" in defs && defs["E"] == Script([], Returns(Str("E")))
  }

  /** Inside A, B and D, E runs and is cached. */
  lemma DiamondE(defs: map<Name, Script>)
    requires Diamond(defs)
    ensures Resolve(State(defs, map[], [Some("A"), Some("B"), Some("D")], ["A", "B", "D"]), "E") == (
      State(defs, map["E" := Str("E")], [Some("A"), Some("B"), Some("D"), Some("E")], ["A", "B", "D", "E"]),
      Ok(Str("E")))
  {
    var sD := State(defs, map[], [Some("A"), Some("B"), Some("D")], ["A", "B", "D"]);
    PruneKeeps(sD.resolving, sD.resolved);
    assert Invoked(sD, "E") == State(defs, map[], [Some("A"), Some("B"), Some("D"), Some("E")], ["A", "B", "D", "E"]);
    Leaf(sD, "E", Str("E"));
    assert map[]["E" := Str("E")] == map["E" := Str("E")];
  }

  /** Inside A and B, D runs, resolving E. */
  lemma DiamondD(defs: map<Name, Script>)
    requires Diamond(defs)
    ensures Resolve(State(defs, map[], [Some("A"), Some("B")], ["A", "B"]), "D") == (
      State(defs, map["E" := Str("E"), "D" := Str("D")],
            [Some("A"), Some("B"), Some("D"), Some("E")], ["A", "B", "D", "E"]),
      Ok(Str("D")))
  {
    var sB := State(defs, map[], [Some("A"), Some("B")], ["A", "B"]);
    PruneKeeps(sB.resolving, sB.resolved);
    assert Invoked(sB, "D") == State(defs, map[], [Some("A"), Some("B"), Some("D")], ["A", "B", "D"]);
    DiamondE(defs);
    OneDep(sB, "D", "E", Str("D"));
  }

  /** Resolving B from inside A runs B, D and E, in that order, and caches all three. */
  lemma DiamondLeftBranch(defs: map<Name, Script>)
    requires Diamond(defs)
    ensures Resolve(State(defs, map[], [Some("A")], ["A"]), "B") == (
      State(defs, map["E" := Str("E"), "D" := Str("D"), "B" := Str("B")],
            [Some("A"), Some("B"), Some("D"), Some("E")], ["A", "B", "D", "E"]),
      Ok(Str("B")))
  {
    var sA := State(defs, map[], [Some("A")], ["A"]);
    PruneKeeps(sA.resolving, sA.resolved);
    assert Invoked(sA, "B") == State(defs, map[], [Some("A"), Some("B")], ["A", "B"]);
    DiamondD(defs);
    OneDep(sA, "B", "D", Str("B"));
  }

  /** The state once B, and with it D and E, is cached, back inside A. */
  function AfterB(defs: map<Name, Script>): State {
    State(defs, map["E" := Str("E"), "D" := Str("D"), "B" := Str("B")],
          [Some("A"), Some("B"), Some("D"), Some("E")], ["A", "B", "D", "E"])
  }

  /** The state once C is cached too, back inside A. */
  function AfterC(defs: map<Name, Script>): State {
    State(defs, map["E" := Str("E"), "D" := Str("D"), "B" := Str("B"), "C" := Str("C")],
          [Some("A"), None, None, None, Some("C")], ["A", "B", "D", "E", "C"])
  }

  /** Back inside A, the cleanup turns B, D and E into holes, and C is pushed. */
  lemma DiamondPushC(defs: map<Name, Script>)
    ensures Invoked(AfterB(defs), "C") == State(defs, AfterB(defs).resolved,
      [Some("A"), None, None, None, Some("C")], ["A", "B", "D", "E", "C"])
  {
    var tB := AfterB(defs);
    PruneAt(tB.resolving, tB.resolved);
    assert Prune(tB.resolving, tB.resolved) == [Some("A"), None, None, None];
  }

  /** Inside A and C, D comes from the cache. */
  lemma DiamondCachedD(defs: map<Name, Script>)
    requires Diamond(defs)
    ensures var sC := Invoked(AfterB(defs), "C");
      Resolve(sC, "D") == (sC, Ok(Str("D")))
  {
    DiamondPushC(defs);
    var sC := Invoked(AfterB(defs), "C");
    MemoHit(sC, "D");
    PruneKeeps(sC.resolving, sC.resolved);
  }

  /** Resolving C afterwards runs only C: the cleanup turns B, D and E into holes, and D
      comes from the cache. */
  lemma DiamondRightBranch(defs: map<Name, Script>)
    requires Diamond(defs)
    ensures Resolve(AfterB(defs), "C") == (AfterC(defs), Ok(Str("C")))
  {
    DiamondCachedD(defs);
    OneDep(AfterB(defs), "C", "D", Str("C"));
    DiamondPushC(defs);
  }

  /** A's factory resolves B, then C. */
  lemma DiamondDeps(defs: map<Name, Script>)
    requires Diamond(defs)
    ensures ResolveAll(State(defs, map[], [Some("A")], ["A"]), ["B", "C"])
      == (AfterC(defs), Ok([Str("B"), Str("C")]))
  {
    var sA := State(defs, map[], [Some("A")], ["A"]);
    DiamondLeftBranch(defs);
    assert Resolve(sA, "B") == (AfterB(defs), Ok(Str("B")));
    DiamondRightBranch(defs);
    ResolveAllOne(AfterB(defs), "C");
    assert ResolveAll(AfterB(defs), ["C"]) == (AfterC(defs), Ok([Str("C")]));
    assert ["B", "C"][0] == "B" && ["B", "C"][1..] == ["C"];
    assert [Str("B")] + [Str("C")] == [Str("B"), Str("C")];
  }

  /** The factories run in the order A, B, D, E, C, each exactly once. */
  lemma DiamondScenario(defs: map<Name, Script>)
    requires Diamond(defs)
    ensures var out := Resolve(State(defs, map[], [], []), "A");
      && out.1 == Ok(Str("A"))
      && out.0.calls == ["A", "B", "D", "E", "C"]
  {
    var s0 := State(defs, map[], [], []);
    RunsFactory(s0, "A");
    assert Invoked(s0, "A") == State(defs, map[], [Some("A")], ["A"]);
    DiamondDeps(defs);
  }

  // ---------------------------------------------------------------------------
  // "should detect circular dependencies when resolving a service": A needs B, B needs
  // C, C needs D then E, D needs A

  predicate Cycle(defs: map<Name, Script>) {
    && "A" in defs && defs["A"] == Script(["B"], Returns(Str("A")))
    && "B" in defs && defs["B"] == Script(["C"], Returns(Str("B")))
    && "C" in defs && defs["C"] == Script(["D", "E"], Returns(Str("C")))
    && "D" in defs && defs["D"] == Script(["A"], Returns(Str("D")))
    && "E" in defs && defs["E"] == Script([], Returns(Str("E")))
  }

  /** The path A, B, C, D, as left behind by the failed resolution of A. */
  const Loop: seq<Option<Name>> := [Some("A"), Some("B"), Some("C"), Some("D")]

  /** The error every name of the loop reports. */
  const LoopError: Error := CircularDependency(Loop + [Some("A")])

  /** A factory whose first dependency fails fails with the same error, leaving the state
      that dependency left. */
  lemma FirstDepFails(st: State, name: Name)
    requires name !in st.resolved && Some(name) !in st.resolving && name in st.definitions
    requires st.definitions[name].deps != []
    requires Resolve(Invoked(st, name), st.definitions[name].deps[0]).1.Err?
    ensures var inner := Resolve(Invoked(st, name), st.definitions[name].deps[0]);
      Resolve(st, name) == (inner.0, Err(inner.1.error))
  {
    RunsFactory(st, name);
  }

  /** Inside A, B and C, D asks for A, which is in flight. */
  lemma LoopD(defs: map<Name, Script>)
    requires Cycle(defs)
    ensures Resolve(State(defs, map[], Loop[..3], ["A", "B", "C"]), "D")
      == (State(defs, map[], Loop, ["A", "B", "C", "D"]), Err(LoopError))
  {
    var sC := State(defs, map[], Loop[..3], ["A", "B", "C"]);
    PruneKeeps(sC.resolving, sC.resolved);
    var sD := Invoked(sC, "D");
    assert sD == State(defs, map[], Loop, ["A", "B", "C", "D"]);
    PruneKeeps(sD.resolving, sD.resolved);
    CycleDetected(sD, "A");
    assert Pruned(sD) == sD;
    FirstDepFails(sC, "D");
  }

  /** Inside A and B, C fails at its first dependency, D. */
  lemma LoopC(defs: map<Name, Script>)
    requires Cycle(defs)
    ensures Resolve(State(defs, map[], Loop[..2], ["A", "B"]), "C")
      == (State(defs, map[], Loop, ["A", "B", "C", "D"]), Err(LoopError))
  {
    var sB := State(defs, map[], Loop[..2], ["A", "B"]);
    PruneKeeps(sB.resolving, sB.resolved);
    assert Invoked(sB, "C") == State(defs, map[], Loop[..3], ["A", "B", "C"]);
    LoopD(defs);
    FirstDepFails(sB, "C");
  }

  /** Resolving A fails with the cycle A, B, C, D, A; no factory ran twice, and E's did
      not run at all. */
  lemma LoopA(defs: map<Name, Script>)
    requires Cycle(defs)
    ensures Resolve(State(defs, map[], [], []), "A")
      == (State(defs, map[], Loop, ["A", "B", "C", "D"]), Err(LoopError))
  {
    var s0 := State(defs, map[], [], []);
    var sA := Invoked(s0, "A");
    assert sA == State(defs, map[], Loop[..1], ["A"]);
    PruneKeeps(sA.resolving, sA.resolved);
    assert Invoked(sA, "B") == State(defs, map[], Loop[..2], ["A", "B"]);
    LoopC(defs);
    FirstDepFails(sA, "B");
    FirstDepFails(s0, "A");
  }

  /** `join` of the loop, before it is closed. */
  lemma JoinLoop()
    ensures Join(Loop) == "A -> B -> C -> D"
  {
    assert Loop[1..] == [Some("B"), Some("C"), Some("D")];
    assert Loop[1..][1..] == [Some("C"), Some("D")];
    assert Loop[1..][1..][1..] == [Some("D")];
  }

  lemma LoopMessage()
    ensures Message(LoopError) == "Circular dependency detected: " + "A -> B -> C -> D -> A"
  {
    JoinLoop();
    JoinSnoc(Loop, Some("A"));
  }

  /** After the failure, resolving B, C or D reports the same cycle and changes nothing. */
  lemma LoopRepeats(defs: map<Name, Script>, name: Name)
    requires Cycle(defs)
    requires name in ["A", "B", "C", "D"]
    ensures var failed := State(defs, map[], Loop, ["A", "B", "C", "D"]);
      Resolve(failed, name) == (failed, Err(LoopError))
  {
    var failed := State(defs, map[], Loop, ["A", "B", "C", "D"]);
    PruneKeeps(failed.resolving, failed.resolved);
    assert Some(name) in Loop;
    CycleDetected(failed, name);
    assert Pruned(failed) == failed;
  }

  /** E, which the failure never reached, still resolves; it is pushed after the loop. */
  lemma LoopThenE(defs: map<Name, Script>)
    requires Cycle(defs)
    ensures Resolve(State(defs, map[], Loop, ["A", "B", "C", "D"]), "E")
      == (State(defs, map["E" := Str("E")], Loop + [Some("E")], ["A", "B", "C", "D", "E"]), Ok(Str("E")))
  {
    var failed := State(defs, map[], Loop, ["A", "B", "C", "D"]);
    PruneKeeps(failed.resolving, failed.resolved);
    assert Invoked(failed, "E") == State(defs, map[], Loop + [Some("E")], ["A", "B", "C", "D", "E"]);
    Leaf(failed, "E", Str("E"));
    assert map[]["E" := Str("E")] == map["E" := Str("E")];
  }

  /** Once E is cached, the cleanup leaves a hole where E was, and the cycle reported for
      A then renders that hole as an empty name. */
  lemma LoopAfterE(defs: map<Name, Script>)
    requires Cycle(defs)
    ensures var afterE := State(defs, map["E" := Str("E")], Loop + [Some("E")], ["A", "B", "C", "D", "E"]);
      Resolve(afterE, "A").1 == Err(CircularDependency(Loop + [None, Some("A")]))
  {
    var afterE := State(defs, map["E" := Str("E")], Loop + [Some("E")], ["A", "B", "C", "D", "E"]);
    PruneAt(afterE.resolving, afterE.resolved);
    assert Prune(afterE.resolving, afterE.resolved) == Loop + [None];
    CycleDetected(afterE, "A");
    assert (Loop + [None]) + [(Loop + [None])[0]] == Loop + [None, Some("A")];
  }

  /** `join` renders the hole left by E as an empty name between two separators. */
  lemma JoinLoopHole()
    ensures Join(Loop + [None, Some("A")]) == "A -> B -> C -> D ->  -> A"
  {
    JoinLoop();
    JoinSnoc(Loop, None);
    JoinSnoc(Loop + [None], Some("A"));
    assert Loop + [None, Some("A")] == (Loop + [None]) + [Some("A")];
  }

  lemma LoopAfterEMessage()
    ensures Message(CircularDependency(Loop + [None, Some("A")]))
      == "Circular dependency detected: " + "A -> B -> C -> D ->  -> A"
  {
    JoinLoopHole();
  }

  // ---------------------------------------------------------------------------
  // "should throw an error when invoking a badly annotated function" and "should throw
  // an error when an annotated function needs an unexisting dependency"

  lemma BadlyAnnotatedScenario(st: State)
    ensures Invoke(st, [ServiceName("a")]) == (st, Err(InvalidInvocation))
    ensures Invoke(st, [ServiceName("a"), ServiceName("b")]) == (st, Err(InvalidInvocation))
  {
  }

  lemma InvalidInvocationMessage()
    ensures Message(InvalidInvocation) == "Objar.invoke() expects an annotated function"
  {
  }

  lemma MissingDependencyScenario(defs: map<Name, Script>, f: seq<Value> -> Value)
    requires "a" !in defs
    ensures Invoke(State(defs, map[], [], []), [ServiceName("a"), Callable(f)]).1 == Err(NotDefined("a"))
  {
    var s0 := State(defs, map[], [], []);
    var annotated := [ServiceName("a"), Callable(f)];
    assert Dependencies(annotated) == ["a"];
    NotDefinedFails(s0, "a");
    ResolveAllOne(s0, "a");
  }

  // ---------------------------------------------------------------------------
  // "should invoke an annotated function with the dependencies injected": A needs B,
  // B needs C

  predicate Chain(defs: map<Name, Script>) {
    && "A" in defs && defs["A"] == Script(["B"], Returns(Str("A")))
    && "B" in defs && defs["B"] == Script(["C"], Returns(Str("B")))
    && "C" in defs && defs["C"] == Script([], Returns(Str("C")))
  }

  /** The state once A, and with it B and C, is cached. */
  function ChainResolved(defs: map<Name, Script>): State {
    State(defs, map["C" := Str("C"), "B" := Str("B"), "A" := Str("A")],
          [Some("A"), Some("B"), Some("C")], ["A", "B", "C"])
  }

  /** Inside A and B, C runs and is cached. */
  lemma ChainC(defs: map<Name, Script>)
    requires Chain(defs)
    ensures Resolve(State(defs, map[], [Some("A"), Some("B")], ["A", "B"]), "C") == (
      State(defs, map["C" := Str("C")], [Some("A"), Some("B"), Some("C")], ["A", "B", "C"]),
      Ok(Str("C")))
  {
    var sB := State(defs, map[], [Some("A"), Some("B")], ["A", "B"]);
    PruneKeeps(sB.resolving, sB.resolved);
    assert Invoked(sB, "C") == State(defs, map[], [Some("A"), Some("B"), Some("C")], ["A", "B", "C"]);
    Leaf(sB, "C", Str("C"));
    assert map[]["C" := Str("C")] == map["C" := Str("C")];
  }

  /** Inside A, B runs and resolves C. */
  lemma ChainB(defs: map<Name, Script>)
    requires Chain(defs)
    ensures Resolve(State(defs, map[], [Some("A")], ["A"]), "B") == (
      State(defs, map["C" := Str("C"), "B" := Str("B")], [Some("A"), Some("B"), Some("C")], ["A", "B", "C"]),
      Ok(Str("B")))
  {
    var sA := State(defs, map[], [Some("A")], ["A"]);
    PruneKeeps(sA.resolving, sA.resolved);
    assert Invoked(sA, "B") == State(defs, map[], [Some("A"), Some("B")], ["A", "B"]);
    ChainC(defs);
    OneDep(sA, "B", "C", Str("B"));
  }

  /** Resolving A runs A, B and C. */
  lemma ChainA(defs: map<Name, Script>)
    requires Chain(defs)
    ensures Resolve(State(defs, map[], [], []), "A") == (ChainResolved(defs), Ok(Str("A")))
  {
    var s0 := State(defs, map[], [], []);
    assert Invoked(s0, "A") == State(defs, map[], [Some("A")], ["A"]);
    ChainB(defs);
    OneDep(s0, "A", "B", Str("A"));
  }

  /** B and C then come from the cache, after a cleanup that empties the path. */
  lemma ChainRest(defs: map<Name, Script>)
    requires Chain(defs)
    ensures var cleaned := ChainResolved(defs).(resolving := [None, None, None]);
      ResolveAll(ChainResolved(defs), ["B", "C"]) == (cleaned, Ok([Str("B"), Str("C")]))
  {
    var done := ChainResolved(defs);
    var cleaned := done.(resolving := [None, None, None]);
    PruneAt(done.resolving, done.resolved);
    assert Pruned(done) == cleaned;
    MemoHit(done, "B");
    PruneAt(cleaned.resolving, cleaned.resolved);
    assert Pruned(cleaned) == cleaned;
    MemoHit(cleaned, "C");
    ResolveAllOne(cleaned, "C");
    assert ["B", "C"][0] == "B" && ["B", "C"][1..] == ["C"];
    assert [Str("B")] + [Str("C")] == [Str("B"), Str("C")];
  }

  /** The callable receives the instances of A, B and C, in that order. */
  lemma InjectionScenario(defs: map<Name, Script>, f: seq<Value> -> Value)
    requires Chain(defs)
    ensures Invoke(State(defs, map[], [], []), [ServiceName("A"), ServiceName("B"), ServiceName("C"), Callable(f)]).1
      == Ok(f([Str("A"), Str("B"), Str("C")]))
  {
    var s0 := State(defs, map[], [], []);
    var annotated := [ServiceName("A"), ServiceName("B"), ServiceName("C"), Callable(f)];
    assert Dependencies(annotated) == ["A", "B", "C"];
    ChainA(defs);
    ChainRest(defs);
    assert ["A", "B", "C"][0] == "A" && ["A", "B", "C"][1..] == ["B", "C"];
    assert [Str("A")] + [Str("B"), Str("C")] == [Str("A"), Str("B"), Str("C")];
  }

  // ---------------------------------------------------------------------------
  // The test containers, built by `define` calls on a new container

  /** `define(name, factory)` calls, one per entry, in order. */
  function Defines(entries: seq<(Name, Script)>): seq<Op> {
    if entries == [] then []
    else [DefineOp(entries[0].0, Factory(entries[0].1))] + Defines(entries[1..])
  }

  /** The definitions after registering `entries` in order, a later entry overriding. */
  function Registered(defs: map<Name, Script>, entries: seq<(Name, Script)>): map<Name, Script>
    decreases |entries|
  {
    if entries == [] then defs
    else Registered(defs[entries[0].0 := entries[0].1], entries[1..])
  }

  /** Defining factories changes the definitions alone. */
  lemma {:induction false} ReplayDefines(st: State, entries: seq<(Name, Script)>)
    ensures Replay(st, Defines(entries)) == st.(definitions := Registered(st.definitions, entries))
    decreases |entries|
  {
    if entries != [] {
      var ops := Defines(entries);
      assert ops[0] == DefineOp(entries[0].0, Factory(entries[0].1));
      assert ops[1..] == Defines(entries[1..]);
      ReplayDefines(st.(definitions := st.definitions[entries[0].0 := entries[0].1]), entries[1..]);
    }
  }

  /** The `define` calls of "should resolve a service" (objarSpec.js:59-87), in order. */
  const DiamondEntries: seq<(Name, Script)> := [
    ("E", Script([], Returns(Str("E")))),
    ("A", Script(["B", "C"], Returns(Str("A")))),
    ("B", Script(["D"], Returns(Str("B")))),
    ("C", Script(["D"], Returns(Str("C")))),
    ("D", Script(["E"], Returns(Str("D"))))]

  /** A new container after those calls is a diamond with nothing resolved, so
      `DiamondScenario` applies to it: resolving A runs A, B, D, E, C. */
  lemma DiamondBuilt()
    ensures var st := Replay(Empty, Defines(DiamondEntries));
      && st == State(st.definitions, map[], [], [])
      && Diamond(st.definitions)
      && Resolve(st, "A").0.calls == ["A", "B", "D", "E", "C"]
  {
    ReplayDefines(Empty, DiamondEntries);
    var st := Replay(Empty, Defines(DiamondEntries));
    DiamondScenario(st.definitions);
  }

  /** The `define` calls of "should detect circular dependencies when resolving a service"
      (objarSpec.js:99-122), in order. */
  const CycleEntries: seq<(Name, Script)> := [
    ("A", Script(["B"], Returns(Str("A")))),
    ("B", Script(["C"], Returns(Str("B")))),
    ("E", Script([], Returns(Str("E")))),
    ("C", Script(["D", "E"], Returns(Str("C")))),
    ("D", Script(["A"], Returns(Str("D"))))]

  /** A new container after those calls is the cycle with nothing resolved, so `LoopA`
      applies to it: resolving A fails with the loop A, B, C, D, A. */
  lemma CycleBuilt()
    ensures var st := Replay(Empty, Defines(CycleEntries));
      && st == State(st.definitions, map[], [], [])
      && Cycle(st.definitions)
      && Resolve(st, "A").1 == Err(LoopError)
  {
    ReplayDefines(Empty, CycleEntries);
    var st := Replay(Empty, Defines(CycleEntries));
    LoopA(st.definitions);
  }

  /** The `define` calls of "should invoke an annotated function with the dependencies
      injected" (objarSpec.js:161-173), in order. */
  const ChainEntries: seq<(Name, Script)> := [
    ("A", Script(["B"], Returns(Str("A")))),
    ("B", Script(["C"], Returns(Str("B")))),
    ("C", Script([], Returns(Str("C"))))]

  /** A new container after those calls is the chain with nothing resolved, so
      `InjectionScenario` applies to it: the callable receives A, B and C. */
  lemma ChainBuilt(f: seq<Value> -> Value)
    ensures var st := Replay(Empty, Defines(ChainEntries));
      && st == State(st.definitions, map[], [], [])
      && Chain(st.definitions)
      && Invoke(st, [ServiceName("A"), ServiceName("B"), ServiceName("C"), Callable(f)]).1
        == Ok(f([Str("A"), Str("B"), Str("C")]))
  {
    ReplayDefines(Empty, ChainEntries);
    var st := Replay(Empty, Defines(ChainEntries));
    InjectionScenario(st.definitions, f);
  }
}
