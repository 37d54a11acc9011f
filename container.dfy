/** The Objar container of objar.js as an object whose methods update its three fields
    in place. Each method is proved to leave the container in the state, and to return
    the result, that the functions of module Resolution prescribe. */
module Container {
  import opened Resolution

  /** The array handed to `invoke`, which `invoke` shortens by popping its last element. */
  class AnnotatedArray {
    var items: seq<Item>

    constructor (items: seq<Item>)
      ensures this.items == items
    {
      this.items := items;
    }
  }

  class Objar {
    var definitions: map<Name, Script>
    var resolved: map<Name, Value>
    var resolving: seq<Option<Name>>
    /** The names whose factory has been invoked, in order (not a field of the source). */
    ghost var calls: seq<Name>

    ghost function Snapshot(): State
      reads this
    {
      State(definitions, resolved, resolving, calls)
    }

    ghost predicate Valid()
      reads this
    {
      Resolution.Valid(Snapshot())
    }

    constructor ()
      ensures Snapshot() == Empty && Valid()
    {
      definitions := map[];
      resolved := map[];
      resolving := [];
      calls := [];
    }

    /** `define(name, definition)`; on success the container itself is returned, for chaining. */
    method Define(name: Name, definition: Definition) returns (r: Result<Objar>)
      modifies this`definitions
      ensures Snapshot() == Resolution.Define(old(Snapshot()), name, definition).0
      ensures Valid() == old(Valid())
      ensures r == if IsFunction(definition) then Ok(this) else Err(InvalidDefinition(name))
    {
      if !IsFunction(definition) {
        return Err(InvalidDefinition(name));
      }
      definitions := definitions[name := definition.script];
      return Ok(this);
    }

    /** `isDefined(name)`: the container's answer is the one of `Resolution.IsDefined`. */
    predicate IsDefined(name: Name): (r: bool)
      reads this
      ensures r == Resolution.IsDefined(Snapshot(), name)
    {
      name in definitions
    }

    /** The cleanup loop at the start of `resolve`: every entry naming a resolved service
        becomes a hole; the path keeps its length. */
    method PruneResolving()
      modifies this`resolving
      ensures resolving == Prune(old(resolving), resolved)
    {
      var i := 0;
      while i < |resolving|
        invariant 0 <= i <= |resolving| == |old(resolving)|
        invariant forall k :: 0 <= k < i ==> resolving[k] == Cleared(old(resolving)[k], resolved)
        invariant forall k :: i <= k < |resolving| ==> resolving[k] == old(resolving)[k]
      {
        var serviceName := resolving[i];
        if serviceName.Some? && serviceName.value in resolved {
          resolving := resolving[i := None];
        }
        i := i + 1;
      }
      PruneAt(old(resolving), resolved);
    }

    /** `resolve(name)`. */
    method Resolve(name: Name) returns (r: Result<Value>)
      requires Valid()
      modifies this`resolved, this`resolving, this`calls
      ensures Valid()
      ensures (Snapshot(), r) == Resolution.Resolve(old(Snapshot()), name)
      decreases Pending(Snapshot()), 0
    {
      ghost var start := Snapshot();
      ResolveValid(start, name);
      PruneResolving();
      if name in resolved {
        return Ok(resolved[name]);
      }
      if Some(name) in resolving {
        return Err(CircularDependency(resolving + [resolving[0]]));
      }
      resolving := resolving + [Some(name)];
      if name !in definitions {
        return Err(NotDefined(name));
      }
      var definition := definitions[name];
      // the factory starts running
      calls := calls + [name];
      assert Snapshot() == Invoked(start, name);
      InvokedReady(start, name);
      r := Construct(name, definition);
    }

    /** The end of `resolve`: the factory of `name`, just pushed, runs; a thrown error
        propagates, an undefined result is rejected, anything else is memoized. */
    method Construct(name: Name, definition: Script) returns (r: Result<Value>)
      requires Valid()
      modifies this`resolved, this`resolving, this`calls
      ensures
        var run := ResolveAll(old(Snapshot()), definition.deps);
        (Snapshot(), r) == Settle(run.0, name, run.1, definition.completion)
      decreases Pending(Snapshot()), 2
    {
      var deps := RunFactory(definition);
      match definition.completion {
        case Throws(msg) =>
          if deps.Ok? { return Err(Thrown(msg)); }
        case Returns(service) =>
          if deps.Ok? && service == Undefined { return Err(EmptyDefinition(name)); }
          if deps.Ok? {
            resolved := resolved[name := service];
            return Ok(service);
          }
      }
      return Err(deps.error);
    }

    /** The body of a factory as far as the container can see it: the services it asks
        for, resolved in order, stopping at the first failure. */
    method RunFactory(script: Script) returns (r: Result<seq<Value>>)
      requires Valid()
      modifies this`resolved, this`resolving, this`calls
      ensures Valid()
      ensures (Snapshot(), r) == ResolveAll(old(Snapshot()), script.deps)
      decreases Pending(Snapshot()), 1
    {
      ghost var start := Snapshot();
      var deps := script.deps;
      var values: seq<Value> := [];
      var i := 0;
      assert deps[i..] == deps;
      ContinueNothing(ResolveAll(start, deps));
      while i < |deps|
        invariant 0 <= i <= |deps|
        invariant Valid()
        invariant Pending(Snapshot()) <= Pending(start)
        invariant ResolveAll(start, deps) == Continue(ResolveAll(Snapshot(), deps[i..]), values)
      {
        ghost var before := Snapshot();
        ResolveAllStep(before, deps[i..], values);
        var d := Resolve(deps[i]);
        assert deps[i..][1..] == deps[i + 1..];
        if d.Err? {
          return Err(d.error);
        }
        values := values + [d.value];
        i := i + 1;
      }
      assert deps[i..] == [] && values + [] == values;
      return Ok(values);
    }

    /** `invoke(annotated)`: the callable is popped off the caller's array before it is
        checked, then the remaining names are resolved in order. */
    method Invoke(annotated: AnnotatedArray) returns (r: Result<Value>)
      requires Valid()
      requires NamesBeforeLast(annotated.items)
      modifies this`resolved, this`resolving, this`calls, annotated
      ensures Valid()
      ensures annotated.items ==
        if |old(annotated.items)| < 2 then old(annotated.items)
        else old(annotated.items)[..|old(annotated.items)| - 1]
      ensures (Snapshot(), r) == Resolution.Invoke(old(Snapshot()), old(annotated.items))
    {
      if |annotated.items| < 2 {
        return Err(InvalidInvocation);
      }
      ghost var start := Snapshot();
      ghost var names := Dependencies(annotated.items);
      var callable := annotated.items[|annotated.items| - 1];
      annotated.items := annotated.items[..|annotated.items| - 1];
      var args: seq<Value> := [];
      if !callable.Callable? {
        return Err(InvalidInvocation);
      }
      var i := 0;
      assert names[i..] == names;
      ContinueNothing(ResolveAll(start, names));
      while i < |annotated.items|
        invariant 0 <= i <= |annotated.items| == |names|
        invariant forall j :: 0 <= j < |names| ==> annotated.items[j].ServiceName? && annotated.items[j].name == names[j]
        invariant Valid()
        invariant Pending(Snapshot()) <= Pending(start)
        invariant ResolveAll(start, names) == Continue(ResolveAll(Snapshot(), names[i..]), args)
      {
        var serviceName := annotated.items[i].name;
        ghost var before := Snapshot();
        ResolveAllStep(before, names[i..], args);
        var service := Resolve(serviceName);
        assert names[i..][1..] == names[i + 1..];
        if service.Err? {
          return Err(service.error);
        }
        args := args + [service.value];
        i := i + 1;
      }
      assert names[i..] == [] && args + [] == args;
      return Ok(callable.call(args));
    }
  }
}
