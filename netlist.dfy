/**
 * The netlist a layout component reports (its instances and its
 * connections), the `"instance,port"` strings of the connection map, the
 * circuit objects of the two simulators the netlist is handed to, and the
 * loop shape all three circuit builders share: go through a dictionary in
 * order, skip an entry, record something for it or raise.
 */
module Netlists {
  import opened Wrappers
  import opened Strings
  import opened Values

  /** One instance of the netlist: its `"component"` type (possibly None) and its `"settings"`. */
  datatype Instance = Instance(componentType: Option<string>, settings: seq<(string, Value)>)

  /**
   * `component.get_netlist()`: instances by name and connections from
   * `"instance,port"` to `"instance,port"`, both in dictionary order.
   */
  datatype Netlist = Netlist(instances: seq<(string, Instance)>, connections: seq<(string, string)>)

  /** What a model function returned; `isSimphonyModel` says whether it is a simphony `Model`. */
  datatype ModelObject = ModelObject(description: string, isSimphonyModel: bool)

  /** A model function applied to an instance's settings: a model or the exception it raised. */
  type ModelFunction = seq<(string, Value)> -> Result<ModelObject>

  /** A `model_factory` dictionary from component type to model function. */
  type Factory = map<string, ModelFunction>

  /** The four arguments of a `connect(instance1, port1, instance2, port2)` call. */
  datatype Connection = Connection(instance1: string, port1: string, instance2: string, port2: string)

  /**
   * `name, port = s.split(",")`: exactly one comma, or the unpacking raises
   * `ValueError`.
   */
  function SplitPort(s: string): (r: Result<(string, string)>)
    ensures r.Ok? <==> Count(s, ',') == 1
    ensures r.Ok? ==> s == r.value.0 + "," + r.value.1 && ',' !in r.value.0 && ',' !in r.value.1
  {
    var parts := Split(s, ',');
    if |parts| == 2 then
      SplitThenJoin(s, ',');
      assert Join(parts, ",") == parts[0] + "," + Join(parts[1..], ",");
      Ok((parts[0], parts[1]))
    else Err(ValueError)
  }

  /** Splitting a joined `"instance,port"` gives the two names back. */
  lemma SplitPortJoin(name: string, port: string)
    requires ',' !in name && ',' !in port
    ensures SplitPort(name + "," + port) == Ok((name, port))
  {
    var parts := [name, port];
    assert Join(parts, [',']) == name + "," + port by {
      assert parts[1..] == [port];
    }
    JoinThenSplit(parts, ',');
  }

  /** Both sides of one connection entry, the key split first. */
  function ParseConnection(key: string, value: string): (r: Result<Connection>)
    ensures r.Ok? <==> SplitPort(key).Ok? && SplitPort(value).Ok?
    ensures r.Err? ==> r.error == ValueError
    ensures r.Ok? ==> key == r.value.instance1 + "," + r.value.port1 && value == r.value.instance2 + "," + r.value.port2
  {
    match SplitPort(key)
    case Err(e) => Err(e)
    case Ok(p1) =>
      match SplitPort(value)
      case Err(e) => Err(e)
      case Ok(p2) => Ok(Connection(p1.0, p1.1, p2.0, p2.1))
  }

  /** What one pass of a loop body does with its entry. */
  datatype Step<T> = Skip | Emit(item: T) | Raise(error: PyError)

  /** The items a loop has produced and the exception that ended it, if any. */
  datatype Run<T> = Run(done: seq<T>, failure: Option<PyError>)

  /** The loop over `xs` with body `step`, which stops at the first exception. */
  function RunAll<X, T>(xs: seq<X>, step: X -> Step<T>): Run<T>
    decreases |xs|
  {
    if xs == [] then Run([], None)
    else
      var r := RunAll(xs[..|xs| - 1], step);
      if r.failure.Some? then r
      else match step(xs[|xs| - 1])
        case Skip => r
        case Emit(t) => Run(r.done + [t], None)
        case Raise(e) => Run(r.done, Some(e))
  }

  /** One more entry: what a loop does after the `i` entries before it. */
  lemma RunAllNext<X, T>(xs: seq<X>, i: nat, step: X -> Step<T>)
    requires i < |xs|
    ensures RunAll(xs[..i + 1], step) ==
      var r := RunAll(xs[..i], step);
      if r.failure.Some? then r
      else match step(xs[i])
        case Skip => r
        case Emit(t) => Run(r.done + [t], None)
        case Raise(e) => Run(r.done, Some(e))
  {
    assert xs[..i + 1][..i] == xs[..i];
  }

  /** Once a loop has raised, the entries after that are never looked at. */
  lemma {:induction false} RunAllSticky<X, T>(xs: seq<X>, i: nat, step: X -> Step<T>)
    requires i <= |xs| && RunAll(xs[..i], step).failure.Some?
    ensures RunAll(xs, step) == RunAll(xs[..i], step)
    decreases |xs|
  {
    if i < |xs| {
      var front := xs[..|xs| - 1];
      assert front[..i] == xs[..i];
      RunAllSticky(front, i, step);
    } else {
      assert xs[..i] == xs;
    }
  }

  /** A loop raises exactly when some entry's body raises. */
  lemma {:induction false} RunAllFails<X, T>(xs: seq<X>, step: X -> Step<T>)
    ensures RunAll(xs, step).failure.Some? <==> exists i :: 0 <= i < |xs| && step(xs[i]).Raise?
    decreases |xs|
  {
    if xs != [] {
      var front := xs[..|xs| - 1];
      RunAllFails(front, step);
      if RunAll(front, step).failure.Some? {
        var i :| 0 <= i < |front| && step(front[i]).Raise?;
        assert step(xs[i]).Raise?;
      } else if step(xs[|xs| - 1]).Raise? {
      } else {
        forall i | 0 <= i < |xs| ensures !step(xs[i]).Raise? {
          if i < |front| {
            assert xs[i] == front[i];
          }
        }
      }
    }
  }

  /** The exception a loop raises is that of the first entry whose body raises. */
  lemma FirstFailure<X, T>(xs: seq<X>, i: nat, step: X -> Step<T>)
    requires i < |xs| && step(xs[i]).Raise?
    requires forall j :: 0 <= j < i ==> !step(xs[j]).Raise?
    ensures RunAll(xs, step).failure == Some(step(xs[i]).error)
  {
    RunAllFails(xs[..i], step);
    assert forall j :: 0 <= j < i ==> xs[..i][j] == xs[j];
    RunAllNext(xs, i, step);
    RunAllSticky(xs, i + 1, step);
  }

  /** Without an exception, the loop keeps exactly the items its bodies emit, in entry order. */
  lemma {:induction false} RunAllItems<X, T>(xs: seq<X>, step: X -> Step<T>, t: T)
    requires RunAll(xs, step).failure.None?
    ensures t in RunAll(xs, step).done <==> exists i :: 0 <= i < |xs| && step(xs[i]) == Emit(t)
    decreases |xs|
  {
    if xs != [] {
      var front := xs[..|xs| - 1];
      RunAllItems(front, step, t);
      if exists i :: 0 <= i < |xs| && step(xs[i]) == Emit(t) {
        var i :| 0 <= i < |xs| && step(xs[i]) == Emit(t);
        if i < |front| {
          assert front[i] == xs[i];
        }
      }
      if exists i :: 0 <= i < |front| && step(front[i]) == Emit(t) {
        var i :| 0 <= i < |front| && step(front[i]) == Emit(t);
        assert step(xs[i]) == Emit(t);
      }
    }
  }

  /** A body that never skips gives one item per entry, the `i`-th from the `i`-th entry. */
  lemma {:induction false} RunAllTotal<X, T>(xs: seq<X>, step: X -> Step<T>)
    requires forall i :: 0 <= i < |xs| ==> step(xs[i]).Emit?
    ensures RunAll(xs, step).failure.None?
    ensures |RunAll(xs, step).done| == |xs|
    ensures forall i :: 0 <= i < |xs| ==> RunAll(xs, step).done[i] == step(xs[i]).item
    decreases |xs|
  {
    if xs != [] {
      var front := xs[..|xs| - 1];
      assert forall i :: 0 <= i < |front| ==> front[i] == xs[i];
      RunAllTotal(front, step);
    }
  }

  /** A body that never emits leaves the loop with nothing produced. */
  lemma {:induction false} RunAllSilent<X, T>(xs: seq<X>, step: X -> Step<T>)
    requires forall i :: 0 <= i < |xs| ==> !step(xs[i]).Emit?
    ensures RunAll(xs, step).done == []
    decreases |xs|
  {
    if xs != [] {
      var front := xs[..|xs| - 1];
      assert forall i :: 0 <= i < |front| ==> front[i] == xs[i];
      RunAllSilent(front, step);
    }
  }

  /** The instance names of `(model, name)` pairs. */
  function Names(pairs: seq<(ModelObject, string)>): (names: seq<string>)
    ensures |names| == |pairs|
    ensures forall i :: 0 <= i < |pairs| ==> names[i] == pairs[i].1
  {
    if pairs == [] then [] else [pairs[0].1] + Names(pairs[1..])
  }

  /** The connection loop that connects only instances whose names were registered. */
  function ConnectRegistered(registered: seq<string>): ((string, string)) -> Step<Connection>
  {
    (entry: (string, string)) =>
      match ParseConnection(entry.0, entry.1)
      case Err(e) => Raise(e)
      case Ok(c) => if c.instance1 in registered && c.instance2 in registered then Emit(c) else Skip
  }

  /**
   * Without an exception, the connections made are exactly the parsed
   * entries whose two instances were both registered.
   */
  lemma ConnectRegisteredItems(connections: seq<(string, string)>, registered: seq<string>, c: Connection)
    requires RunAll(connections, ConnectRegistered(registered)).failure.None?
    ensures c in RunAll(connections, ConnectRegistered(registered)).done <==>
      c.instance1 in registered && c.instance2 in registered &&
      exists i :: 0 <= i < |connections| && ParseConnection(connections[i].0, connections[i].1) == Ok(c)
  {
    RunAllItems(connections, ConnectRegistered(registered), c);
  }

  /** With nothing registered nothing is ever connected. */
  lemma ConnectNothingRegistered(connections: seq<(string, string)>)
    ensures RunAll(connections, ConnectRegistered([])).done == []
  {
    RunAllSilent(connections, ConnectRegistered([]));
  }

  /** The connection loop is stopped only by a malformed `"instance,port"` string, with `ValueError`. */
  lemma ConnectRegisteredFails(connections: seq<(string, string)>, registered: seq<string>)
    ensures RunAll(connections, ConnectRegistered(registered)).failure.Some? <==>
      exists i :: 0 <= i < |connections| && ParseConnection(connections[i].0, connections[i].1).Err?
  {
    RunAllFails(connections, ConnectRegistered(registered));
  }

  /** simphony's `Subcircuit`: the named circuit the elements are added to and connected in. */
  class Subcircuit {
    var name: string
    var elements: seq<(ModelObject, string)>
    var connections: seq<Connection>
    var info: Option<Netlist>

    constructor(name: string)
      ensures this.name == name && elements == [] && connections == [] && info == None
    {
      this.name := name;
      elements := [];
      connections := [];
      info := None;
    }

    /** `circuit.add(pairs)`: elements named by their instance. */
    method Add(pairs: seq<(ModelObject, string)>)
      modifies this
      ensures elements == old(elements) + pairs
      ensures name == old(name) && connections == old(connections) && info == old(info)
    {
      elements := elements + pairs;
    }

    /** `circuit.connect(instance1, port1, instance2, port2)`. */
    method Connect(instance1: string, port1: string, instance2: string, port2: string)
      modifies this
      ensures connections == old(connections) + [Connection(instance1, port1, instance2, port2)]
      ensures name == old(name) && elements == old(elements) && info == old(info)
    {
      connections := connections + [Connection(instance1, port1, instance2, port2)];
    }
  }

  /** opics' `Network`: components are added one at a time, without a name. */
  class Network {
    var name: string
    var components: seq<ModelObject>
    var connections: seq<Connection>

    constructor(name: string)
      ensures this.name == name && components == [] && connections == []
    {
      this.name := name;
      components := [];
      connections := [];
    }

    /** `network.add_component(model)`. */
    method AddComponent(model: ModelObject)
      modifies this
      ensures components == old(components) + [model]
      ensures name == old(name) && connections == old(connections)
    {
      components := components + [model];
    }

    /** `network.connect(instance1, port1, instance2, port2)`. */
    method Connect(instance1: string, port1: string, instance2: string, port2: string)
      modifies this
      ensures connections == old(connections) + [Connection(instance1, port1, instance2, port2)]
      ensures name == old(name) && components == old(components)
    {
      connections := connections + [Connection(instance1, port1, instance2, port2)];
    }
  }
}
