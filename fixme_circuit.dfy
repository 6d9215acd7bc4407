/**
 * `component_to_circuit` of the simphony back end kept under `fixme/`:
 * skip instances without a component type, reject a type the factory does
 * not know, build and check every other model, add them all in one call,
 * then connect only the pairs of registered instances.
 */
module FixmeCircuit {
  import opened Wrappers
  import opened Netlists

  /** The body of the instance loop for one `(name, settings)` entry. */
  function AcceptInstance(factory: Factory): ((string, Instance)) -> Step<(ModelObject, string)>
  {
    (entry: (string, Instance)) =>
      match entry.1.componentType
      case None => Skip
      case Some(t) =>
        if t !in factory then Raise(ValueError)
        else match factory[t](entry.1.settings)
          case Err(e) => Raise(e)
          case Ok(model) => if model.isSimphonyModel then Emit((model, entry.0)) else Raise(AssertionError)
  }

  /** The instance loop over the netlist. */
  function Instances(netlist: Netlist, factory: Factory): Run<(ModelObject, string)>
  {
    RunAll(netlist.instances, AcceptInstance(factory))
  }

  /** The connection loop, given the names registered by the instance loop. */
  function Connections(netlist: Netlist, registered: seq<string>): Run<Connection>
  {
    RunAll(netlist.connections, ConnectRegistered(registered))
  }

  /**
   * The instance loop of `component_to_circuit`: the registered names and
   * the `(model, name)` pairs, or the exception that stopped it.
   */
  method CollectModels(instances: seq<(string, Instance)>, factory: Factory)
    returns (modelNames: seq<string>, modelNameTuple: seq<(ModelObject, string)>, outcome: Outcome)
    ensures outcome.Pass? <==> RunAll(instances, AcceptInstance(factory)).failure.None?
    ensures outcome.Fail? ==> outcome.error == RunAll(instances, AcceptInstance(factory)).failure.value
    ensures outcome.Pass? ==> modelNameTuple == RunAll(instances, AcceptInstance(factory)).done
    ensures modelNames == Names(modelNameTuple)
  {
    modelNames := [];
    modelNameTuple := [];
    var i := 0;
    while i < |instances|
      invariant 0 <= i <= |instances|
      invariant RunAll(instances[..i], AcceptInstance(factory)) == Run(modelNameTuple, None)
      invariant modelNames == Names(modelNameTuple)
    {
      RunAllNext(instances, i, AcceptInstance(factory));
      var name := instances[i].0;
      var settings := instances[i].1;
      if settings.componentType.None? {
        i := i + 1;
        continue;
      }
      var componentType := settings.componentType.value;
      if componentType !in factory {
        outcome := Fail(ValueError);
        RunAllSticky(instances, i + 1, AcceptInstance(factory));
        return;
      }
      var modelFunction := factory[componentType];
      var built := modelFunction(settings.settings);
      if built.Err? {
        outcome := Fail(built.error);
        RunAllSticky(instances, i + 1, AcceptInstance(factory));
        return;
      }
      var model := built.value;
      if !model.isSimphonyModel {
        outcome := Fail(AssertionError);
        RunAllSticky(instances, i + 1, AcceptInstance(factory));
        return;
      }
      modelNames := modelNames + [name];
      modelNameTuple := modelNameTuple + [(model, name)];
      assert Names(modelNameTuple) == Names(modelNameTuple[..|modelNameTuple| - 1]) + [name];
      i := i + 1;
    }
    assert instances[..i] == instances;
    outcome := Pass;
  }

  /** The connection loop of `component_to_circuit`. */
  method ConnectModels(circuit: Subcircuit, connections: seq<(string, string)>, modelNames: seq<string>)
    returns (outcome: Outcome)
    modifies circuit
    ensures outcome.Pass? <==> RunAll(connections, ConnectRegistered(modelNames)).failure.None?
    ensures outcome.Fail? ==> outcome.error == RunAll(connections, ConnectRegistered(modelNames)).failure.value
    ensures circuit.connections == old(circuit.connections) + RunAll(connections, ConnectRegistered(modelNames)).done
    ensures circuit.name == old(circuit.name) && circuit.elements == old(circuit.elements) && circuit.info == old(circuit.info)
  {
    var j := 0;
    while j < |connections|
      invariant 0 <= j <= |connections|
      invariant circuit.connections == old(circuit.connections) + RunAll(connections[..j], ConnectRegistered(modelNames)).done
      invariant RunAll(connections[..j], ConnectRegistered(modelNames)).failure.None?
      invariant circuit.name == old(circuit.name) && circuit.elements == old(circuit.elements) && circuit.info == old(circuit.info)
    {
      RunAllNext(connections, j, ConnectRegistered(modelNames));
      var key := connections[j].0;
      var value := connections[j].1;
      var first := SplitPort(key);
      if first.Err? {
        outcome := Fail(ValueError);
        RunAllSticky(connections, j + 1, ConnectRegistered(modelNames));
        return;
      }
      var second := SplitPort(value);
      if second.Err? {
        outcome := Fail(ValueError);
        RunAllSticky(connections, j + 1, ConnectRegistered(modelNames));
        return;
      }
      var (model1Name, port1Name) := first.value;
      var (model2Name, port2Name) := second.value;
      if model1Name in modelNames && model2Name in modelNames {
        circuit.Connect(model1Name, port1Name, model2Name, port2Name);
      }
      j := j + 1;
    }
    assert connections[..j] == connections;
    outcome := Pass;
  }

  /**
   * `component_to_circuit`. The circuit is created first and named after
   * the component; on an exception it is returned with what had been done
   * to it, and `outcome` carries the exception.
   */
  method ComponentToCircuit(componentName: string, netlist: Netlist, factory: Factory)
    returns (circuit: Subcircuit, outcome: Outcome)
    ensures fresh(circuit) && circuit.name == componentName
    ensures Instances(netlist, factory).failure.Some? ==>
      && outcome == Fail(Instances(netlist, factory).failure.value)
      && circuit.elements == [] && circuit.connections == [] && circuit.info == None
    ensures Instances(netlist, factory).failure.None? ==>
      var conns := Connections(netlist, Names(Instances(netlist, factory).done));
      && circuit.elements == Instances(netlist, factory).done
      && circuit.connections == conns.done
      && (conns.failure.Some? ==> outcome == Fail(conns.failure.value) && circuit.info == None)
      && (conns.failure.None? ==> outcome == Pass && circuit.info == Some(netlist))
  {
    circuit := new Subcircuit(componentName);
    var modelNames, modelNameTuple, collected := CollectModels(netlist.instances, factory);
    if collected.Fail? {
      return circuit, collected;
    }
    circuit.Add(modelNameTuple);
    outcome := ConnectModels(circuit, netlist.connections, modelNames);
    if outcome.Fail? {
      return;
    }
    circuit.info := Some(netlist);
  }

  /** An instance the loop accepts: a known type whose model builds and is a simphony `Model`. */
  predicate Accepts(factory: Factory, settings: Instance, model: ModelObject)
  {
    && settings.componentType.Some?
    && settings.componentType.value in factory
    && factory[settings.componentType.value](settings.settings) == Ok(model)
    && model.isSimphonyModel
  }

  /**
   * Without an exception, the circuit holds `(model, name)` exactly for the
   * accepted instances: those whose type is None are never registered.
   */
  lemma RegisteredExactly(netlist: Netlist, factory: Factory, model: ModelObject, name: string)
    requires Instances(netlist, factory).failure.None?
    ensures (model, name) in Instances(netlist, factory).done <==>
      exists i :: 0 <= i < |netlist.instances| && netlist.instances[i].0 == name && Accepts(factory, netlist.instances[i].1, model)
  {
    RunAllItems(netlist.instances, AcceptInstance(factory), (model, name));
  }

  /** The first instance of an unknown type raises `ValueError` when every instance before it was accepted or skipped. */
  lemma UnknownTypeRaises(netlist: Netlist, factory: Factory, i: nat)
    requires i < |netlist.instances|
    requires netlist.instances[i].1.componentType.Some? && netlist.instances[i].1.componentType.value !in factory
    requires forall j :: 0 <= j < i ==>
      netlist.instances[j].1.componentType.None? || exists m :: Accepts(factory, netlist.instances[j].1, m)
    ensures Instances(netlist, factory).failure == Some(ValueError)
  {
    forall j | 0 <= j < i
      ensures !AcceptInstance(factory)(netlist.instances[j]).Raise?
    {
      if netlist.instances[j].1.componentType.Some? {
        var m :| Accepts(factory, netlist.instances[j].1, m);
      }
    }
    FirstFailure(netlist.instances, i, AcceptInstance(factory));
  }

  /** A model function that returns something other than a simphony `Model` fails the assertion. */
  lemma ForeignModelFails(netlist: Netlist, factory: Factory, i: nat)
    requires i < |netlist.instances|
    requires netlist.instances[i].1.componentType.Some? && netlist.instances[i].1.componentType.value in factory
    requires var s := netlist.instances[i].1;
      factory[s.componentType.value](s.settings).Ok? && !factory[s.componentType.value](s.settings).value.isSimphonyModel
    requires forall j :: 0 <= j < i ==>
      netlist.instances[j].1.componentType.None? || exists m :: Accepts(factory, netlist.instances[j].1, m)
    ensures Instances(netlist, factory).failure == Some(AssertionError)
  {
    forall j | 0 <= j < i
      ensures !AcceptInstance(factory)(netlist.instances[j]).Raise?
    {
      if netlist.instances[j].1.componentType.Some? {
        var m :| Accepts(factory, netlist.instances[j].1, m);
      }
    }
    FirstFailure(netlist.instances, i, AcceptInstance(factory));
  }

  /**
   * Without an exception, a connection is made exactly when its entry parses
   * and both of its instances were registered; every other entry is dropped.
   */
  lemma ConnectedExactly(netlist: Netlist, registered: seq<string>, c: Connection)
    requires Connections(netlist, registered).failure.None?
    ensures c in Connections(netlist, registered).done <==>
      c.instance1 in registered && c.instance2 in registered &&
      exists i :: 0 <= i < |netlist.connections| && ParseConnection(netlist.connections[i].0, netlist.connections[i].1) == Ok(c)
  {
    ConnectRegisteredItems(netlist.connections, registered, c);
  }
}
