/**
 * `circuit` of the opics back end: instances without a type or with a type
 * the factory lacks are skipped, every other model is added to the network
 * as soon as it is built, and the `"flat"` connections are parsed but never
 * connected, since the list of registered names stays empty.
 */
module OpicsNetlist {
  import opened Wrappers
  import opened Keywords
  import opened Netlists

  /** `get_netlist(recursive=True)`: the connections come grouped, the `"flat"` group being the one used. */
  datatype RecursiveNetlist = RecursiveNetlist(
    instances: seq<(string, Instance)>,
    connections: seq<(string, seq<(string, string)>)>)

  /** The body of the instance loop. */
  function AddInstance(factory: Factory): ((string, Instance)) -> Step<ModelObject>
  {
    (entry: (string, Instance)) =>
      match entry.1.componentType
      case None => Skip
      case Some(t) =>
        if t !in factory then Skip
        else match factory[t](entry.1.settings)
          case Err(e) => Raise(e)
          case Ok(model) => Emit(model)
  }

  function Instances(netlist: RecursiveNetlist, factory: Factory): Run<ModelObject>
  {
    RunAll(netlist.instances, AddInstance(factory))
  }

  /** The instance loop, adding each model to the network as it is built. */
  method AddModels(network: Network, instances: seq<(string, Instance)>, factory: Factory) returns (outcome: Outcome)
    modifies network
    ensures outcome.Pass? <==> RunAll(instances, AddInstance(factory)).failure.None?
    ensures outcome.Fail? ==> outcome.error == RunAll(instances, AddInstance(factory)).failure.value
    ensures network.components == old(network.components) + RunAll(instances, AddInstance(factory)).done
    ensures network.name == old(network.name) && network.connections == old(network.connections)
  {
    var i := 0;
    while i < |instances|
      invariant 0 <= i <= |instances|
      invariant network.components == old(network.components) + RunAll(instances[..i], AddInstance(factory)).done
      invariant RunAll(instances[..i], AddInstance(factory)).failure.None?
      invariant network.name == old(network.name) && network.connections == old(network.connections)
    {
      RunAllNext(instances, i, AddInstance(factory));
      var componentType := instances[i].1.componentType;
      if componentType.None? {
        i := i + 1;
        continue;
      }
      if componentType.value !in factory {
        i := i + 1;
        continue;
      }
      var componentSettings := instances[i].1.settings;
      assert componentType.value in factory;
      var modelFunction := factory[componentType.value];
      var built := modelFunction(componentSettings);
      if built.Err? {
        outcome := Fail(built.error);
        RunAllSticky(instances, i + 1, AddInstance(factory));
        return;
      }
      network.AddComponent(built.value);
      i := i + 1;
    }
    assert instances[..i] == instances;
    outcome := Pass;
  }

  /** The connection loop, against the list of registered names, which is empty. */
  method ConnectRegisteredModels(network: Network, connections: seq<(string, string)>, modelNames: seq<string>)
    returns (outcome: Outcome)
    modifies network
    ensures outcome.Pass? <==> RunAll(connections, ConnectRegistered(modelNames)).failure.None?
    ensures outcome.Fail? ==> outcome.error == RunAll(connections, ConnectRegistered(modelNames)).failure.value
    ensures network.connections == old(network.connections) + RunAll(connections, ConnectRegistered(modelNames)).done
    ensures network.name == old(network.name) && network.components == old(network.components)
  {
    var j := 0;
    while j < |connections|
      invariant 0 <= j <= |connections|
      invariant network.connections == old(network.connections) + RunAll(connections[..j], ConnectRegistered(modelNames)).done
      invariant RunAll(connections[..j], ConnectRegistered(modelNames)).failure.None?
      invariant network.name == old(network.name) && network.components == old(network.components)
    {
      RunAllNext(connections, j, ConnectRegistered(modelNames));
      var first := SplitPort(connections[j].0);
      if first.Err? {
        outcome := Fail(ValueError);
        RunAllSticky(connections, j + 1, ConnectRegistered(modelNames));
        return;
      }
      var second := SplitPort(connections[j].1);
      if second.Err? {
        outcome := Fail(ValueError);
        RunAllSticky(connections, j + 1, ConnectRegistered(modelNames));
        return;
      }
      var (model1Name, port1Name) := first.value;
      var (model2Name, port2Name) := second.value;
      if model1Name in modelNames && model2Name in modelNames {
        network.Connect(model1Name, port1Name, model2Name, port2Name);
      }
      j := j + 1;
    }
    assert connections[..j] == connections;
    outcome := Pass;
  }

  /**
   * `circuit(component, model_factory)`. The network keeps the models added
   * before an exception; no connection is ever made; a netlist without a
   * `"flat"` group raises `KeyError` after the instances are added.
   */
  method Circuit(componentName: string, netlist: RecursiveNetlist, factory: Factory)
    returns (network: Network, outcome: Outcome)
    ensures fresh(network) && network.name == componentName
    ensures network.components == Instances(netlist, factory).done
    ensures network.connections == []
    ensures Instances(netlist, factory).failure.Some? ==> outcome == Fail(Instances(netlist, factory).failure.value)
    ensures Instances(netlist, factory).failure.None? ==>
      match Lookup(netlist.connections, "flat")
      case None => outcome == Fail(KeyError)
      case Some(flat) =>
        outcome == if RunAll(flat, ConnectRegistered([])).failure.Some?
                   then Fail(RunAll(flat, ConnectRegistered([])).failure.value) else Pass
  {
    network := new Network(componentName);
    var modelNames: seq<string> := [];
    outcome := AddModels(network, netlist.instances, factory);
    if outcome.Fail? {
      return;
    }
    var flat := Lookup(netlist.connections, "flat");
    if flat.None? {
      outcome := Fail(KeyError);
      return;
    }
    ConnectNothingRegistered(flat.value);
    outcome := ConnectRegisteredModels(network, flat.value, modelNames);
  }

  /**
   * Skipped instances never stop the loop: it raises exactly when a model
   * of a known type fails to build.
   */
  lemma InstancesFail(netlist: RecursiveNetlist, factory: Factory)
    ensures Instances(netlist, factory).failure.Some? <==>
      exists i :: 0 <= i < |netlist.instances| &&
        var s := netlist.instances[i].1;
        s.componentType.Some? && s.componentType.value in factory && factory[s.componentType.value](s.settings).Err?
  {
    RunAllFails(netlist.instances, AddInstance(factory));
  }

  /**
   * Without an exception, the network holds exactly the models built for
   * instances of a known type.
   */
  lemma ComponentsExactly(netlist: RecursiveNetlist, factory: Factory, model: ModelObject)
    requires Instances(netlist, factory).failure.None?
    ensures model in Instances(netlist, factory).done <==>
      exists i :: 0 <= i < |netlist.instances| &&
        var s := netlist.instances[i].1;
        s.componentType.Some? && s.componentType.value in factory && factory[s.componentType.value](s.settings) == Ok(model)
  {
    RunAllItems(netlist.instances, AddInstance(factory), model);
  }
}
