/**
 * `model_factory` and `circuit` of the simphony back end: every instance
 * is built through the factory, with no filtering, the models are added in
 * one call and every connection is made.
 */
module SimphonyCircuit {
  import opened Wrappers
  import opened Netlists
  import opened Values
  import opened Keywords

  /**
   * `model_factory(model_name, **settings)`: look the name up in the
   * component factory and call what is found; a missing name, None
   * included, raises `KeyError`. A setting called `model_name` collides
   * with the positional parameter, so the call itself raises `TypeError`
   * before any lookup.
   */
  function ModelFactory(componentFactory: Factory, modelName: Option<string>, settings: seq<(string, Value)>)
    : (r: Result<ModelObject>)
    ensures "model_name" in KeySet(settings) ==> r == Err(TypeError)
    ensures "model_name" !in KeySet(settings) && (modelName.None? || modelName.value !in componentFactory) ==> r == Err(KeyError)
    ensures r.Ok? ==> "model_name" !in KeySet(settings) && modelName.Some? && modelName.value in componentFactory
  {
    if "model_name" in KeySet(settings) then Err(TypeError)
    else if modelName.Some? && modelName.value in componentFactory then componentFactory[modelName.value](settings)
    else Err(KeyError)
  }

  /** The body of the instance loop: one `(model, name)` pair per instance. */
  function BuildInstance(componentFactory: Factory): ((string, Instance)) -> Step<(ModelObject, string)>
  {
    (entry: (string, Instance)) =>
      match ModelFactory(componentFactory, entry.1.componentType, entry.1.settings)
      case Err(e) => Raise(e)
      case Ok(model) => Emit((model, entry.0))
  }

  /** The body of the connection loop: every entry is connected. */
  function ConnectEvery(): ((string, string)) -> Step<Connection>
  {
    (entry: (string, string)) =>
      match ParseConnection(entry.0, entry.1)
      case Err(e) => Raise(e)
      case Ok(c) => Emit(c)
  }

  function Instances(netlist: Netlist, componentFactory: Factory): Run<(ModelObject, string)>
  {
    RunAll(netlist.instances, BuildInstance(componentFactory))
  }

  function Connections(netlist: Netlist): Run<Connection>
  {
    RunAll(netlist.connections, ConnectEvery())
  }

  /** The instance loop of `circuit`. */
  method BuildModels(instances: seq<(string, Instance)>, componentFactory: Factory)
    returns (modelNameTuple: seq<(ModelObject, string)>, outcome: Outcome)
    ensures outcome.Pass? <==> RunAll(instances, BuildInstance(componentFactory)).failure.None?
    ensures outcome.Fail? ==> outcome.error == RunAll(instances, BuildInstance(componentFactory)).failure.value
    ensures outcome.Pass? ==> modelNameTuple == RunAll(instances, BuildInstance(componentFactory)).done
  {
    modelNameTuple := [];
    var i := 0;
    while i < |instances|
      invariant 0 <= i <= |instances|
      invariant RunAll(instances[..i], BuildInstance(componentFactory)) == Run(modelNameTuple, None)
    {
      RunAllNext(instances, i, BuildInstance(componentFactory));
      var name := instances[i].0;
      var componentType := instances[i].1.componentType;
      var componentSettings := instances[i].1.settings;
      var built := ModelFactory(componentFactory, componentType, componentSettings);
      if built.Err? {
        outcome := Fail(built.error);
        RunAllSticky(instances, i + 1, BuildInstance(componentFactory));
        return;
      }
      modelNameTuple := modelNameTuple + [(built.value, name)];
      i := i + 1;
    }
    assert instances[..i] == instances;
    outcome := Pass;
  }

  /** The connection loop of `circuit`. */
  method ConnectAll(circuit: Subcircuit, connections: seq<(string, string)>) returns (outcome: Outcome)
    modifies circuit
    ensures outcome.Pass? <==> RunAll(connections, ConnectEvery()).failure.None?
    ensures outcome.Fail? ==> outcome.error == RunAll(connections, ConnectEvery()).failure.value
    ensures circuit.connections == old(circuit.connections) + RunAll(connections, ConnectEvery()).done
    ensures circuit.name == old(circuit.name) && circuit.elements == old(circuit.elements) && circuit.info == old(circuit.info)
  {
    var j := 0;
    while j < |connections|
      invariant 0 <= j <= |connections|
      invariant circuit.connections == old(circuit.connections) + RunAll(connections[..j], ConnectEvery()).done
      invariant RunAll(connections[..j], ConnectEvery()).failure.None?
      invariant circuit.name == old(circuit.name) && circuit.elements == old(circuit.elements) && circuit.info == old(circuit.info)
    {
      RunAllNext(connections, j, ConnectEvery());
      var first := SplitPort(connections[j].0);
      if first.Err? {
        outcome := Fail(ValueError);
        RunAllSticky(connections, j + 1, ConnectEvery());
        return;
      }
      var second := SplitPort(connections[j].1);
      if second.Err? {
        outcome := Fail(ValueError);
        RunAllSticky(connections, j + 1, ConnectEvery());
        return;
      }
      var (c1, p1) := first.value;
      var (c2, p2) := second.value;
      circuit.Connect(c1, p1, c2, p2);
      j := j + 1;
    }
    assert connections[..j] == connections;
    outcome := Pass;
  }

  /**
   * `circuit(component)` with the default `model_factory`. The circuit is
   * named after the component; all pairs are added after the loop, so a
   * factory failure leaves it without elements.
   */
  method Circuit(componentName: string, netlist: Netlist, componentFactory: Factory)
    returns (circuit: Subcircuit, outcome: Outcome)
    ensures fresh(circuit) && circuit.name == componentName && circuit.info == None
    ensures Instances(netlist, componentFactory).failure.Some? ==>
      outcome == Fail(Instances(netlist, componentFactory).failure.value) && circuit.elements == [] && circuit.connections == []
    ensures Instances(netlist, componentFactory).failure.None? ==>
      && circuit.elements == Instances(netlist, componentFactory).done
      && circuit.connections == Connections(netlist).done
      && (Connections(netlist).failure.Some? ==> outcome == Fail(Connections(netlist).failure.value))
      && (Connections(netlist).failure.None? ==> outcome == Pass)
  {
    circuit := new Subcircuit(componentName);
    var modelNameTuple, built := BuildModels(netlist.instances, componentFactory);
    if built.Fail? {
      return circuit, built;
    }
    circuit.Add(modelNameTuple);
    outcome := ConnectAll(circuit, netlist.connections);
  }

  /**
   * When every instance builds, the circuit gets one pair per instance, in
   * instance order, each named after its instance.
   */
  lemma EveryInstanceAdded(netlist: Netlist, componentFactory: Factory)
    requires forall i :: 0 <= i < |netlist.instances| ==>
      ModelFactory(componentFactory, netlist.instances[i].1.componentType, netlist.instances[i].1.settings).Ok?
    ensures Instances(netlist, componentFactory).failure.None?
    ensures |Instances(netlist, componentFactory).done| == |netlist.instances|
    ensures forall i :: 0 <= i < |netlist.instances| ==>
      Instances(netlist, componentFactory).done[i] ==
        (ModelFactory(componentFactory, netlist.instances[i].1.componentType, netlist.instances[i].1.settings).value,
         netlist.instances[i].0)
  {
    RunAllTotal(netlist.instances, BuildInstance(componentFactory));
  }

  /** The instance loop raises exactly when some instance's model fails to build. */
  lemma InstancesFail(netlist: Netlist, componentFactory: Factory)
    ensures Instances(netlist, componentFactory).failure.Some? <==>
      exists i :: 0 <= i < |netlist.instances| &&
        ModelFactory(componentFactory, netlist.instances[i].1.componentType, netlist.instances[i].1.settings).Err?
  {
    RunAllFails(netlist.instances, BuildInstance(componentFactory));
  }

  /**
   * The first instance whose type the factory lacks raises `KeyError` when
   * every instance before it built, or `TypeError` when its settings hold
   * `model_name`.
   */
  lemma UnknownTypeKeyError(netlist: Netlist, componentFactory: Factory, i: nat)
    requires i < |netlist.instances|
    requires netlist.instances[i].1.componentType.None? || netlist.instances[i].1.componentType.value !in componentFactory
    requires forall j :: 0 <= j < i ==>
      ModelFactory(componentFactory, netlist.instances[j].1.componentType, netlist.instances[j].1.settings).Ok?
    ensures Instances(netlist, componentFactory).failure ==
      Some(if "model_name" in KeySet(netlist.instances[i].1.settings) then TypeError else KeyError)
  {
    FirstFailure(netlist.instances, i, BuildInstance(componentFactory));
  }

  /**
   * When every entry parses, every connection is made, in entry order,
   * whether or not its instances exist.
   */
  lemma EveryConnectionMade(netlist: Netlist)
    requires forall i :: 0 <= i < |netlist.connections| ==>
      ParseConnection(netlist.connections[i].0, netlist.connections[i].1).Ok?
    ensures Connections(netlist).failure.None?
    ensures |Connections(netlist).done| == |netlist.connections|
    ensures forall i :: 0 <= i < |netlist.connections| ==>
      Connections(netlist).done[i] == ParseConnection(netlist.connections[i].0, netlist.connections[i].1).value
  {
    RunAllTotal(netlist.connections, ConnectEvery());
  }
}
