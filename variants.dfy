/**
 * The three netlist-to-circuit functions side by side: on the same netlist
 * and factory they treat an unknown component type and the connections
 * differently.
 */
module CircuitVariants {
  import opened Wrappers
  import opened Keywords
  import opened Netlists
  import FixmeCircuit
  import SimphonyCircuit
  import OpicsNetlist

  /** The same netlist as the opics back end reads it: its connections under `"flat"`. */
  function AsRecursive(netlist: Netlist): (r: OpicsNetlist.RecursiveNetlist)
    ensures r.instances == netlist.instances
    ensures Lookup(r.connections, "flat") == Some(netlist.connections)
  {
    OpicsNetlist.RecursiveNetlist(netlist.instances, [("flat", netlist.connections)])
  }

  /** An instance of a known type whose model builds and is a simphony `Model`. */
  predicate BuildsModel(factory: Factory, s: Instance)
  {
    && s.componentType.Some?
    && s.componentType.value in factory
    && factory[s.componentType.value](s.settings).Ok?
    && factory[s.componentType.value](s.settings).value.isSimphonyModel
  }

  /**
   * One instance whose type the factory lacks, every other one a simphony
   * model that builds, with no setting called `model_name`: the `fixme`
   * variant raises `ValueError`, the simphony one `KeyError` (`TypeError`
   * when that instance's settings hold `model_name`), and the opics one
   * skips it and raises nothing.
   */
  lemma UnknownTypeVariants(netlist: Netlist, factory: Factory, i: nat)
    requires i < |netlist.instances|
    requires netlist.instances[i].1.componentType.Some? && netlist.instances[i].1.componentType.value !in factory
    requires forall j :: 0 <= j < |netlist.instances| && j != i ==>
      BuildsModel(factory, netlist.instances[j].1) && "model_name" !in KeySet(netlist.instances[j].1.settings)
    ensures FixmeCircuit.Instances(netlist, factory).failure == Some(ValueError)
    ensures SimphonyCircuit.Instances(netlist, factory).failure ==
      Some(if "model_name" in KeySet(netlist.instances[i].1.settings) then TypeError else KeyError)
    ensures OpicsNetlist.Instances(AsRecursive(netlist), factory).failure.None?
  {
    forall j | 0 <= j < i
      ensures exists m :: FixmeCircuit.Accepts(factory, netlist.instances[j].1, m)
      ensures SimphonyCircuit.ModelFactory(factory, netlist.instances[j].1.componentType, netlist.instances[j].1.settings).Ok?
    {
      var s := netlist.instances[j].1;
      assert BuildsModel(factory, s);
      assert FixmeCircuit.Accepts(factory, s, factory[s.componentType.value](s.settings).value);
    }
    FixmeCircuit.UnknownTypeRaises(netlist, factory, i);
    SimphonyCircuit.UnknownTypeKeyError(netlist, factory, i);
    forall k | 0 <= k < |netlist.instances|
      ensures !OpicsNetlist.AddInstance(factory)(netlist.instances[k]).Raise?
    {
      if k != i {
        assert BuildsModel(factory, netlist.instances[k].1);
      }
    }
    RunAllFails(netlist.instances, OpicsNetlist.AddInstance(factory));
  }

  /**
   * An instance without a component type: the `fixme` and opics variants
   * skip it, the simphony one raises `KeyError` when it reaches it, or
   * `TypeError` when its settings hold `model_name`.
   */
  lemma UntypedInstanceVariants(factory: Factory, entry: (string, Instance))
    requires entry.1.componentType.None?
    ensures FixmeCircuit.AcceptInstance(factory)(entry) == Skip
    ensures OpicsNetlist.AddInstance(factory)(entry) == Skip
    ensures SimphonyCircuit.BuildInstance(factory)(entry) ==
      Raise(if "model_name" in KeySet(entry.1.settings) then TypeError else KeyError)
  {
  }

  /**
   * With well-formed connections, the simphony variant makes every one, the
   * `fixme` variant those between registered instances and the opics
   * variant none.
   */
  lemma ConnectionVariants(netlist: Netlist, registered: seq<string>)
    requires forall i :: 0 <= i < |netlist.connections| ==>
      ParseConnection(netlist.connections[i].0, netlist.connections[i].1).Ok?
    ensures |SimphonyCircuit.Connections(netlist).done| == |netlist.connections|
    ensures FixmeCircuit.Connections(netlist, registered).failure.None?
    ensures forall c :: c in FixmeCircuit.Connections(netlist, registered).done <==>
      c in SimphonyCircuit.Connections(netlist).done && c.instance1 in registered && c.instance2 in registered
    ensures RunAll(netlist.connections, ConnectRegistered([])) == Run([], None)
  {
    SimphonyCircuit.EveryConnectionMade(netlist);
    ConnectRegisteredFails(netlist.connections, registered);
    ConnectRegisteredFails(netlist.connections, []);
    ConnectNothingRegistered(netlist.connections);
    forall c
      ensures c in FixmeCircuit.Connections(netlist, registered).done <==>
        c in SimphonyCircuit.Connections(netlist).done && c.instance1 in registered && c.instance2 in registered
    {
      FixmeCircuit.ConnectedExactly(netlist, registered, c);
      var done := SimphonyCircuit.Connections(netlist).done;
      if exists i :: 0 <= i < |netlist.connections| && ParseConnection(netlist.connections[i].0, netlist.connections[i].1) == Ok(c) {
        var i :| 0 <= i < |netlist.connections| && ParseConnection(netlist.connections[i].0, netlist.connections[i].1) == Ok(c);
        assert done[i] == c;
      }
      if c in done {
        var i :| 0 <= i < |done| && done[i] == c;
        assert ParseConnection(netlist.connections[i].0, netlist.connections[i].1) == Ok(c);
      }
    }
  }
}
