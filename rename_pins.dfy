/**
 * `rename_pins(circuit, pins)`: for each `((element, pin), new_pin_name)`
 * entry, in order, set the pin's name on the circuit's element in place.
 * An element the circuit lacks raises `KeyError` part way through. An
 * element's pins are taken to be a dictionary, so a pin the element lacks
 * is added; what simphony's own pin container does there is not modelled.
 */
module RenamePins {
  import opened Wrappers

  /** An element's pins: pin → pin name. */
  type PinNames = map<string, string>

  /** A circuit's elements: element name → its pins. */
  type Elements = map<string, PinNames>

  /** One entry of the `pins` mapping: `((element, pin), new_pin_name)`. */
  type PinEntry = ((string, string), string)

  /** The circuit whose `elements` are renamed in place. */
  class PinCircuit {
    var elements: Elements

    constructor (elements: Elements)
      ensures this.elements == elements
    {
      this.elements := elements;
    }
  }

  /** The elements after a run of the loop and the exception that stopped it, if any. */
  datatype Renaming = Renaming(elements: Elements, outcome: Outcome)

  /**
   * The loop over `entries`. It never adds or removes an element, and the
   * only exception it raises is `KeyError`.
   */
  function RenameAll(elements: Elements, entries: seq<PinEntry>): (r: Renaming)
    ensures r.elements.Keys == elements.Keys
    ensures r.outcome == Pass || r.outcome == Fail(KeyError)
    decreases |entries|
  {
    if entries == [] then Renaming(elements, Pass)
    else
      var element := entries[0].0.0;
      var pin := entries[0].0.1;
      if element !in elements then Renaming(elements, Fail(KeyError))
      else RenameAll(elements[element := elements[element][pin := entries[0].1]], entries[1..])
  }

  /** The loop of `rename_pins`, which leaves the renames made before an exception in place. */
  method RenamePins(circuit: PinCircuit, pins: seq<PinEntry>) returns (outcome: Outcome)
    modifies circuit
    ensures Renaming(circuit.elements, outcome) == RenameAll(old(circuit.elements), pins)
  {
    var i := 0;
    while i < |pins|
      invariant 0 <= i <= |pins|
      invariant RenameAll(circuit.elements, pins[i..]) == RenameAll(old(circuit.elements), pins)
    {
      var (k, newPinName) := pins[i];
      var (element, pin) := k;
      if element !in circuit.elements {
        return Fail(KeyError);
      }
      assert pins[i..][1..] == pins[i + 1..];
      circuit.elements := circuit.elements[element := circuit.elements[element][pin := newPinName]];
      i := i + 1;
    }
    outcome := Pass;
  }

  /** The loop raises `KeyError` exactly when some entry names an element the circuit lacks. */
  lemma {:induction false} RenameFails(elements: Elements, entries: seq<PinEntry>)
    ensures RenameAll(elements, entries).outcome == Fail(KeyError) <==>
      exists i :: 0 <= i < |entries| && entries[i].0.0 !in elements
    decreases |entries|
  {
    if entries != [] && entries[0].0.0 in elements {
      var e := entries[0].0.0;
      var next := elements[e := elements[e][entries[0].0.1 := entries[0].1]];
      RenameFails(next, entries[1..]);
      if exists i :: 0 <= i < |entries| && entries[i].0.0 !in elements {
        var i :| 0 <= i < |entries| && entries[i].0.0 !in elements;
        assert entries[1..][i - 1] == entries[i];
      }
      if exists i :: 0 <= i < |entries[1..]| && entries[1..][i].0.0 !in next {
        var i :| 0 <= i < |entries[1..]| && entries[1..][i].0.0 !in next;
        assert entries[i + 1] == entries[1..][i];
      }
    }
  }

  /**
   * No rollback: when entry `k` is the first to name a missing element, the
   * elements end as the entries before it left them, and those all succeeded.
   */
  lemma {:induction false} NoRollback(elements: Elements, entries: seq<PinEntry>, k: nat)
    requires k < |entries| && entries[k].0.0 !in elements
    requires forall j :: 0 <= j < k ==> entries[j].0.0 in elements
    ensures RenameAll(elements, entries[..k]).outcome == Pass
    ensures RenameAll(elements, entries) == Renaming(RenameAll(elements, entries[..k]).elements, Fail(KeyError))
    decreases k
  {
    if k > 0 {
      var e := entries[0].0.0;
      var next := elements[e := elements[e][entries[0].0.1 := entries[0].1]];
      forall j | 0 <= j < k - 1
        ensures entries[1..][j].0.0 in next
      {
        assert entries[1..][j] == entries[j + 1];
      }
      NoRollback(next, entries[1..], k - 1);
      assert entries[..k][1..] == entries[1..][..k - 1];
    }
  }

  /**
   * A pin no entry names keeps its name, or stays absent, on every element
   * the circuit has, whether or not the loop raises.
   */
  lemma {:induction false} UnnamedPinUnchanged(elements: Elements, entries: seq<PinEntry>, element: string, pin: string)
    requires element in elements
    requires forall i :: 0 <= i < |entries| ==> entries[i].0 != (element, pin)
    ensures (pin in RenameAll(elements, entries).elements[element]) == (pin in elements[element])
    ensures pin in elements[element] ==> RenameAll(elements, entries).elements[element][pin] == elements[element][pin]
    decreases |entries|
  {
    if entries != [] && entries[0].0.0 in elements {
      var e := entries[0].0.0;
      var next := elements[e := elements[e][entries[0].0.1 := entries[0].1]];
      forall i | 0 <= i < |entries[1..]|
        ensures entries[1..][i].0 != (element, pin)
      {
        assert entries[1..][i] == entries[i + 1];
      }
      UnnamedPinUnchanged(next, entries[1..], element, pin);
    }
  }

  /** An element no entry names keeps all its pins. */
  lemma {:induction false} UnnamedElementUnchanged(elements: Elements, entries: seq<PinEntry>, element: string)
    requires element in elements
    requires forall i :: 0 <= i < |entries| ==> entries[i].0.0 != element
    ensures RenameAll(elements, entries).elements[element] == elements[element]
    decreases |entries|
  {
    if entries != [] && entries[0].0.0 in elements {
      var e := entries[0].0.0;
      var next := elements[e := elements[e][entries[0].0.1 := entries[0].1]];
      forall i | 0 <= i < |entries[1..]|
        ensures entries[1..][i].0.0 != element
      {
        assert entries[1..][i] == entries[i + 1];
      }
      UnnamedElementUnchanged(next, entries[1..], element);
    }
  }

  /**
   * When the loop completes, each pin reads the name of the last entry
   * naming it; with the distinct keys of a dictionary, that is its own entry.
   */
  lemma {:induction false} RenamedPinReads(elements: Elements, entries: seq<PinEntry>, i: nat)
    requires RenameAll(elements, entries).outcome == Pass
    requires i < |entries|
    requires forall j :: i < j < |entries| ==> entries[j].0 != entries[i].0
    ensures entries[i].0.0 in RenameAll(elements, entries).elements
    ensures entries[i].0.1 in RenameAll(elements, entries).elements[entries[i].0.0]
    ensures RenameAll(elements, entries).elements[entries[i].0.0][entries[i].0.1] == entries[i].1
    decreases i
  {
    var e := entries[0].0.0;
    assert e in elements;
    var next := elements[e := elements[e][entries[0].0.1 := entries[0].1]];
    if i == 0 {
      forall j | 0 <= j < |entries[1..]|
        ensures entries[1..][j].0 != (e, entries[0].0.1)
      {
        assert entries[1..][j] == entries[j + 1];
      }
      UnnamedPinUnchanged(next, entries[1..], e, entries[0].0.1);
    } else {
      assert entries[1..][i - 1] == entries[i];
      forall j | i - 1 < j < |entries[1..]|
        ensures entries[1..][j].0 != entries[1..][i - 1].0
      {
        assert entries[1..][j] == entries[j + 1];
      }
      RenamedPinReads(next, entries[1..], i - 1);
    }
  }
}
