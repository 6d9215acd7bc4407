# gdslib core in Dafny

A model of the parts of `gdslib` that carry logic of their own:

- **Automatic naming** (`gdslib/autoname.py`):
  - `join_first_letters` and `clean_name`;
  - `clean_value` on integers, floats, lists, tuples, dicts and callables;
  - the order-independent `dict2name` / `dict2hash`;
  - `get_component_name`;
  - the `_autoname` wrapper. It rejects positional arguments and checks keywords against the signature. It names the component, shortens long names and merges parameter defaults and keywords into the component's settings.
- **The transfer-matrix Bragg simulator** (`gdslib/components/dbr.py`). It covers 2×2 complex transfer matrices for a straight section, an index boundary, a period of the grating and its power, and a grating with a cavity. It also covers the S-matrix, the transmission/reflection pair, and the loop of `dbr_r` over wavelengths. Complex numbers are exact pairs of reals. `exp`, `sqrt`, `pi` and `ln 10` are parameters bound by the laws they obey (`exp(0) = 1`, `exp(z)·exp(−z) = 1`, `sqrt(x)² = x`, `sqrt(x²) = x` for `x > 0`).
- **Netlist-to-circuit assembly**, in three variants:
  - `fixme/circuit.py:component_to_circuit` skips untyped instances, raises `ValueError` on unknown types, asserts simphony models, and connects only registered instances.
  - `gdslib/circuit.py:circuit` sends every instance through `model_factory`, so an unknown or missing type raises `KeyError` (a setting named `model_name` raises `TypeError` first, clashing with that function's positional parameter), and it connects every entry.
  - `gdslib/opics/yaml_netlist.py:circuit` skips untyped and unknown instances and adds models to the network one by one. It reads connections from `"flat"` and never connects anything, because its list of registered names stays empty.
- **Pin renaming** (`gdslib/rename_pins.py`): an in-place rewrite of `circuit.elements[element].pins[pin]`.

Python keyword dictionaries are sequences of `(key, value)` pairs in insertion order. Exceptions are `Err`/`Fail` values naming the Python exception class. The circuits are Dafny classes whose methods append to their element and connection sequences. Each loop in the source is a method with invariants, proved against a recursive specification function. The three circuit loops share one specification, `Netlists.RunAll`, a loop that skips, emits or raises per entry and stops at the first exception.

## Model

| member | source | states |
|---|---|---|
| Autoname.JoinFirstLettersShape | gdslib/autoname.py:14-16 | the result has one character per non-empty `_`-separated piece and contains no `_` |
| Autoname.JoinFirstLettersSegmentStarts | gdslib/autoname.py:14-16 | the comprehension over `split("_")` equals the characters that start a segment, i.e. those at the start or right after a `_` and not `_` themselves |
| Autoname.JoinFirstLettersOfTwoWords | gdslib/autoname.py:14-16 | two non-empty words without `_` joined by `_` give their two first letters |
| Autoname.JoinFirstLettersExample | gdslib/autoname.py:15 | `taper_length` abbreviates to `TL` once upper-cased |
| Autoname.CleanName | gdslib/autoname.py:146-172 | the loop of `str.replace` calls over the 16-entry map, in map order, yields the per-character translation `Cleaned` |
| Autoname.CleanedUnmapped | gdslib/autoname.py:152-171 | no character of the map's 16 keys survives cleaning |
| Autoname.CleanedKeeps | gdslib/autoname.py:152-171 | a name without mapped characters is returned unchanged |
| Autoname.CleanedIdempotent | gdslib/autoname.py:152-171 | cleaning twice equals cleaning once |
| Autoname.CleanedShrinks | gdslib/autoname.py:152-171 | cleaning never lengthens a name |
| Autoname.CleanedAppend | gdslib/autoname.py:170-171 | cleaning works character by character: it distributes over concatenation |
| Autoname.CleanNameExample | gdslib/autoname.py:246-247 | `wg(:_=_2852` cleans to `wg___2852` |
| Autoname.UnmappedChars | gdslib/autoname.py:147 | names made only of letters, digits and `_` are fixed points |
| Autoname.CleanValueExamples | gdslib/autoname.py:241-243 | `clean_value(0.5)` is `500m` and `clean_value(5)` is `5` |
| Autoname.RenderedSorted | gdslib/autoname.py:122-129 | rendering values and then sorting by key equals sorting and then rendering |
| Autoname.Dict2Name | gdslib/autoname.py:120-131 | the loop over the sorted keys builds exactly `DictName`: prefix first, ignored keys dropped, each label an upper-cased abbreviation plus the rendered value, `_`-joined and cleaned, with the first exception propagated |
| Autoname.DictNameKeys | gdslib/autoname.py:122-126 | a key contributes a label exactly when it is a keyword other than `prefix` and `ignore_from_name` and is not listed in `ignore_from_name` |
| Autoname.DictNameIgnoresOrder | gdslib/autoname.py:125 | `dict2name` of two keyword dicts with the same entries in different orders is the same |
| Autoname.DictNameSingle | gdslib/autoname.py:124-131 | a single keyword gives the cleaned label of its abbreviation and value |
| Autoname.DictNameExample | gdslib/autoname.py:228-229 | `dict2name(length=3)` is `L3` |
| Autoname.Dict2Hash | gdslib/autoname.py:109-117 | the loop feeds the digest exactly the sorted, non-ignored `key + clean_value(value)` texts, and the result is the digest of that input |
| Autoname.HashInputIgnoresOrder | gdslib/autoname.py:112 | what `dict2hash` feeds the digest does not depend on keyword order |
| Autoname.GetComponentName | gdslib/autoname.py:22-28 | the renaming loop plus the optional `_` + `dict2name` suffix compute `ComponentName`; a keyword named `component_type` clashes with the positional parameter and raises `TypeError` |
| Autoname.RenamedKeeps | gdslib/autoname.py:19-25 | a type not containing `import_phidl_component` is left as it is |
| Autoname.ComponentNameWithKeywords | gdslib/autoname.py:22-27 | with keywords, the name is the renamed type, `_`, and `dict2name` of the keywords, unless one of them is `component_type`, which raises `TypeError` |
| Autoname.ComponentNameIgnoresOrder | gdslib/autoname.py:22-28 | the component name does not depend on keyword order |
| Autoname.ComponentNameExamples | gdslib/autoname.py:225-229 | `_dummy()` is named `_dummy` and `_dummy(length=3)` is named `_dummy_L3`; a `component_type` keyword raises `TypeError` |
| Autoname.FirstLettersCheck | gdslib/autoname.py:134-143 | the check passes exactly when the abbreviations of the keys other than `layer` have no repeats (set size equals list size) |
| Autoname.ElementsCount | gdslib/autoname.py:137-138 | a list's set is never larger than the list, and equal in size exactly when it has no repeats |
| Autoname.DefaultsKeys | gdslib/autoname.py:96-102 | the defaults copied into the settings are keyed by parameter names, without repeats |
| Autoname.DefaultsLookup | gdslib/autoname.py:97-101 | under each parameter name the defaults hold its default, unless that default is callable |
| Autoname.ChooseName | gdslib/autoname.py:67-68 | the default name is always built, so its failure (a `component_type` keyword's `TypeError` included) propagates even when `name` is passed; otherwise a passed string `name` wins, a passed non-string is rejected with `TypeError` (an early failure, see Left out), and without one the default is the name |
| Autoname.CheckKeywords | gdslib/autoname.py:74-78 | the loop accepts exactly when the function has a parameter named `args` or `kwargs`, or every passed keyword is a parameter |
| Autoname.Autoname | gdslib/autoname.py:57-104 | fails exactly when `AutonameCheck` fails, then leaving the component untouched; otherwise sets name (shortened past 100 characters, the long name kept in `name_long`), module, function name and the merged settings |
| Autoname.AutonameCheckCases | gdslib/autoname.py:62-78 | positional arguments raise `ValueError`; a `component_type` keyword raises `TypeError`; success exactly when there are no positional arguments, no `component_type` keyword, the default name builds, a passed name is a string and every other keyword is a parameter (unless the function has a parameter named `args` or `kwargs`) |
| Autoname.ShortNameBound | gdslib/autoname.py:88-92 | names up to 100 characters are kept; longer ones become `type_` plus at most 8 digest characters |
| Autoname.PassedLookup | gdslib/autoname.py:68-70 | popping `name` and `ignore_from_name` keeps every other keyword and its value |
| Autoname.SettingsLookup | gdslib/autoname.py:94-103 | each settings key reads the passed keyword if any, else the parameter default, else what the settings held before |
| Autoname.SettingsDefault | gdslib/autoname.py:96-102 | a parameter not passed reads its non-callable default |
| Autoname.SettingsPassed | gdslib/autoname.py:103 | a passed keyword overrides both defaults and earlier settings |
| Autoname.AutonameIgnoresOrder | gdslib/autoname.py:232-234 | the name given by `_autoname` does not depend on keyword order |
| Autoname.AutonameExamples | gdslib/autoname.py:225-229 | the decorated `_dummy` is named `_dummy` without keywords and `_dummy_L3` with `length=3` |
| Strings.Split | gdslib/autoname.py:16 | `str.split` on one character gives one more piece than separators, none containing the separator |
| Strings.SplitThenJoin | gdslib/autoname.py:16 | joining the pieces of a split with the separator restores the string |
| Strings.JoinThenSplit | gdslib/autoname.py:131 | splitting a join of separator-free pieces restores the pieces |
| Strings.IntToStringParses | gdslib/autoname.py:181-182 | `str(int)` is a decimal rendering that parses back to the integer |
| Strings.ReplaceSingleChar | gdslib/autoname.py:171 | `str.replace` of a one-character pattern is a per-character substitution |
| Keywords.SortByKeyOrders | gdslib/autoname.py:112 | `sorted(kwargs)` yields keys in order, strictly for distinct keys |
| Keywords.SortContents | gdslib/autoname.py:125 | sorting keeps exactly the same entries |
| Keywords.SortByKeyIgnoresOrder | gdslib/autoname.py:125 | two dicts with the same entries sort to the same sequence |
| Keywords.RemoveLookup | gdslib/autoname.py:68 | `dict.pop(key)` removes that key and leaves every other lookup unchanged |
| Keywords.UpdateAllLookup | gdslib/autoname.py:96-103 | after `dict.update(u)`, keys of `u` read their value in `u` and all others their old value |
| ComplexNumbers.Div | gdslib/components/dbr.py:108-109 | complex division by a non-zero number is the inverse of multiplication |
| ComplexNumbers.AbsSquared | gdslib/components/dbr.py:108-109 | `abs(z)**2` is non-negative and zero for zero |
| ComplexNumbers.ModulusPositive | gdslib/components/dbr.py:108 | `abs(z)**2` is positive for non-zero `z` |
| Matrices.DetMul | gdslib/components/dbr.py:75-77 | the determinant of a `matmul` is the product of the determinants |
| Matrices.MatMulAssoc | gdslib/components/dbr.py:100-103 | `matmul` is associative |
| Matrices.PowerAdd | gdslib/components/dbr.py:78 | `matrix_power(m, n + k) = matrix_power(m, n) · matrix_power(m, k)` |
| Matrices.PowerDet | gdslib/components/dbr.py:78 | powers of a determinant-1 matrix have determinant 1 |
| Matrices.PowerDiagonal | gdslib/components/dbr.py:78 | powers of a diagonal matrix are diagonal |
| Dbr.StraightEntries | gdslib/components/dbr.py:54-56 | the straight section is `diag(exp(iβL), exp(−iβL))` with complex `β = 2π·neff/λ − i·α/2` |
| Dbr.StraightUnimodular | gdslib/components/dbr.py:46-57 | the straight section is diagonal, its two entries multiply to 1, its determinant is 1 |
| Dbr.StraightZeroLength | gdslib/components/dbr.py:46-57 | a section of length 0 is the identity |
| Dbr.BoundaryUnimodular | gdslib/components/dbr.py:60-65 | for `n1·n2 > 0`, `a² − b² = 1`: the boundary matrix has determinant 1 |
| Dbr.BoundaryUniform | gdslib/components/dbr.py:60-65 | a boundary between equal indices is diagonal with equal entries |
| Dbr.BoundaryIdentity | gdslib/components/dbr.py:60-65 | a boundary between equal positive indices is the identity |
| Dbr.BoundaryRoundTrip | gdslib/components/dbr.py:60-65 | crossing from `n1` to `n2` and back is the identity |
| Dbr.DbrPeriods | gdslib/components/dbr.py:68-78 | zero periods give the identity; `n + k` periods are `n` periods followed by `k` |
| Dbr.CellUnimodular | gdslib/components/dbr.py:70-77 | one grating period has determinant 1 |
| Dbr.DbrUnimodular | gdslib/components/dbr.py:68-78 | the grating matrix has determinant 1 for every number of periods |
| Dbr.DbrUniform | gdslib/components/dbr.py:68-78 | without index contrast the grating matrix is diagonal |
| Dbr.CavityMirrors | gdslib/components/dbr.py:81-103 | the cavity is the left grating, then a straight section of index `n1`, then the right grating |
| Dbr.CavityNoPeriods | gdslib/components/dbr.py:81-103 | with no periods on either side the cavity is its straight section |
| Dbr.CavityUnimodular | gdslib/components/dbr.py:81-103 | the cavity matrix has determinant 1 |
| Dbr.Smatrix | gdslib/components/dbr.py:113-124 | times `t11`: `s11` gives `t21`, `s12` gives `det T`, `s21` gives 1, `s22` gives `−t12` |
| Dbr.SmatrixReciprocal | gdslib/components/dbr.py:113-124 | for determinant 1, `s12 = s21` |
| Dbr.DbrReciprocal | gdslib/components/dbr.py:68-124 | the S-matrices of the grating and of the cavity are reciprocal |
| Dbr.TmatrixTR | gdslib/components/dbr.py:106-110 | `T > 0` and `R ≥ 0` are the squared moduli of `s21` and `s11`; `R = 0` exactly when `t21 = 0` |
| Dbr.Indices | gdslib/components/dbr.py:130-132 | the two indices differ by `dn` and average to `neff0` |
| Dbr.ZeroContrastReflection | gdslib/components/dbr.py:127-142 | with `dn = 0` the reflection is 0 |
| Dbr.DbrR | gdslib/components/dbr.py:127-143 | the loop yields, per wavelength and in order, the reflection of the 200-period grating, all non-negative and all 0 when `dn = 0` |
| Netlists.SplitPort | fixme/circuit.py:78-79 | `a, b = s.split(",")` succeeds exactly when `s` has one comma, and `s == a + "," + b` with no comma in either part |
| Netlists.SplitPortJoin | fixme/circuit.py:78-79 | splitting `name,port` gives back the name and the port |
| Netlists.ParseConnection | gdslib/circuit.py:51-54 | a connection entry parses when both sides split; otherwise `ValueError` |
| Netlists.RunAllFails | fixme/circuit.py:59-73 | a loop raises exactly when some entry's body raises |
| Netlists.FirstFailure | fixme/circuit.py:59-73 | the loop raises the exception of the first entry that raises |
| Netlists.RunAllItems | fixme/circuit.py:59-73 | a loop that completes produces exactly the items its entries emit |
| Netlists.RunAllTotal | gdslib/circuit.py:43-47 | a loop whose every entry emits produces one item per entry, in order |
| Netlists.ConnectRegisteredItems | fixme/circuit.py:77-82 | the connection loop makes exactly the parsed connections whose two instances are registered |
| Netlists.ConnectRegisteredFails | fixme/circuit.py:77-82 | the connection loop raises exactly when some entry is not `a,b` on both sides |
| Netlists.ConnectNothingRegistered | gdslib/opics/yaml_netlist.py:31 | with nothing registered no connection is ever made |
| Netlists.Subcircuit.Add | fixme/circuit.py:75 | `add` appends the `(model, name)` pairs and changes nothing else |
| Netlists.Subcircuit.Connect | fixme/circuit.py:82 | `connect` appends one connection and changes nothing else |
| Netlists.Network.AddComponent | gdslib/opics/yaml_netlist.py:52 | `add_component` appends one model and changes nothing else |
| Netlists.Network.Connect | gdslib/opics/yaml_netlist.py:61 | `connect` appends one connection and changes nothing else |
| FixmeCircuit.CollectModels | fixme/circuit.py:56-73 | the instance loop yields the accepted `(model, name)` pairs and their names, or the first exception |
| FixmeCircuit.ConnectModels | fixme/circuit.py:77-82 | the connection loop appends exactly the registered connections, or stops at the first malformed entry |
| FixmeCircuit.ComponentToCircuit | fixme/circuit.py:41-85 | the circuit is named after the component; an instance exception leaves it empty; otherwise it holds the accepted pairs and the registered connections, and `info` is the netlist exactly when nothing raised |
| FixmeCircuit.RegisteredExactly | fixme/circuit.py:59-73 | the circuit holds `(model, name)` exactly for instances of a known type whose model builds and is a simphony `Model`; untyped instances are never registered |
| FixmeCircuit.UnknownTypeRaises | fixme/circuit.py:64-67 | an unknown type raises `ValueError` when no earlier instance raised |
| FixmeCircuit.ForeignModelFails | fixme/circuit.py:71 | a model that is not a simphony `Model` raises `AssertionError` when no earlier instance raised |
| FixmeCircuit.ConnectedExactly | fixme/circuit.py:77-82 | a connection is made exactly when its entry parses and both instances were registered |
| SimphonyCircuit.ModelFactory | gdslib/circuit.py:26-27 | a setting named `model_name` raises `TypeError` at the call (`gdslib/circuit.py:46`) whatever the type; otherwise a missing or `None` model name raises `KeyError`; success implies no such setting and a name in the factory |
| SimphonyCircuit.BuildModels | gdslib/circuit.py:41-47 | the instance loop yields one pair per instance in order, or the first exception |
| SimphonyCircuit.ConnectAll | gdslib/circuit.py:51-54 | the connection loop appends every connection in order, or stops at the first malformed entry |
| SimphonyCircuit.Circuit | gdslib/circuit.py:30-56 | the circuit is named after the component; an instance exception leaves it empty; otherwise it holds every pair and every parsed connection |
| SimphonyCircuit.EveryInstanceAdded | gdslib/circuit.py:43-49 | when every instance builds, the circuit gets one pair per instance, in order, named after it |
| SimphonyCircuit.InstancesFail | gdslib/circuit.py:43-47 | the instance loop raises exactly when some instance's model fails to build |
| SimphonyCircuit.UnknownTypeKeyError | gdslib/circuit.py:26-27 | the first instance of unknown or missing type raises `KeyError`, or `TypeError` when its settings hold `model_name` |
| SimphonyCircuit.EveryConnectionMade | gdslib/circuit.py:51-54 | when every entry parses, every connection is made, in order, without checking that its instances exist |
| OpicsNetlist.AddModels | gdslib/opics/yaml_netlist.py:33-52 | the network receives each built model as the loop goes, and keeps the models added before an exception |
| OpicsNetlist.ConnectRegisteredModels | gdslib/opics/yaml_netlist.py:56-61 | the connection loop appends exactly the connections between registered names, or stops at a malformed entry |
| OpicsNetlist.Circuit | gdslib/opics/yaml_netlist.py:15-63 | the network is named after the component and holds the built models; no connection is ever made; a missing `"flat"` group raises `KeyError`, and a malformed entry raises `ValueError` |
| OpicsNetlist.InstancesFail | gdslib/opics/yaml_netlist.py:33-52 | untyped and unknown instances never stop the loop: it raises only when a known model fails to build |
| OpicsNetlist.ComponentsExactly | gdslib/opics/yaml_netlist.py:33-52 | the network holds exactly the models built for instances of a known type |
| CircuitVariants.UnknownTypeVariants | fixme/circuit.py:64-67 | on one unknown type among instances that build, `component_to_circuit` raises `ValueError`, the simphony `circuit` raises `KeyError` (`TypeError` if that instance has a `model_name` setting), and the opics `circuit` raises nothing |
| CircuitVariants.UntypedInstanceVariants | gdslib/circuit.py:43-46 | an untyped instance is skipped by the `fixme` and opics variants and raises `KeyError` in the simphony one, or `TypeError` when its settings hold `model_name` |
| CircuitVariants.ConnectionVariants | gdslib/opics/yaml_netlist.py:56-61 | with well-formed entries: the simphony variant makes all connections, `fixme` those between registered instances, opics none |
| RenamePins.RenamePins | gdslib/rename_pins.py:1-7 | the loop leaves the elements and outcome that `RenameAll` specifies, renames made before a `KeyError` included |
| RenamePins.RenameAll | gdslib/rename_pins.py:4-7 | renaming never adds or removes an element and raises only `KeyError` |
| RenamePins.RenameFails | gdslib/rename_pins.py:4-7 | `KeyError` is raised exactly when some entry names an element the circuit lacks |
| RenamePins.NoRollback | gdslib/rename_pins.py:4-7 | at the first missing element, the renames of all earlier entries stay in place |
| RenamePins.RenamedPinReads | gdslib/rename_pins.py:4-7 | after a complete run, each entry's pin reads its new name (the last entry for that pin wins) |
| RenamePins.UnnamedPinUnchanged | gdslib/rename_pins.py:4-7 | pins no entry names keep their names, or stay absent |
| RenamePins.UnnamedElementUnchanged | gdslib/rename_pins.py:4-7 | elements no entry names keep all their pins |

## Left out

- Floating point. Every `dbr.py` quantity is an exact real or complex number, so rounding, overflow and numerical stability are not modelled.
- The physical shape of the spectrum (peak position, sidelobes) is not modelled either.
- `exp`, `sqrt`, `pi` and `ln 10` are parameters of type `Analytic`. They are constrained only by the laws listed above, not computed.
- `np.linalg.matrix_power` is modelled as a repeated product, not binary exponentiation; the two agree on exact numbers.
- Matrices.Power: the exponent is a natural number. `np.linalg.matrix_power` with a negative exponent returns a power of the inverse matrix, which is not modelled.
- Dbr.TmatrixDbr: `n_periods` is a natural number, so a negative count (an inverse power in numpy) is not modelled. The default `n_periods=200` is not modelled as a default: the count is always an explicit argument, and `Dbr.DbrR` passes 200 as `dbr_r` does.
- Dbr.TmatrixDbrCavity: `n_periods_left` and `n_periods_right` are natural numbers, so negative counts are not modelled. The defaults `length=0.01` and `n_periods_left=n_periods_right=600` are not modelled: all three are always explicit arguments.
- Dbr.Beta: requires a non-zero wavelength. numpy divides by zero into `inf`/`nan` rather than raising, and those values are not modelled.
- Dbr.TmatrixBoundary: requires `sqrt(n1·n2) ≠ 0`. With a zero product numpy yields `inf`/`nan`.
- Dbr.Smatrix: requires `t11 ≠ 0`. numpy would yield `inf`/`nan` entries.
- Dbr.TmatrixTR: requires `t11 ≠ 0`, for the same reason.
- Dbr.DbrR: requires every sample to be defined in the senses above. It returns the list `R`, not `tmax_dB + 10·log10(R)`. `T` is computed and dropped, as in the source.
- The module-level constants of `dbr.py` are not modelled, except `period`, `n_periods`, `alpha_dBcm` and the three polynomial coefficients. Left out: the `linspace` wavelength grid, the `kappa`/`dn` formulas and `L`.
- The plotting functions and simulation entry points are not modelled. This covers `get_transmission` in both circuit files, the demos and every `__main__` block.
- Autoname.Dict2Name: labels are upper-cased with `Strings.Upper`, which maps ASCII letters only. Python's `str.upper` also maps other letters, and can lengthen a key (`ß` becomes `SS`); names from keys with non-ASCII letters are not modelled faithfully.
- Strings.Upper: ASCII only, as above. Its length-preserving contract does not hold for Python's Unicode `str.upper`.
- Autoname.CleanFloat: the `:.2f` rendering of a float is taken as an input, the text Python would print. Binary floats are reals, so a value such as `0.5` is exact.
- The `m`, `u`, `n` and `p` branches are computed on the exact value. The `G`, `M` and `K` guards can never hold, and are kept as written.
- `hashlib.md5` and `hashlib.sha256` are function parameters (`md5`, `sha256`). Nothing about digests is assumed.
- `inspect.signature` is replaced by an explicit parameter list (`Param` name and default).
- Autoname.Autoname: the component function is not called. Its result is the `Component` passed in.
- Autoname.Autoname: the `freq_range` → `wl_range` conversion (gdslib/autoname.py:85-86) is not modelled.
- Autoname.ChooseName: a passed `name` that is not a string is rejected with `TypeError` here, at the `kwargs.pop`. Python itself stores it and fails only later, in `len(name)`, and only for values without a length.
- Autoname.Autoname: a passed `name` that is not a string fails with `TypeError` before the component is touched. Python stores it and fails in `len(name)` only for values without a length.
- Keyword keys are always strings, and Python objects with a `__str__` carry that text as data (`Object`).
- An `Object` passed as `ignore_from_name` counts as non-iterable (`TypeError`).
- The factories are maps from component type to a model function returning `Result`. Model objects are opaque values that record only whether they are simphony `Model`s. The `component_factory`, opics and simphony model libraries are not part of this model.
- The opics `circuit` default `model_factory` is a function, on which `in` would raise `TypeError`. The model always takes a map.
- `pp.call_if_func` and `get_netlist` are not modelled. The netlist is an input, with instances and connections in dictionary order.
- `Subcircuit.info` is `None` until `component_to_circuit` sets it.
- On an exception the model still returns the circuit as it stood, which Python discards. It records how far the run got; Python keeps no such value.
- The `print` calls of `yaml_netlist.circuit` and `rename_pins` are not modelled.
- RenamePins.RenameAll: an element's `pins` is taken to be a dictionary that accepts new keys, so a pin the element lacks is added. `rename_pins.py` does not say what simphony's `pins` container does with an unknown pin; the model assumes that dictionary behaviour.
- RenamePins.RenamePins: elements are independent pin maps. Two element names bound to the same Python object (aliasing) are not modelled.
- RenamePins.RenamePins: the demo's `cm = rename_pins(...)` leaves `cm` bound to `None`, because the function returns nothing. The model returns only the outcome.
- A zero or negative wavelength or index, and a zero `t11`, raise nothing in the code. There is no `DomainError` or `SingularMatrixError` in `dbr.py`: numpy returns `inf`/`nan` or complex square roots. The model follows the code and states these cases as preconditions, listed above. The determinant lemmas also require `n1·n2 > 0`, because the `sqrt` laws hold only for positive reals.
