/**
 * Automatic component names: abbreviations of keyword names, the character
 * clean-up applied to cell names, the rendering of argument values, the
 * order-independent name built from keyword arguments, and the `autoname`
 * decorator that names, truncates and records the settings of a component.
 */
module Autoname {
  import opened Wrappers
  import opened Strings
  import opened Keywords
  import opened Values

  /** Names longer than this are replaced by the component type and a short hash. */
  const MaxNameLength: nat := 100

  /* ---------------------------------------------------------------------
   * join_first_letters
   * ------------------------------------------------------------------- */

  /** The first character of each non-empty piece, in order. */
  function FirstLetters(parts: seq<string>): string
  {
    if parts == [] then ""
    else (if parts[0] != "" then [parts[0][0]] else "") + FirstLetters(parts[1..])
  }

  /** `join_first_letters`: `taper_length` becomes `tl`. */
  function JoinFirstLetters(name: string): string
  {
    FirstLetters(Split(name, '_'))
  }

  /**
   * Independent reading of the same abbreviation, one character at a time:
   * a character is kept when it is not `_` and opens a segment, that is, it
   * starts the name or follows an `_`.
   */
  function SegmentStarts(s: string, atStart: bool): string
  {
    if s == [] then ""
    else if s[0] == '_' then SegmentStarts(s[1..], true)
    else (if atStart then [s[0]] else "") + SegmentStarts(s[1..], false)
  }

  /** Number of non-empty pieces. */
  function NonEmptyCount(parts: seq<string>): nat
  {
    if parts == [] then 0 else (if parts[0] != "" then 1 else 0) + NonEmptyCount(parts[1..])
  }

  /** The abbreviation keeps exactly the characters that open a segment. */
  lemma {:induction false} JoinFirstLettersSegmentStarts(s: string)
    ensures JoinFirstLetters(s) == SegmentStarts(s, true)
    ensures FirstLetters(Split(s, '_')[1..]) == SegmentStarts(s, false)
  {
    if s != [] {
      JoinFirstLettersSegmentStarts(s[1..]);
      var rest := Split(s[1..], '_');
      var parts := Split(s, '_');
      if s[0] == '_' {
        assert parts == [""] + rest;
        assert parts[1..] == rest;
      } else {
        assert parts == [[s[0]] + rest[0]] + rest[1..];
        assert parts[1..] == rest[1..];
      }
    }
  }

  lemma {:induction false} SegmentStartsNoUnderscore(s: string, atStart: bool)
    ensures '_' !in SegmentStarts(s, atStart)
  {
    if s != [] {
      SegmentStartsNoUnderscore(s[1..], true);
      SegmentStartsNoUnderscore(s[1..], false);
    }
  }

  lemma {:induction false} FirstLettersLength(parts: seq<string>)
    ensures |FirstLetters(parts)| == NonEmptyCount(parts)
  {
    if parts != [] {
      FirstLettersLength(parts[1..]);
    }
  }

  /** One letter per non-empty `_`-separated segment, and never an `_`. */
  lemma JoinFirstLettersShape(name: string)
    ensures |JoinFirstLetters(name)| == NonEmptyCount(Split(name, '_'))
    ensures '_' !in JoinFirstLetters(name)
  {
    FirstLettersLength(Split(name, '_'));
    JoinFirstLettersSegmentStarts(name);
    SegmentStartsNoUnderscore(name, true);
  }

  /** Two `_`-joined words abbreviate to their initials. */
  lemma JoinFirstLettersOfTwoWords(a: string, b: string)
    requires a != "" && b != "" && '_' !in a && '_' !in b
    ensures JoinFirstLetters(a + "_" + b) == [a[0], b[0]]
  {
    JoinTwo(a, b);
    JoinThenSplit([a, b], '_');
    FirstLettersTwo(a, b);
  }

  /** The docstring's example: `taper_length` abbreviates to `TL` once upper-cased. */
  lemma JoinFirstLettersExample()
    ensures Upper(JoinFirstLetters("taper_length")) == "TL"
  {
    JoinFirstLettersOfTwoWords("taper", "length");
    assert "taper" + "_" + "length" == "taper_length";
    UpperTwo('t', 'l');
  }

  lemma JoinTwo(a: string, b: string)
    ensures Join([a, b], "_") == a + "_" + b
  {
    assert [a, b][1..] == [b];
  }

  lemma FirstLettersTwo(a: string, b: string)
    requires a != "" && b != ""
    ensures FirstLetters([a, b]) == [a[0], b[0]]
  {
    var p := [a, b];
    assert p[1..] == [b] && p[1..][1..] == [];
    assert FirstLetters(p[1..]) == [b[0]] + FirstLetters(p[1..][1..]);
  }

  lemma UpperTwo(a: char, b: char)
    ensures Upper([a, b]) == [UpperChar(a), UpperChar(b)]
  {
  }

  /* ---------------------------------------------------------------------
   * clean_name
   * ------------------------------------------------------------------- */

  /** The replacement table, in the order the loop applies it. */
  const ReplaceMap: seq<(char, string)> := [
    (' ', "_"), ('!', "_"), ('#', "_"), ('%', "_"), ('(', ""), (')', ""), ('*', "_"), (',', "_"),
    ('-', "m"), ('.', "p"), ('/', "_"), (':', "_"), ('=', ""), ('@', "_"), ('[', ""), (']', "")]

  /** `c` is one of the characters the table replaces. */
  predicate Mapped(c: char)
  {
    exists j :: 0 <= j < |ReplaceMap| && ReplaceMap[j].0 == c
  }

  /** The value of the first of the first `n` table entries keyed by `c`, if any. */
  function Entry(c: char, n: nat): Option<string>
    requires n <= |ReplaceMap|
  {
    if n == 0 then None
    else match Entry(c, n - 1)
      case Some(v) => Some(v)
      case None => if ReplaceMap[n - 1].0 == c then Some(ReplaceMap[n - 1].1) else None
  }

  /** What `c` has become once the first `n` entries have been applied. */
  function Rule(c: char, n: nat): string
    requires n <= |ReplaceMap|
  {
    match Entry(c, n)
    case None => [c]
    case Some(v) => v
  }

  /** Every character of `s` put through the first `n` entries. */
  function Translate(s: string, n: nat): string
    requires n <= |ReplaceMap|
  {
    if s == [] then "" else Rule(s[0], n) + Translate(s[1..], n)
  }

  /** `clean_name(s)`: each character looked up in the whole table. */
  function Cleaned(s: string): string
  {
    Translate(s, |ReplaceMap|)
  }

  lemma {:induction false} EntryFacts(c: char, n: nat)
    requires n <= |ReplaceMap|
    ensures Entry(c, n).None? ==> forall j :: 0 <= j < n ==> ReplaceMap[j].0 != c
    ensures Entry(c, n).Some? ==> exists j :: 0 <= j < n && ReplaceMap[j] == (c, Entry(c, n).value)
  {
    if n > 0 {
      EntryFacts(c, n - 1);
    }
  }

  lemma ValueShape(m: int)
    requires 0 <= m < |ReplaceMap|
    ensures ReplaceMap[m].1 in {"_", "", "m", "p"}
  {
    assert ReplaceMap[m] in ReplaceMap;
  }

  /** No replacement text contains a character the table replaces. */
  lemma ValueUnmapped(m: int, c: char)
    requires 0 <= m < |ReplaceMap|
    requires c in ReplaceMap[m].1
    ensures !Mapped(c)
  {
    ValueShape(m);
  }

  /** The table gives each key one value. */
  lemma KeyRule(j: int)
    requires 0 <= j < |ReplaceMap|
    ensures Rule(ReplaceMap[j].0, |ReplaceMap|) == ReplaceMap[j].1
  {
    var c := ReplaceMap[j].0;
    EntryFacts(c, |ReplaceMap|);
    var w := Entry(c, |ReplaceMap|).value;
    var i :| 0 <= i < |ReplaceMap| && ReplaceMap[i] == (c, w);
    assert ReplaceMap[i] in ReplaceMap && ReplaceMap[j] in ReplaceMap;
  }

  /** Applying entry `i` to what the first `i` entries made of `c` gives what the first `i + 1` make of it. */
  lemma RuleStep(c: char, i: nat)
    requires i < |ReplaceMap|
    ensures ReplaceChar(Rule(c, i), ReplaceMap[i].0, ReplaceMap[i].1) == Rule(c, i + 1)
  {
    EntryFacts(c, i);
    var (k, v) := ReplaceMap[i];
    match Entry(c, i)
    case None =>
      assert ReplaceChar([c], k, v) == (if c == k then v else [c]) + ReplaceChar([], k, v);
    case Some(w) =>
      var j :| 0 <= j < i && ReplaceMap[j] == (c, w);
      if k in w {
        ValueUnmapped(j, k);
        assert false;
      }
      ReplaceCharAbsent(w, k, v);
  }

  lemma {:induction false} TranslateStep(s: string, i: nat)
    requires i < |ReplaceMap|
    ensures ReplaceChar(Translate(s, i), ReplaceMap[i].0, ReplaceMap[i].1) == Translate(s, i + 1)
  {
    if s != [] {
      TranslateStep(s[1..], i);
      RuleStep(s[0], i);
      ReplaceCharAppend(Rule(s[0], i), Translate(s[1..], i), ReplaceMap[i].0, ReplaceMap[i].1);
    }
  }

  lemma {:induction false} TranslateNothing(s: string)
    ensures Translate(s, 0) == s
  {
    if s != [] {
      TranslateNothing(s[1..]);
    }
  }

  /** `clean_name`: the sixteen replacements applied one after another with `str.replace`. */
  method CleanName(name: string) returns (r: string)
    ensures r == Cleaned(name)
  {
    TranslateNothing(name);
    r := name;
    var i := 0;
    while i < |ReplaceMap|
      invariant 0 <= i <= |ReplaceMap|
      invariant r == Translate(name, i)
    {
      var (k, v) := ReplaceMap[i];
      ReplaceSingleChar(r, k, v);
      TranslateStep(name, i);
      r := ReplaceAll(r, [k], v);
      i := i + 1;
    }
  }

  lemma {:induction false} CleanedAppend(a: string, b: string)
    ensures Cleaned(a + b) == Cleaned(a) + Cleaned(b)
  {
    if a != [] {
      assert (a + b)[1..] == a[1..] + b;
      CleanedAppend(a[1..], b);
    } else {
      assert a + b == b;
    }
  }

  /** The result holds none of the replaced characters. */
  lemma {:induction false} CleanedUnmapped(s: string)
    ensures forall c :: c in Cleaned(s) ==> !Mapped(c)
  {
    if s != [] {
      CleanedUnmapped(s[1..]);
      var c := s[0];
      EntryFacts(c, |ReplaceMap|);
      if Entry(c, |ReplaceMap|).Some? {
        var j :| 0 <= j < |ReplaceMap| && ReplaceMap[j] == (c, Entry(c, |ReplaceMap|).value);
        forall x | x in Rule(c, |ReplaceMap|) ensures !Mapped(x) {
          ValueUnmapped(j, x);
        }
      }
    }
  }

  /** Characters outside the table are kept, in order. */
  lemma {:induction false} CleanedKeeps(s: string)
    requires forall c :: c in s ==> !Mapped(c)
    ensures Cleaned(s) == s
  {
    if s != [] {
      assert s[0] in s;
      EntryFacts(s[0], |ReplaceMap|);
      CleanedKeeps(s[1..]);
    }
  }

  /** Cleaning a clean name changes nothing. */
  lemma CleanedIdempotent(s: string)
    ensures Cleaned(Cleaned(s)) == Cleaned(s)
  {
    CleanedUnmapped(s);
    CleanedKeeps(Cleaned(s));
  }

  /** Each character becomes at most one character. */
  lemma {:induction false} CleanedShrinks(s: string)
    ensures |Cleaned(s)| <= |s|
  {
    if s != [] {
      CleanedShrinks(s[1..]);
      EntryFacts(s[0], |ReplaceMap|);
      if Entry(s[0], |ReplaceMap|).Some? {
        var j :| 0 <= j < |ReplaceMap| && ReplaceMap[j] == (s[0], Entry(s[0], |ReplaceMap|).value);
        ValueShape(j);
      }
    }
  }

  /** The example of `test_clean_name`. */
  lemma CleanNameExample()
    ensures Cleaned("wg(:_=_2852") == "wg___2852"
  {
    assert Cleaned("wg") == "wg" by { UnmappedChars("wg"); }
    assert Cleaned("_") == "_" by { UnmappedChars("_"); }
    assert Cleaned("_2852") == "_2852" by { UnmappedChars("_2852"); }
    assert Cleaned("(") == "" by { KeyChar(4); }
    assert Cleaned(":") == "_" by { KeyChar(11); }
    assert Cleaned("=") == "" by { KeyChar(12); }
    assert "wg" + "(" + ":" + "_" + "=" + "_2852" == "wg(:_=_2852";
    CleanedPieces("wg", "(", ":", "_", "=", "_2852");
  }

  /** A key on its own becomes its value. */
  lemma KeyChar(j: int)
    requires 0 <= j < |ReplaceMap|
    ensures Cleaned([ReplaceMap[j].0]) == ReplaceMap[j].1
  {
    KeyRule(j);
    CleanedChar(ReplaceMap[j].0);
  }

  lemma CleanedPieces(a: string, b: string, c: string, d: string, e: string, f: string)
    ensures Cleaned(a + b + c + d + e + f)
         == Cleaned(a) + Cleaned(b) + Cleaned(c) + Cleaned(d) + Cleaned(e) + Cleaned(f)
  {
    CleanedAppend(a + b + c + d + e, f);
    CleanedAppend(a + b + c + d, e);
    CleanedAppend(a + b + c, d);
    CleanedAppend(a + b, c);
    CleanedAppend(a, b);
  }

  lemma CleanedChar(c: char)
    ensures Cleaned([c]) == Rule(c, |ReplaceMap|)
  {
    var s := [c];
    assert s[1..] == [];
    assert Translate(s[1..], |ReplaceMap|) == "";
    assert Translate(s, |ReplaceMap|) == Rule(s[0], |ReplaceMap|) + Translate(s[1..], |ReplaceMap|);
  }

  /** Letters, digits and `_` are never replaced. */
  lemma UnmappedChars(s: string)
    requires forall i :: 0 <= i < |s| ==> s[i] == '_' || IsDigit(s[i]) || 'a' <= s[i] <= 'z' || 'A' <= s[i] <= 'Z'
    ensures Cleaned(s) == s
  {
    forall c | c in s ensures !Mapped(c) {
    }
    CleanedKeeps(s);
  }

  /* ---------------------------------------------------------------------
   * clean_value and dict2name
   * ------------------------------------------------------------------- */

  /**
   * `clean_value` of a float, on the exact value. The first three guards
   * (`1e9 > x > 1e12` and alike) can never hold; they are kept as written.
   * `int()` truncates toward zero, which is the floor for these positive values.
   */
  function CleanFloat(x: real, fixed2: string): string
  {
    if 1000000000.0 > x > 1000000000000.0 then IntToString((x * 0.000000001).Floor) + "G"
    else if 1000000.0 > x > 1000000000.0 then IntToString((x * 0.000001).Floor) + "M"
    else if 1000.0 > x > 1000000.0 then IntToString((x * 0.001).Floor) + "K"
    else if 1.0 > x > 0.001 then IntToString((x * 1000.0).Floor) + "m"
    else if 0.000001 < x < 0.001 then IntToString((x * 1000000.0).Floor) + "u"
    else if 0.000000001 < x < 0.000001 then IntToString((x * 1000000000.0).Floor) + "n"
    else if 0.000000000001 < x < 0.000000001 then IntToString((x * 1000000000000.0).Floor) + "p"
    else fixed2
  }

  /** `clean_value`: the text a keyword value contributes to a name. */
  function CleanValue(v: Value): Result<string>
    decreases v, 2
  {
    match v
    case Bool(b) => Ok(if b then "True" else "False")
    case Int(i) => Ok(IntToString(i))
    case Float(x, fixed2) => Ok(CleanFloat(x, fixed2))
    case List(items) => JoinValues(items)
    case Tuple(items) => JoinValues(items)
    case Dict(entries) => DictName(entries)
    case Callable(name) => Ok(name)
    case NoneValue => Ok(Cleaned("None"))
    case Str(s) => Ok(Cleaned(s))
    case Object(str) => Ok(Cleaned(str))
  }

  /** `"_".join(clean_value(v) for v in items)`; the first failure propagates. */
  function JoinValues(items: seq<Value>): Result<string>
    decreases items, 1
  {
    match RenderItems(items)
    case Err(e) => Err(e)
    case Ok(texts) => Ok(Join(texts, "_"))
  }

  function RenderItems(items: seq<Value>): Result<seq<string>>
    decreases items, 0
  {
    if items == [] then Ok([])
    else match CleanValue(items[0])
      case Err(e) => Err(e)
      case Ok(t) =>
        match RenderItems(items[1..])
        case Err(e) => Err(e)
        case Ok(rest) => Ok([t] + rest)
  }

  /**
   * Every value rendered, each with its own outcome. Python renders a value
   * only when its key is reached; rendering has no effect besides a possible
   * exception, so pairing each key with its outcome and consulting the
   * outcome only for the keys that are reached is the same.
   */
  function RenderEntries(e: seq<(string, Value)>): (r: seq<(string, Result<string>)>)
    ensures |r| == |e|
    decreases e, 0
  {
    if e == [] then []
    else
      var kv := e[0];
      assert kv in e;
      assert kv.1 < kv;
      [(kv.0, CleanValue(kv.1))] + RenderEntries(e[1..])
  }

  /** `key in ignore_from_name`: membership for sequences, substring for strings, keys for dicts. */
  function InIgnore(key: string, ignore: Value): Result<bool>
  {
    match ignore
    case List(items) => Ok(Str(key) in items)
    case Tuple(items) => Ok(Str(key) in items)
    case Str(s) => Ok(Occurs(key, s))
    case Dict(entries) => Ok(key in KeySet(entries))
    case _ => Err(TypeError)
  }

  /** The value under `ignore_from_name`, an empty list when absent. */
  function IgnoreList(e: seq<(string, Value)>): Value
  {
    match Lookup(e, "ignore_from_name")
    case None => List([])
    case Some(v) => v
  }

  /**
   * The keys a loop over the sorted keys keeps, with their rendered values,
   * in order; the first failure met along the way propagates.
   */
  function Select(xs: seq<(string, Result<string>)>, ignore: Value): Result<seq<(string, string)>>
  {
    if xs == [] then Ok([])
    else match InIgnore(xs[0].0, ignore)
      case Err(e) => Err(e)
      case Ok(skip) =>
        if skip then Select(xs[1..], ignore)
        else match xs[0].1
          case Err(e) => Err(e)
          case Ok(t) =>
            match Select(xs[1..], ignore)
            case Err(e) => Err(e)
            case Ok(rest) => Ok([(xs[0].0, t)] + rest)
  }

  /** `prefix` and `ignore_from_name` are taken out of the keyword arguments. */
  function Popped<T>(e: seq<(string, T)>): seq<(string, T)>
  {
    Remove(Remove(e, "prefix"), "ignore_from_name")
  }

  /** The label of one keyword: its upper-cased abbreviation followed by the rendered value. */
  function LabelOf(key: string, text: string): string
  {
    Upper(JoinFirstLetters(key)) + text
  }

  function Labels(picked: seq<(string, string)>): (r: seq<string>)
    ensures |r| == |picked|
    ensures forall i :: 0 <= i < |r| ==> r[i] == LabelOf(picked[i].0, picked[i].1)
  {
    seq(|picked|, i requires 0 <= i < |picked| => LabelOf(picked[i].0, picked[i].1))
  }

  /** `[prefix] if prefix else []`; joining a prefix that is not a string fails. */
  function PrefixLabel(prefix: Option<Value>): Result<seq<string>>
  {
    match prefix
    case None => Ok([])
    case Some(p) => if !Truthy(p) then Ok([]) else if p.Str? then Ok([p.s]) else Err(TypeError)
  }

  /** `dict2name(**e)`. */
  function DictName(e: seq<(string, Value)>): Result<string>
    decreases e, 1
  {
    var head := PrefixLabel(Lookup(e, "prefix"));
    var picked := Select(SortByKey(Popped(RenderEntries(e))), IgnoreList(e));
    if picked.Err? then Err(picked.error)
    else if head.Err? then Err(head.error)
    else Ok(Cleaned(Join(head.value + Labels(picked.value), "_")))
  }

  lemma {:induction false} RenderEntriesMap(e: seq<(string, Value)>)
    ensures RenderEntries(e) == MapValues(e, CleanValue)
  {
    if e != [] {
      RenderEntriesMap(e[1..]);
    }
  }

  /** The rendered, popped and sorted entries are the sorted entries, rendered. */
  lemma RenderedSorted(e: seq<(string, Value)>)
    ensures SortByKey(Popped(RenderEntries(e))) == MapValues(SortByKey(Popped(e)), CleanValue)
  {
    RenderEntriesMap(e);
    RemoveCommutesWithMap(e, "prefix", CleanValue);
    RemoveCommutesWithMap(Remove(e, "prefix"), "ignore_from_name", CleanValue);
    SortCommutesWithMap(Popped(e), CleanValue);
  }

  function Then<T>(pre: seq<T>, r: Result<seq<T>>): Result<seq<T>>
  {
    match r
    case Err(e) => Err(e)
    case Ok(rest) => Ok(pre + rest)
  }

  lemma ThenNothing<T>(r: Result<seq<T>>)
    ensures Then([], r) == r
  {
    if r.Ok? {
      assert [] + r.value == r.value;
    }
  }

  /** One turn of the loop over the sorted keys, stated on what is left to select. */
  lemma SelectStep(picked: seq<(string, string)>, xs: seq<(string, Result<string>)>, ignore: Value)
    requires xs != []
    ensures InIgnore(xs[0].0, ignore).Err? ==> Then(picked, Select(xs, ignore)) == Err(InIgnore(xs[0].0, ignore).error)
    ensures InIgnore(xs[0].0, ignore) == Ok(true) ==> Then(picked, Select(xs, ignore)) == Then(picked, Select(xs[1..], ignore))
    ensures InIgnore(xs[0].0, ignore) == Ok(false) && xs[0].1.Err? ==> Then(picked, Select(xs, ignore)) == Err(xs[0].1.error)
    ensures InIgnore(xs[0].0, ignore) == Ok(false) && xs[0].1.Ok? ==>
      Then(picked, Select(xs, ignore)) == Then(picked + [(xs[0].0, xs[0].1.value)], Select(xs[1..], ignore))
  {
    var rest := Select(xs[1..], ignore);
    if InIgnore(xs[0].0, ignore) == Ok(false) && xs[0].1.Ok? && rest.Ok? {
      assert picked + ([(xs[0].0, xs[0].1.value)] + rest.value) == picked + [(xs[0].0, xs[0].1.value)] + rest.value;
    }
  }

  /** `dict2name`: the labels gathered in a loop over the sorted keys, joined and cleaned. */
  method Dict2Name(kwargs: seq<(string, Value)>) returns (r: Result<string>)
    ensures r == DictName(kwargs)
  {
    var head := PrefixLabel(Lookup(kwargs, "prefix"));
    var ignore := IgnoreList(kwargs);
    var keys := SortByKey(Popped(kwargs));
    ghost var ys := SortByKey(Popped(RenderEntries(kwargs)));
    RenderedSorted(kwargs);
    var parts: seq<string> := [];
    ghost var picked: seq<(string, string)> := [];
    var i := 0;
    assert ys[i..] == ys;
    ThenNothing(Select(ys, ignore));
    while i < |keys|
      invariant 0 <= i <= |keys|
      invariant parts == Labels(picked)
      invariant Then(picked, Select(ys[i..], ignore)) == Select(ys, ignore)
    {
      var key := keys[i].0;
      assert ys[i] == (key, CleanValue(keys[i].1));
      assert ys[i..][1..] == ys[i + 1..];
      SelectStep(picked, ys[i..], ignore);
      var skip := InIgnore(key, ignore);
      if skip.Err? {
        return Err(skip.error);
      }
      if !skip.value {
        var value := CleanValue(keys[i].1);
        if value.Err? {
          return Err(value.error);
        }
        parts := parts + [LabelOf(key, value.value)];
        picked := picked + [(key, value.value)];
      }
      i := i + 1;
    }
    assert ys[i..] == [];
    assert picked + [] == picked;
    assert Select(ys, ignore) == Ok(picked);
    if head.Err? {
      return Err(head.error);
    }
    var cleaned := CleanName(Join(head.value + parts, "_"));
    return Ok(cleaned);
  }

  /** The kept keys are exactly the keys of `xs` the ignore list lets through. */
  lemma {:induction false} SelectKeys(xs: seq<(string, Result<string>)>, ignore: Value, k: string)
    requires Select(xs, ignore).Ok?
    ensures k in KeySet(Select(xs, ignore).value) <==> k in KeySet(xs) && InIgnore(k, ignore) == Ok(false)
  {
    if xs != [] {
      SelectKeys(xs[1..], ignore, k);
    }
  }

  lemma PoppedKeys<T>(e: seq<(string, T)>)
    ensures KeySet(SortByKey(Popped(e))) == KeySet(e) - {"prefix", "ignore_from_name"}
  {
    RemoveKeys(e, "prefix");
    RemoveKeys(Remove(e, "prefix"), "ignore_from_name");
    SortContents(Popped(e));
  }

  /**
   * The labels of `dict2name` come from exactly the keys that are neither
   * `prefix` nor `ignore_from_name` nor listed in `ignore_from_name`.
   */
  lemma DictNameKeys(e: seq<(string, Value)>, k: string)
    requires Select(SortByKey(Popped(RenderEntries(e))), IgnoreList(e)).Ok?
    ensures k in KeySet(Select(SortByKey(Popped(RenderEntries(e))), IgnoreList(e)).value)
        <==> k in KeySet(e) && k != "prefix" && k != "ignore_from_name" && InIgnore(k, IgnoreList(e)) == Ok(false)
  {
    SelectKeys(SortByKey(Popped(RenderEntries(e))), IgnoreList(e), k);
    PoppedKeys(RenderEntries(e));
    RenderEntriesMap(e);
    MapKeys(e, CleanValue);
  }

  lemma {:induction false} MapKeys<T, U>(s: seq<(string, T)>, f: T -> U)
    ensures KeySet(MapValues(s, f)) == KeySet(s)
  {
    if s != [] {
      MapKeys(s[1..], f);
      assert MapValues(s, f)[1..] == MapValues(s[1..], f);
    }
  }

  lemma PoppedSortedIgnoresOrder<T>(e: seq<(string, T)>, f: seq<(string, T)>)
    requires DistinctKeys(e) && DistinctKeys(f) && multiset(e) == multiset(f)
    ensures SortByKey(Popped(e)) == SortByKey(Popped(f))
  {
    RemoveKeepsDistinct(e, "prefix");
    RemoveKeepsDistinct(Remove(e, "prefix"), "ignore_from_name");
    RemoveKeepsDistinct(f, "prefix");
    RemoveKeepsDistinct(Remove(f, "prefix"), "ignore_from_name");
    RemoveIgnoresOrder(e, f, "prefix");
    RemoveIgnoresOrder(Remove(e, "prefix"), Remove(f, "prefix"), "ignore_from_name");
    SortByKeyIgnoresOrder(Popped(e), Popped(f));
  }

  /** `dict2name` does not depend on the order in which the keyword arguments were passed. */
  lemma DictNameIgnoresOrder(e: seq<(string, Value)>, f: seq<(string, Value)>)
    requires DistinctKeys(e) && DistinctKeys(f) && multiset(e) == multiset(f)
    ensures DictName(e) == DictName(f)
  {
    LookupIgnoresOrder(e, f, "prefix");
    LookupIgnoresOrder(e, f, "ignore_from_name");
    PoppedSortedIgnoresOrder(e, f);
    RenderedSorted(e);
    RenderedSorted(f);
  }

  /* ---------------------------------------------------------------------
   * dict2hash
   * ------------------------------------------------------------------- */

  /** The text fed to the hasher, one `key + value` after another. */
  function Fed(picked: seq<(string, string)>): string
  {
    if picked == [] then ""
    else Fed(picked[..|picked| - 1]) + picked[|picked| - 1].0 + picked[|picked| - 1].1
  }

  /** `dict2hash` pops only `ignore_from_name`; a `prefix` key is hashed like any other. */
  function HashInput(e: seq<(string, Value)>): Result<string>
  {
    match Select(SortByKey(Remove(RenderEntries(e), "ignore_from_name")), IgnoreList(e))
    case Err(x) => Err(x)
    case Ok(picked) => Ok(Fed(picked))
  }

  lemma RenderedSortedForHash(e: seq<(string, Value)>)
    ensures SortByKey(Remove(RenderEntries(e), "ignore_from_name"))
         == MapValues(SortByKey(Remove(e, "ignore_from_name")), CleanValue)
  {
    RenderEntriesMap(e);
    RemoveCommutesWithMap(e, "ignore_from_name", CleanValue);
    SortCommutesWithMap(Remove(e, "ignore_from_name"), CleanValue);
  }

  /**
   * `dict2hash`: every kept key and its rendered value fed to the hasher in
   * sorted key order. `sha256` stands for the hexadecimal SHA-256 digest of
   * everything fed; feeding piece by piece equals hashing the concatenation.
   */
  method Dict2Hash(kwargs: seq<(string, Value)>, sha256: string -> string) returns (r: Result<string>)
    ensures r == match HashInput(kwargs) case Err(x) => Err(x) case Ok(t) => Ok(sha256(t))
  {
    var ignore := IgnoreList(kwargs);
    var keys := SortByKey(Remove(kwargs, "ignore_from_name"));
    ghost var ys := SortByKey(Remove(RenderEntries(kwargs), "ignore_from_name"));
    RenderedSortedForHash(kwargs);
    var fed := "";
    ghost var picked: seq<(string, string)> := [];
    var i := 0;
    assert ys[i..] == ys;
    ThenNothing(Select(ys, ignore));
    while i < |keys|
      invariant 0 <= i <= |keys|
      invariant fed == Fed(picked)
      invariant Then(picked, Select(ys[i..], ignore)) == Select(ys, ignore)
    {
      var key := keys[i].0;
      assert ys[i] == (key, CleanValue(keys[i].1));
      assert ys[i..][1..] == ys[i + 1..];
      SelectStep(picked, ys[i..], ignore);
      var skip := InIgnore(key, ignore);
      if skip.Err? {
        return Err(skip.error);
      }
      if !skip.value {
        var value := CleanValue(keys[i].1);
        if value.Err? {
          return Err(value.error);
        }
        fed := fed + key + value.value;
        picked := picked + [(key, value.value)];
      }
      i := i + 1;
    }
    assert ys[i..] == [];
    assert picked + [] == picked;
    assert Select(ys, ignore) == Ok(picked);
    return Ok(sha256(fed));
  }

  /** The hash does not depend on the order in which the keyword arguments were passed. */
  lemma HashInputIgnoresOrder(e: seq<(string, Value)>, f: seq<(string, Value)>)
    requires DistinctKeys(e) && DistinctKeys(f) && multiset(e) == multiset(f)
    ensures HashInput(e) == HashInput(f)
  {
    LookupIgnoresOrder(e, f, "ignore_from_name");
    RemoveKeepsDistinct(e, "ignore_from_name");
    RemoveKeepsDistinct(f, "ignore_from_name");
    RemoveIgnoresOrder(e, f, "ignore_from_name");
    SortByKeyIgnoresOrder(Remove(e, "ignore_from_name"), Remove(f, "ignore_from_name"));
    RenderedSortedForHash(e);
    RenderedSortedForHash(f);
  }

  /* ---------------------------------------------------------------------
   * get_component_name
   * ------------------------------------------------------------------- */

  /** `component_type_to_name`. */
  const TypeToName: seq<(string, string)> := [("import_phidl_component", "phidl")]

  /** The component type after the first `n` renamings. */
  function Renamed(t: string, n: nat): string
    requires n <= |TypeToName|
  {
    if n == 0 then t else ReplaceAll(Renamed(t, n - 1), TypeToName[n - 1].0, TypeToName[n - 1].1)
  }

  /**
   * `get_component_name(t, **kwargs)`. A keyword `component_type` collides
   * with the positional parameter of that name, so the call itself raises
   * `TypeError`.
   */
  function ComponentName(t: string, kwargs: seq<(string, Value)>): Result<string>
  {
    var base := Renamed(t, |TypeToName|);
    if "component_type" in KeySet(kwargs) then Err(TypeError)
    else if kwargs == [] then Ok(base)
    else match DictName(kwargs)
      case Err(e) => Err(e)
      case Ok(d) => Ok(base + "_" + d)
  }

  method GetComponentName(componentType: string, kwargs: seq<(string, Value)>) returns (r: Result<string>)
    ensures r == ComponentName(componentType, kwargs)
  {
    if "component_type" in KeySet(kwargs) {
      return Err(TypeError);
    }
    var name := componentType;
    var i := 0;
    while i < |TypeToName|
      invariant 0 <= i <= |TypeToName|
      invariant name == Renamed(componentType, i)
    {
      var (k, v) := TypeToName[i];
      name := ReplaceAll(name, k, v);
      i := i + 1;
    }
    if |kwargs| > 0 {
      var d := Dict2Name(kwargs);
      if d.Err? {
        return Err(d.error);
      }
      name := name + "_" + d.value;
    }
    return Ok(name);
  }

  /** A type name that does not mention `import_phidl_component` is kept as it is. */
  lemma RenamedKeeps(t: string)
    requires !Occurs("import_phidl_component", t)
    ensures Renamed(t, |TypeToName|) == t
  {
    ReplaceAbsent(t, "import_phidl_component", "phidl");
  }

  /** The component name does not depend on the order of the keyword arguments. */
  lemma ComponentNameIgnoresOrder(t: string, e: seq<(string, Value)>, f: seq<(string, Value)>)
    requires DistinctKeys(e) && DistinctKeys(f) && multiset(e) == multiset(f)
    ensures ComponentName(t, e) == ComponentName(t, f)
  {
    assert |e| == |multiset(e)| == |multiset(f)| == |f|;
    LookupIgnoresOrder(e, f, "component_type");
    DictNameIgnoresOrder(e, f);
  }

  /** The examples of `test_clean_value`: `0.5` renders as `500m` and `5` as `5`. */
  lemma CleanValueExamples()
    ensures CleanValue(Float(0.5, "0.50")) == Ok("500m")
    ensures CleanValue(Int(5)) == Ok("5")
  {
    assert CleanValue(Float(0.5, "0.50")) == Ok(IntToString(500) + "m") by {
      assert (0.5 * 1000.0).Floor == 500;
    }
    assert IntToString(500) == "500" by {
      assert DigitChar(0) == '0' && DigitChar(5) == '5';
      assert NatToString(500) == NatToString(50) + [DigitChar(0)];
      assert NatToString(50) == NatToString(5) + [DigitChar(0)];
    }
    assert "500" + "m" == "500m";
    assert DigitChar(5) == '5';
  }

  /** A one-keyword name: the label of the single keyword, which has no character to clean. */
  lemma DictNameSingle(key: string, v: Value, text: string)
    requires key != "prefix" && key != "ignore_from_name"
    requires CleanValue(v) == Ok(text)
    ensures DictName([(key, v)]) == Ok(Cleaned(LabelOf(key, text)))
  {
    var e := [(key, v)];
    assert RenderEntries(e) == [(key, Ok(text))];
    assert Remove(RenderEntries(e), "prefix") == RenderEntries(e);
    assert Popped(RenderEntries(e)) == RenderEntries(e);
    assert SortByKey(RenderEntries(e)) == RenderEntries(e);
    assert IgnoreList(e) == List([]);
    assert RenderEntries(e)[1..] == [];
    assert InIgnore(key, List([])) == Ok(false);
    assert Select(RenderEntries(e)[1..], List([])) == Ok([]);
    assert RenderEntries(e)[0] == (key, Ok(text));
    assert [(key, text)] + [] == [(key, text)];
    assert Select(RenderEntries(e), List([])) == Ok([(key, text)]);
    assert Labels([(key, text)]) == [LabelOf(key, text)];
  }

  /**
   * With keywords, the name is the renamed type, `_` and `dict2name` of the
   * keywords, unless one of them is `component_type`.
   */
  lemma ComponentNameWithKeywords(t: string, kwargs: seq<(string, Value)>, d: string)
    requires kwargs != [] && DictName(kwargs) == Ok(d)
    ensures ComponentName(t, kwargs) ==
      if Lookup(kwargs, "component_type").Some? then Err(TypeError) else Ok(Renamed(t, |TypeToName|) + "_" + d)
  {
  }

  /** The label of `length=3` is `L3`, which cleaning keeps. */
  lemma LengthLabel()
    ensures Cleaned(LabelOf("length", "3")) == "L3"
  {
    assert LabelOf("length", "3") == "L3" by {
      SplitWithoutSeparator("length", '_');
      assert Split("length", '_')[1..] == [];
      assert JoinFirstLetters("length") == "l";
    }
    UnmappedChars("L3");
  }

  lemma LengthKeyword()
    ensures DictName([("length", Int(3))]) == Ok(Cleaned(LabelOf("length", "3")))
  {
    assert CleanValue(Int(3)) == Ok("3") by {
      assert DigitChar(3) == '3';
    }
    DictNameSingle("length", Int(3), "3");
  }

  /** `dict2name(length=3)` is `L3`. */
  lemma DictNameExample()
    ensures DictName([("length", Int(3))]) == Ok("L3")
  {
    LengthLabel();
    LengthKeyword();
  }

  /** The names `test_autoname` expects for `_dummy()` and `_dummy(length=3)`. */
  lemma ComponentNameExamples()
    ensures ComponentName("_dummy", []) == Ok("_dummy")
    ensures ComponentName("_dummy", [("length", Int(3))]) == Ok("_dummy_L3")
    ensures ComponentName("_dummy", [("component_type", Str("x"))]) == Err(TypeError)
  {
    assert ("component_type", Str("x")) in [("component_type", Str("x"))];
    KeySetHas([("component_type", Str("x"))], 0);
    assert Lookup([("length", Int(3))], "component_type").None?;
    RenamedKeeps("_dummy");
    DictNameExample();
    ComponentNameWithKeywords("_dummy", [("length", Int(3))], "L3");
    assert "_dummy" + "_" + "L3" == "_dummy_L3";
  }

  /* ---------------------------------------------------------------------
   * assert_first_letters_are_different
   * ------------------------------------------------------------------- */

  /** The abbreviations of all keys except `layer`, in order. */
  function FirstLettersOf(keys: seq<string>): seq<string>
  {
    if keys == [] then []
    else (if keys[0] != "layer" then [JoinFirstLetters(keys[0])] else []) + FirstLettersOf(keys[1..])
  }

  /** `set(s)`. */
  function Elements<T>(s: seq<T>): set<T>
  {
    if s == [] then {} else {s[0]} + Elements(s[1..])
  }

  ghost predicate NoRepeats<T>(s: seq<T>)
  {
    forall i, j :: 0 <= i < j < |s| ==> s[i] != s[j]
  }

  /** `assert_first_letters_are_different(**kwargs)`, given the keys of `kwargs`. */
  function AssertFirstLettersAreDifferent(keys: seq<string>): Outcome
  {
    var letters := FirstLettersOf(keys);
    if |Elements(letters)| == |letters| then Pass else Fail(AssertionError)
  }

  lemma {:induction false} ElementsAreMembers<T>(s: seq<T>, x: T)
    ensures x in Elements(s) <==> x in s
  {
    if s != [] {
      ElementsAreMembers(s[1..], x);
      assert s == [s[0]] + s[1..];
    }
  }

  /** A sequence has as many distinct elements as entries exactly when no entry repeats. */
  lemma {:induction false} ElementsCount<T>(s: seq<T>)
    ensures |Elements(s)| <= |s|
    ensures |Elements(s)| == |s| <==> NoRepeats(s)
  {
    if s != [] {
      ElementsCount(s[1..]);
      ElementsAreMembers(s[1..], s[0]);
      if s[0] in s[1..] {
        var j :| 0 <= j < |s[1..]| && s[1..][j] == s[0];
        assert s[j + 1] == s[0];
      } else {
        if NoRepeats(s[1..]) {
          forall i, j | 0 <= i < j < |s| ensures s[i] != s[j] {
            if i == 0 {
              assert s[j] == s[1..][j - 1];
            } else {
              assert s[i] == s[1..][i - 1] && s[j] == s[1..][j - 1];
            }
          }
        }
        if NoRepeats(s) {
          forall i, j | 0 <= i < j < |s[1..]| ensures s[1..][i] != s[1..][j] {
            assert s[1..][i] == s[i + 1] && s[1..][j] == s[j + 1];
          }
        }
      }
    }
  }

  /** The check passes exactly when no two keys other than `layer` share an abbreviation. */
  lemma FirstLettersCheck(keys: seq<string>)
    ensures AssertFirstLettersAreDifferent(keys) == Pass <==> NoRepeats(FirstLettersOf(keys))
  {
    ElementsCount(FirstLettersOf(keys));
  }

  /* ---------------------------------------------------------------------
   * the autoname decorator
   * ------------------------------------------------------------------- */

  /**
   * A parameter of the decorated component function, as `inspect.signature`
   * reports it. `default` is `None` for a parameter without a default value;
   * `inspect` then reports the class `Parameter.empty`, which is callable.
   */
  datatype Param = Param(name: string, default: Option<Value>)

  function ParamNames(params: seq<Param>): set<string>
  {
    set i | 0 <= i < |params| :: params[i].name
  }

  /** Parameter names are distinct, as in every Python signature. */
  ghost predicate DistinctParams(params: seq<Param>)
  {
    forall i, j :: 0 <= i < j < |params| ==> params[i].name != params[j].name
  }

  /** The parameter defaults copied into the settings: every one that is not callable. */
  function Defaults(params: seq<Param>): seq<(string, Value)>
  {
    if params == [] then []
    else
      var own := match params[0].default
        case Some(v) => if v.Callable? then [] else [(params[0].name, v)]
        case None => [];
      own + Defaults(params[1..])
  }

  /** The value a parameter contributes to the settings, if any. */
  function DefaultSetting(p: Param): Option<Value>
  {
    match p.default
    case Some(v) => if v.Callable? then None else Some(v)
    case None => None
  }

  lemma ParamNamesCons(params: seq<Param>)
    requires params != []
    ensures ParamNames(params) == {params[0].name} + ParamNames(params[1..])
  {
    var rest := params[1..];
    forall x | x in ParamNames(params) ensures x in {params[0].name} + ParamNames(rest) {
      var i :| 0 <= i < |params| && params[i].name == x;
      if i > 0 {
        assert rest[i - 1].name == x;
      }
    }
    forall x | x in ParamNames(rest) ensures x in ParamNames(params) {
      var i :| 0 <= i < |rest| && rest[i].name == x;
      assert params[i + 1].name == x;
    }
  }

  lemma DistinctParamsTail(params: seq<Param>)
    requires params != [] && DistinctParams(params)
    ensures DistinctParams(params[1..]) && params[0].name !in ParamNames(params[1..])
  {
    var rest := params[1..];
    forall i, j | 0 <= i < j < |rest| ensures rest[i].name != rest[j].name {
      assert rest[i] == params[i + 1] && rest[j] == params[j + 1];
    }
  }

  lemma {:induction false} DefaultsKeys(params: seq<Param>)
    ensures KeySet(Defaults(params)) <= ParamNames(params)
    ensures DistinctParams(params) ==> DistinctKeys(Defaults(params))
  {
    if params != [] {
      var rest := params[1..];
      DefaultsKeys(rest);
      ParamNamesCons(params);
      if DistinctParams(params) {
        DistinctParamsTail(params);
      }
      if DefaultSetting(params[0]).Some? {
        var d := Defaults(params);
        assert d == [(params[0].name, DefaultSetting(params[0]).value)] + Defaults(rest);
        assert d[1..] == Defaults(rest);
        if DistinctParams(params) {
          DistinctCons((params[0].name, DefaultSetting(params[0]).value), Defaults(rest));
        }
      } else {
        assert Defaults(params) == Defaults(rest);
      }
    }
  }

  /** The default recorded under a parameter's name is that parameter's own, when it is not callable. */
  lemma {:induction false} DefaultsLookup(params: seq<Param>, i: int)
    requires DistinctParams(params) && 0 <= i < |params|
    ensures Lookup(Defaults(params), params[i].name) == DefaultSetting(params[i])
  {
    var rest := params[1..];
    var own: seq<(string, Value)> := if DefaultSetting(params[0]).Some? then [(params[0].name, DefaultSetting(params[0]).value)] else [];
    assert Defaults(params) == own + Defaults(rest);
    assert DistinctParams(rest) by {
      forall a, b | 0 <= a < b < |rest| ensures rest[a].name != rest[b].name {
        assert rest[a] == params[a + 1] && rest[b] == params[b + 1];
      }
    }
    if i == 0 {
      DefaultsKeys(rest);
      assert params[0].name !in ParamNames(rest);
      if own == [] {
        assert Defaults(params) == Defaults(rest);
      }
    } else {
      assert params[i] == rest[i - 1];
      DefaultsLookup(rest, i - 1);
      if own != [] {
        assert (own + Defaults(rest))[1..] == Defaults(rest);
      } else {
        assert Defaults(params) == Defaults(rest);
      }
    }
  }

  /** The keyword arguments left after `name` and `ignore_from_name` are popped. */
  function Passed(kwargs: seq<(string, Value)>): seq<(string, Value)>
  {
    Remove(Remove(kwargs, "name"), "ignore_from_name")
  }

  /**
   * `kwargs.pop("name", get_component_name(t, **kwargs))`: the default is
   * built first, from every keyword argument `name` included, so its
   * failures propagate even when a name is given.
   */
  function ChosenName(t: string, kwargs: seq<(string, Value)>): Result<string>
  {
    match ComponentName(t, kwargs)
    case Err(e) => Err(e)
    case Ok(d) =>
      match Lookup(kwargs, "name")
      case None => Ok(d)
      case Some(v) => if v.Str? then Ok(v.s) else Err(TypeError)
  }

  /** A function with a parameter named `args` or `kwargs` is let through with any keyword. */
  predicate TakesAnyKeyword(params: seq<Param>)
  {
    "args" in ParamNames(params) || "kwargs" in ParamNames(params)
  }

  predicate KeysAccepted(params: seq<Param>, passed: seq<(string, Value)>)
  {
    TakesAnyKeyword(params) || KeySet(passed) <= ParamNames(params)
  }

  /** The name `_autoname` settles on, or the exception it raises before building the component. */
  function AutonameCheck(t: string, params: seq<Param>, args: seq<Value>, kwargs: seq<(string, Value)>): Result<string>
  {
    if args != [] then Err(ValueError)
    else match ChosenName(t, kwargs)
      case Err(e) => Err(e)
      case Ok(n) => if KeysAccepted(params, Passed(kwargs)) then Ok(n) else Err(AssertionError)
  }

  /** `s[:n]`. */
  function Take(s: string, n: nat): string
  {
    if |s| <= n then s else s[..n]
  }

  /** A name over `MaxNameLength` characters is replaced by the type and 8 characters of its MD5 digest. */
  function ShortName(t: string, n: string, md5: string -> string): string
  {
    if |n| > MaxNameLength then t + "_" + Take(md5(n), 8) else n
  }

  /** The settings dict after the defaults and then the passed keywords are merged into it. */
  function SettingsAfter(before: Option<seq<(string, Value)>>, params: seq<Param>, passed: seq<(string, Value)>): seq<(string, Value)>
  {
    var base := if before.Some? then before.value else [];
    UpdateAll(UpdateAll(base, Defaults(params)), passed)
  }

  /** The name `_autoname` gives the component, or the exception it raises. */
  function AutonameName(t: string, params: seq<Param>, args: seq<Value>, kwargs: seq<(string, Value)>, md5: string -> string): Result<string>
  {
    match AutonameCheck(t, params, args, kwargs)
    case Err(e) => Err(e)
    case Ok(n) => Ok(ShortName(t, n, md5))
  }

  /** The object a component function returns; `settings` is `None` while it has no such attribute. */
  class Component {
    var name: string
    var nameLong: Option<string>
    var moduleName: string
    var functionName: string
    var settings: Option<seq<(string, Value)>>

    constructor (name: string, settings: Option<seq<(string, Value)>>)
      ensures this.name == name && this.settings == settings
      ensures nameLong == None && moduleName == "" && functionName == ""
    {
      this.name := name;
      this.settings := settings;
      nameLong := None;
      moduleName := "";
      functionName := "";
    }
  }

  lemma AutonameCheckAccepts(t: string, params: seq<Param>, kwargs: seq<(string, Value)>, n: string)
    requires ChosenName(t, kwargs) == Ok(n) && KeysAccepted(params, Passed(kwargs))
    ensures AutonameCheck(t, params, [], kwargs) == Ok(n)
  {
  }

  lemma AutonameCheckRejects(t: string, params: seq<Param>, kwargs: seq<(string, Value)>)
    requires ChosenName(t, kwargs).Ok? && !KeysAccepted(params, Passed(kwargs))
    ensures AutonameCheck(t, params, [], kwargs) == Err(AssertionError)
  {
  }

  /**
   * The name `_autoname` starts from: the one passed as `name`, which must
   * be a string, else the default built from every keyword. The default is
   * built in either case, so its exception wins over a passed name.
   */
  method ChooseName(functionName: string, kwargs: seq<(string, Value)>) returns (r: Result<string>)
    ensures r == ChosenName(functionName, kwargs)
    ensures "component_type" in KeySet(kwargs) ==> r == Err(TypeError)
    ensures ComponentName(functionName, kwargs).Err? ==> r == ComponentName(functionName, kwargs)
    ensures ComponentName(functionName, kwargs).Ok? && Lookup(kwargs, "name").None? ==>
      r == ComponentName(functionName, kwargs)
    ensures ComponentName(functionName, kwargs).Ok? && Lookup(kwargs, "name").Some? ==>
      r == if Lookup(kwargs, "name").value.Str? then Ok(Lookup(kwargs, "name").value.s) else Err(TypeError)
  {
    var byDefault := GetComponentName(functionName, kwargs);
    if byDefault.Err? {
      return Err(byDefault.error);
    }
    var given := Lookup(kwargs, "name");
    if given.None? {
      return Ok(byDefault.value);
    }
    if !given.value.Str? {
      return Err(TypeError);
    }
    return Ok(given.value.s);
  }

  /** The check that every passed keyword is a parameter, unless the function takes any keyword. */
  method CheckKeywords(params: seq<Param>, passed: seq<(string, Value)>) returns (accepted: bool)
    ensures accepted == KeysAccepted(params, passed)
  {
    if TakesAnyKeyword(params) {
      return true;
    }
    var i := 0;
    while i < |passed|
      invariant 0 <= i <= |passed|
      invariant forall j :: 0 <= j < i ==> passed[j].0 in ParamNames(params)
    {
      if passed[i].0 !in ParamNames(params) {
        KeySetHas(passed, i);
        return false;
      }
      i := i + 1;
    }
    forall k | k in KeySet(passed) ensures k in ParamNames(params) {
      var j := KeySetWitness(passed, k);
    }
    return true;
  }

  /**
   * `_autoname(*args, **kwargs)` for a component function called
   * `functionName`, defined in `moduleName`, with parameters `params`; `c` is
   * what the component function returns for the passed keywords.
   */
  method Autoname(c: Component, functionName: string, moduleName: string, params: seq<Param>,
                  args: seq<Value>, kwargs: seq<(string, Value)>, md5: string -> string) returns (r: Outcome)
    modifies c
    ensures r.Fail? <==> AutonameCheck(functionName, params, args, kwargs).Err?
    ensures r.Fail? ==> r.error == AutonameCheck(functionName, params, args, kwargs).error && unchanged(c)
    ensures r.Pass? ==>
      var n := AutonameCheck(functionName, params, args, kwargs).value;
      && c.name == ShortName(functionName, n, md5)
      && c.nameLong == (if |n| > MaxNameLength then Some(n) else old(c.nameLong))
      && c.moduleName == moduleName
      && c.functionName == functionName
      && c.settings == Some(SettingsAfter(old(c.settings), params, Passed(kwargs)))
  {
    if args != [] {
      return Fail(ValueError);
    }
    var chosen := ChooseName(functionName, kwargs);
    if chosen.Err? {
      return Fail(chosen.error);
    }
    var name := chosen.value;
    var passed := Remove(Remove(kwargs, "name"), "ignore_from_name");
    var accepted := CheckKeywords(params, passed);
    if !accepted {
      AutonameCheckRejects(functionName, params, kwargs);
      return Fail(AssertionError);
    }
    AutonameCheckAccepts(functionName, params, kwargs, name);
    c.name := name;
    c.moduleName := moduleName;
    c.functionName := functionName;
    if |name| > MaxNameLength {
      c.nameLong := Some(name);
      c.name := functionName + "_" + Take(md5(name), 8);
    }
    var settings := if c.settings.Some? then c.settings.value else [];
    settings := UpdateAll(settings, Defaults(params));
    settings := UpdateAll(settings, passed);
    c.settings := Some(settings);
    return Pass;
  }

  /**
   * `_autoname` succeeds exactly when no positional argument is passed, the
   * default name can be built, a given name is a string, and every passed
   * keyword is a parameter unless the function has a parameter named `args`
   * or `kwargs`. A keyword `component_type` always raises `TypeError`, even
   * when a name is given.
   */
  lemma AutonameCheckCases(t: string, params: seq<Param>, args: seq<Value>, kwargs: seq<(string, Value)>)
    ensures args != [] ==> AutonameCheck(t, params, args, kwargs) == Err(ValueError)
    ensures args == [] && "component_type" in KeySet(kwargs) ==> AutonameCheck(t, params, args, kwargs) == Err(TypeError)
    ensures AutonameCheck(t, params, args, kwargs).Ok? <==>
      && args == []
      && "component_type" !in KeySet(kwargs)
      && ComponentName(t, kwargs).Ok?
      && (Lookup(kwargs, "name").Some? ==> Lookup(kwargs, "name").value.Str?)
      && (TakesAnyKeyword(params) || forall k :: k in KeySet(kwargs) && k != "name" && k != "ignore_from_name" ==> k in ParamNames(params))
    ensures AutonameCheck(t, params, args, kwargs).Ok? ==>
      AutonameCheck(t, params, args, kwargs).value ==
        if Lookup(kwargs, "name").Some? then Lookup(kwargs, "name").value.s else ComponentName(t, kwargs).value
  {
    RemoveKeys(kwargs, "name");
    RemoveKeys(Remove(kwargs, "name"), "ignore_from_name");
  }

  /** A name of at most `MaxNameLength` characters is kept; a longer one becomes the type, `_` and at most 8 digest characters. */
  lemma ShortNameBound(t: string, n: string, md5: string -> string)
    ensures |n| <= MaxNameLength ==> ShortName(t, n, md5) == n
    ensures |n| > MaxNameLength ==> |ShortName(t, n, md5)| <= |t| + 9 && ShortName(t, n, md5)[..|t| + 1] == t + "_"
  {
  }

  /** Popping `name` and `ignore_from_name` keeps every other keyword as it was. */
  lemma PassedLookup(kwargs: seq<(string, Value)>, k: string)
    ensures Lookup(Passed(kwargs), k) == if k == "name" || k == "ignore_from_name" then None else Lookup(kwargs, k)
    ensures DistinctKeys(kwargs) ==> DistinctKeys(Passed(kwargs))
  {
    RemoveLookup(kwargs, "name", k);
    RemoveLookup(Remove(kwargs, "name"), "ignore_from_name", k);
    if DistinctKeys(kwargs) {
      RemoveKeepsDistinct(kwargs, "name");
      RemoveKeepsDistinct(Remove(kwargs, "name"), "ignore_from_name");
    }
  }

  /**
   * After `_autoname` a setting reads as the passed keyword when one was
   * passed, else as the non-callable default of the parameter, else as it
   * read before; keys that are neither passed nor parameters keep their value.
   */
  lemma SettingsLookup(before: Option<seq<(string, Value)>>, params: seq<Param>, kwargs: seq<(string, Value)>, k: string)
    requires DistinctParams(params) && DistinctKeys(kwargs)
    ensures Lookup(SettingsAfter(before, params, Passed(kwargs)), k) ==
      if Lookup(Passed(kwargs), k).Some? then Lookup(kwargs, k)
      else if Lookup(Defaults(params), k).Some? then Lookup(Defaults(params), k)
      else if before.Some? then Lookup(before.value, k) else None
    ensures k !in KeySet(Passed(kwargs)) && k !in ParamNames(params) ==>
      Lookup(SettingsAfter(before, params, Passed(kwargs)), k) == if before.Some? then Lookup(before.value, k) else None
  {
    var base := if before.Some? then before.value else [];
    PassedLookup(kwargs, k);
    DefaultsKeys(params);
    UpdateAllLookup(UpdateAll(base, Defaults(params)), Passed(kwargs), k);
    UpdateAllLookup(base, Defaults(params), k);
  }

  /** A parameter that is not passed takes its non-callable default in the settings. */
  lemma SettingsDefault(before: Option<seq<(string, Value)>>, params: seq<Param>, kwargs: seq<(string, Value)>, i: int)
    requires DistinctParams(params) && DistinctKeys(kwargs) && 0 <= i < |params|
    requires params[i].name !in KeySet(kwargs)
    requires DefaultSetting(params[i]).Some?
    ensures Lookup(SettingsAfter(before, params, Passed(kwargs)), params[i].name) == DefaultSetting(params[i])
  {
    SettingsLookup(before, params, kwargs, params[i].name);
    PassedLookup(kwargs, params[i].name);
    DefaultsLookup(params, i);
  }

  /** A passed keyword other than `name` and `ignore_from_name` is recorded in the settings as passed. */
  lemma SettingsPassed(before: Option<seq<(string, Value)>>, params: seq<Param>, kwargs: seq<(string, Value)>, k: string)
    requires DistinctParams(params) && DistinctKeys(kwargs)
    requires k in KeySet(kwargs) && k != "name" && k != "ignore_from_name"
    ensures Lookup(SettingsAfter(before, params, Passed(kwargs)), k) == Lookup(kwargs, k)
  {
    SettingsLookup(before, params, kwargs, k);
    PassedLookup(kwargs, k);
  }

  /** The name `_autoname` settles on does not depend on the order of the keyword arguments. */
  lemma AutonameIgnoresOrder(t: string, params: seq<Param>, args: seq<Value>,
                             e: seq<(string, Value)>, f: seq<(string, Value)>, md5: string -> string)
    requires DistinctKeys(e) && DistinctKeys(f) && multiset(e) == multiset(f)
    ensures AutonameName(t, params, args, e, md5) == AutonameName(t, params, args, f, md5)
  {
    ComponentNameIgnoresOrder(t, e, f);
    LookupIgnoresOrder(e, f, "name");
    assert KeySet(e) == KeySet(f) by {
      forall k ensures k in KeySet(e) <==> k in KeySet(f) {
        LookupIgnoresOrder(e, f, k);
      }
    }
    AutonameCheckCases(t, params, args, e);
    AutonameCheckCases(t, params, args, f);
  }

  /** The parameters of the test component `_dummy(length=3, wg_width=0.5)`. */
  const DummyParams: seq<Param> := [Param("length", Some(Int(3))), Param("wg_width", Some(Float(0.5, "0.50")))]

  /** `_dummy().name` is `_dummy` and `_dummy(length=3).name` is `_dummy_L3`, as `test_autoname` expects. */
  lemma AutonameExamples(md5: string -> string)
    ensures AutonameName("_dummy", DummyParams, [], [], md5) == Ok("_dummy")
    ensures AutonameName("_dummy", DummyParams, [], [("length", Int(3))], md5) == Ok("_dummy_L3")
  {
    ComponentNameExamples();
    assert "length" in ParamNames(DummyParams) by {
      assert DummyParams[0].name == "length";
    }
    assert KeySet(Passed([("length", Int(3))])) == {"length"} by {
      RemoveKeys([("length", Int(3))], "name");
      RemoveKeys(Remove([("length", Int(3))], "name"), "ignore_from_name");
    }
  }
}
