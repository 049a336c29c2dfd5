/** Selection evaluation of the Sigma rule engine (`_evaluate_selection` and
    `_match_kv`): a mapping of field-specs is their conjunction, a list of
    selections their disjunction. A regular-expression search is supplied by the
    caller as `search(pattern, text)`, which is `None` when the pattern does not
    compile (Python raises then). An error is `Err`: it leaves the rule check and
    is caught by the caller that drops the rule. */
module SigmaSelection {
  import opened Common
  import opened Values

  type Search = (string, string) -> Option<bool>

  /** Field names of Sigma rules mapped to the keys the Windows event collector
      writes. */
  const Aliases: map<string, string> := map[
    "image" := "winlog.event_data.newprocessname",
    "commandline" := "winlog.event_data.commandline",
    "parentimage" := "winlog.event_data.parentprocessname",
    "processid" := "winlog.event_data.newprocessid",
    "parentprocessid" := "winlog.event_data.creatorprocessid"
  ]

  /** `flat_log.get(k)`, with a missing key read as `None`. */
  function PyGet(flat: seq<Entry>, k: string): (r: Value)
    ensures r == Null <==> Get(flat, k) == None || Get(flat, k) == Some(Null)
  {
    match Get(flat, k)
    case None => Null
    case Some(v) => v
  }

  /** The field part and the modifier of a field-spec `field|modifier|...`. */
  function FieldAndModifier(key: string): (r: (string, string))
    ensures '|' !in key ==> r == (key, "contains")
    ensures '|' in key ==> '|' !in r.0 && '|' !in r.1
    ensures '|' in key ==> IsPrefix(r.0 + "|" + r.1, key)
  {
    if '|' in key then
      var parts := Split(key, '|');
      SplitJoin(key, '|');
      JoinPrefix(parts, '|');
      (parts[0], parts[1])
    else (key, "contains")
  }

  lemma {:induction false} JoinPrefix(parts: seq<string>, c: char)
    requires |parts| >= 2
    ensures IsPrefix(parts[0] + [c] + parts[1], Join([c], parts))
  {
    if |parts| > 2 {
      assert Join([c], parts[1..]) == parts[1] + [c] + Join([c], parts[2..]);
    }
  }

  /** The keys looked up for a lowercased field name, in the order they are tried:
      an aliased field only under its alias (for `commandline`, then the image
      alias as a stand-in); any other field under its name, then under `winlog.`
      and its name unless the name already starts with `winlog.`. */
  function Candidates(lookup: string): (r: seq<string>)
    ensures 1 <= |r| <= 2
  {
    if lookup in Aliases then
      [Aliases[lookup]] + (if lookup == "commandline" then [Aliases["image"]] else [])
    else if IsPrefix("winlog.", lookup) then [lookup]
    else [lookup, "winlog." + lookup]
  }

  /** The first candidate whose value is present and not null. */
  function FirstPresent(flat: seq<Entry>, keys: seq<string>): (r: Option<Value>)
    ensures r.Some? ==> r.value != Null && exists i :: 0 <= i < |keys| && PyGet(flat, keys[i]) == r.value
    ensures r.None? <==> forall i :: 0 <= i < |keys| ==> PyGet(flat, keys[i]) == Null
  {
    if keys == [] then None
    else if PyGet(flat, keys[0]) != Null then Some(PyGet(flat, keys[0]))
    else
      var r := FirstPresent(flat, keys[1..]);
      assert forall i :: 0 < i < |keys| ==> keys[i] == keys[1..][i - 1];
      r
  }

  /** Field resolution as the source writes it: the aliased or plain key, then the
      `winlog.` retry, then the image fallback for `commandline`. `None` makes the
      field-spec false. */
  function Resolve(flat: seq<Entry>, lookup: string): Option<Value> {
    var logKey := if lookup in Aliases then Aliases[lookup] else lookup;
    var v1 := PyGet(flat, logKey);
    var v2 := if v1 == Null && !IsPrefix("winlog.", logKey) then PyGet(flat, "winlog." + logKey) else v1;
    if v2 == Null then
      if lookup == "commandline" then
        var image := PyGet(flat, Aliases["image"]);
        if image == Null then None else Some(image)
      else None
    else Some(v2)
  }

  /** Resolution tries the candidate keys in order and takes the first present,
      non-null value. */
  lemma ResolveCandidates(flat: seq<Entry>, lookup: string)
    ensures Resolve(flat, lookup) == FirstPresent(flat, Candidates(lookup))
  {
    if lookup in Aliases {
      AliasesWinlog();
      if lookup == "commandline" {
        FirstOfTwo(flat, Aliases[lookup], Aliases["image"]);
      } else {
        FirstOfOne(flat, Aliases[lookup]);
      }
    } else if IsPrefix("winlog.", lookup) {
      FirstOfOne(flat, lookup);
    } else {
      FirstOfTwo(flat, lookup, "winlog." + lookup);
    }
  }

  /** Every alias is already a `winlog.` key. */
  lemma AliasesWinlog()
    ensures forall k :: k in Aliases ==> IsPrefix("winlog.", Aliases[k])
  {
    assert forall k :: k in Aliases ==> Aliases[k][..7] == "winlog.";
  }

  lemma FirstOfOne(flat: seq<Entry>, k: string)
    ensures FirstPresent(flat, [k]) == if PyGet(flat, k) != Null then Some(PyGet(flat, k)) else None
  {
    assert [k][1..] == [];
  }

  lemma FirstOfTwo(flat: seq<Entry>, k1: string, k2: string)
    ensures FirstPresent(flat, [k1, k2]) ==
      if PyGet(flat, k1) != Null then Some(PyGet(flat, k1))
      else if PyGet(flat, k2) != Null then Some(PyGet(flat, k2)) else None
  {
    assert [k1, k2][1..] == [k2];
    FirstOfOne(flat, k2);
  }

  /** One comparison of an expected value with an actual value, both already
      lowercased text. An unknown modifier compares nothing. */
  function PairMatch(modifier: string, expected: string, actual: string, search: Search): Result<bool> {
    if modifier == "contains" then Ok(Find(actual, expected))
    else if modifier == "startswith" then Ok(IsPrefix(expected, actual))
    else if modifier == "endswith" then Ok(IsSuffix(expected, actual))
    else if modifier == "re" then
      match search(expected, actual)
      case None => Err
      case Some(b) => Ok(b)
    else Ok(false)
  }

  /** The pair's test as a plain predicate, for the modifiers that cannot fail. */
  ghost predicate Satisfies(modifier: string, expected: string, actual: string) {
    (modifier == "contains" && Contains(actual, expected))
    || (modifier == "startswith" && IsPrefix(expected, actual))
    || (modifier == "endswith" && IsSuffix(expected, actual))
  }

  function AsList(v: Value): (r: seq<Value>)
    ensures v.List? ==> r == v.items
    ensures !v.List? ==> r == [v]
  {
    if v.List? then v.items else [v]
  }

  function Text(v: Value): string {
    Lower(ToStr(v))
  }

  /** The inner loop over the actual values for one expected value. */
  function AnyActual(modifier: string, expected: string, actuals: seq<Value>, search: Search): (r: Result<bool>)
    ensures modifier != "re" ==>
      (r == Ok(true) <==> exists j :: 0 <= j < |actuals| && Satisfies(modifier, expected, Text(actuals[j])))
    ensures modifier != "re" ==> r.Ok?
  {
    if actuals == [] then Ok(false)
    else match PairMatch(modifier, expected, Text(actuals[0]), search)
      case Err => Err
      case Ok(true) => Ok(true)
      case Ok(false) =>
        var r := AnyActual(modifier, expected, actuals[1..], search);
        assert forall j :: 0 < j < |actuals| ==> actuals[j] == actuals[1..][j - 1];
        r
  }

  /** The nested loops: the first true pair answers true, the first failing
      search raises. */
  function AnyPair(modifier: string, expecteds: seq<Value>, actuals: seq<Value>, search: Search): (r: Result<bool>)
    ensures modifier != "re" ==>
      (r == Ok(true) <==> exists i, j :: 0 <= i < |expecteds| && 0 <= j < |actuals|
                            && Satisfies(modifier, Text(expecteds[i]), Text(actuals[j])))
    ensures modifier != "re" ==> r.Ok?
  {
    if expecteds == [] then Ok(false)
    else match AnyActual(modifier, Text(expecteds[0]), actuals, search)
      case Err => Err
      case Ok(true) => Ok(true)
      case Ok(false) =>
        var r := AnyPair(modifier, expecteds[1..], actuals, search);
        assert forall i :: 0 < i < |expecteds| ==> expecteds[i] == expecteds[1..][i - 1];
        r
  }

  /** `_match_kv(key, value, flat_log)`. */
  function MatchKv(key: string, value: Value, flat: seq<Entry>, search: Search): (r: Result<bool>)
  {
    var fm := FieldAndModifier(key);
    match Resolve(flat, Lower(fm.0))
    case None => Ok(false)
    case Some(actual) => AnyPair(fm.1, AsList(value), AsList(actual), search)
  }

  /** A field-spec without a `re` modifier holds exactly when its field resolves
      and some expected value and some actual value, both as lowercased text,
      satisfy the modifier's test; it never raises. */
  lemma MatchKvMeaning(key: string, value: Value, flat: seq<Entry>, search: Search)
    requires FieldAndModifier(key).1 != "re"
    ensures MatchKv(key, value, flat, search).Ok?
    ensures MatchKv(key, value, flat, search) == Ok(true) <==>
      (var found := FirstPresent(flat, Candidates(Lower(FieldAndModifier(key).0)));
       found.Some? && SomePair(FieldAndModifier(key).1, AsList(value), AsList(found.value)))
  {
    var fm := FieldAndModifier(key);
    var found := Resolve(flat, Lower(fm.0));
    ResolveCandidates(flat, Lower(fm.0));
    if found.Some? {
      var r := AnyPair(fm.1, AsList(value), AsList(found.value), search);
      assert MatchKv(key, value, flat, search) == r;
      assert r == Ok(true) <==> SomePair(fm.1, AsList(value), AsList(found.value));
    }
  }

  ghost predicate SomePair(modifier: string, expecteds: seq<Value>, actuals: seq<Value>) {
    exists i, j :: 0 <= i < |expecteds| && 0 <= j < |actuals|
      && Satisfies(modifier, Text(expecteds[i]), Text(actuals[j]))
  }

  /** A modifier other than the four known ones (including the empty modifier
      of `field|`) makes the field-spec false. */
  lemma UnknownModifierFalse(key: string, value: Value, flat: seq<Entry>, search: Search)
    requires FieldAndModifier(key).1 !in {"contains", "startswith", "endswith", "re"}
    ensures MatchKv(key, value, flat, search) == Ok(false)
  {
    var fm := FieldAndModifier(key);
    var found := Resolve(flat, Lower(fm.0));
    if found.Some? {
      AnyPairUnknown(fm.1, AsList(value), AsList(found.value), search);
    }
  }

  lemma {:induction false} AnyPairUnknown(modifier: string, expecteds: seq<Value>, actuals: seq<Value>, search: Search)
    requires modifier !in {"contains", "startswith", "endswith", "re"}
    ensures AnyPair(modifier, expecteds, actuals, search) == Ok(false)
    decreases |expecteds|
  {
    if expecteds != [] {
      AnyActualUnknown(modifier, Text(expecteds[0]), actuals, search);
      AnyPairUnknown(modifier, expecteds[1..], actuals, search);
    }
  }

  lemma {:induction false} AnyActualUnknown(modifier: string, expected: string, actuals: seq<Value>, search: Search)
    requires modifier !in {"contains", "startswith", "endswith", "re"}
    ensures AnyActual(modifier, expected, actuals, search) == Ok(false)
    decreases |actuals|
  {
    if actuals != [] {
      AnyActualUnknown(modifier, expected, actuals[1..], search);
    }
  }

  // ---------------------------------------------------------------------------
  // Python's all() and any() over a generator whose items may raise

  /** `all(...)`: the first item that is false or raises decides. */
  function AllOf(rs: seq<Result<bool>>): (r: Result<bool>)
    ensures r == Ok(true) <==> forall i :: 0 <= i < |rs| ==> rs[i] == Ok(true)
    ensures r == Ok(false) <==>
      exists i :: 0 <= i < |rs| && rs[i] == Ok(false) && forall j :: 0 <= j < i ==> rs[j] == Ok(true)
  {
    if rs == [] then Ok(true)
    else if rs[0] != Ok(true) then rs[0]
    else
      var r := AllOf(rs[1..]);
      assert forall i :: 0 < i < |rs| ==> rs[i] == rs[1..][i - 1];
      assert r == Ok(false) ==>
        exists i :: 0 <= i < |rs| && rs[i] == Ok(false) && forall j :: 0 <= j < i ==> rs[j] == Ok(true) by {
        if r == Ok(false) {
          var i :| 0 <= i < |rs| - 1 && rs[1..][i] == Ok(false) && forall j :: 0 <= j < i ==> rs[1..][j] == Ok(true);
          assert rs[i + 1] == Ok(false);
        }
      }
      r
  }

  /** `any(...)`: the first item that is true or raises decides. */
  function AnyOf(rs: seq<Result<bool>>): (r: Result<bool>)
    ensures r == Ok(false) <==> forall i :: 0 <= i < |rs| ==> rs[i] == Ok(false)
    ensures r == Ok(true) <==>
      exists i :: 0 <= i < |rs| && rs[i] == Ok(true) && forall j :: 0 <= j < i ==> rs[j] == Ok(false)
  {
    if rs == [] then Ok(false)
    else if rs[0] != Ok(false) then rs[0]
    else
      var r := AnyOf(rs[1..]);
      assert forall i :: 0 < i < |rs| ==> rs[i] == rs[1..][i - 1];
      assert r == Ok(true) ==>
        exists i :: 0 <= i < |rs| && rs[i] == Ok(true) && forall j :: 0 <= j < i ==> rs[j] == Ok(false) by {
        if r == Ok(true) {
          var i :| 0 <= i < |rs| - 1 && rs[1..][i] == Ok(true) && forall j :: 0 <= j < i ==> rs[1..][j] == Ok(false);
          assert rs[i + 1] == Ok(true);
        }
      }
      r
  }

  /** `_evaluate_selection`: a mapping is `all` of its field-specs, a list `any`
      of its elements, anything else false. */
  function EvaluateSelection(sel: Value, flat: seq<Entry>, search: Search): Result<bool>
    decreases sel, 1
  {
    match sel
    case Dict(entries) => AllOf(SpecResults(entries, flat, search))
    case List(items) => AnyOf(SelectionResults(sel, items, flat, search))
    case _ => Ok(false)
  }

  function SelectionResults(ghost parent: Value, items: seq<Value>, flat: seq<Entry>, search: Search): seq<Result<bool>>
    requires forall x :: x in items ==> x < parent
    decreases parent, 0, |items|
  {
    if items == [] then []
    else
      assert items[0] in items && forall x :: x in items[1..] ==> x in items;
      [EvaluateSelection(items[0], flat, search)] + SelectionResults(parent, items[1..], flat, search)
  }

  lemma {:induction false} SelectionResultsAt(parent: Value, items: seq<Value>, flat: seq<Entry>, search: Search)
    requires forall x :: x in items ==> x < parent
    ensures |SelectionResults(parent, items, flat, search)| == |items|
    ensures forall i :: 0 <= i < |items| ==>
      SelectionResults(parent, items, flat, search)[i] == EvaluateSelection(items[i], flat, search)
    decreases |items|
  {
    if items != [] {
      assert forall x :: x in items[1..] ==> x in items;
      SelectionResultsAt(parent, items[1..], flat, search);
    }
  }

  function SpecResults(entries: seq<Entry>, flat: seq<Entry>, search: Search): (r: seq<Result<bool>>)
    ensures |r| == |entries|
    ensures forall i :: 0 <= i < |entries| ==> r[i] == MatchKv(entries[i].key, entries[i].val, flat, search)
  {
    seq(|entries|, i requires 0 <= i < |entries| => MatchKv(entries[i].key, entries[i].val, flat, search))
  }

  /** A mapping holds exactly when every field-spec holds; a list is false
      exactly when every element is false; any other shape is false. */
  lemma SelectionMeaning(sel: Value, flat: seq<Entry>, search: Search)
    ensures sel.Dict? ==> (EvaluateSelection(sel, flat, search) == Ok(true) <==>
      forall i :: 0 <= i < |sel.entries| ==> MatchKv(sel.entries[i].key, sel.entries[i].val, flat, search) == Ok(true))
    ensures sel.List? ==> (EvaluateSelection(sel, flat, search) == Ok(false) <==>
      forall i :: 0 <= i < |sel.items| ==> EvaluateSelection(sel.items[i], flat, search) == Ok(false))
    ensures !sel.Dict? && !sel.List? ==> EvaluateSelection(sel, flat, search) == Ok(false)
  {
    if sel.List? {
      SelectionResultsAt(sel, sel.items, flat, search);
    }
  }

  /** The shapes: an empty mapping holds and an empty list does not. */
  lemma {:induction false} SelectionEmpty(flat: seq<Entry>, search: Search)
    ensures EvaluateSelection(Dict([]), flat, search) == Ok(true)
    ensures EvaluateSelection(List([]), flat, search) == Ok(false)
  {
  }
}
