/** `SigmaAnalyzer`: loading rule documents from the rule directories and
    checking one log entry against every loaded rule. Files are given as the
    directory walk yields them, each with the document the YAML loader returns
    for it, or nothing when opening or parsing it raises. */
module SigmaAnalyzer {
  import opened Common
  import opened Values
  import opened SigmaFlatten
  import opened SigmaSelection
  import opened SigmaRegex
  import opened SigmaQuant
  import opened SigmaCondition
  import SigmaFormula

  /** A file met by the walk: its name and the parsed document, if any. */
  datatype RuleFile = RuleFile(name: string, content: Option<Value>)

  /** A configured rule directory: absent, or the files of its walk in order. */
  datatype RuleDir = Missing | Walk(files: seq<RuleFile>)

  /** A document that `rule_content.get('detection')` accepts: a mapping whose
      `detection` is truthy. */
  predicate IsRule(v: Value) {
    v.Dict? && match Get(v.entries, "detection") case Some(d) => Truthy(d) case None => false
  }

  /** The test `_load_rules` applies to one file; a document that is not a
      mapping makes `.get` raise, which is swallowed like a parse error. */
  predicate Loadable(f: RuleFile) {
    (IsSuffix(".yml", f.name) || IsSuffix(".yaml", f.name))
    && f.content.Some? && Truthy(f.content.value) && IsRule(f.content.value)
  }

  /** What one file contributes to the rule list. */
  function KeptFile(f: RuleFile): seq<Value> {
    if Loadable(f) then [f.content.value] else []
  }

  /** The documents kept from one walk, in walk order. */
  function Kept(files: seq<RuleFile>): seq<Value> {
    FlatMap(files, KeptFile)
  }

  /** What one configured directory contributes. */
  function DirRules(d: RuleDir): seq<Value> {
    if d.Walk? then Kept(d.files) else []
  }

  /** The rule list `_load_rules` returns. */
  function Loaded(dirs: seq<RuleDir>): seq<Value> {
    FlatMap(dirs, DirRules)
  }

  /** Files are kept in walk order, each exactly when it is loadable: what
      surrounds a file does not decide whether it is kept. */
  lemma KeptAt(files: seq<RuleFile>, i: nat)
    requires i < |files|
    ensures Kept(files) == Kept(files[..i])
      + (if Loadable(files[i]) then [files[i].content.value] else []) + Kept(files[i + 1..])
  {
    FlatMapAt(files, i, KeptFile);
  }

  /** A file that cannot be opened or parsed is skipped. */
  lemma UnreadableSkipped(files: seq<RuleFile>, i: nat)
    requires i < |files| && files[i].content.None?
    ensures Kept(files) == Kept(files[..i] + files[i + 1..])
  {
    FlatMapAt(files, i, KeptFile);
    FlatMapAppend(files[..i], files[i + 1..], KeptFile);
  }

  /** Every kept document is a mapping with a truthy `detection`. */
  lemma {:induction false} KeptAreRules(files: seq<RuleFile>)
    ensures forall v :: v in Kept(files) ==> IsRule(v)
    decreases |files|
  {
    if files != [] {
      KeptAreRules(files[1..]);
    }
  }

  lemma {:induction false} LoadedAreRules(dirs: seq<RuleDir>)
    ensures forall v :: v in Loaded(dirs) ==> IsRule(v)
    decreases |dirs|
  {
    if dirs != [] {
      LoadedAreRules(dirs[1..]);
      if dirs[0].Walk? {
        KeptAreRules(dirs[0].files);
      }
    }
  }

  /** A missing directory adds nothing; the others add their walks in the
      configured order. */
  lemma LoadedAt(dirs: seq<RuleDir>, i: nat)
    requires i < |dirs|
    ensures Loaded(dirs) == Loaded(dirs[..i])
      + (if dirs[i].Walk? then Kept(dirs[i].files) else []) + Loaded(dirs[i + 1..])
  {
    FlatMapAt(dirs, i, DirRules);
  }

  /** `_load_rules`, with its loops over the directories and their files. */
  method LoadRules(dirs: seq<RuleDir>) returns (rules: seq<Value>)
    ensures rules == Loaded(dirs)
  {
    rules := [];
    var i := 0;
    while i < |dirs|
      invariant 0 <= i <= |dirs| && rules == Loaded(dirs[..i])
    {
      FlatMapSnoc(dirs, i, DirRules);
      var found := LoadDir(dirs[i]);
      rules := rules + found;
      i := i + 1;
    }
    assert dirs[..i] == dirs;
  }

  /** The `os.walk` of one configured directory; a missing directory adds
      nothing. */
  method LoadDir(d: RuleDir) returns (found: seq<Value>)
    ensures found == DirRules(d)
  {
    found := [];
    if d.Walk? {
      var files := d.files;
      var j := 0;
      while j < |files|
        invariant 0 <= j <= |files| && found == Kept(files[..j])
      {
        FlatMapSnoc(files, j, KeptFile);
        if Loadable(files[j]) {
          found := found + [files[j].content.value];
        }
        j := j + 1;
      }
      assert files[..j] == files;
    }
  }

  // ---------------------------------------------------------------------------
  // Checking one rule

  /** What one detection entry contributes to `selection_results`. */
  function SelectionEntry(e: Entry): seq<Entry> {
    if e.key != "condition" then [e] else []
  }

  /** The detection entries that are selections: every key but `condition`. */
  function Selections(entries: seq<Entry>): seq<Entry> {
    FlatMap(entries, SelectionEntry)
  }

  lemma {:induction false} SelectionsMember(entries: seq<Entry>)
    ensures forall e :: e in Selections(entries) <==> e in entries && e.key != "condition"
    decreases |entries|
  {
    if entries != [] {
      SelectionsMember(entries[1..]);
      assert entries == [entries[0]] + entries[1..];
    }
  }

  /** Each selection evaluated against the flattened entry, in order. */
  function Hits(sels: seq<Entry>, flat: seq<Entry>, search: Search): (r: seq<Result<bool>>)
    ensures |r| == |sels|
    ensures forall i :: 0 <= i < |sels| ==> r[i] == EvaluateSelection(sels[i].val, flat, search)
  {
    seq(|sels|, i requires 0 <= i < |sels| => EvaluateSelection(sels[i].val, flat, search))
  }

  /** Filling `selection_results` key by key; the first exception ends it. */
  function Collect(keys: seq<string>, hits: seq<Result<bool>>): (r: Result<seq<Outcome>>)
    requires |keys| == |hits|
    ensures r.Ok? ==> |r.value| == |keys|
    decreases |keys|
  {
    if keys == [] then Ok([])
    else
      var n := |keys| - 1;
      match Collect(keys[..n], hits[..n])
      case Err => Err
      case Ok(rs) =>
        match hits[n]
        case Err => Err
        case Ok(hit) => Ok(rs + [Outcome(keys[n], hit)])
  }

  /** `selection_results`, or the first exception a selection raises. */
  function Outcomes(sels: seq<Entry>, flat: seq<Entry>, search: Search): Result<seq<Outcome>> {
    Collect(Keys(sels), Hits(sels, flat, search))
  }

  /** `selection_results` is filled exactly when no evaluation raises. */
  lemma {:induction false} CollectOk(keys: seq<string>, hits: seq<Result<bool>>)
    requires |keys| == |hits|
    ensures Collect(keys, hits).Ok? <==> forall i :: 0 <= i < |hits| ==> hits[i].Ok?
    decreases |keys|
  {
    if keys != [] {
      var n := |keys| - 1;
      CollectOk(keys[..n], hits[..n]);
      assert forall i :: 0 <= i < n ==> hits[..n][i] == hits[i];
    }
  }

  /** Each outcome stands at its own position, under its own key. */
  lemma {:induction false} CollectAt(keys: seq<string>, hits: seq<Result<bool>>)
    requires |keys| == |hits| && Collect(keys, hits).Ok?
    ensures forall i :: 0 <= i < |keys| ==>
      hits[i].Ok? && Collect(keys, hits).value[i] == Outcome(keys[i], hits[i].value)
    decreases |keys|
  {
    if keys != [] {
      var n := |keys| - 1;
      CollectAt(keys[..n], hits[..n]);
      assert forall i :: 0 <= i < n ==> hits[..n][i] == hits[i] && keys[..n][i] == keys[i];
    }
  }

  lemma CollectStep(keys: seq<string>, hits: seq<Result<bool>>, k: string, h: Result<bool>)
    requires |keys| == |hits|
    ensures Collect(keys + [k], hits + [h]) ==
      match Collect(keys, hits)
      case Err => Err
      case Ok(rs) =>
        match h
        case Err => Err
        case Ok(hit) => Ok(rs + [Outcome(k, hit)])
  {
    assert (keys + [k])[..|keys|] == keys;
    assert (hits + [h])[..|hits|] == hits;
  }

  /** The detection mapping `_check_rule_match` reads, `{}` when absent. */
  function Detection(rule: Value): Value
    requires rule.Dict?
  {
    match Get(rule.entries, "detection") case Some(d) => d case None => Dict([])
  }

  /** What `_check_rule_match(rule, flat_log)` returns, or `Err` when it raises:
      a rule or detection that is not a mapping, a selection that raises, or a
      condition that is truthy but not a string. */
  function RuleVerdict(rule: Value, flat: seq<Entry>, search: Search): Result<bool> {
    if !rule.Dict? || !Detection(rule).Dict? then Err
    else
      var det := Detection(rule).entries;
      var cond := Get(det, "condition");
      if cond.None? || !Truthy(cond.value) then Ok(false)
      else
        match Outcomes(Selections(det), flat, search)
        case Err => Err
        case Ok(rs) => if cond.value.Str? then Ok(ConditionValue(cond.value.s, rs)) else Err
  }

  /** A selection that raises makes the whole rule raise. */
  lemma OutcomesRaise(entries: seq<Entry>, j: nat, flat: seq<Entry>, search: Search)
    requires j < |entries| && entries[j].key != "condition"
    requires EvaluateSelection(entries[j].val, flat, search).Err?
    ensures Outcomes(Selections(entries), flat, search).Err?
  {
    var sels := Selections(entries);
    SelectionsMember(entries);
    assert entries[j] in sels;
    var k :| 0 <= k < |sels| && sels[k] == entries[j];
    CollectOk(Keys(sels), Hits(sels, flat, search));
    assert !Hits(sels, flat, search)[k].Ok?;
  }

  /** One more detection entry in the loop that fills `selection_results`. */
  lemma OutcomesSnoc(det: seq<Entry>, j: nat, flat: seq<Entry>, search: Search)
    requires j < |det|
    ensures Outcomes(Selections(det[..j + 1]), flat, search) ==
      if det[j].key == "condition" then Outcomes(Selections(det[..j]), flat, search)
      else
        match Outcomes(Selections(det[..j]), flat, search)
        case Err => Err
        case Ok(rs) =>
          match EvaluateSelection(det[j].val, flat, search)
          case Err => Err
          case Ok(hit) => Ok(rs + [Outcome(det[j].key, hit)])
  {
    var e := det[j];
    var sels := Selections(det[..j]);
    FlatMapSnoc(det, j, SelectionEntry);
    if e.key != "condition" {
      assert Keys(sels + [e]) == Keys(sels) + [e.key];
      assert Hits(sels + [e], flat, search) == Hits(sels, flat, search) + [EvaluateSelection(e.val, flat, search)];
      CollectStep(Keys(sels), Hits(sels, flat, search), e.key, EvaluateSelection(e.val, flat, search));
    } else {
      assert sels + [] == sels;
    }
  }

  /** The loop of `_check_rule_match` over the detection entries; the first
      selection that raises ends it. */
  method FillResults(det: seq<Entry>, flat: seq<Entry>, search: Search) returns (r: Result<seq<Outcome>>)
    ensures r == Outcomes(Selections(det), flat, search)
  {
    var rs: seq<Outcome> := [];
    var j := 0;
    while j < |det|
      invariant 0 <= j <= |det|
      invariant Outcomes(Selections(det[..j]), flat, search) == Ok(rs)
    {
      var e := det[j];
      OutcomesSnoc(det, j, flat, search);
      if e.key != "condition" {
        var hit := EvaluateSelection(e.val, flat, search);
        if hit.Err? {
          OutcomesRaise(det, j, flat, search);
          return Err;
        }
        rs := rs + [Outcome(e.key, hit.value)];
      }
      j := j + 1;
    }
    assert det[..j] == det;
    r := Ok(rs);
  }

  /** `_check_rule_match`, with its loop filling `selection_results`. */
  method CheckRuleMatch(rule: Value, flat: seq<Entry>, search: Search) returns (r: Result<bool>)
    ensures r == RuleVerdict(rule, flat, search)
  {
    if !rule.Dict? || !Detection(rule).Dict? {
      return Err;
    }
    var det := Detection(rule).entries;
    var cond := Get(det, "condition");
    if cond.None? || !Truthy(cond.value) {
      return Ok(false);
    }
    var results := FillResults(det, flat, search);
    if results.Err? {
      return Err;
    }
    if !cond.value.Str? {
      return Err;
    }
    var b := EvaluateCondition(cond.value.s, results.value);
    r := Ok(b);
  }

  /** A rule whose detection has no truthy `condition` never matches. */
  lemma NoConditionNeverMatches(rule: Value, flat: seq<Entry>, search: Search)
    requires rule.Dict? && Detection(rule).Dict?
    requires Get(Detection(rule).entries, "condition").None?
      || !Truthy(Get(Detection(rule).entries, "condition").value)
    ensures RuleVerdict(rule, flat, search) == Ok(false)
  {
  }

  /** The names `results` holds are the selection keys, in detection order. */
  lemma OutcomeNames(sels: seq<Entry>, flat: seq<Entry>, search: Search)
    requires Outcomes(sels, flat, search).Ok?
    ensures Names(Outcomes(sels, flat, search).value) == Keys(sels)
  {
    CollectAt(Keys(sels), Hits(sels, flat, search));
  }

  /** A rule whose condition holds a quantifier phrase that `re.sub` replaces
      and whose glob matches a selection key never matches any log entry. */
  lemma QuantifierRuleNeverMatches(rule: Value, flat: seq<Entry>, search: Search, i: nat)
    requires rule.Dict? && Detection(rule).Dict?
    requires Get(Detection(rule).entries, "condition").Some?
    requires Get(Detection(rule).entries, "condition").value.Str?
    requires Reached(Get(Detection(rule).entries, "condition").value.s, i)
    requires Matching(QuantAt(Get(Detection(rule).entries, "condition").value.s, i).value.glob,
                      Keys(Selections(Detection(rule).entries))) != []
    requires forall n :: n in Keys(Selections(Detection(rule).entries)) ==> IsWordStr(n)
    requires '"' !in Get(Detection(rule).entries, "condition").value.s
    ensures RuleVerdict(rule, flat, search) != Ok(true)
  {
    var det := Detection(rule).entries;
    var o := Outcomes(Selections(det), flat, search);
    if o.Ok? && Truthy(Get(det, "condition").value) {
      OutcomeNames(Selections(det), flat, search);
      MatchedQuantifierIsFalse(Get(det, "condition").value.s, o.value, i);
    }
  }

  /** A non-empty string condition is evaluated over the selection outcomes. */
  lemma VerdictOfString(rule: Value, flat: seq<Entry>, search: Search, s: string)
    requires rule.Dict? && Detection(rule).Dict?
    requires Get(Detection(rule).entries, "condition") == Some(Str(s)) && s != []
    requires Outcomes(Selections(Detection(rule).entries), flat, search).Ok?
    ensures RuleVerdict(rule, flat, search)
      == Ok(ConditionValue(s, Outcomes(Selections(Detection(rule).entries), flat, search).value))
  {
  }

  /** A condition written with selection keys, `and`, `or`, `not` and
      parentheses gives the Boolean formula it spells over the selection
      outcomes. */
  lemma FormulaRuleVerdict(rule: Value, flat: seq<Entry>, search: Search, f: SigmaFormula.Formula)
    requires rule.Dict? && Detection(rule).Dict?
    requires Get(Detection(rule).entries, "condition") == Some(Str(SigmaFormula.Condition(f)))
    requires SigmaFormula.NoQuantifier(SigmaFormula.Condition(f))
    requires NoDup(Keys(Selections(Detection(rule).entries)))
    requires forall n :: n in Keys(Selections(Detection(rule).entries)) ==> SigmaFormula.GoodName(n)
    requires forall n :: n in SigmaFormula.NamesOf(f) ==> n in Keys(Selections(Detection(rule).entries))
    requires Outcomes(Selections(Detection(rule).entries), flat, search).Ok?
    ensures SigmaFormula.NamesOf(f) <= AsMap(Outcomes(Selections(Detection(rule).entries), flat, search).value).Keys
    ensures RuleVerdict(rule, flat, search)
      == Ok(SigmaFormula.Truth(f, AsMap(Outcomes(Selections(Detection(rule).entries), flat, search).value)))
  {
    var det := Detection(rule).entries;
    var rs := Outcomes(Selections(det), flat, search).value;
    OutcomeNames(Selections(det), flat, search);
    SigmaFormula.ConditionNonEmpty(f);
    VerdictOfString(rule, flat, search, SigmaFormula.Condition(f));
    SigmaFormula.FormulaValue(f, rs);
  }

  // ---------------------------------------------------------------------------
  // Checking a log entry

  /** The rules `analyze_log_entry` returns: those whose check returns true;
      a check that raises drops its rule. */
  function Matched(rules: seq<Value>, flat: seq<Entry>, search: Search): seq<Value> {
    FlatMap(rules, (v: Value) => if RuleVerdict(v, flat, search) == Ok(true) then [v] else [])
  }

  /** Matches come in load order, each rule exactly when its check returns
      true; a rule whose check raises is dropped and the others are unaffected. */
  lemma MatchedAt(rules: seq<Value>, i: nat, flat: seq<Entry>, search: Search)
    requires i < |rules|
    ensures Matched(rules, flat, search) == Matched(rules[..i], flat, search)
      + (if RuleVerdict(rules[i], flat, search) == Ok(true) then [rules[i]] else [])
      + Matched(rules[i + 1..], flat, search)
  {
    FlatMapAt(rules, i, (v: Value) => if RuleVerdict(v, flat, search) == Ok(true) then [v] else []);
  }

  /** The analyzer: its rules are loaded once, when it is built. */
  class Analyzer {
    const rules: seq<Value>

    constructor (dirs: seq<RuleDir>)
      ensures rules == Loaded(dirs)
    {
      var loaded := LoadRules(dirs);
      rules := loaded;
    }

    /** `analyze_log_entry`: flatten the entry, then check every rule in turn. */
    method AnalyzeLogEntry(log: seq<Entry>, search: Search) returns (matches: seq<Value>)
      ensures matches == Matched(rules, FlattenDict(log), search)
    {
      var flat := FlattenDict(log);
      matches := [];
      var i := 0;
      while i < |rules|
        invariant 0 <= i <= |rules| && matches == Matched(rules[..i], flat, search)
      {
        FlatMapSnoc(rules, i, (v: Value) => if RuleVerdict(v, flat, search) == Ok(true) then [v] else []);
        var r := CheckRuleMatch(rules[i], flat, search);
        if r == Ok(true) {
          matches := matches + [rules[i]];
        }
        i := i + 1;
      }
      assert rules[..i] == rules;
    }
  }
}
