/** `SigmaAnalyzer._evaluate_condition`: the quantifier pass, the bare-name pass
    over the names sorted longest first, then `eval` under `try`. The lemmas show
    that a quantifier phrase that matches at least one selection always leaves
    the condition false. */
module SigmaCondition {
  import opened Common
  import opened SigmaRegex
  import opened SigmaQuant
  import opened SigmaBare
  import opened SigmaEval

  /** One entry of the `results` dictionary: a selection name and its outcome. */
  datatype Outcome = Outcome(name: string, hit: bool)

  /** The keys of `results`, in insertion order. */
  function Names(rs: seq<Outcome>): (r: seq<string>)
    ensures |r| == |rs|
    ensures forall i :: 0 <= i < |rs| ==> r[i] == rs[i].name
  {
    if rs == [] then [] else [rs[0].name] + Names(rs[1..])
  }

  /** `results` as the dictionary `eval` sees; a later entry for the same name
      overwrites an earlier one, as `results[key] = ...` does. */
  function AsMap(rs: seq<Outcome>): (r: map<string, bool>)
    ensures forall n :: n in r <==> n in Names(rs)
    decreases |rs|
  {
    if rs == [] then map[]
    else
      var m := AsMap(rs[..|rs| - 1]);
      assert Names(rs) == Names(rs[..|rs| - 1]) + [rs[|rs| - 1].name];
      m[rs[|rs| - 1].name := rs[|rs| - 1].hit]
  }

  /** With distinct names, every name maps to its own outcome. */
  lemma {:induction false} AsMapAt(rs: seq<Outcome>, i: nat)
    requires NoDup(Names(rs)) && i < |rs|
    ensures rs[i].name in AsMap(rs) && AsMap(rs)[rs[i].name] == rs[i].hit
    decreases |rs|
  {
    var init := rs[..|rs| - 1];
    if i < |rs| - 1 {
      assert Names(rs)[i] != Names(rs)[|rs| - 1];
      assert NoDup(Names(init)) by {
        forall a, b | 0 <= a < b < |init| ensures Names(init)[a] != Names(init)[b] {
          assert Names(rs)[a] != Names(rs)[b];
        }
      }
      AsMapAt(init, i);
    }
  }

  /** The value `_evaluate_condition(condition, results)` returns. */
  function ConditionValue(cond: string, rs: seq<Outcome>): bool {
    var names := Names(rs);
    EvalText(BarePass(QuantPass(cond, names), ByLength(names)), AsMap(rs))
  }

  /** The rewriting and evaluation, with the loop over the sorted names. */
  method EvaluateCondition(cond: string, rs: seq<Outcome>) returns (b: bool)
    ensures b == ConditionValue(cond, rs)
  {
    var names := Names(rs);
    var text := QuantPass(cond, names);
    var keys := ByLength(names);
    var i := 0;
    while i < |keys|
      invariant 0 <= i <= |keys|
      invariant BarePass(text, keys[i..]) == BarePass(QuantPass(cond, names), keys)
    {
      assert keys[i..][1..] == keys[i + 1..];
      text := SubstName(text, keys[i]);
      i := i + 1;
    }
    assert keys[i..] == [];
    b := EvalText(text, AsMap(rs));
  }

  // ---------------------------------------------------------------------------
  // A matched quantifier phrase

  /** `re.sub` replaces the phrase at `i`: no earlier phrase runs past it. */
  predicate Reached(s: string, i: nat) {
    i <= |s| && QuantAt(s, i).Some?
    && forall q :: 0 <= q < i && QuantAt(s, q).Some? ==> QuantAt(s, q).value.end <= i
  }

  /** The first position of `x` in `s`. */
  function FirstAt(s: seq<string>, x: string): (j: nat)
    requires x in s
    ensures j < |s| && s[j] == x
    ensures forall i :: 0 <= i < j ==> s[i] != x
  {
    if s[0] == x then 0 else FirstAt(s[1..], x) + 1
  }

  /** A list of references starts with the first one. */
  lemma RefListFirst(ms: seq<string>) returns (more: string)
    requires ms != []
    ensures RefList(ms) == "results[" + [Q] + ms[0] + [Q] + "]" + more
  {
    more := if |ms| == 1 then "" else ", " + RefList(ms[1..]);
    assert Ref(ms[0]) == "results[" + [Q] + ms[0] + [Q] + "]";
  }

  /** The expansion of a matched glob quotes the first name it matched. */
  lemma ExpansionQuotes(q: Quant, names: seq<string>) returns (pre: string, tail: string)
    requires Matching(q.glob, names) != []
    ensures Expansion(q, names) == pre + [Q] + Matching(q.glob, names)[0] + [Q] + tail
  {
    var ms := Matching(q.glob, names);
    var f := if q.agg == "1" then "any" else "all";
    assert Expansion(q, names) == f + "([" + RefList(ms) + "])";
    var more := RefListFirst(ms);
    pre := f + "([" + "results[";
    tail := "]" + more + "])";
    var m := ms[0];
    assert f + "([" + ("results[" + [Q] + m + [Q] + "]" + more) + "])" == pre + [Q] + m + [Q] + tail;
  }

  /** A character outside the selection names and the fixed text of an expansion
      is not in it. */
  lemma {:induction false} RefListAbsent(ms: seq<string>, c: char)
    requires c !in "results['']" && c !in ", "
    requires forall n :: n in ms ==> c !in n
    ensures c !in RefList(ms)
    decreases |ms|
  {
    if ms != [] {
      assert ms[0] in ms;
      assert c !in Ref(ms[0]);
      if |ms| > 1 {
        assert forall n :: n in ms[1..] ==> n in ms;
        RefListAbsent(ms[1..], c);
      }
    }
  }

  lemma ExpansionAbsent(q: Quant, names: seq<string>, c: char)
    requires c !in "False" && c !in "any([])" && c !in "all" && c !in "results['']" && c !in ", "
    requires forall n :: n in names ==> c !in n
    ensures c !in Expansion(q, names)
  {
    RefListAbsent(Matching(q.glob, names), c);
  }

  /** The quantifier pass brings in no character foreign to the condition, the
      selection names and the expansions' fixed text. */
  lemma {:induction false} QuantAbsent(s: string, i: nat, names: seq<string>, c: char)
    requires i <= |s| && c !in s
    requires c !in "False" && c !in "any([])" && c !in "all" && c !in "results['']" && c !in ", "
    requires forall n :: n in names ==> c !in n
    ensures c !in QuantFrom(s, i, names)
    decreases |s| - i
  {
    if i < |s| {
      if QuantAt(s, i).Some? {
        ExpansionAbsent(QuantAt(s, i).value, names, c);
      } else {
        assert s[i] in s;
      }
      QuantAbsent(s, Next(s, i), names, c);
    }
  }

  /** Word characters and `[` are plain. */
  lemma {:induction false} PlainRun(s: string, j: nat, q: nat)
    requires q <= |s|
    requires forall k :: j <= k < q ==> IsWord(s[k]) || s[k] == '['
    ensures Plain(s, j, q)
    decreases q - j
  {
    if j < q {
      PlainRun(s, j + 1, q);
    }
  }

  /** A broken spot is a pair of glued quotes. */
  lemma BrokenGlued(s: string, p: nat, n: nat)
    requires BrokenAt(s, p, n)
    ensures GluedQuotes(s, p, p + n + 2)
  {
    PlainRun(s, p + 1, p + n + 2);
  }

  /** After the quantifier pass the first name a reached phrase matched stands
      quoted in the text. */
  lemma QuotedAfterQuant(cond: string, names: seq<string>, i: nat) returns (p: nat)
    requires Reached(cond, i) && Matching(QuantAt(cond, i).value.glob, names) != []
    ensures QuotedAt(QuantPass(cond, names), Matching(QuantAt(cond, i).value.glob, names)[0], p)
  {
    var x := ReachedPhrase(cond, i, names);
    p := ExpansionQuoted(QuantPass(cond, names), x, QuantAt(cond, i).value, names, QuantFrom(cond, QuantAt(cond, i).value.end, names));
  }

  /** A text holding the expansion of a matched glob quotes the first name it
      matched. */
  lemma ExpansionQuoted(s: string, x: string, q: Quant, names: seq<string>, rest: string) returns (p: nat)
    requires Matching(q.glob, names) != [] && s == x + Expansion(q, names) + rest
    ensures QuotedAt(s, Matching(q.glob, names)[0], p)
  {
    var pre, tail := ExpansionQuotes(q, names);
    p := |x| + |pre|;
    QuotedInside(s, x, pre, Matching(q.glob, names)[0], tail, rest);
  }

  lemma QuotedInside(s: string, a: string, pre: string, m: string, tail: string, b: string)
    requires s == a + (pre + [Q] + m + [Q] + tail) + b
    ensures QuotedAt(s, m, |a| + |pre|)
  {
    assert s == (a + pre) + [Q] + m + [Q] + (tail + b);
    QuotedParts(a + pre, m, tail + b);
  }

  /** Once the bare-name pass has broken a quoted selection name, the text is
      false. */
  lemma BareBreaks(s1: string, names: seq<string>, m: string, p: nat, results: map<string, bool>)
    requires QuotedAt(s1, m, p) && m in names
    requires forall n :: n in names ==> IsWordStr(n)
    requires '"' !in s1
    ensures !EvalText(BarePass(s1, ByLength(names)), results)
  {
    var keys := ByLength(names);
    var j := FirstLongest(names, m);
    hide EvalText, BarePass, ByLength;
    var p2, n2 := PassBreaksQuoted(s1, m, p, keys, j);
    var s2 := BarePass(s1, keys);
    BrokenGlued(s2, p2, n2);
    PassAbsent(s1, keys, '"');
    GluedIsFalse(s2, p2, p2 + n2 + 2, results);
  }

  /** The bare-name pass holds the same names, all of them words, and reaches a
      name only after the longer and equally long names before it. */
  lemma FirstLongest(names: seq<string>, m: string) returns (j: nat)
    requires m in names
    requires forall n :: n in names ==> IsWordStr(n)
    ensures forall k :: k in ByLength(names) ==> |k| > 0 && Q !in k && '"' !in k
    ensures IsWordStr(m) && Q !in m && IsWord(m[0]) && IsWord(m[|m| - 1])
    ensures j < |ByLength(names)| && ByLength(names)[j] == m
    ensures forall i :: 0 <= i < j ==> |ByLength(names)[i]| >= |m| && ByLength(names)[i] != m
  {
    var keys := ByLength(names);
    assert forall k :: k in keys <==> k in names by {
      assert forall k :: k in keys <==> k in multiset(keys);
    }
    j := FirstAt(keys, m);
    ByLengthOrdered(names);
    assert forall k :: k in keys ==> |k| > 0 && Q !in k && '"' !in k by {
      forall k | k in keys ensures |k| > 0 && Q !in k && '"' !in k {
        assert IsWordStr(k);
      }
    }
    assert IsWordStr(m);
  }

  /** A quantifier phrase that `re.sub` replaces and whose glob matches at least
      one selection name makes the condition false, whatever the selections'
      outcomes: the bare-name pass rewrites the name inside the expansion's own
      `results['<name>']`, and the text no longer parses. */
  lemma MatchedQuantifierIsFalse(cond: string, rs: seq<Outcome>, i: nat)
    requires Reached(cond, i)
    requires Matching(QuantAt(cond, i).value.glob, Names(rs)) != []
    requires forall n :: n in Names(rs) ==> IsWordStr(n)
    requires '"' !in cond
    ensures !ConditionValue(cond, rs)
  {
    var names := Names(rs);
    var p := QuotedAfterQuant(cond, names, i);
    NoDoubleQuote(cond, names);
    BareBreaks(QuantPass(cond, names), names, Matching(QuantAt(cond, i).value.glob, names)[0], p, AsMap(rs));
  }

  /** No double quote comes out of the quantifier pass when neither the
      condition nor a name has one. */
  lemma NoDoubleQuote(cond: string, names: seq<string>)
    requires '"' !in cond
    requires forall n :: n in names ==> IsWordStr(n)
    ensures '"' !in QuantPass(cond, names)
  {
    forall n | n in names ensures '"' !in n {
      assert IsWordStr(n);
    }
    QuantAbsent(cond, 0, names, '"');
  }
}
