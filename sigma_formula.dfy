/** Conditions written only with selection names, `and`, `or`, `not` and
    parentheses: for these the rewriting and `eval` of `_evaluate_condition`
    compute the Boolean formula the condition spells over the selection
    outcomes. */
module SigmaFormula {
  import opened Common
  import opened SigmaRegex
  import opened SigmaQuant
  import opened SigmaBare
  import opened SigmaEval
  import opened SigmaCondition

  datatype Formula = Sel(name: string) | Not(f: Formula) | And(l: Formula, r: Formula) | Or(l: Formula, r: Formula)

  function NamesOf(f: Formula): set<string> {
    match f
    case Sel(n) => {n}
    case Not(g) => NamesOf(g)
    case And(a, b) => NamesOf(a) + NamesOf(b)
    case Or(a, b) => NamesOf(a) + NamesOf(b)
  }

  /** The Boolean value of a formula over the selection outcomes. */
  function Truth(f: Formula, results: map<string, bool>): bool
    requires NamesOf(f) <= results.Keys
  {
    match f
    case Sel(n) => results[n]
    case Not(g) => !Truth(g, results)
    case And(a, b) => Truth(a, results) && Truth(b, results)
    case Or(a, b) => Truth(a, results) || Truth(b, results)
  }

  /** Words a selection name must not be for the rewriting to keep the text
      well formed: the operators and the name of the dictionary itself. */
  predicate Reserved(n: string) {
    n == "results" || n == "and" || n == "or" || n == "not"
  }

  /** The names a condition may use. */
  predicate GoodName(n: string) {
    IsWordStr(n) && !Reserved(n)
  }

  // ---------------------------------------------------------------------------
  // Condition text

  /** A selection name in the text; the names in `done` are already rewritten. */
  function Word(n: string, done: set<string>): string {
    if n in done then Ref(n) else n
  }

  /** The text of a formula at precedence level `lv` (0: operand of `not`,
      1: operand of `and`, 2: a whole condition), with parentheses only where
      the level requires them. */
  function Text(f: Formula, lv: nat, done: set<string>): string
    requires lv <= 2
    decreases f, 2 - lv
  {
    match f
    case Sel(n) => Word(n, done)
    case Not(g) => "not " + Text(g, 0, done)
    case And(a, b) =>
      if lv >= 1 then Text(a, 1, done) + " and " + Text(b, 0, done)
      else "(" + Text(f, 2, done) + ")"
    case Or(a, b) =>
      if lv == 2 then Text(a, 2, done) + " or " + Text(b, 1, done)
      else "(" + Text(f, 2, done) + ")"
  }

  /** A condition as its author writes it. */
  function Condition(f: Formula): string {
    Text(f, 2, {})
  }

  /** The tokens of the fully rewritten text. */
  function Toks(f: Formula, lv: nat): seq<Token>
    requires lv <= 2
    decreases f, 2 - lv
  {
    match f
    case Sel(n) => [TName("results"), TLBrack, TStr(n), TRBrack]
    case Not(g) => [TName("not")] + Toks(g, 0)
    case And(a, b) =>
      if lv >= 1 then Toks(a, 1) + [TName("and")] + Toks(b, 0)
      else [TLParen] + Toks(f, 2) + [TRParen]
    case Or(a, b) =>
      if lv == 2 then Toks(a, 2) + [TName("or")] + Toks(b, 1)
      else [TLParen] + Toks(f, 2) + [TRParen]
  }

  /** The expression the parser builds. */
  function ToExpr(f: Formula): Expr {
    match f
    case Sel(n) => ESel(n)
    case Not(g) => ENot(ToExpr(g))
    case And(a, b) => EAnd(ToExpr(a), ToExpr(b))
    case Or(a, b) => EOr(ToExpr(a), ToExpr(b))
  }

  // ---------------------------------------------------------------------------
  // Evaluation

  /** With every name present, Python's short-circuit evaluation gives the
      formula's value. */
  lemma {:induction false} EvalTruth(f: Formula, results: map<string, bool>)
    requires NamesOf(f) <= results.Keys
    ensures Eval(ToExpr(f), results) == Ok(Truth(f, results))
  {
    match f
    case Sel(n) =>
    case Not(g) => EvalTruth(g, results);
    case And(a, b) => EvalTruth(a, results); EvalTruth(b, results);
    case Or(a, b) => EvalTruth(a, results); EvalTruth(b, results);
  }

  // ---------------------------------------------------------------------------
  // Parsing

  /** `xs` stands in `ts` at `i`. */
  predicate At(ts: seq<Token>, i: nat, xs: seq<Token>) {
    i + |xs| <= |ts| && ts[i..i + |xs|] == xs
  }

  /** A token between two runs of tokens. */
  lemma AtSplit(ts: seq<Token>, i: nat, xs: seq<Token>, a: seq<Token>, x: Token, b: seq<Token>)
    requires At(ts, i, xs) && xs == a + [x] + b
    ensures At(ts, i, a) && IsTok(ts, i + |a|, x) && At(ts, i + |a| + 1, b)
    ensures |xs| == |a| + 1 + |b|
  {
    var n := |xs|;
    assert ts[i..i + n][..|a|] == a && ts[i..i + n][|a| + 1..] == b && ts[i..i + n][|a|] == x;
    assert ts[i..i + |a|] == ts[i..i + n][..|a|];
    assert ts[i + |a| + 1..i + n] == ts[i..i + n][|a| + 1..];
  }

  /** A run of tokens between two tokens. */
  lemma AtWrap(ts: seq<Token>, i: nat, xs: seq<Token>, x: Token, m: seq<Token>, y: Token)
    requires At(ts, i, xs) && xs == [x] + m + [y]
    ensures IsTok(ts, i, x) && At(ts, i + 1, m) && IsTok(ts, i + 1 + |m|, y)
    ensures |xs| == |m| + 2
  {
    AtSplit(ts, i, xs, [], x, m + [y]);
    AtSplit(ts, i + 1, m + [y], m, y, []);
  }

  lemma ToksNot(f: Formula)
    requires f.Not?
    ensures Toks(f, 0) == [] + [TName("not")] + Toks(f.f, 0)
  {
  }

  lemma ToksParen(f: Formula)
    requires f.And? || f.Or?
    ensures Toks(f, 0) == [TLParen] + Toks(f, 2) + [TRParen]
  {
  }

  lemma ToksAnd(f: Formula)
    requires f.And?
    ensures Toks(f, 1) == Toks(f.l, 1) + [TName("and")] + Toks(f.r, 0)
  {
  }

  lemma ToksOr(f: Formula)
    requires f.Or?
    ensures Toks(f, 2) == Toks(f.l, 2) + [TName("or")] + Toks(f.r, 1)
  {
  }

  /** The order in which the three parsing lemmas call each other on one formula. */
  function Rank(f: Formula, lv: nat): nat {
    if f.Or? then (if lv == 2 then 0 else if lv == 0 then 1 else 2)
    else if f.And? then (if lv == 1 then 0 else if lv == 2 then 1 else 2)
    else lv
  }

  /** `results [ 'n' ]` is a selection. */
  lemma SelStep(ts: seq<Token>, i: nat, n: string)
    requires i + 4 <= |ts| && ts[i] == TName("results") && ts[i + 1] == TLBrack
    requires ts[i + 2] == TStr(n) && ts[i + 3] == TRBrack
    ensures ParseNot(ts, i) == Some(Parsed(ESel(n), i + 4))
  {
  }

  /** `not` and its operand. */
  lemma NotStep(ts: seq<Token>, i: nat, x: Expr, e: nat)
    requires i < |ts| && ts[i] == TName("not") && ParseNot(ts, i + 1) == Some(Parsed(x, e))
    ensures ParseNot(ts, i) == Some(Parsed(ENot(x), e))
  {
  }

  /** A parenthesised condition. */
  lemma ParenStep(ts: seq<Token>, i: nat, x: Expr, e: nat)
    requires e < |ts| && i < e && ts[i] == TLParen && ts[e] == TRParen
    requires ParseOr(ts, i + 1) == OrTail(ts, x, e)
    ensures ParseNot(ts, i) == Some(Parsed(x, e + 1))
  {
  }

  lemma {:induction false} ParseNotLevel(ts: seq<Token>, i: nat, f: Formula)
    requires At(ts, i, Toks(f, 0))
    ensures ParseNot(ts, i) == Some(Parsed(ToExpr(f), i + |Toks(f, 0)|))
    decreases f, Rank(f, 0), 1
  {
    hide ParseOr, OrTail, ParseAnd, AndTail, ParseNot, ParseAtom;
    match f
    case Sel(n) =>
      var xs := Toks(f, 0);
      assert ts[i] == ts[i..i + 4][0] == xs[0] && ts[i + 1] == ts[i..i + 4][1] == xs[1];
      assert ts[i + 2] == ts[i..i + 4][2] == xs[2] && ts[i + 3] == ts[i..i + 4][3] == xs[3];
      SelStep(ts, i, n);
    case Not(g) => NotLevel(ts, i, f);
    case And(_, _) => ParenLevel(ts, i, f);
    case Or(_, _) => ParenLevel(ts, i, f);
  }

  lemma {:induction false} NotLevel(ts: seq<Token>, i: nat, f: Formula)
    requires f.Not? && At(ts, i, Toks(f, 0))
    ensures ParseNot(ts, i) == Some(Parsed(ToExpr(f), i + |Toks(f, 0)|))
    decreases f, Rank(f, 0), 0
  {
    hide ParseOr, OrTail, ParseAnd, AndTail, ParseNot, ParseAtom;
    ToksNot(f);
    AtSplit(ts, i, Toks(f, 0), [], TName("not"), Toks(f.f, 0));
    ParseNotLevel(ts, i + 1, f.f);
    NotStep(ts, i, ToExpr(f.f), i + |Toks(f, 0)|);
  }

  lemma {:induction false} ParenLevel(ts: seq<Token>, i: nat, f: Formula)
    requires f.And? || f.Or?
    requires At(ts, i, Toks(f, 0))
    ensures ParseNot(ts, i) == Some(Parsed(ToExpr(f), i + |Toks(f, 0)|))
    decreases f, Rank(f, 0), 0
  {
    hide ParseOr, OrTail, ParseAnd, AndTail, ParseNot, ParseAtom;
    ToksParen(f);
    AtWrap(ts, i, Toks(f, 0), TLParen, Toks(f, 2), TRParen);
    ParseOrLevel(ts, i + 1, f);
    ParenStep(ts, i, ToExpr(f), i + 1 + |Toks(f, 2)|);
  }

  /** One `and` operand more. */
  lemma AndStep(ts: seq<Token>, left: Expr, k: nat, right: Expr, e: nat)
    requires k <= |ts| && IsTok(ts, k, TName("and")) && ParseNot(ts, k + 1) == Some(Parsed(right, e))
    ensures AndTail(ts, left, k) == AndTail(ts, EAnd(left, right), e)
  {
  }

  /** One `or` operand more. */
  lemma OrStep(ts: seq<Token>, left: Expr, k: nat, right: Expr, e: nat)
    requires k < |ts| && e <= |ts| && IsTok(ts, k, TName("or"))
    requires ParseAnd(ts, k + 1) == AndTail(ts, right, e) && !IsTok(ts, e, TName("and"))
    ensures OrTail(ts, left, k) == OrTail(ts, EOr(left, right), e)
  {
  }

  /** An operand of `not` is a whole `and` operand. */
  lemma AndOfNot(ts: seq<Token>, i: nat, x: Expr, e: nat)
    requires i <= |ts| && ParseNot(ts, i) == Some(Parsed(x, e))
    ensures ParseAnd(ts, i) == AndTail(ts, x, e)
  {
  }

  /** An `and` test not followed by `and` is a whole `or` operand. */
  lemma OrOfAnd(ts: seq<Token>, i: nat, x: Expr, e: nat)
    requires i <= |ts| && e <= |ts| && ParseAnd(ts, i) == AndTail(ts, x, e) && !IsTok(ts, e, TName("and"))
    ensures ParseOr(ts, i) == OrTail(ts, x, e)
  {
  }

  lemma {:induction false} ParseAndLevel(ts: seq<Token>, i: nat, f: Formula)
    requires At(ts, i, Toks(f, 1))
    ensures ParseAnd(ts, i) == AndTail(ts, ToExpr(f), i + |Toks(f, 1)|)
    decreases f, Rank(f, 1), 1
  {
    hide ParseOr, OrTail, ParseAnd, AndTail, ParseNot, ParseAtom;
    if f.And? {
      AndLevel(ts, i, f);
    } else {
      assert Toks(f, 1) == Toks(f, 0);
      ParseNotLevel(ts, i, f);
      AndOfNot(ts, i, ToExpr(f), i + |Toks(f, 0)|);
    }
  }

  lemma {:induction false} AndLevel(ts: seq<Token>, i: nat, f: Formula)
    requires f.And? && At(ts, i, Toks(f, 1))
    ensures ParseAnd(ts, i) == AndTail(ts, ToExpr(f), i + |Toks(f, 1)|)
    decreases f, Rank(f, 1), 0
  {
    hide ParseOr, OrTail, ParseAnd, AndTail, ParseNot, ParseAtom;
    ToksAnd(f);
    AtSplit(ts, i, Toks(f, 1), Toks(f.l, 1), TName("and"), Toks(f.r, 0));
    ParseAndLevel(ts, i, f.l);
    AndRight(ts, ToExpr(f.l), i + |Toks(f.l, 1)|, f.r);
    assert ToExpr(f) == EAnd(ToExpr(f.l), ToExpr(f.r));
  }

  /** The right operand of an `and`. */
  lemma {:induction false} AndRight(ts: seq<Token>, left: Expr, k: nat, g: Formula)
    requires IsTok(ts, k, TName("and")) && At(ts, k + 1, Toks(g, 0))
    ensures AndTail(ts, left, k) == AndTail(ts, EAnd(left, ToExpr(g)), k + 1 + |Toks(g, 0)|)
    decreases g, Rank(g, 0), 2
  {
    hide ParseOr, OrTail, ParseAnd, AndTail, ParseNot, ParseAtom;
    ParseNotLevel(ts, k + 1, g);
    AndStep(ts, left, k, ToExpr(g), k + 1 + |Toks(g, 0)|);
  }

  lemma {:induction false} ParseOrLevel(ts: seq<Token>, i: nat, f: Formula)
    requires At(ts, i, Toks(f, 2)) && !IsTok(ts, i + |Toks(f, 2)|, TName("and"))
    ensures ParseOr(ts, i) == OrTail(ts, ToExpr(f), i + |Toks(f, 2)|)
    decreases f, Rank(f, 2), 1
  {
    hide ParseOr, OrTail, ParseAnd, AndTail, ParseNot, ParseAtom;
    if f.Or? {
      OrLevel(ts, i, f);
    } else {
      assert Toks(f, 2) == Toks(f, 1);
      ParseAndLevel(ts, i, f);
      OrOfAnd(ts, i, ToExpr(f), i + |Toks(f, 1)|);
    }
  }

  lemma {:induction false} OrLevel(ts: seq<Token>, i: nat, f: Formula)
    requires f.Or? && At(ts, i, Toks(f, 2)) && !IsTok(ts, i + |Toks(f, 2)|, TName("and"))
    ensures ParseOr(ts, i) == OrTail(ts, ToExpr(f), i + |Toks(f, 2)|)
    decreases f, Rank(f, 2), 0
  {
    hide ParseOr, OrTail, ParseAnd, AndTail, ParseNot, ParseAtom;
    ToksOr(f);
    AtSplit(ts, i, Toks(f, 2), Toks(f.l, 2), TName("or"), Toks(f.r, 1));
    ParseOrLevel(ts, i, f.l);
    OrRight(ts, ToExpr(f.l), i + |Toks(f.l, 2)|, f.r);
    assert ToExpr(f) == EOr(ToExpr(f.l), ToExpr(f.r));
  }

  /** The right operand of an `or`, not followed by `and`. */
  lemma {:induction false} OrRight(ts: seq<Token>, left: Expr, k: nat, g: Formula)
    requires IsTok(ts, k, TName("or")) && At(ts, k + 1, Toks(g, 1))
    requires !IsTok(ts, k + 1 + |Toks(g, 1)|, TName("and"))
    ensures OrTail(ts, left, k) == OrTail(ts, EOr(left, ToExpr(g)), k + 1 + |Toks(g, 1)|)
    decreases g, Rank(g, 1), 2
  {
    hide ParseOr, OrTail, ParseAnd, AndTail, ParseNot, ParseAtom;
    ParseAndLevel(ts, k + 1, g);
    OrStep(ts, left, k, ToExpr(g), k + 1 + |Toks(g, 1)|);
  }

  /** The parser gives back the formula. */
  lemma ParseToks(f: Formula)
    ensures Parse(Toks(f, 2)) == Some(ToExpr(f))
  {
    ParseOrLevel(Toks(f, 2), 0, f);
  }

  // ---------------------------------------------------------------------------
  // Tokenizing

  /** The tokens of `ts` followed by those of the rest, if the rest has any. */
  function Then(ts: seq<Token>, r: Result<seq<Token>>): Result<seq<Token>> {
    if r.Err? then Err else Ok(ts + r.value)
  }

  lemma {:induction false} NameEndRun(s: string, j: nat, e: nat)
    requires j <= e <= |s| && (e == |s| || !IsWord(s[e]))
    requires forall m :: j <= m < e ==> IsWord(s[m])
    ensures NameEnd(s, j) == e
    decreases e - j
  {
    if j < e {
      NameEndRun(s, j + 1, e);
    }
  }

  lemma ThenThen(a: seq<Token>, b: seq<Token>, r: Result<seq<Token>>)
    ensures Then(a, Then(b, r)) == Then(a + b, r)
  {
    if r.Ok? {
      assert a + (b + r.value) == (a + b) + r.value;
    }
  }

  /** A name token, then the rest. */
  lemma TokName(w: string, rest: string)
    requires IsWordStr(w) && !IsDigit(w[0]) && (rest == [] || !IsWord(rest[0]))
    ensures Tokens(w + rest) == Then([TName(w)], Tokens(rest))
  {
    var s := w + rest;
    NameEndRun(s, 0, |w|);
    assert s[..|w|] == w && s[|w|..] == rest;
  }

  lemma {:induction false} CloseRun(s: string, j: nat, e: nat)
    requires j <= e < |s| && s[e] == Q
    requires forall m :: j <= m < e ==> IsWord(s[m])
    ensures CloseAt(s, j, Q) == Some(e)
    decreases e - j
  {
    if j < e {
      CloseRun(s, j + 1, e);
    }
  }

  /** A quoted name, then the rest. */
  lemma TokStr(w: string, rest: string)
    requires IsWordStr(w)
    ensures Tokens([Q] + w + [Q] + rest) == Then([TStr(w)], Tokens(rest))
  {
    var s := [Q] + w + [Q] + rest;
    CloseRun(s, 1, |w| + 1);
    assert s[1..|w| + 1] == w && s[|w| + 2..] == rest;
  }

  /** The token of a bracket or parenthesis. */
  function PunctTok(c: char): Token
    requires c in "[]()"
  {
    if c == '[' then TLBrack else if c == ']' then TRBrack else if c == '(' then TLParen else TRParen
  }

  lemma TokPunct(c: char, rest: string)
    requires c in "[]()"
    ensures Tokens([c] + rest) == Then([PunctTok(c)], Tokens(rest))
  {
    assert ([c] + rest)[1..] == rest;
  }

  lemma TokBlank(rest: string)
    ensures Tokens(" " + rest) == Tokens(rest)
  {
    assert (" " + rest)[1..] == rest;
  }

  lemma RefParts(n: string, rest: string)
    ensures Ref(n) + rest == "results" + ("[" + ([Q] + n + [Q] + ("]" + rest)))
  {
  }

  /** The words the rewritten text consists of besides the quoted names. */
  lemma OperatorWords()
    ensures forall w :: w in {"results", "not", "and", "or"} ==> IsWordStr(w) && !IsDigit(w[0])
  {
    assert IsWordStr("results") && IsWordStr("not") && IsWordStr("and") && IsWordStr("or");
  }

  /** The rewritten name `results['n']`, then the rest. */
  lemma TokRef(n: string, rest: string)
    requires IsWordStr(n) && (rest == [] || !IsWord(rest[0]))
    ensures Tokens(Ref(n) + rest) == Then([TName("results"), TLBrack, TStr(n), TRBrack], Tokens(rest))
  {
    hide Tokens, StrToken;
    var r := Tokens(rest);
    var r3 := "]" + rest;
    var r2 := [Q] + n + [Q] + r3;
    var r1 := "[" + r2;
    assert Tokens(r3) == Then([TRBrack], r) by {
      TokPunct(']', rest);
    }
    assert Tokens(r2) == Then([TStr(n), TRBrack], r) by {
      TokStr(n, r3);
      ThenThen([TStr(n)], [TRBrack], r);
      assert [TStr(n)] + [TRBrack] == [TStr(n), TRBrack];
    }
    assert Tokens(r1) == Then([TLBrack, TStr(n), TRBrack], r) by {
      TokPunct('[', r2);
      ThenThen([TLBrack], [TStr(n), TRBrack], r);
      assert [TLBrack] + [TStr(n), TRBrack] == [TLBrack, TStr(n), TRBrack];
    }
    RefParts(n, rest);
    OperatorWords();
    TokName("results", r1);
    ThenThen([TName("results")], [TLBrack, TStr(n), TRBrack], r);
    assert [TName("results")] + [TLBrack, TStr(n), TRBrack] == [TName("results"), TLBrack, TStr(n), TRBrack];
  }

  /** An operator word between blanks, then the rest. */
  lemma TokWord(w: string, rest: string)
    requires w in {"not", "and", "or"}
    ensures Tokens(" " + w + " " + rest) == Then([TName(w)], Tokens(rest))
  {
    hide Tokens, StrToken;
    var r := " " + rest;
    OperatorWords();
    assert " " + w + " " + rest == " " + (w + r);
    TokBlank(w + r);
    TokName(w, r);
    TokBlank(rest);
  }

  /** The fully rewritten text of a formula tokenizes into `Toks`. */
  lemma {:induction false} TextTokens(f: Formula, lv: nat, done: set<string>, rest: string)
    requires lv <= 2 && NamesOf(f) <= done
    requires forall n :: n in NamesOf(f) ==> IsWordStr(n)
    requires rest == [] || !IsWord(rest[0])
    ensures Tokens(Text(f, lv, done) + rest) == Then(Toks(f, lv), Tokens(rest))
    decreases f, 2 - lv, 1
  {
    hide Tokens, StrToken;
    match f
    case Sel(n) => TokRef(n, rest);
    case Not(g) => TokNot(f, lv, done, rest);
    case And(_, _) =>
      if lv >= 1 { TokAnd(f, lv, done, rest); } else { Paren(f, lv, done, rest); }
    case Or(_, _) =>
      if lv == 2 { TokOr(f, done, rest); } else { Paren(f, lv, done, rest); }
  }

  lemma {:induction false} TokNot(f: Formula, lv: nat, done: set<string>, rest: string)
    requires f.Not? && lv <= 2 && NamesOf(f) <= done
    requires forall n :: n in NamesOf(f) ==> IsWordStr(n)
    requires rest == [] || !IsWord(rest[0])
    ensures Tokens(Text(f, lv, done) + rest) == Then(Toks(f, lv), Tokens(rest))
    decreases f, 2 - lv, 0
  {
    hide Tokens, StrToken;
    var t := Text(f.f, 0, done) + rest;
    TextTokens(f.f, 0, done, rest);
    assert Text(f, lv, done) + rest == "not" + (" " + t);
    TokName("not", " " + t);
    TokBlank(t);
    ThenThen([TName("not")], Toks(f.f, 0), Tokens(rest));
  }

  /** The text of an operator between its operands, regrouped around the rest. */
  lemma Regroup(a: string, sep: string, w: string, b: string, rest: string)
    requires sep == " " + w + " "
    ensures a + sep + b + rest == a + (" " + w + " " + (b + rest))
  {
  }

  /** The tokens of an operator between its operands, regrouped around the rest. */
  lemma ThenOperator(ta: seq<Token>, w: string, tb: seq<Token>, r: Result<seq<Token>>)
    ensures Then(ta, Then([TName(w)], Then(tb, r))) == Then(ta + [TName(w)] + tb, r)
  {
    ThenThen([TName(w)], tb, r);
    ThenThen(ta, [TName(w)] + tb, r);
    ConcatAssoc(ta, [TName(w)], tb);
  }

  /** `a and b` at level 1 or 2. */
  lemma {:induction false} TokAnd(f: Formula, lv: nat, done: set<string>, rest: string)
    requires f.And? && 1 <= lv <= 2
    requires NamesOf(f) <= done
    requires forall n :: n in NamesOf(f) ==> IsWordStr(n)
    requires rest == [] || !IsWord(rest[0])
    ensures Tokens(Text(f, lv, done) + rest) == Then(Toks(f, lv), Tokens(rest))
    decreases f, 2 - lv, 0
  {
    hide Tokens, StrToken;
    var tb := Text(f.r, 0, done) + rest;
    var ta := " " + "and" + " " + tb;
    Regroup(Text(f.l, 1, done), " and ", "and", Text(f.r, 0, done), rest);
    TextTokens(f.r, 0, done, rest);
    TextTokens(f.l, 1, done, ta);
    TokWord("and", tb);
    ThenOperator(Toks(f.l, 1), "and", Toks(f.r, 0), Tokens(rest));
  }

  /** `a or b` at level 2. */
  lemma {:induction false} TokOr(f: Formula, done: set<string>, rest: string)
    requires f.Or?
    requires NamesOf(f) <= done
    requires forall n :: n in NamesOf(f) ==> IsWordStr(n)
    requires rest == [] || !IsWord(rest[0])
    ensures Tokens(Text(f, 2, done) + rest) == Then(Toks(f, 2), Tokens(rest))
    decreases f, 0, 0
  {
    hide Tokens, StrToken;
    var tb := Text(f.r, 1, done) + rest;
    var ta := " " + "or" + " " + tb;
    Regroup(Text(f.l, 2, done), " or ", "or", Text(f.r, 1, done), rest);
    TextTokens(f.r, 1, done, rest);
    TextTokens(f.l, 2, done, ta);
    TokWord("or", tb);
    ThenOperator(Toks(f.l, 2), "or", Toks(f.r, 1), Tokens(rest));
  }

  lemma {:induction false} Paren(f: Formula, lv: nat, done: set<string>, rest: string)
    requires (f.And? && lv == 0) || (f.Or? && lv < 2)
    requires NamesOf(f) <= done
    requires forall n :: n in NamesOf(f) ==> IsWordStr(n)
    requires rest == [] || !IsWord(rest[0])
    ensures Tokens(Text(f, lv, done) + rest) == Then(Toks(f, lv), Tokens(rest))
    decreases f, 2 - lv, 0
  {
    hide Tokens, StrToken;
    var r := Tokens(rest);
    var t := Text(f, 2, done) + (")" + rest);
    assert Text(f, lv, done) + rest == "(" + t;
    assert Toks(f, lv) == [TLParen] + (Toks(f, 2) + [TRParen]);
    TextTokens(f, 2, done, ")" + rest);
    TokPunct('(', t);
    TokPunct(')', rest);
    ThenThen(Toks(f, 2), [TRParen], r);
    ThenThen([TLParen], Toks(f, 2) + [TRParen], r);
  }

  // ---------------------------------------------------------------------------
  // Rewriting

  /** A word other than the key, between texts without word characters, is left
      alone. */
  lemma KeepWord(k: string, a: string, w: string, b: string)
    requires IsWordStr(k) && IsWordStr(w) && w != k
    requires forall i :: 0 <= i < |a| ==> !IsWord(a[i])
    requires forall i :: 0 <= i < |b| ==> !IsWord(b[i])
    ensures Subst(k, Ref(k), a + w + b) == a + w + b
  {
    SigmaRegex.Split(k, Ref(k), a + w, b);
    SigmaRegex.Split(k, Ref(k), a, w);
    SubstNoWord(k, Ref(k), a);
    SubstWord(k, Ref(k), w);
    SubstNoWord(k, Ref(k), b);
  }

  /** Another name's rewritten form is left alone. */
  lemma RefKept(k: string, n: string)
    requires IsWordStr(k) && !Reserved(k) && IsWordStr(n) && n != k
    ensures Subst(k, Ref(k), Ref(n)) == Ref(n)
  {
    hide Subst, SubstFrom;
    OperatorWords();
    var tail := "['" + n + "']";
    assert Ref(n) == "results" + tail;
    SigmaRegex.Split(k, Ref(k), "results", tail);
    SubstWord(k, Ref(k), "results");
    KeepWord(k, "['", n, "']");
  }

  /** One step of the bare-name pass rewrites exactly the occurrences of its
      name. */
  lemma {:induction false} SubstText(k: string, f: Formula, lv: nat, done: set<string>)
    requires lv <= 2 && IsWordStr(k) && !Reserved(k) && k !in done
    requires forall n :: n in NamesOf(f) ==> GoodName(n)
    ensures Subst(k, Ref(k), Text(f, lv, done)) == Text(f, lv, done + {k})
    decreases f, 2 - lv, 1
  {
    hide Subst, SubstFrom;
    match f
    case Sel(n) =>
      assert GoodName(n) by { assert n in NamesOf(f); }
      if n in done {
        RefKept(k, n);
      } else {
        SubstWord(k, Ref(k), n);
      }
    case Not(g) => SubstNot(k, f, lv, done);
    case And(_, _) =>
      if lv >= 1 { SubstAnd(k, f, lv, done); } else { SubstParen(k, f, lv, done); }
    case Or(_, _) =>
      if lv == 2 { SubstOr(k, f, done); } else { SubstParen(k, f, lv, done); }
  }

  lemma {:induction false} SubstNot(k: string, f: Formula, lv: nat, done: set<string>)
    requires f.Not? && lv <= 2 && IsWordStr(k) && !Reserved(k) && k !in done
    requires forall n :: n in NamesOf(f) ==> GoodName(n)
    ensures Subst(k, Ref(k), Text(f, lv, done)) == Text(f, lv, done + {k})
    decreases f, 2 - lv, 0
  {
    hide Subst, SubstFrom;
    OperatorWords();
    var t := Text(f.f, 0, done);
    assert Text(f, lv, done) == "not " + t;
    SigmaRegex.Split(k, Ref(k), "not ", t);
    assert "" + "not" + " " == "not ";
    KeepWord(k, "", "not", " ");
    SubstText(k, f.f, 0, done);
  }

  /** An operator word between two texts is left alone, and the texts on
      either side are rewritten on their own. */
  lemma SubstAround(k: string, w: string, a: string, b: string)
    requires IsWordStr(k) && !Reserved(k) && w in {"and", "or"}
    ensures Subst(k, Ref(k), a + (" " + w + " ") + b) == Subst(k, Ref(k), a) + (" " + w + " ") + Subst(k, Ref(k), b)
  {
    hide Subst, SubstFrom;
    OperatorWords();
    var op := " " + w + " ";
    SigmaRegex.Split(k, Ref(k), a + op, b);
    SigmaRegex.Split(k, Ref(k), a, op);
    KeepWord(k, " ", w, " ");
  }

  lemma {:induction false} SubstAnd(k: string, f: Formula, lv: nat, done: set<string>)
    requires f.And? && 1 <= lv <= 2
    requires IsWordStr(k) && !Reserved(k) && k !in done
    requires forall n :: n in NamesOf(f) ==> GoodName(n)
    ensures Subst(k, Ref(k), Text(f, lv, done)) == Text(f, lv, done + {k})
    decreases f, 2 - lv, 0
  {
    hide Subst, SubstFrom;
    assert " and " == " " + "and" + " ";
    SubstAround(k, "and", Text(f.l, 1, done), Text(f.r, 0, done));
    SubstText(k, f.l, 1, done);
    SubstText(k, f.r, 0, done);
  }

  lemma {:induction false} SubstOr(k: string, f: Formula, done: set<string>)
    requires f.Or?
    requires IsWordStr(k) && !Reserved(k) && k !in done
    requires forall n :: n in NamesOf(f) ==> GoodName(n)
    ensures Subst(k, Ref(k), Text(f, 2, done)) == Text(f, 2, done + {k})
    decreases f, 0, 0
  {
    hide Subst, SubstFrom;
    assert " or " == " " + "or" + " ";
    SubstAround(k, "or", Text(f.l, 2, done), Text(f.r, 1, done));
    SubstText(k, f.l, 2, done);
    SubstText(k, f.r, 1, done);
  }

  lemma {:induction false} SubstParen(k: string, f: Formula, lv: nat, done: set<string>)
    requires (f.And? && lv == 0) || (f.Or? && lv < 2)
    requires IsWordStr(k) && !Reserved(k) && k !in done
    requires forall n :: n in NamesOf(f) ==> GoodName(n)
    ensures Subst(k, Ref(k), Text(f, lv, done)) == Text(f, lv, done + {k})
    decreases f, 2 - lv, 0
  {
    hide Subst, SubstFrom;
    var t := Text(f, 2, done);
    assert Text(f, lv, done) == "(" + t + ")";
    SigmaRegex.Split(k, Ref(k), "(" + t, ")");
    SigmaRegex.Split(k, Ref(k), "(", t);
    SubstNoWord(k, Ref(k), "(");
    SubstNoWord(k, Ref(k), ")");
    SubstText(k, f, 2, done);
  }

  /** The bare-name pass over distinct names rewrites each of them. */
  lemma {:induction false} PassText(f: Formula, done: set<string>, keys: seq<string>)
    requires forall n :: n in NamesOf(f) ==> GoodName(n)
    requires forall i :: 0 <= i < |keys| ==> GoodName(keys[i]) && keys[i] !in done
    requires NoDup(keys)
    ensures BarePass(Text(f, 2, done), keys) == Text(f, 2, done + set k | k in keys)
    decreases |keys|
  {
    if keys != [] {
      SubstText(keys[0], f, 2, done);
      assert NoDup(keys[1..]) by {
        forall a, b | 0 <= a < b < |keys[1..]| ensures keys[1..][a] != keys[1..][b] {
          assert keys[a + 1] != keys[b + 1];
        }
      }
      assert forall i :: 0 <= i < |keys[1..]| ==> keys[1..][i] !in done + {keys[0]} by {
        forall i | 0 <= i < |keys[1..]| ensures keys[1..][i] !in done + {keys[0]} {
          assert keys[i + 1] != keys[0];
        }
      }
      PassText(f, done + {keys[0]}, keys[1..]);
      assert done + {keys[0]} + (set k | k in keys[1..]) == done + set k | k in keys;
    } else {
      assert done + (set k | k in keys) == done;
    }
  }

  /** Distinct names stay distinct through the sort. */
  lemma {:induction false} DistinctCount(s: seq<string>)
    requires NoDup(s)
    ensures forall x :: multiset(s)[x] <= 1
    decreases |s|
  {
    if s != [] {
      assert NoDup(s[1..]) by {
        forall a, b | 0 <= a < b < |s[1..]| ensures s[1..][a] != s[1..][b] {
          assert s[a + 1] != s[b + 1];
        }
      }
      DistinctCount(s[1..]);
      assert s == [s[0]] + s[1..];
      assert s[0] !in s[1..];
    }
  }

  lemma CountDistinct(s: seq<string>)
    requires forall x :: multiset(s)[x] <= 1
    ensures NoDup(s)
  {
    forall i, j | 0 <= i < j < |s| ensures s[i] != s[j] {
      assert s == s[..j] + [s[j]] + s[j + 1..];
      assert multiset(s)[s[j]] >= multiset(s[..j])[s[j]] + 1;
      assert s[i] in s[..j];
    }
  }

  lemma DistinctByLength(names: seq<string>)
    requires NoDup(names)
    ensures NoDup(ByLength(names))
  {
    DistinctCount(names);
    CountDistinct(ByLength(names));
  }

  // ---------------------------------------------------------------------------
  // The condition's value

  /** No quantifier phrase anywhere in the text. */
  predicate NoQuantifier(s: string) {
    forall j :: 0 <= j <= |s| ==> QuantAt(s, j).None?
  }

  /** Without quantifier phrases the first pass copies the text. */
  lemma {:induction false} QuantCopies(s: string, i: nat, names: seq<string>)
    requires i <= |s| && NoQuantifier(s)
    ensures QuantFrom(s, i, names) == s[i..]
    decreases |s| - i
  {
    if i < |s| {
      QuantCopies(s, i + 1, names);
      assert s[i..] == [s[i]] + s[i + 1..];
    }
  }

  /** A condition over non-empty names is not empty, so `if not condition_str`
      lets it through. */
  lemma ConditionNonEmpty(f: Formula)
    requires forall n :: n in NamesOf(f) ==> GoodName(n)
    ensures Condition(f) != []
  {
    if f.Sel? {
      assert f.name in NamesOf(f);
    }
  }

  /** Both rewriting passes turn the condition into its fully rewritten text. */
  lemma Rewritten(f: Formula, names: seq<string>) returns (d: set<string>)
    requires NoQuantifier(Condition(f))
    requires NoDup(names)
    requires forall n :: n in names ==> GoodName(n)
    requires forall n :: n in NamesOf(f) ==> n in names
    ensures NamesOf(f) <= d
    ensures BarePass(QuantPass(Condition(f), names), ByLength(names)) == Text(f, 2, d)
  {
    var cond := Condition(f);
    QuantCopies(cond, 0, names);
    assert QuantPass(cond, names) == cond;
    var keys := ByLength(names);
    d := {} + set k | k in keys;
    assert forall k :: k in keys <==> k in names by {
      assert forall k :: k in keys <==> k in multiset(keys);
    }
    DistinctByLength(names);
    PassText(f, {}, keys);
  }

  /** The fully rewritten text evaluates to the formula. */
  lemma TextValue(f: Formula, d: set<string>, results: map<string, bool>)
    requires NamesOf(f) <= d && NamesOf(f) <= results.Keys
    requires forall n :: n in NamesOf(f) ==> GoodName(n)
    ensures EvalText(Text(f, 2, d), results) == Truth(f, results)
  {
    var ts := Toks(f, 2);
    assert Tokens(Text(f, 2, d)) == Ok(ts) by {
      TextTokens(f, 2, d, []);
      assert Text(f, 2, d) + [] == Text(f, 2, d) && ts + [] == ts;
    }
    ParseToks(f);
    EvalTruth(f, results);
  }

  /** A condition written with selection names, `and`, `or`, `not` and
      parentheses evaluates to the Boolean formula it spells over the selection
      outcomes, provided the names are distinct words, none of them an operator
      or `results`, and every name it uses is a selection. */
  lemma FormulaValue(f: Formula, rs: seq<Outcome>)
    requires NoQuantifier(Condition(f))
    requires NoDup(Names(rs))
    requires forall n :: n in Names(rs) ==> GoodName(n)
    requires forall n :: n in NamesOf(f) ==> n in Names(rs)
    ensures NamesOf(f) <= AsMap(rs).Keys
    ensures ConditionValue(Condition(f), rs) == Truth(f, AsMap(rs))
  {
    var d := Rewritten(f, Names(rs));
    TextValue(f, d, AsMap(rs));
  }
}
