/** The part of Python's `eval` that a rewritten Sigma condition exercises:
    names, string literals and `[ ] ( ) ,` as tokens; `or`, `and`, `not`,
    `True`/`False`/`None`, `results['<name>']`, `any([...])`, `all([...])` and
    parentheses as the grammar; Python's short-circuit evaluation over the
    selection results. Any failure (a token, a syntax error, an unknown name, a
    missing key) is the `except` branch: the condition is false. */
module SigmaEval {
  import opened Common

  // ---------------------------------------------------------------------------
  // Tokens

  datatype Token = TName(name: string) | TStr(text: string) | TLBrack | TRBrack | TLParen | TRParen | TComma

  /** Whitespace between tokens on one logical line. */
  predicate Blank(c: char) {
    c == ' ' || c == '\t' || c == '\U{000C}'
  }

  /** The end of the run of word characters that starts at `j`. */
  function NameEnd(s: string, j: nat): (r: nat)
    requires j <= |s|
    ensures j <= r <= |s|
    ensures r == |s| || !IsWord(s[r])
    ensures j < |s| && IsWord(s[j]) ==> j < r
    decreases |s| - j
  {
    if j == |s| || !IsWord(s[j]) then j else NameEnd(s, j + 1)
  }

  /** The closing quote `c` of a string literal whose text starts at `j`; a line
      break, a backslash escape or the end of the text first is a failure. */
  function CloseAt(s: string, j: nat, c: char): (r: Option<nat>)
    requires j <= |s|
    ensures r.Some? ==> j <= r.value < |s| && s[r.value] == c
    decreases |s| - j
  {
    if j == |s| || s[j] == '\n' || s[j] == '\\' then None
    else if s[j] == c then Some(j)
    else CloseAt(s, j + 1, c)
  }

  function Prepend(t: Token, r: Result<seq<Token>>): Result<seq<Token>> {
    if r.Err? then Err else Ok([t] + r.value)
  }

  /** Python's tokenizer on the subset above; numbers and every other character
      are failures. */
  function Tokens(s: string): Result<seq<Token>>
    decreases |s|
  {
    if s == [] then Ok([])
    else if Blank(s[0]) then Tokens(s[1..])
    else if IsDigit(s[0]) then Err
    else if IsWord(s[0]) then Prepend(TName(s[..NameEnd(s, 0)]), Tokens(s[NameEnd(s, 0)..]))
    else if s[0] == '\'' || s[0] == '"' then StrToken(s)
    else if s[0] == '[' then Prepend(TLBrack, Tokens(s[1..]))
    else if s[0] == ']' then Prepend(TRBrack, Tokens(s[1..]))
    else if s[0] == '(' then Prepend(TLParen, Tokens(s[1..]))
    else if s[0] == ')' then Prepend(TRParen, Tokens(s[1..]))
    else if s[0] == ',' then Prepend(TComma, Tokens(s[1..]))
    else Err
  }

  /** A string literal at the start of `s`, then the rest. */
  function StrToken(s: string): Result<seq<Token>>
    requires s != [] && (s[0] == '\'' || s[0] == '"')
    decreases |s|, 0
  {
    var e := CloseAt(s, 1, s[0]);
    if e.None? then Err else Prepend(TStr(s[1..e.value]), Tokens(s[e.value + 1..]))
  }

  // ---------------------------------------------------------------------------
  // Expressions and their value

  datatype Expr =
    | EOr(l: Expr, r: Expr)
    | EAnd(l: Expr, r: Expr)
    | ENot(e: Expr)
    | EConst(b: bool)
    | ESel(key: string)
    | EAny(items: Items)
    | EAll(items: Items)
    | EName(n: string)

  datatype Items = INil | ICons(head: Expr, tail: Items)

  /** The truth value of an expression; `results` maps each selection name to
      its outcome. `and`/`or` short-circuit; the elements of a list are all
      evaluated before `any`/`all` sees them. */
  function Eval(e: Expr, results: map<string, bool>): Result<bool> {
    match e
    case EOr(l, r) =>
      var a := Eval(l, results);
      if a.Err? then Err else if a.value then Ok(true) else Eval(r, results)
    case EAnd(l, r) =>
      var a := Eval(l, results);
      if a.Err? then Err else if !a.value then Ok(false) else Eval(r, results)
    case ENot(x) =>
      var a := Eval(x, results);
      if a.Err? then Err else Ok(!a.value)
    case EConst(b) => Ok(b)
    case ESel(k) => if k in results then Ok(results[k]) else Err
    case EAny(items) =>
      var vs := EvalItems(items, results);
      if vs.Err? then Err else Ok(true in vs.value)
    case EAll(items) =>
      var vs := EvalItems(items, results);
      if vs.Err? then Err else Ok(false !in vs.value)
    case EName(_) => Err
  }

  function EvalItems(items: Items, results: map<string, bool>): Result<seq<bool>> {
    match items
    case INil => Ok([])
    case ICons(h, t) =>
      var a := Eval(h, results);
      var rest := EvalItems(t, results);
      if a.Err? || rest.Err? then Err else Ok([a.value] + rest.value)
  }

  // ---------------------------------------------------------------------------
  // Parser

  datatype Parsed = Parsed(e: Expr, next: nat)
  datatype ItemsParsed = ItemsParsed(items: Items, next: nat)

  /** Python's reserved words; apart from `True`, `False`, `None`, `and`, `or`
      and `not` none of them can stand where this grammar expects an operand. */
  predicate IsKeyword(n: string) {
    n in {"False", "None", "True", "and", "as", "assert", "async", "await", "break",
          "class", "continue", "def", "del", "elif", "else", "except", "finally", "for",
          "from", "global", "if", "import", "in", "is", "lambda", "nonlocal", "not",
          "or", "pass", "raise", "return", "try", "while", "with", "yield"}
  }

  /** Every string literal in `ts[i..j]` is the subscript of a `[ ]` closed inside. */
  predicate StrsClosed(ts: seq<Token>, i: nat, j: nat) {
    i <= j <= |ts| && forall k :: i <= k < j && StrAt(ts, k) ==> k + 1 < j && ts[k + 1] == TRBrack
  }

  /** A string literal at `k`. */
  predicate StrAt(ts: seq<Token>, k: int) {
    0 <= k < |ts| && ts[k].TStr?
  }

  predicate IsTok(ts: seq<Token>, i: nat, t: Token) {
    i < |ts| && ts[i] == t
  }

  /** `or_test`: `and_test ('or' and_test)*`. */
  function ParseOr(ts: seq<Token>, i: nat): (r: Option<Parsed>)
    requires i <= |ts|
    ensures r.Some? ==> i < r.value.next <= |ts| && StrsClosed(ts, i, r.value.next)
    decreases |ts| - i, 3
  {
    var a := ParseAnd(ts, i);
    if a.None? then None else OrTail(ts, a.value.e, a.value.next)
  }

  function OrTail(ts: seq<Token>, left: Expr, j: nat): (r: Option<Parsed>)
    requires j <= |ts|
    ensures r.Some? ==> j <= r.value.next <= |ts| && StrsClosed(ts, j, r.value.next)
    decreases |ts| - j, 3
  {
    if !IsTok(ts, j, TName("or")) then Some(Parsed(left, j))
    else
      var b := ParseAnd(ts, j + 1);
      if b.None? then None else OrTail(ts, EOr(left, b.value.e), b.value.next)
  }

  /** `and_test`: `not_test ('and' not_test)*`. */
  function ParseAnd(ts: seq<Token>, i: nat): (r: Option<Parsed>)
    requires i <= |ts|
    ensures r.Some? ==> i < r.value.next <= |ts| && StrsClosed(ts, i, r.value.next)
    decreases |ts| - i, 2
  {
    var a := ParseNot(ts, i);
    if a.None? then None else AndTail(ts, a.value.e, a.value.next)
  }

  function AndTail(ts: seq<Token>, left: Expr, j: nat): (r: Option<Parsed>)
    requires j <= |ts|
    ensures r.Some? ==> j <= r.value.next <= |ts| && StrsClosed(ts, j, r.value.next)
    decreases |ts| - j, 2
  {
    if !IsTok(ts, j, TName("and")) then Some(Parsed(left, j))
    else
      var b := ParseNot(ts, j + 1);
      if b.None? then None else AndTail(ts, EAnd(left, b.value.e), b.value.next)
  }

  /** `not_test`: `'not' not_test | atom`. */
  function ParseNot(ts: seq<Token>, i: nat): (r: Option<Parsed>)
    requires i <= |ts|
    ensures r.Some? ==> i < r.value.next <= |ts| && StrsClosed(ts, i, r.value.next)
    decreases |ts| - i, 1
  {
    if IsTok(ts, i, TName("not")) then
      var a := ParseNot(ts, i + 1);
      if a.None? then None else Some(Parsed(ENot(a.value.e), a.value.next))
    else ParseAtom(ts, i)
  }

  /** The operands the rewritten conditions contain. */
  function ParseAtom(ts: seq<Token>, i: nat): (r: Option<Parsed>)
    requires i <= |ts|
    ensures r.Some? ==> i < r.value.next <= |ts| && StrsClosed(ts, i, r.value.next)
    decreases |ts| - i, 0
  {
    if i == |ts| then None
    else if ts[i] == TLParen then
      var a := ParseOr(ts, i + 1);
      if a.None? || !IsTok(ts, a.value.next, TRParen) then None
      else Some(Parsed(a.value.e, a.value.next + 1))
    else if !ts[i].TName? then None
    else if ts[i].name == "True" then Some(Parsed(EConst(true), i + 1))
    else if ts[i].name == "False" || ts[i].name == "None" then Some(Parsed(EConst(false), i + 1))
    else if ts[i].name == "results" then
      if i + 3 < |ts| && ts[i + 1] == TLBrack && ts[i + 2].TStr? && ts[i + 3] == TRBrack
      then Some(Parsed(ESel(ts[i + 2].text), i + 4))
      else None
    else if ts[i].name == "any" || ts[i].name == "all" then
      if !(IsTok(ts, i + 1, TLParen) && IsTok(ts, i + 2, TLBrack)) then None
      else
        var l := ParseItems(ts, i + 3);
        if l.None? || !IsTok(ts, l.value.next, TRParen) then None
        else if ts[i].name == "any" then Some(Parsed(EAny(l.value.items), l.value.next + 1))
        else Some(Parsed(EAll(l.value.items), l.value.next + 1))
    else if IsKeyword(ts[i].name) then None
    else Some(Parsed(EName(ts[i].name), i + 1))
  }

  /** The elements of a list display up to and including its `]`; a trailing
      comma is allowed. */
  function ParseItems(ts: seq<Token>, j: nat): (r: Option<ItemsParsed>)
    requires j <= |ts|
    ensures r.Some? ==> j < r.value.next <= |ts| && StrsClosed(ts, j, r.value.next)
    decreases |ts| - j, 4
  {
    if IsTok(ts, j, TRBrack) then Some(ItemsParsed(INil, j + 1))
    else
      var a := ParseOr(ts, j);
      if a.None? then None
      else if IsTok(ts, a.value.next, TRBrack) then
        Some(ItemsParsed(ICons(a.value.e, INil), a.value.next + 1))
      else if IsTok(ts, a.value.next, TComma) then
        var rest := ParseItems(ts, a.value.next + 1);
        if rest.None? then None
        else Some(ItemsParsed(ICons(a.value.e, rest.value.items), rest.value.next))
      else None
  }

  /** A whole expression and nothing after it. */
  function Parse(ts: seq<Token>): (r: Option<Expr>)
    ensures r.Some? ==> StrsClosed(ts, 0, |ts|)
  {
    var a := ParseOr(ts, 0);
    if a.Some? && a.value.next == |ts| then Some(a.value.e) else None
  }

  /** `eval(text, {"__builtins__": {}, "any": any, "all": all}, {'results': results})`
      under `try ... except Exception: return False`, taken for its truth value. */
  function EvalText(text: string, results: map<string, bool>): bool {
    var ts := Tokens(text);
    if ts.Err? then false
    else
      var e := Parse(ts.value);
      if e.None? then false
      else
        var v := Eval(e.value, results);
        v.Ok? && v.value
  }

  // ---------------------------------------------------------------------------
  // Properties

  /** A string literal directly followed by a name is a syntax error, so the
      condition is false whatever the selections say. */
  lemma StrThenNameIsFalse(text: string, results: map<string, bool>, k: nat)
    requires Tokens(text).Ok? && k + 1 < |Tokens(text).value|
    requires Tokens(text).value[k].TStr? && Tokens(text).value[k + 1].TName?
    ensures !EvalText(text, results)
  {
    var ts := Tokens(text).value;
    if Parse(ts).Some? {
      assert StrAt(ts, k);
    }
  }

  /** A quote, then a word character, ... up to the next quote, then a word
      character: whichever way the quotes pair up, a string literal ends right
      before a word character. */
  predicate GluedQuotes(s: string, p: nat, q: nat) {
    p < q && q + 1 < |s| && s[p] == '\'' && s[q] == '\'' && IsWord(s[p + 1]) && IsWord(s[q + 1])
    && Plain(s, p + 1, q)
  }

  /** No quote, line break or backslash in `s[j..q]`. */
  predicate Plain(s: string, j: nat, q: nat)
    decreases q - j
  {
    j >= q || (j < |s| && s[j] != '\'' && s[j] != '\n' && s[j] != '\\' && Plain(s, j + 1, q))
  }

  lemma {:induction false} NameEndWord(s: string, j: nat, m: nat)
    requires j <= |s| && j <= m < NameEnd(s, j)
    ensures IsWord(s[m])
    decreases |s| - j
  {
    if j < m {
      NameEndWord(s, j + 1, m);
    }
  }

  lemma {:induction false} CloseFirst(s: string, j: nat, c: char, m: nat)
    requires j <= m < |s| && s[m] == c && CloseAt(s, j, c).Some?
    ensures CloseAt(s, j, c).value <= m
    decreases |s| - j
  {
    if s[j] != c && j < m {
      CloseFirst(s, j + 1, c, m);
    }
  }

  /** `Plain` seen from a suffix. */
  lemma {:induction false} PlainShift(s: string, d: nat, j: nat, q: nat)
    requires d <= j && d <= q && d <= |s| && Plain(s, j, q)
    ensures Plain(s[d..], j - d, q - d)
    decreases q - j
  {
    if j < q {
      PlainShift(s, d, j + 1, q);
    }
  }

  lemma {:induction false} CloseFound(s: string, j: nat, q: nat)
    requires j <= q < |s| && s[q] == '\'' && Plain(s, j, q)
    ensures CloseAt(s, j, '\'') == Some(q)
    decreases q - j
  {
    if j < q {
      CloseFound(s, j + 1, q);
    }
  }

  /** Tokens of a text that starts with a word character start with a name. */
  lemma NameFirst(s: string)
    requires s != [] && IsWord(s[0]) && Tokens(s).Ok?
    ensures |Tokens(s).value| > 0 && Tokens(s).value[0].TName?
  {
  }

  /** The quote at `p` opens a literal that closes at `q`, after which a name
      follows. */
  lemma OpensAtP(s: string, p: nat, q: nat, ts: seq<Token>) returns (k: nat)
    requires GluedQuotes(s, p, q) && Tokens(s[p..]) == Ok(ts)
    ensures k + 1 < |ts| && ts[k].TStr? && ts[k + 1].TName?
  {
    var t := s[p..];
    PlainShift(s, p, p + 1, q);
    CloseFound(t, 1, q - p);
    assert t[q - p + 1..] == s[q + 1..];
    NameFirst(s[q + 1..]);
    k := 0;
  }

  /** A string literal followed by a name stays so behind one more token. */
  lemma ConsAdjacent(ts: seq<Token>, x: Token, rs: seq<Token>, k: nat)
    requires ts == [x] + rs && k + 1 < |rs| && rs[k].TStr? && rs[k + 1].TName?
    ensures k + 2 < |ts| && ts[k + 1].TStr? && ts[k + 2].TName?
  {
  }

  /** Whatever token the scan is in at `i`, the glued quotes at `p` produce a
      string literal followed by a name. */
  lemma {:induction false} GluedFrom(s: string, i: nat, p: nat, q: nat, ts: seq<Token>) returns (k: nat)
    requires GluedQuotes(s, p, q) && '"' !in s && i <= p
    requires Tokens(s[i..]) == Ok(ts)
    ensures k + 1 < |ts| && ts[k].TStr? && ts[k + 1].TName?
    decreases p - i, 1
  {
    hide Tokens, Plain, CloseAt, NameEnd;
    if i == p {
      k := OpensAtP(s, p, q, ts);
    } else if IsWord(s[i]) {
      k := GluedAfterName(s, i, p, q, ts);
    } else if s[i] == '\'' {
      k := GluedAfterStr(s, i, p, q, ts);
    } else {
      assert s[i] in s;
      k := GluedAfterChar(s, i, p, q, ts);
    }
  }

  lemma {:induction false} GluedAfterName(s: string, i: nat, p: nat, q: nat, ts: seq<Token>) returns (k: nat)
    requires GluedQuotes(s, p, q) && '"' !in s && i < p
    requires Tokens(s[i..]) == Ok(ts) && IsWord(s[i])
    ensures k + 1 < |ts| && ts[k].TStr? && ts[k + 1].TName?
    decreases p - i, 0
  {
    hide Tokens, Plain, CloseAt, NameEnd;
    var n, x, rs := NameStep(s, i, p, ts);
    var k1 := GluedFrom(s, i + n, p, q, rs);
    ConsAdjacent(ts, x, rs, k1);
    k := k1 + 1;
  }

  lemma {:induction false} GluedAfterStr(s: string, i: nat, p: nat, q: nat, ts: seq<Token>) returns (k: nat)
    requires GluedQuotes(s, p, q) && '"' !in s && i < p
    requires Tokens(s[i..]) == Ok(ts) && s[i] == '\''
    ensures k + 1 < |ts| && ts[k].TStr? && ts[k + 1].TName?
    decreases p - i, 0
  {
    hide Tokens, Plain, CloseAt, NameEnd;
    var e, x, rs := StrStep(s, i, p, ts);
    if i + e < p {
      var k1 := GluedFrom(s, i + e + 1, p, q, rs);
      ConsAdjacent(ts, x, rs, k1);
      k := k1 + 1;
    } else {
      NameFirst(s[p + 1..]);
      k := 0;
    }
  }

  lemma {:induction false} GluedAfterChar(s: string, i: nat, p: nat, q: nat, ts: seq<Token>) returns (k: nat)
    requires GluedQuotes(s, p, q) && '"' !in s && i < p
    requires Tokens(s[i..]) == Ok(ts) && !IsWord(s[i]) && s[i] != '\'' && s[i] != '"'
    ensures k + 1 < |ts| && ts[k].TStr? && ts[k + 1].TName?
    decreases p - i, 0
  {
    hide Tokens, Plain, CloseAt, NameEnd;
    var skip, rs := CharStep(s, i, ts);
    var k1 := GluedFrom(s, i + 1, p, q, rs);
    if skip {
      k := k1;
    } else {
      ConsAdjacent(ts, ts[0], rs, k1);
      k := k1 + 1;
    }
  }

  /** The tokens of a text that starts with a name. */
  lemma TokensName(t: string)
    requires t != [] && IsWord(t[0]) && Tokens(t).Ok?
    ensures 0 < NameEnd(t, 0)
    ensures Tokens(t[NameEnd(t, 0)..]).Ok?
    ensures Tokens(t).value == [TName(t[..NameEnd(t, 0)])] + Tokens(t[NameEnd(t, 0)..]).value
  {
  }

  /** The tokens of a text that starts with a quote. */
  lemma TokensStr(t: string)
    requires t != [] && t[0] == '\'' && Tokens(t).Ok?
    ensures CloseAt(t, 1, '\'').Some?
    ensures var e := CloseAt(t, 1, '\'').value;
      Tokens(t[e + 1..]).Ok? && Tokens(t).value == [TStr(t[1..e])] + Tokens(t[e + 1..]).value
  {
  }

  /** A name that starts before the quote at `p` ends before it. */
  lemma NameStep(s: string, i: nat, p: nat, ts: seq<Token>) returns (n: nat, x: Token, rs: seq<Token>)
    requires i < p < |s| && s[p] == '\'' && Tokens(s[i..]) == Ok(ts) && IsWord(s[i])
    ensures 0 < n <= p - i && Tokens(s[i + n..]) == Ok(rs) && ts == [x] + rs
  {
    var t := s[i..];
    TokensName(t);
    n := NameEnd(t, 0);
    assert n <= p - i by {
      if n > p - i {
        NameEndWord(t, 0, p - i);
        assert false;
      }
    }
    assert t[n..] == s[i + n..];
    x, rs := TName(t[..n]), Tokens(t[n..]).value;
  }

  /** A literal that opens before the quote at `p` closes at `p` at the latest. */
  lemma StrStep(s: string, i: nat, p: nat, ts: seq<Token>) returns (e: nat, x: Token, rs: seq<Token>)
    requires i < p < |s| && s[p] == '\'' && Tokens(s[i..]) == Ok(ts) && s[i] == '\''
    ensures 0 < e <= p - i && Tokens(s[i + e + 1..]) == Ok(rs) && ts == [x] + rs && x.TStr?
  {
    var t := s[i..];
    TokensStr(t);
    CloseFirst(t, 1, '\'', p - i);
    e := CloseAt(t, 1, '\'').value;
    assert t[e + 1..] == s[i + e + 1..];
    x, rs := TStr(t[1..e]), Tokens(t[e + 1..]).value;
  }

  /** A blank is skipped; punctuation is one token. */
  lemma CharStep(s: string, i: nat, ts: seq<Token>) returns (skip: bool, rs: seq<Token>)
    requires i < |s| && Tokens(s[i..]) == Ok(ts) && !IsWord(s[i]) && s[i] != '\'' && s[i] != '"'
    ensures Tokens(s[i + 1..]) == Ok(rs)
    ensures skip ==> ts == rs
    ensures !skip ==> |ts| > 0 && ts == [ts[0]] + rs
  {
    var t := s[i..];
    assert t[1..] == s[i + 1..];
    skip := Blank(t[0]);
    rs := Tokens(t[1..]).value;
  }

  /** A text with glued quotes and no double quotes never evaluates to true. */
  lemma GluedIsFalse(s: string, p: nat, q: nat, results: map<string, bool>)
    requires GluedQuotes(s, p, q) && '"' !in s
    ensures !EvalText(s, results)
  {
    if Tokens(s).Ok? {
      assert s[0..] == s;
      var k := GluedFrom(s, 0, p, q, Tokens(s).value);
      StrThenNameIsFalse(s, results, k);
    }
  }
}
