/** The first rewriting pass of a Sigma condition: every quantifier phrase
    `1 of <glob>` or `all of <glob>` (the pattern `\b(1|all)\s+of\s+([a-zA-Z0-9_*]+)\b`)
    is replaced by a call over the selections whose names the glob matches, or by
    `False` when it matches none. */
module SigmaQuant {
  import opened Common
  import opened SigmaRegex

  /** Characters of the glob group `[a-zA-Z0-9_*]`. */
  predicate GlobChar(c: char) {
    IsWord(c) || c == '*'
  }

  /** Length of the whitespace run starting at `i`. */
  function WsRun(s: string, i: nat): (r: nat)
    requires i <= |s|
    ensures i + r <= |s|
    decreases |s| - i
  {
    if i < |s| && IsSpace(s[i]) then 1 + WsRun(s, i + 1) else 0
  }

  /** `WsRun` measures a maximal run of whitespace. */
  lemma {:induction false} WsRunMaximal(s: string, i: nat)
    requires i <= |s|
    ensures forall j :: i <= j < i + WsRun(s, i) ==> IsSpace(s[j])
    ensures i + WsRun(s, i) == |s| || !IsSpace(s[i + WsRun(s, i)])
    decreases |s| - i
  {
    if i < |s| && IsSpace(s[i]) {
      WsRunMaximal(s, i + 1);
    }
  }

  /** Length of the run of glob characters starting at `i`. */
  function GlobRun(s: string, i: nat): (r: nat)
    requires i <= |s|
    ensures i + r <= |s|
    ensures i + r == |s| || !GlobChar(s[i + r])
    decreases |s| - i
  {
    if i < |s| && GlobChar(s[i]) then 1 + GlobRun(s, i + 1) else 0
  }

  /** The greedy group gives back characters until a `\b` follows it: the largest
      `m <= n` with a boundary at `start + m`, or 0 when there is none. */
  function Backtrack(s: string, start: nat, n: nat): (m: nat)
    requires start + n <= |s|
    ensures m <= n
    ensures m > 0 ==> Boundary(s, start + m)
  {
    if n == 0 then 0 else if Boundary(s, start + n) then n else Backtrack(s, start, n - 1)
  }

  /** `Backtrack` gives back no more than it must. */
  lemma {:induction false} BacktrackMaximal(s: string, start: nat, n: nat, p: nat)
    requires start + n <= |s| && start + Backtrack(s, start, n) < p <= start + n
    ensures !Boundary(s, p)
  {
    if n > 0 && !Boundary(s, start + n) && p < start + n {
      BacktrackMaximal(s, start, n - 1, p);
    }
  }

  /** In a run of glob characters that starts with a word character, some word
      character is followed by a non-word character or the end. */
  lemma {:induction false} LastWordInRun(s: string, lo: nat, hi: nat) returns (t: nat)
    requires lo < hi <= |s| && IsWord(s[lo])
    requires hi == |s| || !IsWord(s[hi])
    ensures lo <= t < hi && IsWord(s[t]) && (t + 1 == |s| || !IsWord(s[t + 1]))
    decreases hi - lo
  {
    if lo + 1 < hi && IsWord(s[lo + 1]) {
      t := LastWordInRun(s, lo + 1, hi);
    } else {
      t := lo;
    }
  }

  /** Length of the glob group `([a-zA-Z0-9_*]+)\b` at `g` (0 when it cannot
      match). The group always ends with a word character: trailing `*`
      characters are given back to satisfy the closing `\b`, and what is given
      back starts with a `*`. */
  function GlobLen(s: string, g: nat): (m: nat)
    requires g <= |s|
    ensures g + m <= |s|
    ensures m > 0 ==> Boundary(s, g + m) && IsWord(s[g + m - 1])
    ensures m > 0 && g + m < |s| && GlobChar(s[g + m]) ==> s[g + m] == '*'
  {
    var n := GlobRun(s, g);
    var m := Backtrack(s, g, n);
    GivenBackStartsWithStar(s, g, n, m);
    m
  }

  lemma GivenBackStartsWithStar(s: string, g: nat, n: nat, m: nat)
    requires g + n <= |s| && n == GlobRun(s, g) && m == Backtrack(s, g, n)
    ensures m > 0 ==> IsWord(s[g + m - 1])
  {
    if m > 0 && !IsWord(s[g + m - 1]) {
      // the boundary after the group then has a word character on its right,
      // inside the run; the last word character of the run has a later boundary
      assert g + m < g + n;
      var t := LastWordInRun(s, g + m, g + n);
      BacktrackMaximal(s, g, n, t + 1);
      assert Boundary(s, t + 1);
      assert false;
    }
  }

  /** A quantifier phrase: its aggregator (`1` or `all`), its glob, and where the
      match ends. */
  datatype Quant = Quant(agg: string, glob: string, end: nat)

  /** The aggregator alternative `(1|all)` at position `i`, or "" when neither
      matches there. */
  function AggAt(s: string, i: nat): string
    requires i <= |s|
  {
    if i < |s| && s[i] == '1' then "1"
    else if i + 3 <= |s| && s[i] == 'a' && s[i + 1] == 'l' && s[i + 2] == 'l' then "all"
    else ""
  }

  /** Where the glob group starts after the aggregator at `i`: past `\s+of\s+`. */
  function GlobStart(s: string, j: nat): Option<nat>
    requires j <= |s|
  {
    var w1 := WsRun(s, j);
    if w1 == 0 || j + w1 + 2 > |s| || s[j + w1] != 'o' || s[j + w1 + 1] != 'f' then None
    else
      var w2 := WsRun(s, j + w1 + 2);
      if w2 == 0 then None else Some(j + w1 + 2 + w2)
  }

  /** The quantifier pattern tried at position `i`. */
  function QuantAt(s: string, i: nat): (r: Option<Quant>)
    requires i <= |s|
    ensures r.Some? ==> i < r.value.end <= |s|
  {
    var agg := AggAt(s, i);
    if !Boundary(s, i) || agg == "" then None
    else
      var start := GlobStart(s, i + |agg|);
      if start.None? then None
      else
        var g := start.value;
        var m := GlobLen(s, g);
        if m == 0 then None else Some(Quant(agg, s[g..g + m], g + m))
  }

  /** What a quantifier match consists of: `\b`, the aggregator, then the glob
      group, which ends at `end`. */
  lemma QuantShape(s: string, i: nat) returns (g: nat)
    requires i <= |s| && QuantAt(s, i).Some?
    ensures Boundary(s, i)
    ensures QuantAt(s, i).value.agg in {"1", "all"} && IsPrefix(QuantAt(s, i).value.agg, s[i..])
    ensures var q := QuantAt(s, i).value;
      i < g <= |s| && GlobLen(s, g) == |q.glob| > 0 && q.end == g + |q.glob| && q.glob == s[g..q.end]
  {
    g := GlobStart(s, i + |AggAt(s, i)|).value;
  }

  /** Only a `1` or an `a` can start a quantifier phrase. */
  lemma NoQuantAt(s: string, i: nat)
    requires i < |s| && s[i] != '1' && s[i] != 'a'
    ensures QuantAt(s, i).None?
  {
    assert AggAt(s, i) == "";
  }

  /** `re.fullmatch(glob.replace('*', '.*'), name)`: `*` stands for any run of
      characters other than a line feed, every other glob character for itself. */
  function GlobMatch(g: string, name: string): bool
    decreases |g| + |name|
  {
    if g == [] then name == []
    else if g[0] == '*' then
      GlobMatch(g[1..], name) || (name != [] && name[0] != '\n' && GlobMatch(g, name[1..]))
    else name != [] && name[0] == g[0] && GlobMatch(g[1..], name[1..])
  }

  /** The selection names the glob matches, in the order of the selections. */
  function Matching(g: string, names: seq<string>): (r: seq<string>)
    ensures forall n :: n in r <==> n in names && GlobMatch(g, n)
    ensures r == [] <==> forall n :: n in names ==> !GlobMatch(g, n)
    ensures |r| <= |names|
  {
    if names == [] then []
    else
      assert forall n :: n in names <==> n == names[0] || n in names[1..];
      (if GlobMatch(g, names[0]) then [names[0]] else []) + Matching(g, names[1..])
  }

  /** The text that names one selection's result. */
  function Ref(name: string): string {
    "results['" + name + "']"
  }

  /** `', '.join(f"results['{k}']" for k in names)` */
  function RefList(names: seq<string>): string {
    if names == [] then ""
    else if |names| == 1 then Ref(names[0])
    else Ref(names[0]) + ", " + RefList(names[1..])
  }

  /** The replacement text of one quantifier phrase. */
  function Expansion(q: Quant, names: seq<string>): string {
    var matched := Matching(q.glob, names);
    if matched == [] then "False"
    else (if q.agg == "1" then "any" else "all") + "([" + RefList(matched) + "])"
  }

  /** The scan of `re.sub` from position `i`. */
  function QuantFrom(s: string, i: nat, names: seq<string>): string
    requires i <= |s|
    decreases |s| - i
  {
    if i == |s| then "" else Piece(s, i, names) + QuantFrom(s, Next(s, i), names)
  }

  /** What the scan emits at `i`: the expansion of a phrase or the character. */
  function Piece(s: string, i: nat, names: seq<string>): string
    requires i < |s|
  {
    if QuantAt(s, i).Some? then Expansion(QuantAt(s, i).value, names) else [s[i]]
  }

  /** Where the scan resumes after `i`. */
  function Next(s: string, i: nat): (j: nat)
    requires i < |s|
    ensures i < j <= |s|
  {
    if QuantAt(s, i).Some? then QuantAt(s, i).value.end else i + 1
  }

  /** The quantifier pass over a whole condition; `names` are the selection names
      in the order of the detection section. */
  function QuantPass(s: string, names: seq<string>): string {
    QuantFrom(s, 0, names)
  }

  // ---------------------------------------------------------------------------
  // Properties

  /** When no quantifier phrase that starts before `p` runs past it, the scan
      reaches `p`. */
  lemma {:induction false} QuantReach(s: string, i: nat, p: nat, names: seq<string>) returns (x: string)
    requires i <= p <= |s|
    requires forall q :: i <= q < p && QuantAt(s, q).Some? ==> QuantAt(s, q).value.end <= p
    ensures QuantFrom(s, i, names) == x + QuantFrom(s, p, names)
    decreases p - i
  {
    if i == p {
      x := "";
    } else {
      var y := QuantReach(s, Next(s, i), p, names);
      x := Piece(s, i, names) + y;
    }
  }

  /** A phrase the scan reaches is replaced by its expansion. */
  lemma ReachedPhrase(s: string, i: nat, names: seq<string>) returns (x: string)
    requires i <= |s| && QuantAt(s, i).Some?
    requires forall q :: 0 <= q < i && QuantAt(s, q).Some? ==> QuantAt(s, q).value.end <= i
    ensures QuantPass(s, names) ==
      x + Expansion(QuantAt(s, i).value, names) + QuantFrom(s, QuantAt(s, i).value.end, names)
  {
    x := QuantReach(s, 0, i, names);
  }

  /** A glob that matches no selection becomes the literal `False`. */
  lemma UnmatchedIsFalse(q: Quant, names: seq<string>)
    requires forall n :: n in names ==> !GlobMatch(q.glob, n)
    ensures Expansion(q, names) == "False"
  {
  }

  /** The glob of a quantifier phrase ends with a word character. */
  lemma GlobEndsInWord(s: string, i: nat)
    requires i <= |s| && QuantAt(s, i).Some?
    ensures var q := QuantAt(s, i).value; IsWord(q.glob[|q.glob| - 1])
  {
    var g := QuantShape(s, i);
    var q := QuantAt(s, i).value;
    assert q.glob[|q.glob| - 1] == s[q.end - 1];
  }

  /** When the run of glob characters continues past the match, the character
      left behind is a `*`. */
  lemma StarLeftBehind(s: string, i: nat)
    requires i <= |s| && QuantAt(s, i).Some?
    requires QuantAt(s, i).value.end < |s| && GlobChar(s[QuantAt(s, i).value.end])
    ensures s[QuantAt(s, i).value.end] == '*'
  {
    var g := QuantShape(s, i);
  }

  /** A reached phrase whose glob ends in `*` leaves that `*` right after its
      expansion: for an unmatched glob the text reads `False*`. */
  lemma StarAfterExpansion(s: string, i: nat, names: seq<string>) returns (x: string, y: string)
    requires i <= |s| && QuantAt(s, i).Some?
    requires forall q :: 0 <= q < i && QuantAt(s, q).Some? ==> QuantAt(s, q).value.end <= i
    requires QuantAt(s, i).value.end < |s| && GlobChar(s[QuantAt(s, i).value.end])
    ensures QuantPass(s, names) == x + Expansion(QuantAt(s, i).value, names) + "*" + y
  {
    x := ReachedPhrase(s, i, names);
    var ex := Expansion(QuantAt(s, i).value, names);
    var e := QuantAt(s, i).value.end;
    StarLeftBehind(s, i);
    NoQuantAt(s, e);
    y := QuantFrom(s, e + 1, names);
    assert QuantFrom(s, e, names) == "*" + y by {
      assert Piece(s, e, names) == "*" && Next(s, e) == e + 1;
    }
    assert x + ex + ("*" + y) == x + ex + "*" + y;
  }

  /** A glob without `*` matches exactly the name it spells. */
  lemma {:induction false} GlobLiteral(g: string, name: string)
    requires '*' !in g
    ensures GlobMatch(g, name) <==> name == g
    decreases |g| + |name|
  {
    if g != [] && name != [] {
      GlobLiteral(g[1..], name[1..]);
      if name[0] == g[0] && name[1..] == g[1..] {
        assert name == [name[0]] + name[1..] && g == [g[0]] + g[1..];
      }
    }
  }

  /** `*` matches any name without line feeds. */
  lemma {:induction false} GlobStarAll(name: string)
    requires '\n' !in name
    ensures GlobMatch("*", name)
    decreases |name|
  {
    if name != [] {
      GlobStarAll(name[1..]);
    }
  }
}
