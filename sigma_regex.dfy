/** The regular-expression substitution the bare-name pass of the Sigma condition
    rewriter performs: `re.sub(r'\b' + re.escape(key) + r'\b', repl, text)`.
    Word characters are the ASCII letters, digits and underscore. */
module SigmaRegex {
  import opened Common

  /** Position `p` holds a word character (positions outside the text do not). */
  predicate WordAt(s: string, p: int) {
    0 <= p < |s| && IsWord(s[p])
  }

  /** `\b` at position `p`: a word character on exactly one side. */
  predicate Boundary(s: string, p: int) {
    WordAt(s, p - 1) != WordAt(s, p)
  }

  /** A non-empty run of word characters. */
  predicate IsWordStr(w: string) {
    |w| > 0 && forall i :: 0 <= i < |w| ==> IsWord(w[i])
  }

  /** `\bkey\b` matches at `i` (for a non-empty key). */
  predicate KeyMatchAt(k: string, s: string, i: int) {
    |k| > 0 && OccursAt(s, k, i) && Boundary(s, i) && Boundary(s, i + |k|)
  }

  /** The scan of `re.sub` from position `i`: leftmost matches, not overlapping. */
  function SubstFrom(k: string, r: string, s: string, i: nat): string
    requires |k| > 0 && i <= |s|
    decreases |s| - i
  {
    if i == |s| then ""
    else if KeyMatchAt(k, s, i) then r + SubstFrom(k, r, s, i + |k|)
    else [s[i]] + SubstFrom(k, r, s, i + 1)
  }

  /** For the empty key the pattern is `\b\b`: an empty match at every word
      boundary, each replaced by `r`. */
  function EmptyKeyFrom(r: string, s: string, i: nat): string
    requires i <= |s|
    decreases |s| - i
  {
    if i == |s| then BoundaryMark(r, s, i)
    else BoundaryMark(r, s, i) + [s[i]] + EmptyKeyFrom(r, s, i + 1)
  }

  /** What the empty match at `i` inserts. */
  function BoundaryMark(r: string, s: string, i: nat): string {
    if Boundary(s, i) then r else ""
  }

  /** `re.sub(r'\b' + re.escape(k) + r'\b', r, s)` with `r` taken literally. */
  function Subst(k: string, r: string, s: string): string {
    if k == [] then EmptyKeyFrom(r, s, 0) else SubstFrom(k, r, s, 0)
  }

  // ---------------------------------------------------------------------------
  // How the scan proceeds

  /** Positions where no match starts are copied unchanged. */
  lemma {:induction false} Verbatim(k: string, r: string, s: string, i: nat, p: nat)
    requires |k| > 0 && i <= p <= |s|
    requires forall q :: i <= q < p ==> !KeyMatchAt(k, s, q)
    ensures SubstFrom(k, r, s, i) == s[i..p] + SubstFrom(k, r, s, p)
    decreases p - i
  {
    if i < p {
      assert !KeyMatchAt(k, s, i);
      Verbatim(k, r, s, i + 1, p);
      assert s[i..p] == [s[i]] + s[i + 1..p];
      ConcatAssoc([s[i]], s[i + 1..p], SubstFrom(k, r, s, p));
    }
  }

  /** When no match starting before `p` runs past `p`, the scan arrives at `p`. */
  lemma {:induction false} Reach(k: string, r: string, s: string, i: nat, p: nat) returns (x: string)
    requires |k| > 0 && i <= p <= |s|
    requires forall q :: i <= q < p && KeyMatchAt(k, s, q) ==> q + |k| <= p
    ensures SubstFrom(k, r, s, i) == x + SubstFrom(k, r, s, p)
    decreases p - i
  {
    if i == p {
      x := "";
    } else if KeyMatchAt(k, s, i) {
      var y := Reach(k, r, s, i + |k|, p);
      x := r + y;
      ConcatAssoc(r, y, SubstFrom(k, r, s, p));
    } else {
      var y := Reach(k, r, s, i + 1, p);
      x := [s[i]] + y;
      ConcatAssoc([s[i]], y, SubstFrom(k, r, s, p));
    }
  }

  /** A character that is not part of the key is never consumed by a match: it
      survives the substitution. */
  lemma {:induction false} CharSurvives(k: string, r: string, s: string, i: nat, p: nat)
    requires |k| > 0 && i <= p < |s| && s[p] !in k
    ensures s[p] in SubstFrom(k, r, s, i)
    decreases p - i
  {
    if i == p {
    } else if KeyMatchAt(k, s, i) {
      if i + |k| <= p {
        CharSurvives(k, r, s, i + |k|, p);
      }
    } else {
      CharSurvives(k, r, s, i + 1, p);
    }
  }

  /** A character in neither the text nor the replacement does not appear. */
  lemma {:induction false} CharAbsent(k: string, r: string, s: string, c: char)
    requires c !in s && c !in r
    ensures c !in Subst(k, r, s)
  {
    if k == [] {
      EmptyKeyAbsent(r, s, 0, c);
    } else {
      SubstAbsent(k, r, s, 0, c);
    }
  }

  lemma {:induction false} SubstAbsent(k: string, r: string, s: string, i: nat, c: char)
    requires |k| > 0 && i <= |s| && c !in s && c !in r
    ensures c !in SubstFrom(k, r, s, i)
    decreases |s| - i
  {
    if i < |s| {
      if KeyMatchAt(k, s, i) {
        SubstAbsent(k, r, s, i + |k|, c);
      } else {
        SubstAbsent(k, r, s, i + 1, c);
      }
    }
  }

  lemma {:induction false} EmptyKeyAbsent(r: string, s: string, i: nat, c: char)
    requires i <= |s| && c !in s && c !in r
    ensures c !in EmptyKeyFrom(r, s, i)
    decreases |s| - i
  {
    if i < |s| {
      EmptyKeyAbsent(r, s, i + 1, c);
      assert s[i] in s;
    }
  }

  // ---------------------------------------------------------------------------
  // Keys made of word characters

  lemma OccursChar(s: string, p: string, i: int, j: int)
    requires OccursAt(s, p, i) && 0 <= j < |p|
    ensures s[i + j] == p[j]
  {
    assert s[i..i + |p|][j] == s[i + j];
  }

  /** Two texts meet without gluing two word characters together. */
  predicate SafeSeam(a: string, b: string) {
    !(a != [] && b != [] && IsWord(a[|a| - 1]) && IsWord(b[0]))
  }

  /** For a key of word characters, a match is exactly an occurrence that is not
      part of a longer word. */
  lemma WordKeyMatch(k: string, s: string, i: int)
    requires IsWordStr(k)
    ensures KeyMatchAt(k, s, i) <==>
      OccursAt(s, k, i) && !WordAt(s, i - 1) && !WordAt(s, i + |k|)
  {
    if OccursAt(s, k, i) {
      assert s[i] == k[0] && s[i + |k| - 1] == k[|k| - 1];
    }
  }

  lemma ShiftMatch(k: string, a: string, b: string, j: nat)
    requires IsWordStr(k) && SafeSeam(a, b) && j < |b|
    ensures KeyMatchAt(k, a + b, |a| + j) == KeyMatchAt(k, b, j)
  {
    var s := a + b;
    WordKeyMatch(k, s, |a| + j);
    WordKeyMatch(k, b, j);
    if j + |k| <= |b| {
      assert s[|a| + j..|a| + j + |k|] == b[j..j + |k|];
      if OccursAt(b, k, j) && j == 0 && |a| > 0 {
        assert b[0] == k[0];
      }
    }
  }

  /** Where the scan goes after position `i`. */
  function After(k: string, s: string, i: nat): (j: nat)
    requires |k| > 0 && i < |s|
    ensures i < j <= |s|
  {
    if KeyMatchAt(k, s, i) then i + |k| else i + 1
  }

  lemma {:induction false} ShiftRight(k: string, r: string, a: string, b: string, j: nat)
    requires IsWordStr(k) && SafeSeam(a, b) && j <= |b|
    ensures SubstFrom(k, r, a + b, |a| + j) == SubstFrom(k, r, b, j)
    decreases |b| - j
  {
    if j == |b| {
      assert |a + b| == |a| + j;
    } else {
      ShiftRight(k, r, a, b, After(k, b, j));
      ShiftStep(k, r, a, b, j);
    }
  }

  lemma ShiftStep(k: string, r: string, a: string, b: string, j: nat)
    requires IsWordStr(k) && SafeSeam(a, b) && j < |b|
    requires SubstFrom(k, r, a + b, |a| + After(k, b, j)) == SubstFrom(k, r, b, After(k, b, j))
    ensures SubstFrom(k, r, a + b, |a| + j) == SubstFrom(k, r, b, j)
  {
    if KeyMatchAt(k, b, j) {
      ShiftMatched(k, r, a, b, j);
    } else {
      ShiftUnmatched(k, r, a, b, j);
    }
  }

  lemma ShiftMatched(k: string, r: string, a: string, b: string, j: nat)
    requires IsWordStr(k) && SafeSeam(a, b) && j < |b| && KeyMatchAt(k, b, j)
    requires SubstFrom(k, r, a + b, |a| + (j + |k|)) == SubstFrom(k, r, b, j + |k|)
    ensures SubstFrom(k, r, a + b, |a| + j) == SubstFrom(k, r, b, j)
  {
    ShiftMatch(k, a, b, j);
  }

  lemma ShiftUnmatched(k: string, r: string, a: string, b: string, j: nat)
    requires IsWordStr(k) && SafeSeam(a, b) && j < |b| && !KeyMatchAt(k, b, j)
    requires SubstFrom(k, r, a + b, |a| + (j + 1)) == SubstFrom(k, r, b, j + 1)
    ensures SubstFrom(k, r, a + b, |a| + j) == SubstFrom(k, r, b, j)
  {
    ShiftMatch(k, a, b, j);
    assert (a + b)[|a| + j] == b[j];
  }

  lemma PrefixMatch(k: string, a: string, b: string, i: nat)
    requires IsWordStr(k) && SafeSeam(a, b) && i < |a|
    ensures KeyMatchAt(k, a + b, i) == KeyMatchAt(k, a, i)
  {
    var s := a + b;
    WordKeyMatch(k, s, i);
    WordKeyMatch(k, a, i);
    if OccursAt(s, k, i) && i + |k| > |a| {
      OccursChar(s, k, i, |a| - 1 - i);
      OccursChar(s, k, i, |a| - i);
      assert false;
    }
    if i + |k| <= |a| {
      assert s[i..i + |k|] == a[i..i + |k|];
      if OccursAt(a, k, i) {
        OccursChar(a, k, i, |k| - 1);
      }
    }
  }

  lemma {:induction false} SplitFrom(k: string, r: string, a: string, b: string, i: nat)
    requires IsWordStr(k) && SafeSeam(a, b) && i <= |a|
    ensures SubstFrom(k, r, a + b, i) == SubstFrom(k, r, a, i) + SubstFrom(k, r, b, 0)
    decreases |a| - i
  {
    if i == |a| {
      ShiftRight(k, r, a, b, 0);
      assert SubstFrom(k, r, a, i) == "";
    } else {
      PrefixMatch(k, a, b, i);
      if KeyMatchAt(k, a, i) {
        SplitFrom(k, r, a, b, i + |k|);
        ConcatAssoc(r, SubstFrom(k, r, a, i + |k|), SubstFrom(k, r, b, 0));
      } else {
        assert (a + b)[i] == a[i];
        SplitFrom(k, r, a, b, i + 1);
        ConcatAssoc([a[i]], SubstFrom(k, r, a, i + 1), SubstFrom(k, r, b, 0));
      }
    }
  }

  /** A word key's substitution distributes over a concatenation whose seam does
      not join two word characters. */
  lemma Split(k: string, r: string, a: string, b: string)
    requires IsWordStr(k) && SafeSeam(a, b)
    ensures Subst(k, r, a + b) == Subst(k, r, a) + Subst(k, r, b)
  {
    SplitFrom(k, r, a, b, 0);
  }

  /** A whole word is replaced exactly when it is the key. */
  lemma {:induction false} SubstWord(k: string, r: string, w: string)
    requires IsWordStr(k) && IsWordStr(w)
    ensures Subst(k, r, w) == if w == k then r else w
  {
    forall q | 0 < q < |w| ensures !KeyMatchAt(k, w, q) {
      WordKeyMatch(k, w, q);
    }
    WordKeyMatch(k, w, 0);
    if w == k {
      assert OccursAt(w, k, 0);
      assert SubstFrom(k, r, w, |k|) == "";
    } else {
      if OccursAt(w, k, 0) && |k| < |w| {
        assert WordAt(w, |k|);
      }
      assert !KeyMatchAt(k, w, 0);
      Verbatim(k, r, w, 0, |w|);
    }
  }

  /** Text without word characters is left alone by a word key. */
  lemma {:induction false} SubstNoWord(k: string, r: string, s: string)
    requires IsWordStr(k) && forall i :: 0 <= i < |s| ==> !IsWord(s[i])
    ensures Subst(k, r, s) == s
  {
    assert forall q :: 0 <= q < |s| ==> !KeyMatchAt(k, s, q);
    Verbatim(k, r, s, 0, |s|);
  }
}
