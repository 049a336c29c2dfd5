/** The second rewriting pass of a Sigma condition: every selection name, longest
    first, is replaced wherever it stands as a whole word by `results['<name>']`.
    The pass does not skip text it produced itself, which is what the lemmas at
    the end of this module are about. */
module SigmaBare {
  import opened Common
  import opened SigmaRegex
  import opened SigmaQuant
  import Sorting

  /** The sort key of the pass: longer names first. */
  predicate LongerFirst(a: string, b: string) {
    |a| >= |b|
  }

  /** `sorted(names, key=len, reverse=True)`: stable, so names of equal length
      keep the order of the detection section. */
  function ByLength(names: seq<string>): (r: seq<string>)
    ensures multiset(r) == multiset(names) && |r| == |names|
  {
    Sorting.SortPerm(names, LongerFirst);
    Sorting.Sort(names, LongerFirst)
  }

  /** One step of the pass. */
  function SubstName(s: string, name: string): string {
    Subst(name, Ref(name), s)
  }

  /** The substitutions for `keys`, applied in order. */
  function BarePass(s: string, keys: seq<string>): string
    decreases |keys|
  {
    if keys == [] then s else BarePass(SubstName(s, keys[0]), keys[1..])
  }

  lemma LongerFirstPreorder()
    ensures Sorting.TotalPreorder(LongerFirst)
  {
  }

  /** Names come out of the sort longest first. */
  lemma ByLengthOrdered(names: seq<string>)
    ensures forall i, j :: 0 <= i < j < |ByLength(names)| ==> |ByLength(names)[i]| >= |ByLength(names)[j]|
  {
    LongerFirstPreorder();
    Sorting.SortSorted(names, LongerFirst);
  }

  // ---------------------------------------------------------------------------
  // Quoted names

  /** A quote character. */
  const Q: char := '\''

  /** `'k'` at position `p`. */
  predicate QuotedAt(s: string, k: string, p: int) {
    0 <= p && p + |k| + 2 <= |s| && s[p] == Q && OccursAt(s, k, p + 1) && s[p + |k| + 1] == Q
  }

  /** `'w['c` at position `p`: a quote, a run of `n` word characters, `[`, a quote
      and a word character. Whatever way the quotes pair up, a string literal
      ends right before a word character. */
  predicate BrokenAt(s: string, p: int, n: int) {
    n >= 1 && 0 <= p && p + n + 4 <= |s| && s[p] == Q
    && (forall j :: p + 1 <= j <= p + n ==> IsWord(s[j]))
    && s[p + n + 1] == '[' && s[p + n + 2] == Q && IsWord(s[p + n + 3])
  }

  /** The pieces of a broken spot, put together. */
  lemma BrokenParts(pre: string, w: string, tail: string)
    requires IsWordStr(w) && |tail| > 0 && IsWord(tail[0])
    ensures BrokenAt(pre + [Q] + w + "['" + tail, |pre|, |w|)
  {
    var s := pre + [Q] + w + "['" + tail;
    forall j | |pre| + 1 <= j <= |pre| + |w| ensures IsWord(s[j]) {
      assert s[j] == w[j - |pre| - 1];
    }
  }

  /** A key without quotes never covers a quote. */
  lemma QuoteNotCovered(k: string, s: string, p: nat)
    requires |k| > 0 && Q !in k && p < |s| && s[p] == Q
    ensures forall q :: 0 <= q <= p && KeyMatchAt(k, s, q) ==> q + |k| <= p
  {
    forall q | 0 <= q <= p && KeyMatchAt(k, s, q) ensures q + |k| <= p {
      if q + |k| > p {
        OccursChar(s, k, q, p - q);
        assert false;
      }
    }
  }

  /** The scan of a quote-free key reaches every quote, and copies it. */
  lemma ReachQuote(k: string, r: string, s: string, p: nat) returns (x: string)
    requires |k| > 0 && Q !in k && p < |s| && s[p] == Q
    ensures SubstFrom(k, r, s, 0) == x + [Q] + SubstFrom(k, r, s, p + 1)
  {
    QuoteNotCovered(k, s, p);
    x := Reach(k, r, s, 0, p);
    assert !KeyMatchAt(k, s, p) by {
      if OccursAt(s, k, p) {
        OccursChar(s, k, p, 0);
        assert false;
      }
    }
  }

  /** The text the scan produces from a word character starts with a word
      character when the replacement does. */
  lemma StartsWithWord(k: string, r: string, s: string, j: nat)
    requires |k| > 0 && j < |s| && IsWord(s[j]) && |r| > 0 && IsWord(r[0])
    ensures |SubstFrom(k, r, s, j)| > 0 && IsWord(SubstFrom(k, r, s, j)[0])
  {
  }

  /** The pieces of a quoted name, put together. */
  lemma QuotedParts(pre: string, k: string, tail: string)
    ensures QuotedAt(pre + [Q] + k + [Q] + tail, k, |pre|)
  {
    var s := pre + [Q] + k + [Q] + tail;
    assert s[|pre| + 1..|pre| + 1 + |k|] == k;
  }

  /** No match of a different, at least as long, quote-free name starts inside a
      quoted name. */
  lemma QuotedNoMatch(s: string, k: string, p: nat, k2: string)
    requires QuotedAt(s, k, p)
    requires |k2| > 0 && Q !in k2 && |k2| >= |k| && k2 != k
    ensures forall q :: p + 1 <= q < p + |k| + 2 ==> !KeyMatchAt(k2, s, q)
  {
    forall q | p + 1 <= q < p + |k| + 2 && KeyMatchAt(k2, s, q) ensures false {
      if q + |k2| <= p + |k| + 1 {
        assert false;
      } else {
        OccursChar(s, k2, q, p + |k| + 1 - q);
        assert false;
      }
    }
  }

  /** A match right after a copied quote is replaced by its reference. */
  lemma RewrappedAfterQuote(s: string, k2: string, x: string, i: nat)
    requires 0 < i && KeyMatchAt(k2, s, i)
    requires SubstFrom(k2, Ref(k2), s, 0) == x + [Q] + SubstFrom(k2, Ref(k2), s, i)
    ensures SubstName(s, k2) == x + [Q] + "results" + "['" + (k2 + "']" + SubstFrom(k2, Ref(k2), s, i + |k2|))
  {
    MatchRef(s, k2, i);
    hide SubstFrom, Ref, KeyMatchAt;
  }

  /** The substitution at a match starts with the reference. */
  lemma MatchRef(s: string, k2: string, i: nat)
    requires KeyMatchAt(k2, s, i)
    ensures |k2| > 0 && i + |k2| <= |s|
    ensures SubstFrom(k2, Ref(k2), s, i) == "results" + "['" + (k2 + "']" + SubstFrom(k2, Ref(k2), s, i + |k2|))
  {
    var t1 := SubstFrom(k2, Ref(k2), s, i + |k2|);
    assert SubstFrom(k2, Ref(k2), s, i) == Ref(k2) + t1;
    assert Ref(k2) + t1 == "results" + "['" + (k2 + "']" + t1);
  }

  /** A quoted name survives the substitution of a different name at least as
      long as itself. */
  lemma QuotedSurvives(s: string, k: string, p: nat, k2: string) returns (p2: nat)
    requires QuotedAt(s, k, p)
    requires |k2| > 0 && Q !in k2 && |k2| >= |k| && k2 != k
    ensures QuotedAt(SubstName(s, k2), k, p2)
  {
    var x := ReachQuote(k2, Ref(k2), s, p);
    var e := p + |k| + 2;
    QuotedNoMatch(s, k, p, k2);
    CopiedAfterQuote(s, k2, x, p + 1, e);
    assert s[p + 1..e] == k + [Q];
    QuotedParts(x, k, SubstFrom(k2, Ref(k2), s, e));
    p2 := |x|;
  }

  /** The substitution of a quoted name rewrites it inside its own quotes,
      which breaks the text. */
  lemma QuotedBreaks(s: string, k: string, p: nat) returns (p2: nat, n: nat)
    requires QuotedAt(s, k, p) && Q !in k && |k| > 0
    requires IsWord(k[0]) && IsWord(k[|k| - 1])
    ensures BrokenAt(SubstName(s, k), p2, n)
  {
    var x := ReachQuote(k, Ref(k), s, p);
    assert KeyMatchAt(k, s, p + 1) by {
      OccursChar(s, k, p + 1, |k| - 1);
    }
    RewrappedAfterQuote(s, k, x, p + 1);
    BrokenParts(x, "results", k + "']" + SubstFrom(k, Ref(k), s, p + 1 + |k|));
    p2, n := |x|, 7;
  }

  /** Once broken, the text stays broken under any further substitution of a
      quote-free name. */
  lemma BrokenSurvives(s: string, p: nat, n: nat, k2: string) returns (p2: nat, n2: nat)
    requires BrokenAt(s, p, n)
    requires |k2| > 0 && Q !in k2
    ensures BrokenAt(SubstName(s, k2), p2, n2)
  {
    var x := ReachQuote(k2, Ref(k2), s, p);
    BracketCopied(s, p, n, k2);
    if KeyMatchAt(k2, s, p + 1) {
      p2, n2 := BrokenRewrapped(s, p, n, k2, x);
    } else {
      p2, n2 := BrokenCopied(s, p, n, k2, x);
    }
  }

  /** Inside a broken spot no match starts after the first word character. */
  lemma BracketCopied(s: string, p: nat, n: nat, k2: string)
    requires BrokenAt(s, p, n)
    requires |k2| > 0 && Q !in k2
    ensures forall q :: p + 1 < q < p + n + 3 ==> !KeyMatchAt(k2, s, q)
  {
    forall q | p + 1 < q <= p + n ensures !KeyMatchAt(k2, s, q) {
      assert !Boundary(s, q);
    }
    assert !KeyMatchAt(k2, s, p + n + 1) by {
      if KeyMatchAt(k2, s, p + n + 1) {
        if |k2| >= 2 {
          OccursChar(s, k2, p + n + 1, 1);
        }
        assert false;
      }
    }
    assert !KeyMatchAt(k2, s, p + n + 2) by {
      if OccursAt(s, k2, p + n + 2) {
        OccursChar(s, k2, p + n + 2, 0);
        assert false;
      }
    }
  }

  /** A match right after the quote of a broken spot covers exactly its word. */
  lemma RewrapLength(s: string, p: nat, n: nat, k2: string)
    requires BrokenAt(s, p, n) && KeyMatchAt(k2, s, p + 1) && Q !in k2
    ensures |k2| == n
  {
    if |k2| > n + 1 {
      OccursChar(s, k2, p + 1, n + 1);
      assert false;
    }
  }

  /** The name between the quote and the bracket is the key: it is wrapped once
      more, and the new spot starts at the same quote. */
  lemma BrokenRewrapped(s: string, p: nat, n: nat, k2: string, x: string) returns (p2: nat, n2: nat)
    requires BrokenAt(s, p, n)
    requires |k2| > 0 && Q !in k2
    requires SubstFrom(k2, Ref(k2), s, 0) == x + [Q] + SubstFrom(k2, Ref(k2), s, p + 1)
    requires KeyMatchAt(k2, s, p + 1)
    ensures BrokenAt(SubstName(s, k2), p2, n2)
  {
    RewrapLength(s, p, n, k2);
    RewrappedAfterQuote(s, k2, x, p + 1);
    assert k2[0] == s[p + 1] by { OccursChar(s, k2, p + 1, 0); }
    BrokenParts(x, "results", k2 + "']" + SubstFrom(k2, Ref(k2), s, p + 1 + |k2|));
    p2, n2 := |x|, 7;
  }

  /** The word of a broken spot and the bracket after it. */
  lemma BrokenWord(s: string, p: nat, n: nat)
    requires BrokenAt(s, p, n)
    ensures IsWordStr(s[p + 1..p + n + 1]) && s[p + 1..p + n + 3] == s[p + 1..p + n + 1] + "['"
  {
    var w := s[p + 1..p + n + 1];
    forall j | 0 <= j < |w| ensures IsWord(w[j]) {
      assert w[j] == s[p + 1 + j];
    }
  }

  /** The scan copies a stretch without matches that follows a copied quote. */
  lemma CopiedAfterQuote(s: string, k2: string, x: string, i: nat, e: nat)
    requires |k2| > 0 && 0 < i <= e <= |s|
    requires forall q :: i <= q < e ==> !KeyMatchAt(k2, s, q)
    requires SubstFrom(k2, Ref(k2), s, 0) == x + [Q] + SubstFrom(k2, Ref(k2), s, i)
    ensures SubstName(s, k2) == x + [Q] + s[i..e] + SubstFrom(k2, Ref(k2), s, e)
  {
    Verbatim(k2, Ref(k2), s, i, e);
  }

  /** No match at the name: the spot is copied, and what follows it still starts
      with a word character. */
  lemma BrokenCopied(s: string, p: nat, n: nat, k2: string, x: string) returns (p2: nat, n2: nat)
    requires BrokenAt(s, p, n)
    requires |k2| > 0 && Q !in k2
    requires forall q :: p + 1 < q < p + n + 3 ==> !KeyMatchAt(k2, s, q)
    requires SubstFrom(k2, Ref(k2), s, 0) == x + [Q] + SubstFrom(k2, Ref(k2), s, p + 1)
    requires !KeyMatchAt(k2, s, p + 1)
    ensures BrokenAt(SubstName(s, k2), p2, n2)
  {
    var c := p + n + 3;
    var tail := SubstFrom(k2, Ref(k2), s, c);
    StartsWithWord(k2, Ref(k2), s, c);
    BrokenWord(s, p, n);
    CopiedAfterQuote(s, k2, x, p + 1, c);
    BrokenAssembled(SubstName(s, k2), x, s[p + 1..c], s[p + 1..p + n + 1], tail);
    p2, n2 := |x|, n;
  }

  /** A broken spot assembled from a copied stretch that starts with its word. */
  lemma BrokenAssembled(t: string, pre: string, mid: string, w: string, tail: string)
    requires t == pre + [Q] + mid + tail && mid == w + "['"
    requires IsWordStr(w) && |tail| > 0 && IsWord(tail[0])
    ensures BrokenAt(t, |pre|, |w|)
  {
    assert t == pre + [Q] + w + "['" + tail;
    BrokenParts(pre, w, tail);
  }

  /** A broken text stays broken through the rest of the pass. */
  lemma {:induction false} BrokenThroughPass(s: string, p: nat, n: nat, keys: seq<string>) returns (p2: nat, n2: nat)
    requires BrokenAt(s, p, n)
    requires forall k :: k in keys ==> |k| > 0 && Q !in k
    ensures BrokenAt(BarePass(s, keys), p2, n2)
    decreases |keys|
  {
    if keys == [] {
      p2, n2 := p, n;
    } else {
      var p1, n1 := BrokenSurvives(s, p, n, keys[0]);
      assert forall k :: k in keys[1..] ==> k in keys;
      p2, n2 := BrokenThroughPass(SubstName(s, keys[0]), p1, n1, keys[1..]);
    }
  }

  /** The pass breaks a quoted name that reaches it: longer names before it leave
      it alone, its own substitution breaks it, and nothing repairs it. */
  lemma {:induction false} PassBreaksQuoted(s: string, k: string, p: nat, keys: seq<string>, j: nat)
    returns (p2: nat, n2: nat)
    requires QuotedAt(s, k, p) && Q !in k && |k| > 0 && IsWord(k[0]) && IsWord(k[|k| - 1])
    requires forall x :: x in keys ==> |x| > 0 && Q !in x
    requires j < |keys| && keys[j] == k
    requires forall i :: 0 <= i < j ==> |keys[i]| >= |k| && keys[i] != k
    ensures BrokenAt(BarePass(s, keys), p2, n2)
    decreases |keys|
  {
    assert forall x :: x in keys[1..] ==> x in keys;
    if j == 0 {
      var p1, n1 := QuotedBreaks(s, k, p);
      p2, n2 := BrokenThroughPass(SubstName(s, k), p1, n1, keys[1..]);
    } else {
      assert keys[0] in keys;
      var p1 := QuotedSurvives(s, k, p, keys[0]);
      p2, n2 := PassBreaksQuoted(SubstName(s, keys[0]), k, p1, keys[1..], j - 1);
    }
  }

  /** A character that neither the text nor any name contains is not produced by
      the pass. */
  lemma {:induction false} PassAbsent(s: string, keys: seq<string>, c: char)
    requires c !in s && c !in "results['']"
    requires forall k :: k in keys ==> c !in k
    ensures c !in BarePass(s, keys)
    decreases |keys|
  {
    if keys != [] {
      assert keys[0] in keys;
      assert c !in Ref(keys[0]);
      CharAbsent(keys[0], Ref(keys[0]), s, c);
      assert forall k :: k in keys[1..] ==> k in keys;
      PassAbsent(SubstName(s, keys[0]), keys[1..], c);
    }
  }
}
