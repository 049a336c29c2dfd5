/** Shared vocabulary of the model: failure-compatible wrappers and the small
    part of Python's string and integer behaviour that the modelled code relies on.
    Characters are compared by code point; case mapping and the character classes
    (word characters of the `\b` regex anchor) are the ASCII ones; whitespace is
    Python's full `str.isspace` set. */
module Common {

  datatype Option<+T> = None | Some(value: T)

  /** The outcome of a Python call that may raise: `Err` stands for "an exception
      escaped", whatever its class. */
  datatype Result<+T> = Ok(value: T) | Err

  // ---------------------------------------------------------------------------
  // Character classes

  /** A character of the `\w` class (ASCII letters, digits, underscore). */
  predicate IsWord(c: char) {
    ('a' <= c <= 'z') || ('A' <= c <= 'Z') || ('0' <= c <= '9') || c == '_'
  }

  predicate IsDigit(c: char) {
    '0' <= c <= '9'
  }

  /** Whitespace as Python's `str.isspace` (and so `str.strip`, `str.split` and the
      regex class `\s`) sees it: the ASCII separators and the Unicode spaces, among
      them the no-break space U+00A0 and the ideographic space U+3000. */
  predicate IsSpace(c: char) {
    c == ' ' || c == '\t' || c == '\n' || c == '\r' || c == '\U{000B}' || c == '\U{000C}'
    || c == '\U{001C}' || c == '\U{001D}' || c == '\U{001E}' || c == '\U{001F}'
    || c == '\U{0085}' || c == '\U{00A0}' || c == '\U{1680}' || ('\U{2000}' <= c <= '\U{200A}')
    || c == '\U{2028}' || c == '\U{2029}' || c == '\U{202F}' || c == '\U{205F}' || c == '\U{3000}'
  }

  function LowerChar(c: char): (r: char)
    ensures 'A' <= c <= 'Z' ==> r as int == c as int + 32
    ensures !('A' <= c <= 'Z') ==> r == c
  {
    if 'A' <= c <= 'Z' then (c as int + 32) as char else c
  }

  function UpperChar(c: char): (r: char)
    ensures 'a' <= c <= 'z' ==> r as int == c as int - 32
    ensures !('a' <= c <= 'z') ==> r == c
  {
    if 'a' <= c <= 'z' then (c as int - 32) as char else c
  }

  /** `str.lower()` on ASCII. */
  function Lower(s: string): (r: string)
    ensures |r| == |s|
    ensures forall i :: 0 <= i < |s| ==> r[i] == LowerChar(s[i])
  {
    if s == [] then [] else [LowerChar(s[0])] + Lower(s[1..])
  }

  lemma {:induction false} LowerIdempotent(s: string)
    ensures Lower(Lower(s)) == Lower(s)
  {
    if s != [] {
      LowerIdempotent(s[1..]);
      assert Lower(s)[1..] == Lower(s[1..]);
    }
  }

  lemma LowerAppend(a: string, b: string)
    ensures Lower(a + b) == Lower(a) + Lower(b)
  {
    forall i | 0 <= i < |a + b| ensures Lower(a + b)[i] == (Lower(a) + Lower(b))[i] {
      if i < |a| {
        assert (a + b)[i] == a[i];
      } else {
        assert (a + b)[i] == b[i - |a|];
      }
    }
  }

  // ---------------------------------------------------------------------------
  // Substrings

  predicate IsPrefix(p: string, s: string) {
    |p| <= |s| && s[..|p|] == p
  }

  predicate IsSuffix(p: string, s: string) {
    |p| <= |s| && s[|s| - |p|..] == p
  }

  /** `p` occurs in `s` starting at index `i`. */
  predicate OccursAt(s: string, p: string, i: int) {
    0 <= i && i + |p| <= |s| && s[i..i + |p|] == p
  }

  /** Python's `p in s` for strings. */
  ghost predicate Contains(s: string, p: string) {
    exists i :: OccursAt(s, p, i)
  }

  /** Executable substring search, equal to `Contains`. */
  function ContainsAt(s: string, p: string, from: nat): (r: bool)
    requires from <= |s| + 1
    ensures r <==> exists i :: from <= i && OccursAt(s, p, i)
    decreases |s| + 1 - from
  {
    if from + |p| > |s| then false
    else if s[from..from + |p|] == p then assert OccursAt(s, p, from); true
    else ContainsAt(s, p, from + 1)
  }

  function Find(s: string, p: string): (r: bool)
    ensures r <==> Contains(s, p)
  {
    ContainsAt(s, p, 0)
  }

  lemma PrefixContains(p: string, s: string)
    requires IsPrefix(p, s)
    ensures Contains(s, p)
  {
    assert OccursAt(s, p, 0);
  }

  lemma ContainsOfPart(a: string, b: string, c: string, p: string)
    requires Contains(b, p)
    ensures Contains(a + b + c, p)
  {
    var i :| OccursAt(b, p, i);
    var s := a + b + c;
    assert s[|a| + i..|a| + i + |p|] == b[i..i + |p|];
    assert OccursAt(s, p, |a| + i);
  }

  // ---------------------------------------------------------------------------
  // strip, split, join

  function LStrip(s: string): (r: string)
    ensures |r| <= |s| && r == s[|s| - |r|..]
    ensures r == [] || !IsSpace(r[0])
    ensures forall i :: 0 <= i < |s| - |r| ==> IsSpace(s[i])
  {
    if s != [] && IsSpace(s[0]) then LStrip(s[1..]) else s
  }

  function RStrip(s: string): (r: string)
    ensures |r| <= |s| && r == s[..|r|]
    ensures r == [] || !IsSpace(r[|r| - 1])
    ensures forall i :: |r| <= i < |s| ==> IsSpace(s[i])
  {
    if s != [] && IsSpace(s[|s| - 1]) then RStrip(s[..|s| - 1]) else s
  }

  /** `str.strip()`: both ends lose their whitespace, the middle is kept. */
  function Strip(s: string): (r: string)
    ensures r == [] || (!IsSpace(r[0]) && !IsSpace(r[|r| - 1]))
    ensures (forall i :: 0 <= i < |s| ==> !IsSpace(s[i])) ==> r == s
    ensures Contains(s, r)
  {
    var l := LStrip(s);
    var r := RStrip(l);
    assert s[|s| - |l| .. |s| - |l| + |r|] == r;
    assert OccursAt(s, r, |s| - |l|);
    r
  }

  predicate NoSpaceAtEnds(s: string) {
    s != [] && !IsSpace(s[0]) && !IsSpace(s[|s| - 1])
  }

  lemma StripOfTrimmed(s: string)
    requires NoSpaceAtEnds(s)
    ensures Strip(s) == s
  {
  }

  lemma StripAllSpace(s: string)
    requires forall i :: 0 <= i < |s| ==> IsSpace(s[i])
    ensures Strip(s) == []
  {
  }

  /** `s.split(c)` for a one-character separator: never empty, and the pieces do
      not contain the separator. */
  function Split(s: string, c: char): (r: seq<string>)
    ensures |r| >= 1
    ensures forall k :: 0 <= k < |r| ==> c !in r[k]
    ensures c !in s ==> r == [s]
    ensures c in s ==> |r| >= 2
  {
    if s == [] then [""]
    else if s[0] == c then [""] + Split(s[1..], c)
    else
      var rest := Split(s[1..], c);
      assert c !in s ==> rest == [s[1..]] && [s[0]] + s[1..] == s;
      [[s[0]] + rest[0]] + rest[1..]
  }

  /** `sep.join(xs)`. */
  function Join(sep: string, xs: seq<string>): (r: string)
  {
    if xs == [] then ""
    else if |xs| == 1 then xs[0]
    else xs[0] + sep + Join(sep, xs[1..])
  }

  lemma {:induction false} SplitJoin(s: string, c: char)
    ensures Join([c], Split(s, c)) == s
  {
    if s != [] {
      SplitJoin(s[1..], c);
      var rest := Split(s[1..], c);
      if s[0] == c {
        assert Split(s, c) == [""] + rest;
      } else {
        if |rest| == 1 {
        } else {
          assert Join([c], rest) == rest[0] + [c] + Join([c], rest[1..]);
        }
      }
    }
  }

  /** Splitting a separator-joined list of separator-free items gives the items back. */
  lemma {:induction false} JoinSplit(xs: seq<string>, c: char)
    requires xs != []
    requires forall k :: 0 <= k < |xs| ==> c !in xs[k]
    ensures Split(Join([c], xs), c) == xs
  {
    if |xs| == 1 {
    } else {
      JoinSplit(xs[1..], c);
      SplitPrefixFree(xs[0], [c] + Join([c], xs[1..]), c);
      var j := Join([c], xs[1..]);
      SplitSeparatorFirst(j, c);
      assert Join([c], xs) == xs[0] + ([c] + j);
      var t := Split([c] + j, c);
      assert t == [""] + xs[1..];
      assert t[0] == "" && t[1..] == xs[1..];
      assert xs[0] + t[0] == xs[0];
      assert [xs[0]] + xs[1..] == xs;
    }
  }

  lemma SplitSeparatorFirst(t: string, c: char)
    ensures Split([c] + t, c) == [""] + Split(t, c)
  {
    assert ([c] + t)[1..] == t;
  }

  lemma {:induction false} SplitPrefixFree(a: string, t: string, c: char)
    requires c !in a
    requires t != [] && t[0] == c
    ensures Split(a + t, c) == [a + Split(t, c)[0]] + Split(t, c)[1..]
    ensures Split(t, c)[0] == ""
  {
    if a == [] {
      assert a + t == t;
    } else {
      SplitPrefixFree(a[1..], t, c);
      assert (a + t)[1..] == a[1..] + t;
      assert [a[0]] + (a[1..] + Split(t, c)[0]) == a + Split(t, c)[0];
    }
  }

  // ---------------------------------------------------------------------------
  // Decimal integers

  function DigitChar(d: nat): (c: char)
    requires d < 10
    ensures IsDigit(c) && c as int - '0' as int == d
  {
    ('0' as int + d) as char
  }

  function NatToString(n: nat): (r: string)
    ensures r != [] && forall i :: 0 <= i < |r| ==> IsDigit(r[i])
  {
    if n < 10 then [DigitChar(n)] else NatToString(n / 10) + [DigitChar(n % 10)]
  }

  /** `str(i)` for an integer. */
  function IntToString(i: int): (r: string)
    ensures r != [] && forall k :: 0 <= k < |r| ==> !IsSpace(r[k]) && r[k] != ',' && r[k] != '\n'
  {
    if i < 0 then "-" + NatToString(-i) else NatToString(i)
  }

  function DigitsValue(ds: string): nat
    requires forall i :: 0 <= i < |ds| ==> IsDigit(ds[i])
  {
    if ds == [] then 0 else
      assert IsDigit(ds[|ds| - 1]);
      DigitsValue(ds[..|ds| - 1]) * 10 + (ds[|ds| - 1] as int - '0' as int)
  }

  predicate AllDigits(s: string) {
    s != [] && forall i :: 0 <= i < |s| ==> IsDigit(s[i])
  }

  /** Python's `int(s)` on a string: surrounding whitespace is ignored, an optional
      sign precedes at least one decimal digit; anything else raises (`None`). */
  function ParseInt(s: string): (r: Option<int>)
    ensures r.Some? ==> Strip(s) != []
  {
    var t := Strip(s);
    if t == [] then None
    else if t[0] == '-' && AllDigits(t[1..]) then Some(0 - DigitsValue(t[1..]))
    else if t[0] == '+' && AllDigits(t[1..]) then Some(DigitsValue(t[1..]))
    else if AllDigits(t) then Some(DigitsValue(t))
    else None
  }

  lemma {:induction false} NatToStringValue(n: nat)
    ensures DigitsValue(NatToString(n)) == n
  {
    if n >= 10 {
      NatToStringValue(n / 10);
      var s := NatToString(n / 10) + [DigitChar(n % 10)];
      assert s[..|s| - 1] == NatToString(n / 10);
    }
  }

  /** `int(str(i)) == i`. */
  lemma ParseIntToString(i: int)
    ensures ParseInt(IntToString(i)) == Some(i)
  {
    var s := IntToString(i);
    StripOfTrimmed(s);
    if i < 0 {
      NatToStringValue(-i);
      assert s[1..] == NatToString(-i);
    } else {
      NatToStringValue(i);
    }
  }

  lemma {:induction false} NatToStringInjective(a: nat, b: nat)
    requires NatToString(a) == NatToString(b)
    ensures a == b
  {
    NatToStringValue(a);
    NatToStringValue(b);
  }

  // ---------------------------------------------------------------------------
  // Line splitting of text files

  /** Index just past the first newline of `s`, or `|s|` when there is none. */
  function LineEnd(s: string): (n: nat)
    ensures 0 < n <= |s| || (s == [] && n == 0)
    ensures forall j :: 0 <= j < n - 1 ==> s[j] != '\n'
    ensures n < |s| ==> s[n - 1] == '\n'
    ensures n == |s| && s != [] && '\n' in s ==> s[n - 1] == '\n'
  {
    if s == [] then 0 else if s[0] == '\n' then 1 else 1 + LineEnd(s[1..])
  }

  /** `f.readlines()` / iteration over a text file: the lines keep their `\n`, the
      last one may lack it. */
  function LinesKeepEnds(s: string): (r: seq<string>)
    ensures (r == []) <==> (s == [])
    ensures forall k :: 0 <= k < |r| ==> r[k] != []
    decreases |s|
  {
    if s == [] then [] else
      var n := LineEnd(s);
      [s[..n]] + LinesKeepEnds(s[n..])
  }

  function Concat(xs: seq<string>): string {
    if xs == [] then "" else xs[0] + Concat(xs[1..])
  }

  /** The first line, then the lines after it. */
  lemma LinesStep(s: string)
    requires s != []
    ensures LinesKeepEnds(s) == [s[..LineEnd(s)]] + LinesKeepEnds(s[LineEnd(s)..])
  {
  }

  lemma ConcatCons(x: string, xs: seq<string>)
    ensures Concat([x] + xs) == x + Concat(xs)
  {
    assert ([x] + xs)[1..] == xs;
  }

  lemma {:induction false} LinesConcat(s: string)
    ensures Concat(LinesKeepEnds(s)) == s
    decreases |s|
  {
    if s != [] {
      var n := LineEnd(s);
      LinesStep(s);
      LinesConcat(s[n..]);
      ConcatCons(s[..n], LinesKeepEnds(s[n..]));
      hide LinesKeepEnds, Concat, LineEnd;
      assert s[..n] + s[n..] == s;
    }
  }

  lemma LinesOfLine(l: string)
    requires '\n' !in l
    ensures LinesKeepEnds(l + "\n") == [l + "\n"]
  {
    var s := l + "\n";
    assert forall j :: 0 <= j < |l| ==> s[j] != '\n';
    LineEndOf(l);
    assert s[..|s|] == s;
    assert s[|s|..] == [];
  }

  lemma {:induction false} LineEndOf(l: string)
    requires '\n' !in l
    ensures LineEnd(l + "\n") == |l| + 1
  {
    if l != [] {
      LineEndOf(l[1..]);
      assert (l + "\n")[1..] == l[1..] + "\n";
    }
  }

  /** Lines of text that ends in a newline followed by more text split at the seam. */
  lemma {:induction false} LinesAppend(a: string, b: string)
    requires a == [] || a[|a| - 1] == '\n'
    ensures LinesKeepEnds(a + b) == LinesKeepEnds(a) + LinesKeepEnds(b)
    decreases |a|
  {
    if a == [] {
      assert a + b == b;
      LinesEmpty();
    } else if LineEnd(a) < |a| {
      LinesAppend(a[LineEnd(a)..], b);
      LinesAppendMid(a, b);
    } else {
      LinesAppendLast(a, b);
    }
  }

  /** The seam lies past the first line. */
  lemma LinesAppendMid(a: string, b: string)
    requires a != [] && a[|a| - 1] == '\n' && LineEnd(a) < |a|
    requires LinesKeepEnds(a[LineEnd(a)..] + b) == LinesKeepEnds(a[LineEnd(a)..]) + LinesKeepEnds(b)
    ensures LinesKeepEnds(a + b) == LinesKeepEnds(a) + LinesKeepEnds(b)
  {
    LineEndPrefix(a, b);
    SliceAppend(a, b, LineEnd(a));
    LinesStep(a);
    LinesStep(a + b);
    ConcatAssoc([a[..LineEnd(a)]], LinesKeepEnds(a[LineEnd(a)..]), LinesKeepEnds(b));
  }

  /** `a` is one line. */
  lemma LinesAppendLast(a: string, b: string)
    requires a != [] && a[|a| - 1] == '\n' && LineEnd(a) == |a|
    ensures LinesKeepEnds(a + b) == LinesKeepEnds(a) + LinesKeepEnds(b)
  {
    LineEndPrefix(a, b);
    SliceAppend(a, b, |a|);
    LinesStep(a);
    LinesStep(a + b);
    LinesEmpty();
  }

  /** Slicing a concatenation within its first part. */
  lemma SliceAppend<T>(a: seq<T>, b: seq<T>, n: nat)
    requires n <= |a|
    ensures (a + b)[..n] == a[..n] && (a + b)[n..] == a[n..] + b
    ensures n == |a| ==> a[..n] == a && a[n..] + b == b && a[n..] == []
  {
  }

  lemma LinesEmpty()
    ensures LinesKeepEnds("") == []
  {
  }

  lemma {:induction false} LineEndPrefix(a: string, b: string)
    requires a != [] && a[|a| - 1] == '\n'
    ensures LineEnd(a + b) == LineEnd(a)
  {
    if a[0] != '\n' {
      assert |a| > 1;
      LineEndPrefix(a[1..], b);
      assert (a + b)[1..] == a[1..] + b;
    }
  }

  // ---------------------------------------------------------------------------
  // Concatenation and append loops

  /** A non-empty sequence is its head before its tail. */
  lemma ConsSlice<T>(s: seq<T>)
    requires s != []
    ensures [s[0]] + s[1..] == s
  {
  }

  /** Concatenation regroups. */
  lemma ConcatAssoc<T>(a: seq<T>, b: seq<T>, c: seq<T>)
    ensures a + (b + c) == (a + b) + c
  {
  }

  /** The list an `append` loop builds when each element contributes `f(x)`. */
  function FlatMap<T, U>(s: seq<T>, f: T -> seq<U>): seq<U> {
    if s == [] then [] else f(s[0]) + FlatMap(s[1..], f)
  }

  lemma {:induction false} FlatMapAppend<T, U>(a: seq<T>, b: seq<T>, f: T -> seq<U>)
    ensures FlatMap(a + b, f) == FlatMap(a, f) + FlatMap(b, f)
    decreases |a|
  {
    if a == [] {
      assert a + b == b;
    } else {
      FlatMapAppend(a[1..], b, f);
      assert (a + b)[1..] == a[1..] + b;
      assert (a + b)[0] == a[0];
      var x, y, z := f(a[0]), FlatMap(a[1..], f), FlatMap(b, f);
      assert FlatMap(a + b, f) == x + (y + z);
      assert x + (y + z) == (x + y) + z;
    }
  }

  /** Each element contributes in place, whatever surrounds it. */
  lemma FlatMapAt<T, U>(s: seq<T>, i: nat, f: T -> seq<U>)
    requires i < |s|
    ensures FlatMap(s, f) == FlatMap(s[..i], f) + f(s[i]) + FlatMap(s[i + 1..], f)
  {
    assert s == s[..i] + s[i..];
    FlatMapAppend(s[..i], s[i..], f);
    assert s[i..][1..] == s[i + 1..];
  }

  /** One more turn of the loop. */
  lemma FlatMapSnoc<T, U>(s: seq<T>, j: nat, f: T -> seq<U>)
    requires j < |s|
    ensures FlatMap(s[..j + 1], f) == FlatMap(s[..j], f) + f(s[j])
  {
    assert s[..j + 1] == s[..j] + [s[j]];
    FlatMapAppend(s[..j], [s[j]], f);
    assert [s[j]][1..] == [];
  }

  // ---------------------------------------------------------------------------
  // Sequences without repeats

  /** No element occurs twice. */
  predicate NoDup(xs: seq<string>) {
    forall i, j :: 0 <= i < j < |xs| ==> xs[i] != xs[j]
  }

  // ---------------------------------------------------------------------------
  // Slices

  /** Python's `s[:n]`: a negative `n` counts from the end. */
  function Head<T>(s: seq<T>, n: int): (r: seq<T>)
    ensures |r| <= |s| && r == s[..|r|]
    ensures 0 <= n ==> |r| == if n <= |s| then n else |s|
    ensures n < 0 ==> |r| == if |s| + n >= 0 then |s| + n else 0
  {
    if n >= 0 then (if n <= |s| then s[..n] else s)
    else if |s| + n >= 0 then s[..|s| + n]
    else []
  }
}
