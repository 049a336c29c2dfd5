/** The parts of Windows path handling (`os.path` on Windows) the modelled code
    calls: `dirname` (only whether it is empty), `join` of two paths, `basename`
    and `normpath`. A drive is a letter and a colon; UNC prefixes
    (`\\server\share`) are not part of this model. */
module NtPath {
  import opened Common

  /** Both slashes separate path components. */
  predicate IsSep(c: char) {
    c == '\\' || c == '/'
  }

  /** `splitdrive`: the `X:` prefix, if any. */
  function Drive(p: string): (d: string)
    ensures d == [] || (|p| >= 2 && d == p[..2] && p[1] == ':')
  {
    if |p| >= 2 && p[1] == ':' then p[..2] else []
  }

  /** `os.path.dirname(p) != ''`: a drive or a separator anywhere. */
  predicate HasDirPart(p: string) {
    Drive(p) != [] || exists i :: 0 <= i < |p| && IsSep(p[i])
  }

  /** The part after the drive. */
  function AfterDrive(p: string): string {
    p[|Drive(p)|..]
  }

  /** `os.path.join(a, b)`. */
  function PathJoin(a: string, b: string): (r: string) {
    var ad, ap := Drive(a), AfterDrive(a);
    var bd, bp := Drive(b), AfterDrive(b);
    if bp != [] && IsSep(bp[0]) then
      // the second path is rooted: it replaces the first, keeping the first's
      // drive when it names none
      (if bd != [] || ad == [] then bd else ad) + bp
    else if bd != [] && Lower(bd) != Lower(ad) then
      b
    else
      var d := if bd != [] then bd else ad;
      d + (if ap != [] && !IsSep(ap[|ap| - 1]) then ap + "\\" else ap) + bp
  }

  /** Joining a relative path without a drive to a directory appends it after
      one backslash. */
  lemma JoinRelative(a: string, b: string)
    requires a != [] && !IsSep(a[|a| - 1]) && AfterDrive(a) != []
    requires Drive(b) == [] && (b == [] || !IsSep(b[0]))
    ensures PathJoin(a, b) == a + "\\" + b
  {
    assert AfterDrive(b) == b;
    assert AfterDrive(a)[|AfterDrive(a)| - 1] == a[|a| - 1];
    assert Drive(a) + AfterDrive(a) == a;
  }

  /** An absolute path given to `join` wins. */
  lemma JoinAbsolute(a: string, b: string)
    requires Drive(b) != [] && AfterDrive(b) != [] && IsSep(AfterDrive(b)[0])
    ensures PathJoin(a, b) == b
  {
    assert Drive(b) + AfterDrive(b) == b;
  }

  /** Index just past the last separator of `p` (0 when there is none). */
  function TailStart(p: string): (i: nat)
    ensures i <= |p|
    ensures i > 0 ==> IsSep(p[i - 1])
    ensures forall j :: i <= j < |p| ==> !IsSep(p[j])
  {
    if p == [] then 0
    else if IsSep(p[|p| - 1]) then |p|
    else TailStart(p[..|p| - 1])
  }

  /** `os.path.basename(p)`: what follows the drive and the last separator. */
  function Basename(p: string): (r: string)
    ensures forall j :: 0 <= j < |r| ==> !IsSep(r[j])
  {
    var rest := AfterDrive(p);
    rest[TailStart(rest)..]
  }

  /** The base name of `dir\name` is `name`. */
  lemma BasenameOfJoin(dir: string, name: string)
    requires forall j :: 0 <= j < |name| ==> !IsSep(name[j])
    requires dir != [] && (|dir| >= 2 ==> dir[1] != ':')
    ensures Basename(dir + "\\" + name) == name
  {
    var p := dir + "\\" + name;
    assert Drive(p) == [] by {
      assert |dir| == 1 ==> p[1] == '\\';
    }
    TailOfSepName(dir, name);
  }

  lemma {:induction false} TailOfSepName(dir: string, name: string)
    requires forall j :: 0 <= j < |name| ==> !IsSep(name[j])
    ensures TailStart(dir + "\\" + name) == |dir| + 1
    decreases |name|
  {
    var p := dir + "\\" + name;
    if name != [] {
      assert p[..|p| - 1] == dir + "\\" + name[..|name| - 1];
      TailOfSepName(dir, name[..|name| - 1]);
    } else {
      assert p[|p| - 1] == '\\';
    }
  }

  /** Forward slashes turned into backslashes. */
  function Backslashed(p: string): (r: string)
    ensures |r| == |p|
    ensures forall i :: 0 <= i < |p| ==> r[i] == (if p[i] == '/' then '\\' else p[i])
  {
    seq(|p|, i requires 0 <= i < |p| => if p[i] == '/' then '\\' else p[i])
  }

  /** The component loop of `normpath`: `''` and `.` vanish, `..` removes the
      component before it, and at the root a leading `..` vanishes too. */
  function Resolve(stack: seq<string>, comps: seq<string>, rooted: bool): (r: seq<string>)
    decreases |comps|
  {
    if comps == [] then stack
    else
      var c := comps[0];
      if c == "" || c == "." then Resolve(stack, comps[1..], rooted)
      else if c == ".." then
        if stack != [] && stack[|stack| - 1] != ".." then Resolve(stack[..|stack| - 1], comps[1..], rooted)
        else if stack == [] && rooted then Resolve(stack, comps[1..], rooted)
        else Resolve(stack + [c], comps[1..], rooted)
      else Resolve(stack + [c], comps[1..], rooted)
  }

  /** No component `normpath` keeps is empty or `.`, and none holds a
      separator. */
  lemma {:induction false} ResolveClean(stack: seq<string>, comps: seq<string>, rooted: bool)
    requires forall k :: 0 <= k < |stack| ==> stack[k] != "" && stack[k] != "." && '\\' !in stack[k]
    requires forall k :: 0 <= k < |comps| ==> '\\' !in comps[k]
    ensures forall k :: 0 <= k < |Resolve(stack, comps, rooted)| ==>
      Resolve(stack, comps, rooted)[k] != "" && Resolve(stack, comps, rooted)[k] != "."
      && '\\' !in Resolve(stack, comps, rooted)[k]
    decreases |comps|
  {
    if comps != [] {
      var c := comps[0];
      if c == "" || c == "." {
        ResolveClean(stack, comps[1..], rooted);
      } else if c == ".." && stack != [] && stack[|stack| - 1] != ".." {
        ResolveClean(stack[..|stack| - 1], comps[1..], rooted);
      } else if c == ".." && stack == [] && rooted {
        ResolveClean(stack, comps[1..], rooted);
      } else {
        ResolveClean(stack + [c], comps[1..], rooted);
      }
    }
  }

  /** `os.path.normpath(p)`. */
  function NormPath(p: string): (r: string) {
    var s := Backslashed(p);
    var d := Drive(s);
    var rest := s[|d|..];
    var rooted := rest != [] && rest[0] == '\\';
    var comps := Resolve([], Split(rest, '\\'), rooted);
    var prefix := d + (if rooted then "\\" else "");
    if prefix == [] && comps == [] then "." else prefix + Join("\\", comps)
  }

  /** The normalised path uses backslashes only. */
  lemma NormPathBackslashes(p: string)
    ensures '/' !in NormPath(p)
  {
    var s := Backslashed(p);
    var d := Drive(s);
    var rest := s[|d|..];
    assert '/' !in s;
    assert forall c :: c in Split(rest, '\\') ==> '/' !in c by {
      SplitNoChar(rest, '\\', '/');
    }
    var rooted := rest != [] && rest[0] == '\\';
    var comps := Resolve([], Split(rest, '\\'), rooted);
    ResolveKeeps([], Split(rest, '\\'), rooted, '/');
    JoinNoChar("\\", comps, '/');
  }

  lemma {:induction false} SplitNoChar(s: string, c: char, x: char)
    requires x !in s
    ensures forall t :: t in Split(s, c) ==> x !in t
    decreases |s|
  {
    if s != [] {
      SplitNoChar(s[1..], c, x);
      assert forall t :: t in Split(s[1..], c)[1..] ==> t in Split(s[1..], c);
      assert forall t :: t in Split(s[1..], c) ==> x !in t;
    }
  }

  lemma {:induction false} ResolveKeeps(stack: seq<string>, comps: seq<string>, rooted: bool, x: char)
    requires forall t :: t in stack ==> x !in t
    requires forall t :: t in comps ==> x !in t
    ensures forall t :: t in Resolve(stack, comps, rooted) ==> x !in t
    decreases |comps|
  {
    if comps != [] {
      assert comps[0] in comps && forall t :: t in comps[1..] ==> t in comps;
      var c := comps[0];
      if c == "" || c == "." {
        ResolveKeeps(stack, comps[1..], rooted, x);
      } else if c == ".." && stack != [] && stack[|stack| - 1] != ".." {
        assert forall t :: t in stack[..|stack| - 1] ==> t in stack;
        ResolveKeeps(stack[..|stack| - 1], comps[1..], rooted, x);
      } else if c == ".." && stack == [] && rooted {
        ResolveKeeps(stack, comps[1..], rooted, x);
      } else {
        ResolveKeeps(stack + [c], comps[1..], rooted, x);
      }
    }
  }

  lemma {:induction false} JoinNoChar(sep: string, xs: seq<string>, x: char)
    requires x !in sep
    requires forall t :: t in xs ==> x !in t
    ensures x !in Join(sep, xs)
    decreases |xs|
  {
    if |xs| > 1 {
      assert xs[0] in xs && forall t :: t in xs[1..] ==> t in xs;
      JoinNoChar(sep, xs[1..], x);
    } else if |xs| == 1 {
      assert xs[0] in xs;
    }
  }
}
