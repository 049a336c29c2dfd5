/** The CISA Known Exploited Vulnerabilities check: which catalog entries a product
    name refers to, and the verdict built from them. The catalog is the list the
    JSON cache holds, as structured values. */
module CisaKev {
  import opened Common
  import opened Values

  // ---------------------------------------------------------------------------
  // `str.split()` without arguments

  /** Length of the leading run of non-blank characters. */
  function WordEnd(s: string): (n: nat)
    ensures n <= |s|
    ensures forall j :: 0 <= j < n ==> !IsSpace(s[j])
    ensures n < |s| ==> IsSpace(s[n])
  {
    if s == [] || IsSpace(s[0]) then 0 else 1 + WordEnd(s[1..])
  }

  predicate IsWordText(w: string) {
    w != [] && forall j :: 0 <= j < |w| ==> !IsSpace(w[j])
  }

  /** `s.split()`: the maximal runs of non-blank characters, in order. */
  function Words(s: string): (r: seq<string>)
    ensures forall k :: 0 <= k < |r| ==> IsWordText(r[k])
    decreases |s|
  {
    var t := LStrip(s);
    if t == [] then []
    else
      var n := WordEnd(t);
      assert n > 0;
      [t[..n]] + Words(t[n..])
  }

  /** Blank text has no words. */
  lemma WordsBlank(s: string)
    requires forall j :: 0 <= j < |s| ==> IsSpace(s[j])
    ensures Words(s) == []
  {
  }

  lemma LStripSpace(c: char, s: string)
    requires IsSpace(c)
    ensures LStrip([c] + s) == LStrip(s)
  {
    assert ([c] + s)[1..] == s;
  }

  /** Words joined by single blanks split back into the same words. */
  lemma {:induction false} WordsJoin(ws: seq<string>)
    requires forall k :: 0 <= k < |ws| ==> IsWordText(ws[k])
    ensures Words(Join(" ", ws)) == ws
  {
    hide Words, WordEnd, LStrip, IsSpace, IsWordText;
    if ws == [] {
      WordsBlank("");
    } else if |ws| == 1 {
      WordsLast(ws[0]);
    } else {
      WordsJoin(ws[1..]);
      WordsCons(ws[0], Join(" ", ws[1..]));
    }
  }

  /** A single word splits back into itself. */
  lemma WordsLast(w: string)
    requires IsWordText(w)
    ensures Words(w) == [w]
  {
    WordEndAt(w, "");
    WordsStep(w, "");
    WordsBlank("");
    assert w + "" == w;
  }

  /** A word, a blank and more text: the word comes first. */
  lemma WordsCons(w: string, tail: string)
    requires IsWordText(w)
    ensures Words(w + " " + tail) == [w] + Words(tail)
  {
    assert IsSpace(' ');
    hide Words, WordEnd, LStrip, IsSpace;
    WordEndAt(w, " " + tail);
    assert w + " " + tail == w + (" " + tail);
    WordsStep(w, " " + tail);
    WordsAfterBlank(tail);
  }

  /** The first word of `w + rest`, when `w` is a word ending at a blank. */
  lemma WordsStep(w: string, rest: string)
    requires IsWordText(w) && WordEnd(w + rest) == |w|
    ensures Words(w + rest) == [w] + Words(rest)
  {
    var s := w + rest;
    assert s[0] == w[0];
    assert LStrip(s) == s;
    hide LStrip, WordEnd, IsSpace;
    assert s[..|w|] == w && s[|w|..] == rest;
  }

  /** A word followed by nothing or by a blank ends where it ends. */
  lemma {:induction false} WordEndAt(w: string, rest: string)
    requires IsWordText(w)
    requires rest == [] || IsSpace(rest[0])
    ensures WordEnd(w + rest) == |w|
  {
    var s := w + rest;
    assert forall j :: 0 <= j < |w| ==> s[j] == w[j];
    assert |w| < |s| ==> s[|w|] == rest[0];
  }

  /** A leading blank does not change the words. */
  lemma WordsAfterBlank(s: string)
    ensures Words(" " + s) == Words(s)
  {
    LStripSpace(' ', s);
  }

  // ---------------------------------------------------------------------------
  // The catalog

  /** `vuln.get(key, '').lower()`: a missing key reads as the empty text, a string
      is lowered, anything else (`None` included) raises. */
  function TextField(entries: seq<Entry>, key: string): (r: Result<string>)
    ensures Get(entries, key) == None ==> r == Ok("")
    ensures r.Ok? && Get(entries, key).Some? ==> Get(entries, key).value.Str?
  {
    match Get(entries, key)
    case None => Ok("")
    case Some(v) => if v.Str? then Ok(Lower(v.s)) else Err
  }

  /** The text a catalog entry is searched in: `"vendorProject product"`,
      lowercased. An entry that is not a dictionary raises on `.get`. */
  function Target(vuln: Value): (r: Result<string>)
    ensures r.Ok? ==> vuln.Dict?
  {
    if !vuln.Dict? then Err
    else match (TextField(vuln.entries, "vendorProject"), TextField(vuln.entries, "product"))
      case (Ok(a), Ok(b)) => Ok(a + " " + b)
      case _ => Err
  }

  /** `vuln.get(key)`: `None` when absent. */
  function Field(entries: seq<Entry>, key: string): Value {
    match Get(entries, key)
    case None => Null
    case Some(v) => v
  }

  /** The four fields a match keeps. */
  datatype KevMatch = KevMatch(cveId: Value, vulnerabilityName: Value, dateAdded: Value, requiredAction: Value)

  function MatchOf(entries: seq<Entry>): KevMatch {
    KevMatch(Field(entries, "cveID"), Field(entries, "vulnerabilityName"),
             Field(entries, "dateAdded"), Field(entries, "requiredAction"))
  }

  /** Every search word occurs in the target text. */
  predicate AllIn(words: seq<string>, target: string) {
    forall k :: 0 <= k < |words| ==> Find(target, words[k])
  }

  /** The matching entries in catalog order, or `Err` once an entry raises. */
  function Matches(vulns: seq<Value>, words: seq<string>): (r: Result<seq<KevMatch>>)
    ensures r.Ok? ==> |r.value| <= |vulns|
  {
    if vulns == [] then Ok([])
    else match Target(vulns[0])
      case Err => Err
      case Ok(t) =>
        match Matches(vulns[1..], words)
        case Err => Err
        case Ok(rest) => Ok((if AllIn(words, t) then [MatchOf(vulns[0].entries)] else []) + rest)
  }

  // ---------------------------------------------------------------------------
  // The verdict

  /** The result dictionary of `check_product`. */
  datatype Report =
    | NotLoaded
    | Danger(count: nat, detail: string, found: seq<KevMatch>)
    | Safe(detail: string)
  {
    const verdict := if Danger? then "危険" else if Safe? then "安全" else ""
    const error := if NotLoaded? then "CISA KEVデータがロードされていません。" else ""
  }

  function DangerDetail(product: string, n: nat): string {
    "製品「" + product + "」に関連する、悪用が確認された脆弱性が" + NatToString(n) + "件見つかりました。"
  }

  function SafeDetail(product: string): string {
    "製品「" + product + "」に関連する、悪用が確認された脆弱性は見つかりませんでした。"
  }

  /** `check_product`: no catalog gives the error report; otherwise Danger with
      the number of matches when there is one, Safe when there is none. */
  function CheckProduct(vulns: seq<Value>, product: string): (r: Result<Report>)
    ensures vulns == [] ==> r == Ok(NotLoaded)
    ensures vulns != [] ==> (r.Err? <==> Matches(vulns, Words(Lower(product))).Err?)
    ensures r.Ok? && r.value.Danger? ==>
      r.value.count == |r.value.found| > 0 && Matches(vulns, Words(Lower(product))) == Ok(r.value.found)
      && r.value.detail == DangerDetail(product, r.value.count)
    ensures r.Ok? && r.value.Safe? ==>
      Matches(vulns, Words(Lower(product))) == Ok([]) && r.value.detail == SafeDetail(product)
    ensures vulns != [] && r.Ok? ==> !r.value.NotLoaded?
  {
    if vulns == [] then Ok(NotLoaded)
    else match Matches(vulns, Words(Lower(product)))
      case Err => Err
      case Ok(found) =>
        if found != [] then Ok(Danger(|found|, DangerDetail(product, |found|), found))
        else Ok(Safe(SafeDetail(product)))
  }

  // ---------------------------------------------------------------------------
  // Properties

  /** Lifting `+` to results: an error on either side wins. */
  function Both(a: Result<seq<KevMatch>>, b: Result<seq<KevMatch>>): Result<seq<KevMatch>> {
    if a.Ok? && b.Ok? then Ok(a.value + b.value) else Err
  }

  /** The catalog is filtered piecewise, so matches keep catalog order. */
  lemma {:induction false} MatchesAppend(a: seq<Value>, b: seq<Value>, words: seq<string>)
    ensures Matches(a + b, words) == Both(Matches(a, words), Matches(b, words))
  {
    hide Target, AllIn, MatchOf, TextField, Get, Lower;
    if a == [] {
      assert a + b == b;
      if Matches(b, words).Ok? {
        assert [] + Matches(b, words).value == Matches(b, words).value;
      }
    } else {
      assert (a + b)[0] == a[0] && (a + b)[1..] == a[1..] + b;
      MatchesAppend(a[1..], b, words);
      if Target(a[0]).Ok? && Matches(a[1..], words).Ok? && Matches(b, words).Ok? {
        var h := if AllIn(words, Target(a[0]).value) then [MatchOf(a[0].entries)] else [];
        assert h + (Matches(a[1..], words).value + Matches(b, words).value)
          == (h + Matches(a[1..], words).value) + Matches(b, words).value;
      }
    }
  }

  /** The check raises exactly when some catalog entry raises. */
  lemma {:induction false} MatchesErr(vulns: seq<Value>, words: seq<string>)
    ensures Matches(vulns, words).Err? <==> exists i :: 0 <= i < |vulns| && Target(vulns[i]).Err?
  {
    hide Target, AllIn, MatchOf, TextField, Get, Lower;
    if vulns != [] {
      MatchesErr(vulns[1..], words);
      if Target(vulns[0]).Ok? && exists i :: 0 <= i < |vulns| && Target(vulns[i]).Err? {
        var i :| 0 <= i < |vulns| && Target(vulns[i]).Err?;
        assert vulns[1..][i - 1] == vulns[i];
      }
      if exists i :: 0 <= i < |vulns| - 1 && Target(vulns[1..][i]).Err? {
        var i :| 0 <= i < |vulns| - 1 && Target(vulns[1..][i]).Err?;
        assert vulns[i + 1] == vulns[1..][i];
      }
    }
  }

  /** The executable word test is the substring relation. */
  lemma AllInContains(words: seq<string>, t: string)
    ensures AllIn(words, t) <==> forall k :: 0 <= k < |words| ==> Contains(t, words[k])
  {
  }

  /** One entry matches exactly when every word of the lowercased product name
      occurs in its target text. */
  lemma OneMatch(vuln: Value, product: string)
    requires Target(vuln).Ok?
    ensures var words := Words(Lower(product));
      (Matches([vuln], words) == Ok([MatchOf(vuln.entries)]))
        <==> (forall k :: 0 <= k < |words| ==> Contains(Target(vuln).value, words[k]))
    ensures var words := Words(Lower(product));
      (Matches([vuln], words) == Ok([]))
        <==> !(forall k :: 0 <= k < |words| ==> Contains(Target(vuln).value, words[k]))
  {
    hide Target, MatchOf, TextField, Get, Lower, Words, Contains, Find;
    var words := Words(Lower(product));
    var t := Target(vuln).value;
    AllInContains(words, t);
    assert [vuln][1..] == [];
    assert Matches([vuln][1..], words) == Ok([]);
    assert Matches([vuln], words) == Ok((if AllIn(words, t) then [MatchOf(vuln.entries)] else []) + []);
    if AllIn(words, t) {
      assert [MatchOf(vuln.entries)] + [] == [MatchOf(vuln.entries)];
    } else {
      assert Ok([]) != Ok([MatchOf(vuln.entries)]);
    }
  }

  /** With no search words every readable entry matches, in catalog order. */
  lemma {:induction false} NoWordsMatchAll(vulns: seq<Value>)
    requires forall i :: 0 <= i < |vulns| ==> Target(vulns[i]).Ok?
    ensures Matches(vulns, []).Ok? && |Matches(vulns, []).value| == |vulns|
    ensures forall i :: 0 <= i < |vulns| ==>
      vulns[i].Dict? && Matches(vulns, []).value[i] == MatchOf(vulns[i].entries)
  {
    if vulns != [] {
      hide Target, MatchOf, TextField, Get, Lower, Matches;
      assert forall i :: 0 <= i < |vulns| - 1 ==> vulns[1..][i] == vulns[i + 1];
      NoWordsMatchAll(vulns[1..]);
      NoWordsStep(vulns);
    }
  }

  /** With no search words a readable first entry is kept ahead of the rest. */
  lemma NoWordsStep(vulns: seq<Value>)
    requires vulns != [] && Target(vulns[0]).Ok? && Matches(vulns[1..], []).Ok?
    ensures vulns[0].Dict?
    ensures Matches(vulns, []) == Ok([MatchOf(vulns[0].entries)] + Matches(vulns[1..], []).value)
  {
    hide Target, MatchOf, TextField, Get, Lower;
    assert AllIn([], Target(vulns[0]).value);
  }

  /** A blank product name has no search words. */
  lemma BlankNoWords(product: string)
    requires forall j :: 0 <= j < |product| ==> IsSpace(product[j])
    ensures Words(Lower(product)) == []
  {
    LowerOfBlank(product);
    WordsBlank(product);
  }

  /** Lowering leaves whitespace alone. */
  lemma LowerOfBlank(s: string)
    requires forall j :: 0 <= j < |s| ==> IsSpace(s[j])
    ensures Lower(s) == s
  {
    forall j | 0 <= j < |s| ensures Lower(s)[j] == s[j] {
      assert IsSpace(s[j]);
    }
  }

  /** So a blank product name over a readable catalog is Danger with every entry. */
  lemma BlankIsDanger(vulns: seq<Value>, product: string)
    requires vulns != []
    requires forall j :: 0 <= j < |product| ==> IsSpace(product[j])
    requires forall i :: 0 <= i < |vulns| ==> Target(vulns[i]).Ok?
    ensures CheckProduct(vulns, product).Ok?
    ensures CheckProduct(vulns, product).value.Danger?
    ensures CheckProduct(vulns, product).value.count == |vulns|
  {
    BlankNoWords(product);
    NoWordsMatchAll(vulns);
  }
}
