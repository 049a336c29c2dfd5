/** The Spamhaus DROP feed parser: the plain-text list, one network per line with
    `;` comments, becomes a list of threat entities. */
module Spamhaus {
  import opened Common

  // ---------------------------------------------------------------------------
  // `str.splitlines`

  /** A line boundary of `str.splitlines`. */
  predicate IsLineBreak(c: char) {
    c == '\n' || c == '\r' || c == '\U{000B}' || c == '\U{000C}' || c == '\U{001C}'
    || c == '\U{001D}' || c == '\U{001E}' || c == '\U{0085}' || c == '\U{2028}' || c == '\U{2029}'
  }

  predicate NoLineBreak(s: string) {
    forall j :: 0 <= j < |s| ==> !IsLineBreak(s[j])
  }

  /** Index of the first line boundary, or `|s|` when there is none. */
  function BreakAt(s: string): (n: nat)
    ensures n <= |s|
    ensures NoLineBreak(s[..n])
    ensures n < |s| ==> IsLineBreak(s[n])
  {
    if s == [] || IsLineBreak(s[0]) then 0
    else
      var n := 1 + BreakAt(s[1..]);
      assert s[..n] == [s[0]] + s[1..][..n - 1];
      n
  }

  /** `str.splitlines()`: the lines without their terminators. `\r\n` is one
      boundary, and a final boundary opens no empty line. */
  function SplitLines(s: string): (r: seq<string>)
    ensures (r == []) <==> (s == [])
    ensures forall k :: 0 <= k < |r| ==> NoLineBreak(r[k])
    decreases |s|
  {
    if s == [] then []
    else
      var n := BreakAt(s);
      if n == |s| then
        assert s[..n] == s;
        [s]
      else
        var w := if s[n] == '\r' && n + 1 < |s| && s[n + 1] == '\n' then 2 else 1;
        [s[..n]] + SplitLines(s[n + w..])
  }

  /** A line ended by `\n` is split off whole. */
  lemma SplitLinesStep(l: string, rest: string)
    requires NoLineBreak(l)
    ensures SplitLines(l + "\n" + rest) == [l] + SplitLines(rest)
  {
    var s := l + "\n" + rest;
    assert s[|l|] == '\n';
    var n := BreakAt(s);
    assert n == |l|;
    hide BreakAt, NoLineBreak, IsLineBreak;
    assert s[..|l|] == l;
    assert s[|l| + 1..] == rest;
  }

  // ---------------------------------------------------------------------------
  // Entities

  /** The dictionary `_parse_feed` builds per network: only `id` varies, every
      other field is a constant of the type. */
  datatype ThreatEntity = ThreatEntity(id: string)
  {
    const kind := "Malicious IP"
    const name := "Spamhaus DROP List Entry"
    const riskLevel := "HIGH"
    const platform := "Spamhaus"
    const lastSeen := "N/A"
    const source := "Spamhaus"
  }

  function EntityFor(cidr: string): ThreatEntity {
    ThreatEntity("SPAMHAUS-" + cidr)
  }

  /** A stripped line that is neither blank nor a comment. */
  predicate Kept(line: string) {
    var t := Strip(line);
    t != [] && t[0] != ';'
  }

  /** The network of a kept line: the stripped text before the first `;`. */
  function Network(line: string): string {
    Strip(Split(Strip(line), ';')[0])
  }

  /** What one line of the feed contributes. */
  function LineEntities(line: string): (r: seq<ThreatEntity>)
    ensures |r| <= 1
  {
    if Kept(line) then [EntityFor(Network(line))] else []
  }

  /** The entities of a list of lines, in line order. */
  function Entities(lines: seq<string>): seq<ThreatEntity> {
    FlatMap(lines, LineEntities)
  }

  /** `_parse_feed`: `None` and the empty text give no entities; otherwise the
      lines are parsed in order. */
  function ParseFeed(raw: Option<string>): (r: seq<ThreatEntity>)
    ensures raw == None || raw == Some("") ==> r == []
  {
    if raw == None || raw.value == [] then [] else Entities(SplitLines(raw.value))
  }

  // ---------------------------------------------------------------------------
  // Properties

  /** Parsing distributes over concatenated line lists, so order is kept. */
  lemma EntitiesAppend(a: seq<string>, b: seq<string>)
    ensures Entities(a + b) == Entities(a) + Entities(b)
  {
    FlatMapAppend(a, b, LineEntities);
  }

  /** A blank or comment line contributes nothing wherever it stands. */
  lemma SkippedLine(a: seq<string>, line: string, b: seq<string>)
    requires !Kept(line)
    ensures Entities(a + [line] + b) == Entities(a + b)
  {
    hide Kept, Network, Strip, Split, EntityFor, FlatMap;
    var s := a + [line] + b;
    assert s[..|a|] == a && s[|a|] == line && s[|a| + 1..] == b;
    FlatMapAt(s, |a|, LineEntities);
    FlatMapAppend(a, b, LineEntities);
    assert LineEntities(line) == [];
  }

  /** Every other line contributes exactly one entity, in its place. */
  lemma KeptLine(a: seq<string>, line: string, b: seq<string>)
    requires Kept(line)
    ensures Entities(a + [line] + b) == Entities(a) + [EntityFor(Network(line))] + Entities(b)
  {
    hide Kept, Network, Strip, Split, EntityFor, FlatMap;
    var s := a + [line] + b;
    assert s[..|a|] == a && s[|a|] == line && s[|a| + 1..] == b;
    FlatMapAt(s, |a|, LineEntities);
  }

  /** The number of lines that are neither blank nor comments. */
  function CountKept(lines: seq<string>): nat {
    if lines == [] then 0 else (if Kept(lines[0]) then 1 else 0) + CountKept(lines[1..])
  }

  /** One entity per kept line. */
  lemma {:induction false} EntitiesCount(lines: seq<string>)
    ensures |Entities(lines)| == CountKept(lines)
  {
    if lines != [] {
      EntitiesCount(lines[1..]);
      hide Network, Strip, Split, EntityFor;
      assert Entities(lines) == LineEntities(lines[0]) + Entities(lines[1..]);
    }
  }

  // ---------------------------------------------------------------------------
  // Round trip over a well-formed feed

  /** A network as the list prints it: no blanks, no `;`, no line boundary. */
  predicate CleanNetwork(c: string) {
    c != [] && ';' !in c && NoLineBreak(c) && forall j :: 0 <= j < |c| ==> !IsSpace(c[j])
  }

  /** One list line: `network ; comment`. */
  function FeedLine(cidr: string, comment: string): string {
    cidr + " ; " + comment
  }

  /** The text of a list, each line ended by `\n`. */
  function Feed(rows: seq<(string, string)>): string {
    if rows == [] then "" else FeedLine(rows[0].0, rows[0].1) + "\n" + Feed(rows[1..])
  }

  predicate CleanRows(rows: seq<(string, string)>) {
    forall k :: 0 <= k < |rows| ==> CleanNetwork(rows[k].0) && NoLineBreak(rows[k].1)
  }

  /** Stripping a printed line keeps at least its network and the `;`. */
  lemma StripFeedLine(cidr: string, comment: string)
    requires CleanNetwork(cidr)
    ensures var line := FeedLine(cidr, comment); var t := Strip(line);
      |cidr| + 1 < |t| <= |line| && t == line[..|t|]
  {
    var line := FeedLine(cidr, comment);
    assert line[0] == cidr[0] && line[|cidr| + 1] == ';';
    assert LStrip(line) == line;
    var t := RStrip(line);
    assert |t| > |cidr| + 1;
  }

  /** A trailing blank is stripped off a network. */
  lemma StripNetworkBlank(cidr: string)
    requires CleanNetwork(cidr)
    ensures Strip(cidr + " ") == cidr
  {
    var h := cidr + " ";
    assert h[0] == cidr[0];
    assert LStrip(h) == h;
    var r := RStrip(h);
    assert h[|cidr| - 1] == cidr[|cidr| - 1];
    assert |r| >= |cidr|;
    assert |r| != |cidr| + 1;
    assert r == h[..|cidr|] == cidr;
  }

  /** A printed line is kept and yields its network. */
  lemma FeedLineNetwork(cidr: string, comment: string)
    requires CleanNetwork(cidr)
    ensures Kept(FeedLine(cidr, comment)) && Network(FeedLine(cidr, comment)) == cidr
  {
    var line := FeedLine(cidr, comment);
    StripFeedLine(cidr, comment);
    var t := Strip(line);
    StripNetworkBlank(cidr);
    hide Strip, LStrip, RStrip, FeedLine;
    assert t[0] == cidr[0];
    var rest := t[|cidr| + 1..];
    assert t == (cidr + " ") + rest;
    assert rest[0] == ';';
    SplitPrefixFree(cidr + " ", rest, ';');
    assert Split(t, ';')[0] == cidr + " ";
  }

  lemma FeedLineBreakFree(cidr: string, comment: string)
    requires CleanNetwork(cidr) && NoLineBreak(comment)
    ensures NoLineBreak(FeedLine(cidr, comment))
  {
    var line := FeedLine(cidr, comment);
    forall j | 0 <= j < |line|
      ensures !IsLineBreak(line[j])
    {
      if j < |cidr| {
        assert line[j] == cidr[j];
      } else if j >= |cidr| + 3 {
        assert line[j] == comment[j - |cidr| - 3];
      }
    }
  }

  /** Parsing a printed list gives back one entity per row, naming its network,
      in row order. */
  lemma {:induction false} FeedRoundTrip(rows: seq<(string, string)>)
    requires CleanRows(rows)
    ensures |Entities(SplitLines(Feed(rows)))| == |rows|
    ensures forall k :: 0 <= k < |rows| ==>
      Entities(SplitLines(Feed(rows)))[k] == EntityFor(rows[k].0)
  {
    hide Kept, Network, Strip, Split, LStrip, RStrip;
    if rows != [] {
      var line := FeedLine(rows[0].0, rows[0].1);
      FeedLineBreakFree(rows[0].0, rows[0].1);
      FeedLineNetwork(rows[0].0, rows[0].1);
      SplitLinesStep(line, Feed(rows[1..]));
      FeedRoundTrip(rows[1..]);
      var lines := SplitLines(Feed(rows));
      assert lines == [line] + SplitLines(Feed(rows[1..]));
      assert lines[1..] == SplitLines(Feed(rows[1..]));
      assert Entities(lines) == [EntityFor(rows[0].0)] + Entities(SplitLines(Feed(rows[1..])));
    }
  }

  /** The same through `_parse_feed` itself. */
  lemma ParseFeedRoundTrip(rows: seq<(string, string)>)
    requires CleanRows(rows)
    ensures |ParseFeed(Some(Feed(rows)))| == |rows|
    ensures forall k :: 0 <= k < |rows| ==> ParseFeed(Some(Feed(rows)))[k].id == "SPAMHAUS-" + rows[k].0
  {
    FeedRoundTrip(rows);
    if rows == [] {
      assert Feed(rows) == "";
    }
  }
}
