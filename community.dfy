/** The community-server scorer: whole-word keyword hits over a server's
    messages, weighted and normalised by the number of messages. */
module Community {
  import opened Common
  import SigmaRegex

  /** A keyword of the table: never empty. */
  type Keyword = s: string | s != [] witness "a"

  /** A keyword table: keywords with their non-negative weights. */
  type KeywordTable = seq<(Keyword, nat)>

  /** High risk: malware and hacking tools. */
  const HighRisk: KeywordTable := [
    ("malware", 10), ("rat", 10), ("botnet", 10), ("exploit", 8), ("vulnerability", 8),
    ("zeroday", 12), ("0day", 12), ("ransomware", 10), ("payload", 7), ("c2", 9)]

  /** Medium risk: common security vocabulary. */
  const MediumRisk: KeywordTable := [("pentest", 3), ("red team", 3), ("hacking", 4), ("dox", 5), ("leak", 5)]

  /** Low risk: worth noting, depending on context. */
  const LowRisk: KeywordTable := [("vpn", 1), ("proxy", 1), ("tor", 2), ("anonymous", 2)]

  /** The keyword weights, in the table's literal order. */
  const ThreatKeywords: KeywordTable := HighRisk + MediumRisk + LowRisk

  /** `msg.get('message_text', '').lower()` for each message, joined by spaces;
      `None` stands for a message without the key. */
  function FullText(messages: seq<Option<string>>): string {
    Join(" ", seq(|messages|, i requires 0 <= i < |messages| =>
      Lower(if messages[i].Some? then messages[i].value else "")))
  }

  /** `\bkw\b` matches at `i`. */
  predicate MatchAt(text: string, kw: string, i: int) {
    OccursAt(text, kw, i) && SigmaRegex.Boundary(text, i) && SigmaRegex.Boundary(text, i + |kw|)
  }

  /** `len(re.findall(r'\b' + re.escape(kw) + r'\b', text[from:]))` with the
      anchors seeing the whole text: the scan resumes after each match. */
  function CountWord(text: string, kw: string, from: nat): nat
    requires kw != []
    decreases |text| - from
  {
    if from + |kw| > |text| then 0
    else if MatchAt(text, kw, from) then 1 + CountWord(text, kw, from + |kw|)
    else CountWord(text, kw, from + 1)
  }

  /** The label of a keyword hit. */
  function Label(kw: string, n: nat): string {
    kw + " (x" + IntToString(n) + ")"
  }

  /** The loop over the keyword table: the weighted total and the labels of
      the keywords found. */
  function Tally(table: KeywordTable, text: string): (r: (int, set<string>))
  {
    if table == [] then (0, {})
    else
      var rest := Tally(table[1..], text);
      var n := CountWord(text, table[0].0, 0);
      if n > 0 then (rest.0 + n * table[0].1, {Label(table[0].0, n)} + rest.1) else rest
  }

  /** The score and the hit labels of the messages against a keyword table. */
  function Score(table: KeywordTable, messages: seq<Option<string>>): (r: (int, set<string>))
    ensures messages == [] ==> r == (0, {})
    ensures 0 <= r.0 <= 100
  {
    if messages == [] then (0, {})
    else
      var t := Tally(table, FullText(messages));
      TallyNonNegative(table, FullText(messages));
      var s := (t.0 * 20) / |messages|;
      (if s < 100 then s else 100, t.1)
  }

  /** `analyze_server_messages`: the score and the set of hit labels. */
  function Analyze(messages: seq<Option<string>>): (r: (int, set<string>))
    ensures messages == [] ==> r == (0, {})
    ensures 0 <= r.0 <= 100
  {
    Score(ThreatKeywords, messages)
  }

  /** The total is the sum, over the keywords, of weight times hits, and it is
      never negative. */
  lemma {:induction false} TallyNonNegative(table: KeywordTable, text: string)
    ensures Tally(table, text).0 >= 0
    ensures Tally(table, text).0 == WeightedSum(table, text)
  {
    if table != [] {
      TallyNonNegative(table[1..], text);
    }
  }

  /** Σ weight × count, keyword by keyword. */
  function WeightedSum(table: KeywordTable, text: string): int
  {
    if table == [] then 0 else CountWord(text, table[0].0, 0) * table[0].1 + WeightedSum(table[1..], text)
  }

  /** The labels are exactly `kw (xN)` for the keywords with `N > 0` hits. */
  lemma {:induction false} HitsExactly(table: KeywordTable, text: string, h: string)
    ensures h in Tally(table, text).1 <==>
      exists i :: 0 <= i < |table| && CountWord(text, table[i].0, 0) > 0 && h == Label(table[i].0, CountWord(text, table[i].0, 0))
  {
    if table != [] {
      HitsExactly(table[1..], text, h);
      if h in Tally(table[1..], text).1 {
        var i :| 0 <= i < |table[1..]| && CountWord(text, table[1..][i].0, 0) > 0
          && h == Label(table[1..][i].0, CountWord(text, table[1..][i].0, 0));
        assert table[i + 1] == table[1..][i];
      }
      if exists i :: 0 <= i < |table| && CountWord(text, table[i].0, 0) > 0 && h == Label(table[i].0, CountWord(text, table[i].0, 0)) {
        var i :| 0 <= i < |table| && CountWord(text, table[i].0, 0) > 0 && h == Label(table[i].0, CountWord(text, table[i].0, 0));
        if i > 0 {
          assert table[1..][i - 1] == table[i];
        }
      }
    }
  }

  /** With no keyword hit the score is 0 and no label is reported. */
  lemma NoHitsZero(table: KeywordTable, messages: seq<Option<string>>)
    requires forall i :: 0 <= i < |table| ==> CountWord(FullText(messages), table[i].0, 0) == 0
    ensures Score(table, messages) == (0, {})
  {
    if messages != [] {
      var text := FullText(messages);
      TallyNonNegative(table, text);
      NoHitsSum(table, text);
      forall h
        ensures h !in Tally(table, text).1
      {
        HitsExactly(table, text, h);
      }
      assert Tally(table, text).1 == {};
      assert Tally(table, text).0 * 20 / |messages| == 0;
    }
  }

  lemma {:induction false} NoHitsSum(table: KeywordTable, text: string)
    requires forall i :: 0 <= i < |table| ==> CountWord(text, table[i].0, 0) == 0
    ensures WeightedSum(table, text) == 0
  {
    if table != [] {
      assert CountWord(text, table[0].0, 0) == 0;
      NoHitsSum(table[1..], text);
    }
  }

  /** The score is the truncated normalised total, capped at 100. */
  lemma ScoreIs(table: KeywordTable, messages: seq<Option<string>>)
    requires messages != []
    ensures var total := WeightedSum(table, FullText(messages));
      Score(table, messages).0 == (if total * 20 / |messages| < 100 then total * 20 / |messages| else 100)
      && total >= 0
  {
    TallyNonNegative(table, FullText(messages));
  }

  /** A keyword counts at least once exactly when a whole-word occurrence of it
      starts at or after the scan position. */
  lemma {:induction false} CountPositive(text: string, kw: string, from: nat)
    requires kw != []
    ensures CountWord(text, kw, from) > 0 <==> exists i :: from <= i && MatchAt(text, kw, i)
    decreases |text| - from
  {
    if from + |kw| > |text| {
      assert forall i :: from <= i ==> !OccursAt(text, kw, i);
    } else if !MatchAt(text, kw, from) {
      CountPositive(text, kw, from + 1);
      if exists i :: from <= i && MatchAt(text, kw, i) {
        var i :| from <= i && MatchAt(text, kw, i);
        assert i != from;
      }
    }
  }
}
