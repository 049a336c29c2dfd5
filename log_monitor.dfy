/** `LogMonitorWorker`: tails an append-only JSON-lines file, checks every new
    line against the Sigma rules and stores one `SigmaMatch` row per matched
    rule, committing the rows of a line together. The file is given to each
    poll as its current text (or nothing when it does not exist); `json.loads`
    and the database's answer to a commit are parameters. */
module LogMonitor {
  import opened Common
  import opened Values
  import opened NtPath
  import opened SigmaFlatten
  import opened SigmaSelection
  import opened SigmaAnalyzer

  /** A row of the `sigma_matches` table as `process_line` fills it; the id and
      the timestamp are the database's. */
  datatype SigmaMatch = SigmaMatch(
    ruleTitle: Value,
    ruleLevel: Value,
    logSource: string,
    detectionDetails: string,
    logEntry: string)

  /** `json.loads`: nothing for a line it rejects. */
  type Decode = string -> Option<Value>

  /** Whether `session.commit()` raises for the pending rows. */
  type CommitFails = seq<SigmaMatch> -> bool

  /** `__init__`: a file name without a directory goes under `logs`, and the
      result is joined to the project root. */
  function LogFilePath(root: string, logFile: string): string {
    PathJoin(root, if HasDirPart(logFile) then logFile else PathJoin("logs", logFile))
  }

  /** `d.get(k, default)`. */
  function GetOr(entries: seq<Entry>, k: string, default: Value): (r: Value)
    ensures Get(entries, k).None? ==> r == default
    ensures Get(entries, k).Some? ==> r == Get(entries, k).value
  {
    match Get(entries, k) case Some(v) => v case None => default
  }

  /** The row built for one matched rule; a rule that is not a mapping makes
      `match.get` raise inside the per-match `try`, and yields no row. */
  function Row(rule: Value, entry: Value): seq<SigmaMatch> {
    if !rule.Dict? then []
    else [SigmaMatch(
      GetOr(rule.entries, "title", Str("N/A")),
      GetOr(rule.entries, "level", Str("N/A")),
      Dumps(GetOr(rule.entries, "logsource", Dict([]))),
      Dumps(GetOr(rule.entries, "detection", Dict([]))),
      Dumps(entry))]
  }

  /** The rows `session.add` receives for the matches of one entry. */
  function Rows(matches: seq<Value>, entry: Value): seq<SigmaMatch> {
    FlatMap(matches, (rule: Value) => Row(rule, entry))
  }

  /** Staging one more match appends its row. */
  lemma RowsSnoc(matches: seq<Value>, i: nat, entry: Value)
    requires i < |matches|
    ensures Rows(matches[..i + 1], entry) == Rows(matches[..i], entry) + Row(matches[i], entry)
  {
    FlatMapSnoc(matches, i, (rule: Value) => Row(rule, entry));
  }

  /** One row per matched rule, in match order, with `N/A` for a missing title
      or level and the JSON text of the source, the detection and the entry. */
  lemma {:induction false} RowsOfRules(matches: seq<Value>, entry: Value)
    requires forall i :: 0 <= i < |matches| ==> matches[i].Dict?
    ensures |Rows(matches, entry)| == |matches|
    ensures forall i :: 0 <= i < |matches| ==> Rows(matches, entry)[i] == Row(matches[i], entry)[0]
    decreases |matches|
  {
    if matches != [] {
      RowsOfRules(matches[1..], entry);
    }
  }

  /** A rule without `title` or `level` is stored with `N/A`. */
  lemma RowDefaults(rule: Value, entry: Value)
    requires rule.Dict?
    ensures Get(rule.entries, "title").None? ==> Row(rule, entry)[0].ruleTitle == Str("N/A")
    ensures Get(rule.entries, "level").None? ==> Row(rule, entry)[0].ruleLevel == Str("N/A")
    ensures Row(rule, entry)[0].logEntry == Dumps(entry)
  {
  }

  /** What `process_line` does with one line. */
  datatype LineKind =
    | Ignored                                  // blank, or not JSON
    | Escapes                                  // JSON that is not an object: `flatten_dict` raises
    | Checked(entry: Value, matches: seq<Value>)

  /** The rules an entry's fields match. */
  type Analyze = seq<Entry> -> seq<Value>

  /** `analyze_log_entry` over the loaded rules. */
  function Analysis(rules: seq<Value>, search: Search): Analyze {
    (log: seq<Entry>) => Matched(rules, FlattenDict(log), search)
  }

  function ReadLine(line: string, decode: Decode, analyze: Analyze): LineKind {
    var t := Strip(line);
    if t == [] then Ignored
    else match decode(t)
      case None => Ignored
      case Some(v) => if !v.Dict? then Escapes else Checked(v, analyze(v.entries))
  }

  /** The rows a commit makes permanent: all of them, or none when it fails. */
  function Committed(rows: seq<SigmaMatch>, fails: CommitFails): seq<SigmaMatch> {
    if rows != [] && !fails(rows) then rows else []
  }

  /** The rows one line adds to the store. */
  function LineRows(line: string, decode: Decode, analyze: Analyze, fails: CommitFails): seq<SigmaMatch> {
    match ReadLine(line, decode, analyze)
    case Checked(v, ms) => Committed(Rows(ms, v), fails)
    case _ => []
  }

  /** The rows a batch of lines adds: line by line, until a line escapes. */
  function BatchRows(lines: seq<string>, decode: Decode, analyze: Analyze, fails: CommitFails): seq<SigmaMatch> {
    if lines == [] then []
    else if ReadLine(lines[0], decode, analyze).Escapes? then []
    else LineRows(lines[0], decode, analyze, fails) + BatchRows(lines[1..], decode, analyze, fails)
  }

  /** The lines `f.seek(last_position); f.readlines()` returns. */
  function NewLines(offset: nat, file: Option<string>): seq<string> {
    if file.None? || offset >= |file.value| then [] else LinesKeepEnds(file.value[offset..])
  }

  /** `last_position` after one poll: the end of the file when a line was read. */
  function NextOffset(offset: nat, file: Option<string>): nat {
    if NewLines(offset, file) != [] then |file.value| else offset
  }

  /** A blank or non-JSON line changes nothing. */
  lemma IgnoredLine(line: string, decode: Decode, analyze: Analyze, fails: CommitFails)
    requires Strip(line) == [] || decode(Strip(line)).None?
    ensures !ReadLine(line, decode, analyze).Escapes?
    ensures LineRows(line, decode, analyze, fails) == []
  {
  }

  /** A failed commit leaves the store as it was; a successful one adds every
      row of the line. */
  lemma LineAllOrNothing(line: string, decode: Decode, analyze: Analyze, fails: CommitFails)
    requires ReadLine(line, decode, analyze).Checked?
    ensures var k := ReadLine(line, decode, analyze);
      LineRows(line, decode, analyze, fails) == (if fails(Rows(k.matches, k.entry)) then [] else Rows(k.matches, k.entry))
  {
  }

  /** Lines before one that escapes are processed as usual; that line and the
      rest of the batch add nothing, although the offset has already passed
      them. */
  lemma {:induction false} EscapeEndsBatch(lines: seq<string>, i: nat, decode: Decode, analyze: Analyze, fails: CommitFails)
    requires i < |lines| && ReadLine(lines[i], decode, analyze).Escapes?
    requires forall j :: 0 <= j < i ==> !ReadLine(lines[j], decode, analyze).Escapes?
    ensures BatchRows(lines, decode, analyze, fails) == BatchRows(lines[..i], decode, analyze, fails)
    decreases i
  {
    if i > 0 {
      var tail := lines[1..];
      assert tail[..i - 1] == lines[..i][1..];
      assert lines[..i][0] == lines[0] && !ReadLine(lines[0], decode, analyze).Escapes?;
      EscapeEndsBatch(tail, i - 1, decode, analyze, fails);
    }
  }

  /** One line of a batch: it either ends the batch or adds its rows before
      those of the lines after it. */
  lemma BatchStep(lines: seq<string>, i: nat, decode: Decode, analyze: Analyze, fails: CommitFails)
    requires i < |lines|
    ensures ReadLine(lines[i], decode, analyze).Escapes? ==> BatchRows(lines[i..], decode, analyze, fails) == []
    ensures !ReadLine(lines[i], decode, analyze).Escapes? ==>
      BatchRows(lines[i..], decode, analyze, fails) == LineRows(lines[i], decode, analyze, fails) + BatchRows(lines[i + 1..], decode, analyze, fails)
  {
    assert lines[i..][0] == lines[i] && lines[i..][1..] == lines[i + 1..];
  }

  lemma AfterLine(lines: seq<string>, i: nat, decode: Decode, analyze: Analyze, fails: CommitFails, s0: seq<SigmaMatch>, s1: seq<SigmaMatch>, raised: bool)
    requires i < |lines|
    requires raised == ReadLine(lines[i], decode, analyze).Escapes?
    requires s1 == s0 + LineRows(lines[i], decode, analyze, fails)
    ensures raised ==> s1 == s0 + BatchRows(lines[i..], decode, analyze, fails)
    ensures !raised ==> s1 + BatchRows(lines[i + 1..], decode, analyze, fails) == s0 + BatchRows(lines[i..], decode, analyze, fails)
  {
    BatchStep(lines, i, decode, analyze, fails);
    if raised {
      assert s0 + [] == s0;
    } else {
      ConcatAssoc(s0, LineRows(lines[i], decode, analyze, fails), BatchRows(lines[i + 1..], decode, analyze, fails));
    }
  }

  /** The offset and the store after one poll per state of the file in
      `files`, starting from `offset` and `store`. */
  function RunFrom(offset: nat, store: seq<SigmaMatch>, files: seq<Option<string>>,
                   decode: Decode, analyze: Analyze, fails: CommitFails): (nat, seq<SigmaMatch>)
    decreases |files|
  {
    if files == [] then (offset, store)
    else RunFrom(NextOffset(offset, files[0]), store + BatchRows(NewLines(offset, files[0]), decode, analyze, fails),
                 files[1..], decode, analyze, fails)
  }

  /** Over any number of polls the offset never moves back and the store keeps
      what it held as a prefix. */
  lemma {:induction false} RunGrows(offset: nat, store: seq<SigmaMatch>, files: seq<Option<string>>,
                                    decode: Decode, analyze: Analyze, fails: CommitFails)
    ensures var r := RunFrom(offset, store, files, decode, analyze, fails);
      r.0 >= offset && |r.1| >= |store| && r.1[..|store|] == store
    decreases |files|
  {
    if files != [] {
      var s1 := store + BatchRows(NewLines(offset, files[0]), decode, analyze, fails);
      RunGrows(NextOffset(offset, files[0]), s1, files[1..], decode, analyze, fails);
      var r := RunFrom(offset, store, files, decode, analyze, fails);
      assert r.1[..|s1|][..|store|] == r.1[..|store|];
      assert s1[..|store|] == store;
    }
  }

  /** The offset never moves back. */
  lemma OffsetGrows(offset: nat, file: Option<string>)
    ensures NextOffset(offset, file) >= offset
  {
  }

  /** After a poll that read something, the next poll reads only what was
      appended since: no line, whether its commit succeeded or failed, is read
      twice. */
  lemma NothingReadTwice(offset: nat, text: string, more: string)
    requires offset < |text|
    ensures NextOffset(offset, Some(text)) == |text|
    ensures NewLines(|text|, Some(text + more)) == LinesKeepEnds(more)
  {
    assert (text + more)[|text|..] == more;
  }

  /** A last line without its newline is consumed: it is the last line the
      poll reads, still unterminated, the offset passes it, and the writer's
      completion of that record arrives in the next poll as a separate line. */
  lemma HalfLineConsumed(offset: nat, text: string, more: string)
    requires offset < |text| && text[|text| - 1] != '\n'
    ensures var ls := NewLines(offset, Some(text));
      ls != [] && ls[|ls| - 1][|ls[|ls| - 1]| - 1] != '\n'
    ensures NextOffset(offset, Some(text)) == |text|
    ensures NewLines(|text|, Some(text + more)) == LinesKeepEnds(more)
  {
    LastReadUnterminated(offset, text);
    NothingReadTwice(offset, text, more);
  }

  lemma LastReadUnterminated(offset: nat, text: string)
    requires offset < |text| && text[|text| - 1] != '\n'
    ensures var ls := NewLines(offset, Some(text));
      ls != [] && ls[|ls| - 1][|ls[|ls| - 1]| - 1] != '\n'
  {
    var s := text[offset..];
    assert s[|s| - 1] == text[|text| - 1];
    LastLineEnd(s);
  }

  /** The last line ends with the text's last character. */
  lemma {:induction false} LastLineEnd(s: string)
    requires s != []
    ensures var ls := LinesKeepEnds(s);
      ls != [] && ls[|ls| - 1][|ls[|ls| - 1]| - 1] == s[|s| - 1]
    decreases |s|
  {
    var n := LineEnd(s);
    if n < |s| {
      LastLineEnd(s[n..]);
    } else {
      assert s[n..] == [];
      assert s[..n] == s;
    }
  }

  /** The worker, with `last_position` kept as a field so that each poll of
      the loop in `start` can be stated on its own. */
  class LogMonitorWorker {
    const logFilePath: string
    const sigmaRulePath: string
    const analyzer: Analyzer
    /** `re.search`, as the rules' modifiers use it. */
    const search: Search
    /** What `analyzer.analyze_log_entry` returns for an entry. */
    const analyze: Analyze
    var running: bool
    var sessionOpen: bool
    var offset: nat
    var pending: seq<SigmaMatch>
    var store: seq<SigmaMatch>

    /** `analyze` is the analysis `analyzer` performs. */
    ghost predicate Valid() {
      analyze == Analysis(analyzer.rules, search)
    }

    constructor (root: string, logFile: string, rulePath: string, ruleDir: RuleDir, search: Search, db: seq<SigmaMatch>)
      ensures Valid()
      ensures logFilePath == LogFilePath(root, logFile)
      ensures sigmaRulePath == PathJoin(root, rulePath)
      ensures analyzer.rules == Loaded([ruleDir])
      ensures !running && sessionOpen && offset == 0 && pending == [] && store == db
    {
      logFilePath := LogFilePath(root, logFile);
      sigmaRulePath := PathJoin(root, rulePath);
      var a := new Analyzer([ruleDir]);
      analyzer := a;
      this.search := search;
      analyze := Analysis(a.rules, search);
      running := false;
      sessionOpen := true;
      offset := 0;
      pending := [];
      store := db;
    }

    /** The start of `start`: the offset is the end of the file as it is now, so
        nothing already in it is ever processed. */
    method Start(file: Option<string>)
      modifies this
      ensures running
      ensures offset == if file.Some? then |file.value| else 0
      ensures sessionOpen == old(sessionOpen) && pending == old(pending) && store == old(store)
    {
      running := true;
      offset := if file.Some? then |file.value| else 0;
    }

    /** `process_line`; `raised` reports an exception that escapes it. */
    method ProcessLine(line: string, decode: Decode, fails: CommitFails) returns (raised: bool)
      requires pending == []
      modifies this
      ensures raised == ReadLine(line, decode, analyze).Escapes?
      ensures store == old(store) + LineRows(line, decode, analyze, fails)
      ensures pending == [] && running == old(running) && offset == old(offset) && sessionOpen == old(sessionOpen)
    {
      var t := Strip(line);
      if t == [] {
        return false;
      }
      var decoded := decode(t);
      if decoded.None? {
        return false;
      }
      var entry := decoded.value;
      if !entry.Dict? {
        return true;
      }
      var matches := analyze(entry.entries);
      raised := false;
      if matches != [] {
        Stage(matches, entry);
        Commit(fails);
      } else {
        assert Rows(matches, entry) == [];
      }
      assert old(store) + [] == old(store);
    }

    /** `session.add` for each match: the rows wait in the session. */
    method Stage(matches: seq<Value>, entry: Value)
      requires pending == []
      modifies this
      ensures pending == Rows(matches, entry)
      ensures store == old(store) && running == old(running) && offset == old(offset) && sessionOpen == old(sessionOpen)
    {
      var i := 0;
      while i < |matches|
        invariant 0 <= i <= |matches|
        invariant pending == Rows(matches[..i], entry)
        invariant store == old(store) && running == old(running)
        invariant offset == old(offset) && sessionOpen == old(sessionOpen)
      {
        RowsSnoc(matches, i, entry);
        pending := pending + Row(matches[i], entry);
        i := i + 1;
      }
      assert matches[..i] == matches;
    }

    /** `session.commit()`, or `session.rollback()` when the commit fails:
        either way nothing stays pending. */
    method Commit(fails: CommitFails)
      modifies this
      ensures store == old(store) + Committed(old(pending), fails) && pending == []
      ensures running == old(running) && offset == old(offset) && sessionOpen == old(sessionOpen)
    {
      if fails(pending) {
        pending := [];
      } else {
        store := store + pending;
        pending := [];
      }
      assert old(store) + [] == old(store);
    }

    /** One pass of the `while self.running` loop: read what follows the offset,
        move the offset to the end of what was read, then process the lines in
        order; an exception from a line ends the pass. */
    method Poll(file: Option<string>, decode: Decode, fails: CommitFails)
      requires pending == []
      modifies this
      ensures offset == NextOffset(old(offset), file)
      ensures store == old(store) + BatchRows(NewLines(old(offset), file), decode, analyze, fails)
      ensures pending == [] && running == old(running) && sessionOpen == old(sessionOpen)
    {
      var lines := NewLines(offset, file);
      if lines != [] {
        offset := |file.value|;
      }
      ProcessBatch(lines, decode, fails);
    }

    /** The lines of one poll, in order, until one raises. */
    method ProcessBatch(lines: seq<string>, decode: Decode, fails: CommitFails)
      requires pending == []
      modifies this
      ensures store == old(store) + BatchRows(lines, decode, analyze, fails)
      ensures pending == [] && running == old(running) && sessionOpen == old(sessionOpen) && offset == old(offset)
    {
      ghost var total := old(store) + BatchRows(lines, decode, analyze, fails);
      var i := 0;
      while i < |lines|
        invariant 0 <= i <= |lines| && pending == []
        invariant running == old(running) && sessionOpen == old(sessionOpen) && offset == old(offset)
        invariant total == store + BatchRows(lines[i..], decode, analyze, fails)
      {
        var raised := BatchLine(lines, i, decode, fails, total);
        if raised {
          return;
        }
        i := i + 1;
      }
      assert lines[i..] == [];
      assert store + [] == store;
    }

    /** Line `i` of a batch: `raised` when it ends the batch. */
    method BatchLine(lines: seq<string>, i: nat, decode: Decode, fails: CommitFails, ghost total: seq<SigmaMatch>) returns (raised: bool)
      requires i < |lines| && pending == []
      requires total == store + BatchRows(lines[i..], decode, analyze, fails)
      modifies this
      ensures raised ==> total == store
      ensures !raised ==> total == store + BatchRows(lines[i + 1..], decode, analyze, fails)
      ensures pending == [] && running == old(running) && sessionOpen == old(sessionOpen) && offset == old(offset)
    {
      raised := ProcessLine(lines[i], decode, fails);
      AfterLine(lines, i, decode, analyze, fails, old(store), store, raised);
    }

    /** Polls over successive states of the file while `running` holds: the
        offset and the store are those of one poll per state in turn. */
    method Run(files: seq<Option<string>>, decode: Decode, fails: CommitFails)
      requires pending == []
      modifies this
      ensures old(running) ==> (offset, store) == RunFrom(old(offset), old(store), files, decode, analyze, fails)
      ensures !old(running) ==> offset == old(offset) && store == old(store)
      ensures pending == [] && running == old(running)
    {
      var i := 0;
      while i < |files| && running
        invariant 0 <= i <= |files| && pending == [] && running == old(running)
        invariant !running ==> offset == old(offset) && store == old(store)
        invariant RunFrom(offset, store, files[i..], decode, analyze, fails) ==
          RunFrom(old(offset), old(store), files, decode, analyze, fails)
      {
        assert files[i..][1..] == files[i + 1..];
        Poll(files[i], decode, fails);
        i := i + 1;
      }
      if running {
        assert files[i..] == [];
      }
    }

    /** `stop`: the session is closed, but `running` is left as it was, so the
        loop ends only when its owner clears the flag. */
    method Stop()
      modifies this
      ensures !sessionOpen && pending == []
      ensures running == old(running) && offset == old(offset) && store == old(store)
    {
      sessionOpen := false;
      pending := [];
    }
  }
}
