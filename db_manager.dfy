/** The parts of the database manager that compute rather than store: the
    unified leak identifiers (`gh-12`, `x-3`, `dsc-7`, `pst-9`), the formatting
    of stored leak rows for the dashboard, the two leak updates addressed by a
    unified identifier, and the choice of the next batch of community servers
    to analyse. SQL is not modelled: a table is a map the operations read or
    replace, and a query result is a sequence of rows. */
module DbManager {
  import opened Common
  import opened Values
  import Sorting

  // ---------------------------------------------------------------------------
  // Unified identifiers

  /** The prefix of each leak source's unified identifiers. */
  function PrefixOf(source: string): Option<string> {
    if source == "github" then Some("gh")
    else if source == "x" then Some("x")
    else if source == "discord" then Some("dsc")
    else if source == "pastebin" then Some("pst")
    else None
  }

  /** `source_map` of `_get_source_and_id`: prefix to source. */
  function SourceOf(prefix: string): (r: Option<string>)
    ensures r.Some? ==> PrefixOf(r.value) == Some(prefix)
    ensures r.Some? ==> '-' !in prefix
  {
    if prefix == "gh" then Some("github")
    else if prefix == "x" then Some("x")
    else if prefix == "dsc" then Some("discord")
    else if prefix == "pst" then Some("pastebin")
    else None
  }

  /** Index of the first `-`, where `split('-', 1)` cuts. */
  function FirstDash(s: string): (r: Option<nat>)
    ensures r.None? <==> '-' !in s
    ensures r.Some? ==> r.value < |s| && s[r.value] == '-' && '-' !in s[..r.value]
  {
    if s == [] then None
    else if s[0] == '-' then Some(0)
    else match FirstDash(s[1..])
      case None => None
      case Some(i) =>
        assert s[..i + 1] == [s[0]] + s[1..][..i];
        Some(i + 1)
  }

  /** What `_get_source_and_id` gives back: `(None, None)`, a source and an
      integer id, or a `ValueError` from `int()`. */
  datatype Decoded = NoSource | Source(source: string, id: int) | Raises

  /** `_get_source_and_id`: the text before the first `-` must name a source and
      the text after it is read with `int()`. No `-` or an unknown prefix gives
      `(None, None)`; a known prefix before a non-integer raises. */
  function SourceAndId(unified: string): (r: Decoded)
    ensures '-' !in unified ==> r == NoSource
    ensures r.Source? ==> PrefixOf(r.source).Some?
    ensures r.Source? ==> IsPrefix(PrefixOf(r.source).value + "-", unified)
  {
    match FirstDash(unified)
    case None => NoSource
    case Some(i) =>
      match SourceOf(unified[..i])
      case None => NoSource
      case Some(source) =>
        assert unified[..i + 1] == unified[..i] + "-";
        Tagged(source, unified[i + 1..])
  }

  /** The decoding once the source is known: `int()` of the text after the dash. */
  function Tagged(source: string, digits: string): (r: Decoded)
    ensures r != NoSource && (r.Source? ==> r.source == source)
  {
    match ParseInt(digits)
    case None => Raises
    case Some(id) => Source(source, id)
  }

  /** The first `-` of `p-t` with a dash-free `p` is the one after `p`. */
  lemma {:induction false} FirstDashAfter(p: string, t: string)
    requires '-' !in p
    ensures FirstDash(p + "-" + t) == Some(|p|)
  {
    if p != [] {
      FirstDashAfter(p[1..], t);
      assert (p + "-" + t)[1..] == p[1..] + "-" + t;
    }
  }

  /** Every identifier with a `-` is `p-t` with a dash-free `p`; the decoding of
      such an identifier, case by case. */
  lemma DecodeCases(p: string, t: string)
    requires '-' !in p
    ensures SourceOf(p).None? ==> SourceAndId(p + "-" + t) == NoSource
    ensures SourceOf(p).Some? && ParseInt(t).None? ==> SourceAndId(p + "-" + t) == Raises
    ensures SourceOf(p).Some? && ParseInt(t).Some? ==>
      SourceAndId(p + "-" + t) == Source(SourceOf(p).value, ParseInt(t).value)
  {
    hide ParseInt, SourceOf, PrefixOf;
    var u := p + "-" + t;
    FirstDashAfter(p, t);
    assert u[..|p|] == p && u[|p| + 1..] == t;
  }

  /** The identifier a source's row gets in `_format_leak_rows`. */
  function FormatId(prefix: string, dbId: Value): string {
    prefix + "-" + ToStr(dbId)
  }

  /** Round trip: the identifier given to a row with an integer id decodes back
      to the row's source and id, negative ids included. */
  lemma IdRoundTrip(source: string, id: int)
    requires PrefixOf(source).Some?
    ensures SourceAndId(FormatId(PrefixOf(source).value, Int(id))) == Source(source, id)
  {
    hide ParseInt, SourceAndId;
    var p := PrefixOf(source).value;
    assert FormatId(p, Int(id)) == p + "-" + IntToString(id);
    ParseIntToString(id);
    DecodeCases(p, IntToString(id));
  }

  // ---------------------------------------------------------------------------
  // Formatting stored leak rows

  const BadReport: string := "DBから不正な形式のレポートを読込: "

  /** The `ai_report` of a formatted row, from the stored column (absent when
      the row has no such key). `json` is `json.loads` on a string, `None` for
      a decode error. */
  function Report(raw: Option<Value>, json: string -> Option<Value>): (r: Value)
    ensures r.Dict? && |r.entries| == 1 && r.entries[0].key == "report_data"
    ensures raw.None? || !Truthy(raw.value) ==> r.entries[0].val == Dict([])
    ensures raw.Some? && raw.value.Str? && Truthy(raw.value) && json(raw.value.s).Some? ==>
      r.entries[0].val == json(raw.value.s).value
    ensures raw.Some? && Truthy(raw.value) && !(raw.value.Str? && json(raw.value.s).Some?) ==>
      r.entries[0].val == Dict([Entry("error_report", Str(BadReport + ToStr(raw.value)))])
  {
    var data :=
      if raw.None? || !Truthy(raw.value) then Dict([])
      else if raw.value.Str? && json(raw.value.s).Some? then json(raw.value.s).value
      else Dict([Entry("error_report", Str(BadReport + ToStr(raw.value)))]);
    Dict([Entry("report_data", data)])
  }

  /** What happens to one row: skipped (no `id`, a `KeyError`), formatted, or an
      exception that escapes the whole call (an undecodable `matches`). */
  datatype Outcome = Skipped | Kept(item: seq<Entry>) | Raised

  /** The `matches` column of a GitHub row is decodable: falsy (read as `[]`) or
      a string `json.loads` accepts. */
  predicate MatchesOk(matches: Option<Value>, json: string -> Option<Value>) {
    matches.None? || !Truthy(matches.value) || (matches.value.Str? && json(matches.value.s).Some?)
  }

  /** A row that has an id and passes the `matches` check, reformatted: the
      identifier of a known source, the decoded `matches` of a GitHub row
      (`json.loads('[]')`, the empty list, when it is falsy) and the wrapped
      report. */
  function Reformatted(row: seq<Entry>, source: string, dbId: Value, json: string -> Option<Value>): seq<Entry>
    requires source == "github" ==> MatchesOk(Get(row, "matches"), json)
  {
    var withId := if PrefixOf(source).Some? then Put(row, "id", Str(FormatId(PrefixOf(source).value, dbId))) else row;
    var matches := Get(row, "matches");
    var withMatches :=
      if source != "github" then withId
      else if matches.None? || !Truthy(matches.value) then Put(withId, "matches", List([]))
      else Put(withId, "matches", json(matches.value.s).value);
    Put(withMatches, "ai_report", Report(Get(row, "ai_report"), json))
  }

  /** The body of the loop of `_format_leak_rows` for one row. */
  function FormatRow(row: seq<Entry>, source: string, json: string -> Option<Value>): (r: Outcome)
    ensures r.Skipped? <==> Get(row, "id").None?
    ensures r.Raised? <==> Get(row, "id").Some? && source == "github" && !MatchesOk(Get(row, "matches"), json)
  {
    match Get(row, "id")
    case None => Skipped
    case Some(dbId) =>
      if source == "github" && !MatchesOk(Get(row, "matches"), json) then Raised
      else Kept(Reformatted(row, source, dbId, json))
  }

  /** What a kept row holds: the reformatted identifier, the wrapped report and
      every other column but `matches` as stored. */
  lemma FormatRowKeeps(row: seq<Entry>, source: string, json: string -> Option<Value>)
    requires FormatRow(row, source, json).Kept?
    ensures var x := FormatRow(row, source, json).item;
      Get(x, "ai_report") == Some(Report(Get(row, "ai_report"), json))
      && (PrefixOf(source).Some? ==> Get(x, "id") == Some(Str(FormatId(PrefixOf(source).value, Get(row, "id").value))))
      && (PrefixOf(source).None? ==> Get(x, "id") == Get(row, "id"))
      && forall k :: k != "id" && k != "matches" && k != "ai_report" ==> Get(x, k) == Get(row, k)
  {
    var dbId := Get(row, "id").value;
    var withId := if PrefixOf(source).Some? then Put(row, "id", Str(FormatId(PrefixOf(source).value, dbId))) else row;
    var matches := Get(row, "matches");
    var withMatches :=
      if source != "github" then withId
      else if matches.None? || !Truthy(matches.value) then Put(withId, "matches", List([]))
      else Put(withId, "matches", json(matches.value.s).value);
    var x := Put(withMatches, "ai_report", Report(Get(row, "ai_report"), json));
    assert FormatRow(row, source, json).item == x;
    hide FormatRow, Reformatted;
    assert Get(withMatches, "id") == Get(withId, "id");
  }

  /** The rows that have an `id`. */
  function WithId(rows: seq<seq<Entry>>): (r: seq<seq<Entry>>)
    ensures |r| <= |rows|
  {
    if rows == [] then []
    else WithId(rows[..|rows| - 1]) + (if Get(rows[|rows| - 1], "id").Some? then [rows[|rows| - 1]] else [])
  }

  /** `_format_leak_rows` over the whole query result. */
  function FormatRows(rows: seq<seq<Entry>>, source: string, json: string -> Option<Value>): (r: Result<seq<seq<Entry>>>)
    ensures r.Err? <==> exists k :: 0 <= k < |rows| && FormatRow(rows[k], source, json).Raised?
    ensures r.Ok? ==> |r.value| == |WithId(rows)|
    ensures r.Ok? ==> forall x :: x in r.value ==> exists k :: 0 <= k < |rows| && FormatRow(rows[k], source, json) == Kept(x)
  {
    if rows == [] then Ok([])
    else
      var init, last := rows[..|rows| - 1], rows[|rows| - 1];
      assert forall k :: 0 <= k < |init| ==> init[k] == rows[k];
      assert WithId(rows) == WithId(init) + (if Get(last, "id").Some? then [last] else []);
      match FormatRows(init, source, json)
      case Err => Err
      case Ok(xs) =>
        match FormatRow(last, source, json)
        case Raised => Err
        case Skipped => Ok(xs)
        case Kept(x) => Ok(xs + [x])
  }

  /** Formatting keeps the order of the rows: the items of a concatenation are
      the items of its first part followed by those of the second. */
  lemma {:induction false} FormatRowsAppend(a: seq<seq<Entry>>, b: seq<seq<Entry>>, source: string,
                                            json: string -> Option<Value>)
    ensures FormatRows(a + b, source, json).Ok? <==> FormatRows(a, source, json).Ok? && FormatRows(b, source, json).Ok?
    ensures FormatRows(a + b, source, json).Ok? ==>
      FormatRows(a + b, source, json).value == FormatRows(a, source, json).value + FormatRows(b, source, json).value
    decreases |b|
  {
    hide FormatRow, WithId, Reformatted;
    if b == [] {
      assert a + b == a;
    } else {
      var init := b[..|b| - 1];
      assert (a + b)[..|a + b| - 1] == a + init;
      assert (a + b)[|a + b| - 1] == b[|b| - 1];
      FormatRowsAppend(a, init, source, json);
    }
  }

  /** One row formats to its item, to nothing when it is skipped, or raises. */
  lemma FormatRowsSingle(row: seq<Entry>, source: string, json: string -> Option<Value>)
    ensures FormatRow(row, source, json).Raised? ==> FormatRows([row], source, json).Err?
    ensures FormatRow(row, source, json).Skipped? ==> FormatRows([row], source, json) == Ok([])
    ensures FormatRow(row, source, json).Kept? ==> FormatRows([row], source, json) == Ok([FormatRow(row, source, json).item])
  {
    hide FormatRow, WithId, Reformatted;
    assert [row][..0] == [] && [row][0] == row;
    if FormatRow(row, source, json).Kept? {
      var x := FormatRow(row, source, json).item;
      assert FormatRows([], source, json) == Ok([]);
      assert [] + [x] == [x];
    }
  }

  /** `_format_leak_rows`: each row is reformatted in turn and kept, skipped, or
      the call raises. */
  method FormatLeakRows(rows: seq<seq<Entry>>, source: string, json: string -> Option<Value>)
    returns (r: Result<seq<seq<Entry>>>)
    ensures r == FormatRows(rows, source, json)
  {
    var leaks: seq<seq<Entry>> := [];
    for i := 0 to |rows|
      invariant FormatRows(rows[..i], source, json) == Ok(leaks)
    {
      assert rows[..i + 1][..i] == rows[..i];
      match FormatRow(rows[i], source, json) {
        case Raised =>
          assert FormatRow(rows[i], source, json).Raised?;
          return Err;
        case Skipped =>
        case Kept(item) =>
          leaks := leaks + [item];
      }
    }
    assert rows[..|rows|] == rows;
    return Ok(leaks);
  }

  /** A formatted row of a known source carries an identifier that decodes back
      to that source and the row's integer id. */
  lemma FormattedIdDecodes(row: seq<Entry>, source: string, json: string -> Option<Value>, id: int)
    requires PrefixOf(source).Some? && Get(row, "id") == Some(Int(id))
    requires FormatRow(row, source, json).Kept?
    ensures Get(FormatRow(row, source, json).item, "id") == Some(Str(FormatId(PrefixOf(source).value, Int(id))))
    ensures SourceAndId(FormatId(PrefixOf(source).value, Int(id))) == Source(source, id)
  {
    FormatRowKeeps(row, source, json);
    IdRoundTrip(source, id);
  }

  /** Every formatted row carries an `ai_report` of the form
      `{"report_data": ...}` and keeps an `id`. */
  lemma FormattedRowsShape(rows: seq<seq<Entry>>, source: string, json: string -> Option<Value>)
    requires FormatRows(rows, source, json).Ok?
    ensures forall x :: x in FormatRows(rows, source, json).value ==>
      Get(x, "id").Some? && Get(x, "ai_report").Some? && Get(x, "ai_report").value.Dict?
      && Get(x, "ai_report").value.entries[0].key == "report_data"
  {
    var xs := FormatRows(rows, source, json).value;
    forall x | x in xs
      ensures Get(x, "id").Some? && Get(x, "ai_report").Some? && Get(x, "ai_report").value.Dict?
      && Get(x, "ai_report").value.entries[0].key == "report_data"
    {
      var k :| 0 <= k < |rows| && FormatRow(rows[k], source, json) == Kept(x);
      FormatRowKeeps(rows[k], source, json);
    }
  }

  // ---------------------------------------------------------------------------
  // Leak updates addressed by unified identifier

  /** The table of a source. */
  function TableOf(source: string): string {
    source + "_leaks"
  }

  /** The leak tables: table name to row id to columns. */
  type Tables = map<string, map<int, seq<Entry>>>

  /** The state after an `UPDATE ... WHERE id = ?` on the row a decoded
      identifier names: the row changes when it exists, nothing else does. */
  function UpdateRow(tables: Tables, d: Decoded, change: seq<Entry> -> seq<Entry>): (r: Tables)
    ensures r.Keys == tables.Keys
    ensures forall t :: t in tables && (!d.Source? || t != TableOf(d.source)) ==> r[t] == tables[t]
    ensures d.Source? && TableOf(d.source) in tables ==>
      var t := TableOf(d.source);
      r[t].Keys == tables[t].Keys
      && (forall i :: i in tables[t] && i != d.id ==> r[t][i] == tables[t][i])
      && (d.id in tables[t] ==> r[t][d.id] == change(tables[t][d.id]))
  {
    if d.Source? && TableOf(d.source) in tables && d.id in tables[TableOf(d.source)] then
      var t := TableOf(d.source);
      tables[t := tables[t][d.id := change(tables[t][d.id])]]
    else tables
  }

  /** The columns `update_leak_with_ai_analysis` writes. */
  function Analysed(row: seq<Entry>, analysis: seq<Entry>): seq<Entry> {
    var report := match Get(analysis, "report_data") case None => Dict([]) case Some(v) => v;
    var risk := match Get(analysis, "risk_level") case None => Null case Some(v) => v;
    var confidence := match Get(analysis, "confidence") case None => Null case Some(v) => v;
    Put(Put(Put(Put(row, "risk_level", risk), "confidence", confidence),
        "ai_report", Str(Dumps(report))), "status", Str("ANALYZED"))
  }

  class LeakStore {
    var tables: Tables

    /** The four leak tables, empty. */
    constructor()
      ensures tables == map[TableOf("github") := map[], TableOf("x") := map[],
                            TableOf("discord") := map[], TableOf("pastebin") := map[]]
    {
      tables := map[TableOf("github") := map[], TableOf("x") := map[],
                    TableOf("discord") := map[], TableOf("pastebin") := map[]];
    }

    /** `update_leak_status`: nothing happens for an identifier that does not
        decode; `ok` is false when `int()` raises or the table is missing. */
    method UpdateLeakStatus(unified: string, status: Value) returns (ok: bool)
      modifies this
      ensures var d := SourceAndId(unified);
        ok <==> !d.Raises? && (d.Source? ==> TableOf(d.source) in old(tables))
      ensures tables == UpdateRow(old(tables), SourceAndId(unified), row => Put(row, "status", status))
    {
      hide SourceAndId, Put;
      var d := SourceAndId(unified);
      if d.Raises? {
        return false;
      }
      if !d.Source? {
        return true;
      }
      var t := TableOf(d.source);
      if t !in tables {
        return false;
      }
      if d.id in tables[t] {
        tables := tables[t := tables[t][d.id := Put(tables[t][d.id], "status", status)]];
      }
      return true;
    }

    /** `update_leak_with_ai_analysis`: the risk level, confidence, serialised
        report and the status `ANALYZED` are written to the named row. */
    method UpdateLeakWithAiAnalysis(unified: string, analysis: seq<Entry>) returns (ok: bool)
      modifies this
      ensures var d := SourceAndId(unified);
        ok <==> !d.Raises? && (d.Source? ==> TableOf(d.source) in old(tables))
      ensures tables == UpdateRow(old(tables), SourceAndId(unified), row => Analysed(row, analysis))
    {
      hide SourceAndId, Analysed;
      var d := SourceAndId(unified);
      if d.Raises? {
        return false;
      }
      if !d.Source? {
        return true;
      }
      var t := TableOf(d.source);
      if t !in tables {
        return false;
      }
      if d.id in tables[t] {
        tables := tables[t := tables[t][d.id := Analysed(tables[t][d.id], analysis)]];
      }
      return true;
    }
  }

  /** An identifier that does not decode leaves every table as it was. */
  lemma BadIdUntouched(tables: Tables, unified: string, change: seq<Entry> -> seq<Entry>)
    requires !SourceAndId(unified).Source?
    ensures UpdateRow(tables, SourceAndId(unified), change) == tables
  {
  }

  // ---------------------------------------------------------------------------
  // Choosing the next community servers to analyse

  const Hour: int := 3600
  const Day: int := 86400

  /** One row of `community_threat_scores`: `lastScan` is `last_analyzed_at` in
      seconds, `None` when `fromisoformat` rejects it; `score` is `None` when
      `danger_score` is NULL. */
  datatype ServerRow = ServerRow(code: string, score: Option<int>, lastScan: Option<int>, status: string)

  datatype Server = Server(score: Option<int>, lastScan: int, status: string)

  /** `db_servers`: the rows by invite code, a later row replacing an earlier
      one; `None` when some timestamp does not parse. */
  function Servers(rows: seq<ServerRow>): (r: Option<map<string, Server>>)
    ensures r.None? <==> exists k :: 0 <= k < |rows| && rows[k].lastScan.None?
    ensures r.Some? ==> forall c :: c in r.value <==> exists k :: 0 <= k < |rows| && rows[k].code == c
  {
    if rows == [] then Some(map[])
    else
      var init, last := rows[..|rows| - 1], rows[|rows| - 1];
      assert forall k :: 0 <= k < |init| ==> init[k] == rows[k];
      match Servers(init)
      case None => None
      case Some(m) =>
        if last.lastScan.None? then None
        else Some(m[last.code := Server(last.score, last.lastScan.value, last.status)])
  }

  /** A code's server comes from the last row with that code. */
  lemma {:induction false} LastRowWins(rows: seq<ServerRow>, k: nat)
    requires Servers(rows).Some? && k < |rows|
    requires forall j :: k < j < |rows| ==> rows[j].code != rows[k].code
    ensures Servers(rows).value[rows[k].code] == Server(rows[k].score, rows[k].lastScan.value, rows[k].status)
    decreases |rows|
  {
    var init := rows[..|rows| - 1];
    assert Servers(init).Some?;
    if k < |rows| - 1 {
      LastRowWins(init, k);
    }
  }

  /** The priority of a known server (smaller is sooner): a failure in the last
      hour is 5, else a score of at least 70 is 1, else a scan older than a day
      is 2, else 4. `None` when a NULL score reaches the comparison. */
  function Priority(s: Server, now: int): (r: Option<int>)
    ensures r.None? <==> !(s.status == "FAILED" && s.lastScan > now - Hour) && s.score.None?
    ensures r.Some? ==> r.value == 1 || r.value == 2 || r.value == 4 || r.value == 5
  {
    if s.status == "FAILED" && s.lastScan > now - Hour then Some(5)
    else if s.score.None? then None
    else if s.score.value >= 70 then Some(1)
    else if s.lastScan < now - Day then Some(2)
    else Some(4)
  }

  /** An entry of `priority_servers`. */
  datatype Known = Known(code: string, priority: int, lastScan: int)

  /** The sort key `(priority, last_scan)`, compared as a tuple. */
  predicate Before(a: Known, b: Known) {
    a.priority < b.priority || (a.priority == b.priority && a.lastScan <= b.lastScan)
  }

  lemma BeforePreorder()
    ensures Sorting.TotalPreorder(Before)
  {
  }

  /** The invite codes with no row, in input order. */
  function Unscanned(codes: seq<string>, db: map<string, Server>): (r: seq<string>)
    ensures |r| <= |codes|
    ensures forall c :: c in r ==> c in codes && c !in db
  {
    if codes == [] then []
    else
      var init, last := codes[..|codes| - 1], codes[|codes| - 1];
      Unscanned(init, db) + (if last in db then [] else [last])
  }

  /** The loop over the invite codes: the unscanned codes and the known servers
      with their priorities, or `None` when a priority raises. */
  function Partition(codes: seq<string>, db: map<string, Server>, now: int): (r: Option<(seq<string>, seq<Known>)>)
    ensures r.None? <==> exists k :: 0 <= k < |codes| && codes[k] in db && Priority(db[codes[k]], now).None?
    ensures r.Some? ==> r.value.0 == Unscanned(codes, db)
    ensures r.Some? ==> forall x :: x in r.value.1 ==>
      x.code in codes && x.code in db && Priority(db[x.code], now) == Some(x.priority) && x.lastScan == db[x.code].lastScan
  {
    if codes == [] then Some(([], []))
    else
      var init, c := codes[..|codes| - 1], codes[|codes| - 1];
      assert forall k :: 0 <= k < |init| ==> init[k] == codes[k];
      match Partition(init, db, now)
      case None => None
      case Some(p) =>
        if c !in db then Some((p.0 + [c], p.1))
        else match Priority(db[c], now)
          case None => None
          case Some(pr) => Some((p.0, p.1 + [Known(c, pr, db[c].lastScan)]))
  }

  /** `[s['code'] for s in ...]` */
  function CodesOf(ks: seq<Known>): (r: seq<string>)
    ensures |r| == |ks| && forall i :: 0 <= i < |ks| ==> r[i] == ks[i].code
  {
    seq(|ks|, i requires 0 <= i < |ks| => ks[i].code)
  }

  /** The batch: the first unscanned codes, topped up with known servers in
      sorted order while there is room. */
  function Fill(unscanned: seq<string>, known: seq<Known>, n: int): (r: seq<string>)
    ensures 0 <= n ==> |r| <= n
  {
    var batch := Head(unscanned, n);
    if |batch| < n then batch + CodesOf(Head(known, n - |batch|)) else batch
  }

  /** `get_prioritized_server_batch` with the clock reading `now`. */
  function Batch(codes: seq<string>, rows: seq<ServerRow>, now: int, n: int): (r: seq<string>)
    ensures 0 <= n ==> |r| <= n
    ensures Servers(rows).None? ==> r == Head(codes, n)
    ensures Servers(rows).Some? && Partition(codes, Servers(rows).value, now).None? ==> r == Head(codes, n)
  {
    match Servers(rows)
    case None => Head(codes, n)
    case Some(db) =>
      match Partition(codes, db, now)
      case None => Head(codes, n)
      case Some(parts) => Fill(parts.0, Sorting.Sort(parts.1, Before), n)
  }

  /** `get_prioritized_server_batch`: the codes are split into unscanned and
      known ones, the known ones are sorted by `(priority, last_scan)`, and the
      batch takes unscanned codes first. Any exception gives the first
      `batchSize` codes. */
  method PrioritizedBatch(codes: seq<string>, rows: seq<ServerRow>, now: int, batchSize: int)
    returns (batch: seq<string>)
    ensures batch == Batch(codes, rows, now, batchSize)
  {
    hide Servers, Unscanned, Sorting.Sort, Head;
    var servers := Servers(rows);
    if servers.None? {
      return Head(codes, batchSize);
    }
    var db := servers.value;
    var unscanned: seq<string> := [];
    var known: seq<Known> := [];
    var i := 0;
    while i < |codes|
      invariant 0 <= i <= |codes|
      invariant Partition(codes[..i], db, now) == Some((unscanned, known))
    {
      var code := codes[i];
      assert codes[..i + 1][..i] == codes[..i];
      if code in db {
        var priority := Priority(db[code], now);
        if priority.None? {
          assert codes[i] in db && Priority(db[codes[i]], now).None?;
          return Head(codes, batchSize);
        }
        known := known + [Known(code, priority.value, db[code].lastScan)];
      } else {
        unscanned := unscanned + [code];
      }
      i := i + 1;
    }
    assert codes[..|codes|] == codes;
    known := Sorting.Sort(known, Before);
    batch := Head(unscanned, batchSize);
    if |batch| < batchSize {
      var needed := batchSize - |batch|;
      batch := batch + CodesOf(Head(known, needed));
    }
  }

  // ---------------------------------------------------------------------------
  // Properties of the batch

  /** Every code in the batch is one of the input codes. */
  lemma BatchFromCodes(codes: seq<string>, rows: seq<ServerRow>, now: int, n: int)
    ensures forall c :: c in Batch(codes, rows, now, n) ==> c in codes
  {
    hide Servers, Unscanned, Partition, Sorting.Sort, Head;
    var b := Batch(codes, rows, now, n);
    if Servers(rows).Some? && Partition(codes, Servers(rows).value, now).Some? {
      var parts := Partition(codes, Servers(rows).value, now).value;
      var s := Sorting.Sort(parts.1, Before);
      Sorting.SortPerm(parts.1, Before);
      forall c | c in b ensures c in codes {
        var j :| 0 <= j < |b| && b[j] == c;
        var u := Head(parts.0, n);
        if j >= |u| {
          var h := Head(s, n - |u|);
          assert h[j - |u|] in multiset(parts.1);
        }
      }
    }
  }

  /** The unscanned codes lead the batch, in input order, and what follows
      them are codes with a row. */
  lemma UnscannedFirst(codes: seq<string>, rows: seq<ServerRow>, now: int, n: int)
    requires Servers(rows).Some? && Partition(codes, Servers(rows).value, now).Some?
    ensures var db := Servers(rows).value; var b := Batch(codes, rows, now, n);
      var u := Head(Unscanned(codes, db), n);
      |u| <= |b| && b[..|u|] == u && forall j :: |u| <= j < |b| ==> b[j] in db
  {
    hide Servers, Unscanned, Partition, Sorting.Sort, Head;
    var db := Servers(rows).value;
    var parts := Partition(codes, db, now).value;
    var s := Sorting.Sort(parts.1, Before);
    Sorting.SortPerm(parts.1, Before);
    var b := Batch(codes, rows, now, n);
    var u := Head(parts.0, n);
    forall j | |u| <= j < |b| ensures b[j] in db {
      var h := Head(s, n - |u|);
      assert h[j - |u|] in multiset(parts.1);
    }
  }

  /** While unscanned codes fill the batch, no known server is taken. */
  lemma UnscannedFillFirst(codes: seq<string>, rows: seq<ServerRow>, now: int, n: int)
    requires Servers(rows).Some? && Partition(codes, Servers(rows).value, now).Some?
    requires 0 <= n <= |Unscanned(codes, Servers(rows).value)|
    ensures Batch(codes, rows, now, n) == Unscanned(codes, Servers(rows).value)[..n]
  {
  }

  /** The known servers taken are those first in `(priority, last_scan)` order:
      the rest of the batch reads a sorted permutation of the known servers from
      its start, and each server taken comes no later than any left behind. */
  lemma KnownInOrder(codes: seq<string>, rows: seq<ServerRow>, now: int, n: int)
    requires Servers(rows).Some? && Partition(codes, Servers(rows).value, now).Some?
    ensures var db := Servers(rows).value; var known := Partition(codes, db, now).value.1;
      var s := Sorting.Sort(known, Before); var b := Batch(codes, rows, now, n);
      var m := |Head(Unscanned(codes, db), n)|;
      multiset(s) == multiset(known) && Sorting.Sorted(s, Before)
      && m <= |b| && |b| - m <= |s| && b[m..] == CodesOf(s[..|b| - m])
      && forall i, j :: 0 <= i < |b| - m <= j < |s| ==> Before(s[i], s[j])
  {
    hide Servers, Unscanned, Partition, Sorting.Sort, Head;
    var db := Servers(rows).value;
    var known := Partition(codes, db, now).value.1;
    var s := Sorting.Sort(known, Before);
    Sorting.SortPerm(known, Before);
    BeforePreorder();
    Sorting.SortSorted(known, Before);
    var b := Batch(codes, rows, now, n);
    var u := Head(Unscanned(codes, db), n);
    if |u| < n {
      assert b == u + CodesOf(Head(s, n - |u|));
      assert b[|u|..] == CodesOf(Head(s, n - |u|));
    } else {
      assert b == u;
    }
  }
}
