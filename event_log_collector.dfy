/** The Windows Event Log collector: a record-id watermark per channel, a walk
    from each channel's newest record down to its watermark, and a sink file
    that receives one JSON object per line, oldest record first. The Event Log
    service is a map from channel name to that channel's records, newest first;
    a channel missing from the map cannot be queried. */
module EventLogCollector {
  import opened Common
  import opened Values
  import opened EventXml
  import NtPath

  /** The channels polled, in polling order. */
  const LogChannels: seq<string> := ["Security", "Application", "Microsoft-Windows-PowerShell/Operational"]

  /** How many records one `EvtNext` call hands over. */
  const ChunkSize: nat := 100

  type Channels = map<string, seq<Rendered>>

  /** `EvtQuery(channel, ...)`: `None` when the query raises `win32evtlog.error`. */
  function Query(channels: Channels, channel: string): Option<seq<Rendered>> {
    if channel in channels then Some(channels[channel]) else None
  }

  /** `last_record_ids.get(channel, 0)`. */
  function Mark(marks: map<string, int>, channel: string): int {
    if channel in marks then marks[channel] else 0
  }

  // ---------------------------------------------------------------------------
  // The event-id allow-list

  /** `{int(eid.strip()) for eid in items}`; `Err` when an item is not an integer. */
  function IdSet(items: seq<string>): (r: Result<set<int>>)
    ensures r.Ok? && items != [] ==> r.value != {}
  {
    if items == [] then Ok({})
    else
      var rest := IdSet(items[1..]);
      match ParseInt(items[0])
      case None => Err
      case Some(i) => if rest.Err? then Err else Ok({i} + rest.value)
  }

  /** Construction raises exactly when some item is not an integer. */
  lemma {:induction false} IdSetErr(items: seq<string>)
    ensures IdSet(items).Err? <==> exists k :: 0 <= k < |items| && ParseInt(items[k]).None?
  {
    hide ParseInt;
    if items != [] {
      IdSetErr(items[1..]);
      if ParseInt(items[0]).Some? {
        TailBad(items);
      }
    }
  }

  /** With a good head, a bad item is a bad item of the tail. */
  lemma TailBad(items: seq<string>)
    requires items != [] && ParseInt(items[0]).Some?
    ensures (exists k :: 0 <= k < |items| && ParseInt(items[k]).None?) <==>
      exists k :: 0 <= k < |items[1..]| && ParseInt(items[1..][k]).None?
  {
    hide ParseInt;
    if exists k :: 0 <= k < |items| && ParseInt(items[k]).None? {
      var k :| 0 <= k < |items| && ParseInt(items[k]).None?;
      assert items[1..][k - 1] == items[k];
    }
  }

  /** When it does not raise, the set holds exactly the items' values. */
  lemma {:induction false} IdSetMembers(items: seq<string>, i: int)
    requires IdSet(items).Ok?
    ensures i in IdSet(items).value <==> exists k :: 0 <= k < |items| && ParseInt(items[k]) == Some(i)
  {
    hide ParseInt;
    if items != [] {
      IdSetMembers(items[1..], i);
      if i in IdSet(items[1..]).value {
        var k :| 0 <= k < |items[1..]| && ParseInt(items[1..][k]) == Some(i);
        assert ParseInt(items[k + 1]) == Some(i);
      }
      if exists k :: 0 <= k < |items| && ParseInt(items[k]) == Some(i) {
        var k :| 0 <= k < |items| && ParseInt(items[k]) == Some(i);
        if k > 0 {
          assert items[1..][k - 1] == items[k];
        }
      }
    }
  }

  /** The allow-list the constructor derives from the `include_event_ids`
      setting: no filtering when the setting is empty; otherwise the set of the
      comma-separated integers, and a malformed item makes construction raise. */
  function AllowList(setting: string): (r: Result<Option<set<int>>>)
    ensures setting == "" ==> r == Ok(None)
    ensures setting != "" && r.Ok? ==> r.value.Some? && r.value.value != {}
  {
    if setting == "" then Ok(None)
    else match IdSet(Split(setting, ','))
      case Err => Err
      case Ok(ids) => Ok(Some(ids))
  }

  /** `if self.include_event_ids: ... event_id in self.include_event_ids`. */
  predicate Admits(allow: Option<set<int>>, eventId: int) {
    if allow.Some? && allow.value != {} then eventId in allow.value else true
  }

  // ---------------------------------------------------------------------------
  // One pass over a channel

  /** How a walk over records (newest first) ends: an id could not be read, a
      record at or below the watermark was reached, or the records ran out. */
  datatype Walk = Failed | Stopped(kept: seq<Rendered>) | Exhausted(kept: seq<Rendered>)

  /** The walk `w`, after the records `kept` were already kept. */
  function After(kept: seq<Rendered>, w: Walk): Walk {
    match w
    case Failed => Failed
    case Stopped(k) => Stopped(kept + k)
    case Exhausted(k) => Exhausted(kept + k)
  }

  /** The walk `a`, continued by `b` when `a` ran out of records. */
  function Then(a: Walk, b: Walk): Walk {
    if a.Exhausted? then After(a.kept, b) else a
  }

  /** The walk of `process_channel` over records newest first: kept while their
      id exceeds the watermark, up to the first that does not. */
  function WalkRecords(rs: seq<Rendered>, mark: int): Walk {
    if rs == [] then Exhausted([])
    else match RecordIdOf(rs[0])
      case None => Failed
      case Some(id) => if id <= mark then Stopped([]) else After([rs[0]], WalkRecords(rs[1..], mark))
  }

  /** `events_to_process`; `Err` when an id cannot be read, which aborts the pass. */
  function Newer(rs: seq<Rendered>, mark: int): Result<seq<Rendered>> {
    match WalkRecords(rs, mark)
    case Failed => Err
    case Stopped(k) => Ok(k)
    case Exhausted(k) => Ok(k)
  }

  function Reversed<T>(s: seq<T>): (r: seq<T>)
    ensures |r| == |s| && forall i :: 0 <= i < |s| ==> r[i] == s[|s| - 1 - i]
  {
    if s == [] then [] else Reversed(s[1..]) + [s[0]]
  }

  predicate Parses(x: Rendered, channel: string) {
    ParseEventXml(x, channel).Some?
  }

  /** Index of the first `false`, or the length when there is none. */
  function FirstFalse(bs: seq<bool>): (k: nat)
    ensures k <= |bs|
    ensures forall j :: 0 <= j < k ==> bs[j]
    ensures k < |bs| ==> !bs[k]
  {
    if bs == [] || !bs[0] then 0 else FirstFalse(bs[1..]) + 1
  }

  /** Index of the first record (oldest first) that `parse_event_xml` rejects,
      or the length when there is none. */
  function FirstFailure(evs: seq<Rendered>, channel: string): (k: nat)
    ensures k <= |evs|
    ensures forall j :: 0 <= j < k ==> Parses(evs[j], channel)
    ensures k < |evs| ==> !Parses(evs[k], channel)
  {
    var bs := seq(|evs|, i requires 0 <= i < |evs| => Parses(evs[i], channel));
    assert forall j :: 0 <= j < |evs| ==> bs[j] == Parses(evs[j], channel);
    FirstFalse(bs)
  }

  /** What one record contributes to the sink: its parsed event, if the
      allow-list admits it. */
  function Admit(channel: string, allow: Option<set<int>>): Rendered -> seq<Event> {
    (x: Rendered) =>
      match ParseEventXml(x, channel)
      case None => []
      case Some(ev) => if Admits(allow, ev.eventId) then [ev] else []
  }

  /** `latest_id_in_batch` after the loop: the largest record id of the parsed
      records, filtered or not, starting from 0. */
  function MaxRecordId(evs: seq<Rendered>, channel: string): (m: int)
    ensures m >= 0
  {
    if evs == [] then 0
    else
      var m := MaxRecordId(evs[..|evs| - 1], channel);
      var p := ParseEventXml(evs[|evs| - 1], channel);
      if p.Some? && p.value.recordId > m then p.value.recordId else m
  }

  /** The line written for an event. */
  function JsonLine(ev: Event): string {
    Dumps(ToValue(ev)) + "\r\n"
  }

  function JsonLines(evs: seq<Event>): seq<string> {
    FlatMap(evs, (ev: Event) => [JsonLine(ev)])
  }

  /** What one pass over a channel does: the events written, and the new
      watermark when one is stored. */
  datatype Outcome = Outcome(written: seq<Event>, mark: Option<int>)

  function ChannelOutcome(records: Option<seq<Rendered>>, mark: int, channel: string,
                          allow: Option<set<int>>, running: bool): Outcome {
    if records.None? || !running then Outcome([], None)
    else match Newer(records.value, mark)
      case Err => Outcome([], None)
      case Ok(ns) =>
        if ns == [] then Outcome([], None)
        else
          var evs := Reversed(ns);
          var k := FirstFailure(evs, channel);
          var written := FlatMap(evs[..k], Admit(channel, allow));
          if k < |evs| then Outcome(written, None)
          else
            var latest := MaxRecordId(evs, channel);
            Outcome(written, if latest > 0 then Some(latest) else None)
  }

  /** The watermarks after a pass. */
  function NewMarks(marks: map<string, int>, channel: string, o: Outcome): map<string, int> {
    if o.mark.Some? then marks[channel := o.mark.value] else marks
  }

  // ---------------------------------------------------------------------------
  // Properties of the walk

  lemma AfterAssoc(x: seq<Rendered>, y: seq<Rendered>, w: Walk)
    ensures After(x, After(y, w)) == After(x + y, w)
  {
    match w
    case Failed =>
    case Stopped(k) => ConcatAssoc(x, y, k);
    case Exhausted(k) => ConcatAssoc(x, y, k);
  }

  /** The walk over two runs of records is the walk over the first, continued
      over the second when the first ran out. */
  lemma {:induction false} WalkAppend(a: seq<Rendered>, b: seq<Rendered>, mark: int)
    ensures WalkRecords(a + b, mark) == Then(WalkRecords(a, mark), WalkRecords(b, mark))
  {
    hide RecordIdOf;
    if a == [] {
      assert a + b == b;
      assert After([], WalkRecords(b, mark)) == WalkRecords(b, mark);
    } else {
      WalkAppend(a[1..], b, mark);
      SliceAppend(a, b, 1);
      assert (a + b)[0] == a[0];
      var w := WalkRecords(a[1..], mark);
      if w.Exhausted? {
        AfterAssoc([a[0]], w.kept, WalkRecords(b, mark));
      }
    }
  }

  /** A record whose id is readable and above the watermark. */
  predicate Above(r: Rendered, mark: int) {
    RecordIdOf(r).Some? && RecordIdOf(r).value > mark
  }

  /** The records kept are a prefix of the channel's records, all with a
      readable id above the watermark; the walk stopped at the record after
      them exactly when that one's id is readable and not above it. */
  lemma {:induction false} WalkKept(rs: seq<Rendered>, mark: int)
    requires !WalkRecords(rs, mark).Failed?
    ensures var k := WalkRecords(rs, mark).kept;
      |k| <= |rs| && k == rs[..|k|] && (forall i :: 0 <= i < |k| ==> Above(k[i], mark))
    ensures var k := WalkRecords(rs, mark).kept;
      WalkRecords(rs, mark).Stopped? ==> |k| < |rs| && RecordIdOf(rs[|k|]).Some? && !Above(rs[|k|], mark)
    ensures WalkRecords(rs, mark).Exhausted? ==> |WalkRecords(rs, mark).kept| == |rs|
  {
    hide RecordIdOf;
    if rs != [] && Above(rs[0], mark) {
      WalkKept(rs[1..], mark);
      var k := WalkRecords(rs[1..], mark).kept;
      ConsSlice(rs);
      assert forall i :: 0 < i < |k| + 1 ==> ([rs[0]] + k)[i] == k[i - 1];
    }
  }

  /** A walk fails at a record whose id is unreadable, all before it being
      above the watermark. */
  lemma {:induction false} WalkFails(rs: seq<Rendered>, mark: int)
    requires WalkRecords(rs, mark).Failed?
    ensures exists j :: 0 <= j < |rs| && RecordIdOf(rs[j]).None? && forall i :: 0 <= i < j ==> Above(rs[i], mark)
  {
    hide RecordIdOf;
    if RecordIdOf(rs[0]).Some? {
      WalkFails(rs[1..], mark);
      var j :| 0 <= j < |rs[1..]| && RecordIdOf(rs[1..][j]).None? && forall i :: 0 <= i < j ==> Above(rs[1..][i], mark);
      assert RecordIdOf(rs[j + 1]).None?;
      assert forall i :: 0 < i < j + 1 ==> rs[i] == rs[1..][i - 1];
    } else {
      assert RecordIdOf(rs[0]).None?;
    }
  }

  // ---------------------------------------------------------------------------
  // The collector's state, pass by pass

  /** The watermarks and the lines the collector has appended to its sink. */
  datatype State = State(marks: map<string, int>, sink: seq<string>)

  /** `process_channel(channel)` as a change of state. */
  function Pass(s: State, channels: Channels, channel: string, allow: Option<set<int>>, running: bool): State {
    var o := ChannelOutcome(Query(channels, channel), Mark(s.marks, channel), channel, allow, running);
    State(NewMarks(s.marks, channel, o), s.sink + JsonLines(o.written))
  }

  /** `for channel in self.log_channels: self.process_channel(channel)`. */
  function Cycle(s: State, channels: Channels, allow: Option<set<int>>, running: bool, cs: seq<string>): State {
    if cs == [] then s
    else Pass(Cycle(s, channels, allow, running, cs[..|cs| - 1]), channels, cs[|cs| - 1], allow, running)
  }

  /** Successive turns of the polling loop, one per state of the Event Log. */
  function Polls(s: State, snapshots: seq<Channels>, allow: Option<set<int>>, running: bool): State {
    if snapshots == [] then s
    else Cycle(Polls(s, snapshots[..|snapshots| - 1], allow, running), snapshots[|snapshots| - 1], allow, running, LogChannels)
  }

  /** The newest record id of a channel at start-up: nothing when the query
      raises `win32evtlog.error` or the channel is empty; `Err` when the newest
      record's id cannot be read, which escapes `start`. */
  function Newest(records: Option<seq<Rendered>>): Result<Option<int>> {
    if records.None? || records.value == [] then Ok(None)
    else match RecordIdOf(records.value[0])
      case None => Err
      case Some(id) => Ok(Some(id))
  }

  /** The watermark initialisation of `start` over the channels `cs`: the new
      watermarks, and whether an exception escaped (which ends it early). */
  function InitMarks(marks: map<string, int>, channels: Channels, cs: seq<string>): (map<string, int>, bool) {
    if cs == [] then (marks, false)
    else
      var (m, raised) := InitMarks(marks, channels, cs[..|cs| - 1]);
      if raised then (m, true)
      else match Newest(Query(channels, cs[|cs| - 1]))
        case Err => (m, true)
        case Ok(None) => (m, false)
        case Ok(Some(id)) => (m[cs[|cs| - 1] := id], false)
  }

  /** One `EvtNext(query_handle, 100)`: the next records from `pos`. */
  function Chunk(records: seq<Rendered>, pos: nat): (r: seq<Rendered>)
    requires pos <= |records|
    ensures |r| <= ChunkSize && pos + |r| <= |records| && r == records[pos..pos + |r|]
    ensures r == [] <==> pos == |records|
  {
    if |records| - pos <= ChunkSize then records[pos..] else records[pos..pos + ChunkSize]
  }

  /** The inner `for event in events` loop of the walk over one chunk. */
  method ScanChunk(chunk: seq<Rendered>, mark: int) returns (w: Walk)
    ensures w == WalkRecords(chunk, mark)
  {
    hide RecordIdOf;
    var kept: seq<Rendered> := [];
    var i := 0;
    while i < |chunk|
      invariant 0 <= i <= |chunk|
      invariant WalkRecords(chunk[..i], mark) == Exhausted(kept)
    {
      var id := RecordIdOf(chunk[i]);
      WalkOne(chunk, i, mark);
      if id.None? {
        return Failed;
      }
      if id.value <= mark {
        return Stopped(kept);
      }
      kept := kept + [chunk[i]];
      i := i + 1;
    }
    assert chunk[..i] == chunk;
    return Exhausted(kept);
  }

  /** Walking one more record of a chunk. */
  lemma WalkOne(chunk: seq<Rendered>, i: nat, mark: int)
    requires i < |chunk|
    ensures WalkRecords(chunk, mark) == Then(WalkRecords(chunk[..i], mark), WalkRecords(chunk[i..], mark))
    ensures WalkRecords(chunk[..i + 1], mark) == Then(WalkRecords(chunk[..i], mark), WalkRecords([chunk[i]], mark))
    ensures WalkRecords(chunk[i..], mark) == Then(WalkRecords([chunk[i]], mark), WalkRecords(chunk[i + 1..], mark))
    ensures WalkRecords([chunk[i]], mark) ==
      match RecordIdOf(chunk[i])
      case None => Failed
      case Some(id) => if id <= mark then Stopped([]) else Exhausted([chunk[i]])
  {
    hide RecordIdOf;
    assert chunk == chunk[..i] + chunk[i..];
    WalkAppend(chunk[..i], chunk[i..], mark);
    assert chunk[..i + 1] == chunk[..i] + [chunk[i]];
    WalkAppend(chunk[..i], [chunk[i]], mark);
    assert chunk[i..] == [chunk[i]] + chunk[i + 1..];
    WalkAppend([chunk[i]], chunk[i + 1..], mark);
    assert [chunk[i]][1..] == [];
  }

  /** Index just past the events written from a batch: lines for every event
      of `evs[..i]`, as `Admit` decides. */
  lemma WrittenSnoc(evs: seq<Rendered>, i: nat, f: Rendered -> seq<Event>)
    requires i < |evs|
    ensures JsonLines(FlatMap(evs[..i + 1], f)) == JsonLines(FlatMap(evs[..i], f)) + JsonLines(f(evs[i]))
  {
    FlatMapSnoc(evs, i, f);
    FlatMapAppend(FlatMap(evs[..i], f), f(evs[i]), (ev: Event) => [JsonLine(ev)]);
  }

  /** One more record of the batch for `latest_id_in_batch`. */
  lemma MaxSnoc(evs: seq<Rendered>, i: nat, channel: string)
    requires i < |evs|
    ensures var m := MaxRecordId(evs[..i], channel);
      var p := ParseEventXml(evs[i], channel);
      MaxRecordId(evs[..i + 1], channel) == if p.Some? && p.value.recordId > m then p.value.recordId else m
  {
    assert evs[..i + 1][..i] == evs[..i];
  }

  /** Before the loop. */
  lemma NothingWritten(evs: seq<Rendered>, channel: string, f: Rendered -> seq<Event>)
    ensures MaxRecordId(evs[..0], channel) == 0 && JsonLines(FlatMap(evs[..0], f)) == []
  {
    assert evs[..0] == [];
  }

  /** What a record that parses contributes to the sink. */
  lemma AdmitParsed(channel: string, allow: Option<set<int>>, x: Rendered, ev: Event)
    requires ParseEventXml(x, channel) == Some(ev)
    ensures JsonLines(Admit(channel, allow)(x)) == if Admits(allow, ev.eventId) then [JsonLine(ev)] else []
  {
    hide ParseEventXml;
    if Admits(allow, ev.eventId) {
      assert Admit(channel, allow)(x) == [ev];
      var g := (e: Event) => [JsonLine(e)];
      assert FlatMap([ev], g) == g(ev) + FlatMap([ev][1..], g);
      assert [ev][1..] == [];
    } else {
      assert Admit(channel, allow)(x) == [];
    }
  }

  /** Once an exception escapes the initialisation, later channels are not
      looked at. */
  lemma {:induction false} InitRaised(marks: map<string, int>, channels: Channels, cs: seq<string>, n: nat)
    requires n <= |cs| && InitMarks(marks, channels, cs[..n]).1
    ensures InitMarks(marks, channels, cs) == InitMarks(marks, channels, cs[..n])
    decreases |cs| - n
  {
    hide RecordIdOf;
    if n < |cs| {
      assert cs[..n + 1][..n] == cs[..n];
      InitRaised(marks, channels, cs, n + 1);
    } else {
      assert cs[..n] == cs;
    }
  }

  /** The first failure is where the parsing loop stopped. */
  lemma FirstFailureAt(evs: seq<Rendered>, channel: string, i: nat)
    requires i <= |evs|
    requires forall j :: 0 <= j < i ==> Parses(evs[j], channel)
    requires i < |evs| ==> !Parses(evs[i], channel)
    ensures FirstFailure(evs, channel) == i
  {
  }

  /** The collector. The Event Log service, the configuration and the sink
      file are outside it: the service is passed to each call as a map from
      channel to records, and the sink is the sequence of lines appended. */
  class Collector {
    var running: bool
    const outputLogFile: string
    const logChannels: seq<string> := LogChannels
    const includeEventIds: Option<set<int>>
    var lastRecordIds: map<string, int>
    var sink: seq<string>

    /** `__init__`: `logFile` is the configured `log_monitoring.log_file`,
        `idsSetting` the configured `EventLogFiltering.include_event_ids`
        (empty when absent); a malformed allow-list makes it raise. */
    constructor (root: string, logFile: Option<string>, idsSetting: string)
      requires AllowList(idsSetting).Ok?
      ensures !running && sink == []
      ensures outputLogFile ==
        NtPath.PathJoin(NtPath.PathJoin(root, "logs"), if logFile.Some? then logFile.value else "security_events.log")
      ensures includeEventIds == AllowList(idsSetting).value
      ensures forall c :: c in lastRecordIds <==> c in LogChannels
      ensures forall c :: c in lastRecordIds ==> lastRecordIds[c] == 0
    {
      running := false;
      outputLogFile :=
        NtPath.PathJoin(NtPath.PathJoin(root, "logs"), if logFile.Some? then logFile.value else "security_events.log");
      includeEventIds := AllowList(idsSetting).value;
      lastRecordIds := map c | c in LogChannels :: 0;
      sink := [];
    }

    /** `start` up to its polling loop: each channel's watermark becomes its
        newest record id; an inaccessible or empty channel keeps its own. */
    method InitWatermarks(channels: Channels) returns (raised: bool)
      modifies this`lastRecordIds
      ensures (lastRecordIds, raised) == InitMarks(old(lastRecordIds), channels, logChannels)
    {
      hide RecordIdOf;
      var i := 0;
      raised := false;
      while i < |logChannels|
        invariant 0 <= i <= |logChannels|
        invariant (lastRecordIds, false) == InitMarks(old(lastRecordIds), channels, logChannels[..i])
      {
        var channel := logChannels[i];
        assert logChannels[..i + 1][..i] == logChannels[..i];
        var newest := Newest(Query(channels, channel));
        if newest.Err? {
          InitRaised(old(lastRecordIds), channels, logChannels, i + 1);
          return true;
        }
        if newest.value.Some? {
          lastRecordIds := lastRecordIds[channel := newest.value.value];
        }
        i := i + 1;
      }
      assert logChannels[..i] == logChannels;
    }

    /** `start`: set `running`, initialise the watermarks, then poll every
        channel once per state of the Event Log in `snapshots` (the five
        second sleep between turns is not modelled). */
    method Start(channels: Channels, snapshots: seq<Channels>) returns (raised: bool)
      modifies this`running, this`lastRecordIds, this`sink
      ensures running
      ensures raised == InitMarks(old(lastRecordIds), channels, logChannels).1
      ensures raised ==> lastRecordIds == InitMarks(old(lastRecordIds), channels, logChannels).0 && sink == old(sink)
      ensures !raised ==>
        State(lastRecordIds, sink) ==
          Polls(State(InitMarks(old(lastRecordIds), channels, logChannels).0, old(sink)), snapshots, includeEventIds, true)
    {
      hide RecordIdOf, ParseEventXml, InitMarks, Cycle, Newest;
      running := true;
      raised := InitWatermarks(channels);
      if raised {
        return;
      }
      ghost var s0 := State(lastRecordIds, sink);
      var i := 0;
      while i < |snapshots| && running
        invariant 0 <= i <= |snapshots| && running
        invariant State(lastRecordIds, sink) == Polls(s0, snapshots[..i], includeEventIds, true)
      {
        assert snapshots[..i + 1][..i] == snapshots[..i];
        ghost var before := State(lastRecordIds, sink);
        PollOnce(snapshots[i]);
        assert State(lastRecordIds, sink) == Cycle(before, snapshots[i], includeEventIds, true, LogChannels);
        i := i + 1;
      }
      assert snapshots[..i] == snapshots;
    }

    /** One turn of the polling loop: every channel in order. */
    method PollOnce(channels: Channels)
      modifies this`lastRecordIds, this`sink
      ensures State(lastRecordIds, sink) ==
        Cycle(State(old(lastRecordIds), old(sink)), channels, includeEventIds, running, logChannels)
    {
      hide RecordIdOf, ParseEventXml, Pass;
      var i := 0;
      while i < |logChannels|
        invariant 0 <= i <= |logChannels|
        invariant State(lastRecordIds, sink) ==
          Cycle(State(old(lastRecordIds), old(sink)), channels, includeEventIds, running, logChannels[..i])
      {
        assert logChannels[..i + 1][..i] == logChannels[..i];
        assert logChannels[..i + 1][i] == logChannels[i];
        ProcessChannel(channels, logChannels[i]);
        i := i + 1;
      }
      assert logChannels[..i] == logChannels;
    }

    /** `stop`. */
    method Stop()
      modifies this`running
      ensures !running
    {
      running := false;
    }

    /** `process_channel(channel)`. */
    method ProcessChannel(channels: Channels, channel: string)
      modifies this`lastRecordIds, this`sink
      ensures State(lastRecordIds, sink) ==
        Pass(State(old(lastRecordIds), old(sink)), channels, channel, includeEventIds, running)
    {
      var query := Query(channels, channel);
      if query.None? {
        assert sink + [] == sink;
        return;
      }
      var collected := CollectRecords(query.value, channel);
      if collected.Err? || collected.value == [] {
        assert sink + [] == sink;
        return;
      }
      WriteBatch(Reversed(collected.value), channel);
    }

    /** The walk of `process_channel`, a chunk of `ChunkSize` records at a
        time: the records newer than the watermark, newest first. */
    method CollectRecords(records: seq<Rendered>, channel: string) returns (r: Result<seq<Rendered>>)
      ensures r == if running then Newer(records, Mark(lastRecordIds, channel)) else Ok([])
    {
      hide RecordIdOf;
      var mark := Mark(lastRecordIds, channel);
      var collected: seq<Rendered> := [];
      var pos := 0;
      while running
        invariant 0 <= pos <= |records|
        invariant WalkRecords(records[..pos], mark) == Exhausted(collected)
        invariant !running ==> collected == []
        decreases |records| - pos
      {
        var chunk := Chunk(records, pos);
        if chunk == [] {
          break;
        }
        var w := ScanChunk(chunk, mark);
        ChunkStep(records, pos, chunk, mark);
        if !w.Exhausted? {
          return if w.Failed? then Err else Ok(collected + w.kept);
        }
        collected := collected + w.kept;
        pos := pos + |chunk|;
      }
      if running {
        assert records[..pos] == records;
      }
      return Ok(collected);
    }

    /** `for event in reversed(events_to_process)` and what follows it: the
        watermark moves to `latest_id_in_batch` only when the loop completes
        and that id is positive. */
    method WriteBatch(evs: seq<Rendered>, channel: string)
      modifies this`lastRecordIds, this`sink
      ensures sink == old(sink) + JsonLines(FlatMap(evs[..FirstFailure(evs, channel)], Admit(channel, includeEventIds)))
      ensures lastRecordIds ==
        if FirstFailure(evs, channel) == |evs| && MaxRecordId(evs, channel) > 0
        then old(lastRecordIds)[channel := MaxRecordId(evs, channel)] else old(lastRecordIds)
    {
      var latest, failed := WriteEvents(evs, channel);
      if !failed && latest > 0 {
        lastRecordIds := lastRecordIds[channel := latest];
      }
    }

    /** The loop itself: each event that parses is written if admitted and
        raises `latest_id_in_batch`; one that does not parse raises at the
        `.get` on `None`, which ends the pass (`failed`). */
    method WriteEvents(evs: seq<Rendered>, channel: string) returns (latest: int, failed: bool)
      modifies this`sink
      ensures failed <==> FirstFailure(evs, channel) < |evs|
      ensures sink == old(sink) + JsonLines(FlatMap(evs[..FirstFailure(evs, channel)], Admit(channel, includeEventIds)))
      ensures !failed ==> latest == MaxRecordId(evs, channel)
    {
      hide RecordIdOf, ParseEventXml, FirstFailure, MaxRecordId, FlatMap, JsonLines, Admit, Admits, JsonLine;
      latest := 0;
      var i := 0;
      NothingWritten(evs, channel, Admit(channel, includeEventIds));
      while i < |evs|
        invariant 0 <= i <= |evs|
        invariant forall j :: 0 <= j < i ==> Parses(evs[j], channel)
        invariant sink == old(sink) + JsonLines(FlatMap(evs[..i], Admit(channel, includeEventIds)))
        invariant latest == MaxRecordId(evs[..i], channel)
      {
        var parsed := ParseEventXml(evs[i], channel);
        if parsed.None? {
          FirstFailureAt(evs, channel, i);
          return latest, true;
        }
        WrittenSnoc(evs, i, Admit(channel, includeEventIds));
        latest := WriteEvent(evs, i, channel, latest);
        i := i + 1;
      }
      FirstFailureAt(evs, channel, i);
      assert evs[..i] == evs;
      failed := false;
    }

    /** One turn of that loop, for a record that parses. */
    method WriteEvent(evs: seq<Rendered>, i: nat, channel: string, latest: int) returns (next: int)
      requires i < |evs| && Parses(evs[i], channel)
      requires latest == MaxRecordId(evs[..i], channel)
      modifies this`sink
      ensures sink == old(sink) + JsonLines(Admit(channel, includeEventIds)(evs[i]))
      ensures next == MaxRecordId(evs[..i + 1], channel)
    {
      hide RecordIdOf, ParseEventXml, MaxRecordId, FlatMap, JsonLines, Admit, JsonLine;
      var ev := ParseEventXml(evs[i], channel).value;
      AdmitParsed(channel, includeEventIds, evs[i], ev);
      MaxSnoc(evs, i, channel);
      if Admits(includeEventIds, ev.eventId) {
        sink := sink + [JsonLine(ev)];
      } else {
        assert sink + [] == sink;
      }
      next := if ev.recordId > latest then ev.recordId else latest;
    }
  }

  /** A chunk of the walk, continuing the records already walked. */
  lemma ChunkStep(records: seq<Rendered>, pos: nat, chunk: seq<Rendered>, mark: int)
    requires pos + |chunk| <= |records| && chunk == records[pos..pos + |chunk|]
    ensures WalkRecords(records[..pos + |chunk|], mark) == Then(WalkRecords(records[..pos], mark), WalkRecords(chunk, mark))
    ensures WalkRecords(records, mark) == Then(WalkRecords(records[..pos + |chunk|], mark), WalkRecords(records[pos + |chunk|..], mark))
  {
    hide RecordIdOf;
    assert records[..pos + |chunk|] == records[..pos] + chunk;
    WalkAppend(records[..pos], chunk, mark);
    assert records == records[..pos + |chunk|] + records[pos + |chunk|..];
    WalkAppend(records[..pos + |chunk|], records[pos + |chunk|..], mark);
  }

  // ---------------------------------------------------------------------------
  // Properties of a pass

  /** Each element of a flat map comes from an element of the input. */
  lemma {:induction false} FlatMapMember<T, U>(s: seq<T>, f: T -> seq<U>, u: U)
    ensures u in FlatMap(s, f) <==> exists j :: 0 <= j < |s| && u in f(s[j])
  {
    if s != [] {
      FlatMapMember(s[1..], f, u);
      if exists j :: 0 <= j < |s[1..]| && u in f(s[1..][j]) {
        var j :| 0 <= j < |s[1..]| && u in f(s[1..][j]);
        assert u in f(s[j + 1]);
      }
      if exists j :: 0 <= j < |s| && u in f(s[j]) {
        var j :| 0 <= j < |s| && u in f(s[j]);
        if j > 0 {
          assert s[1..][j - 1] == s[j];
        }
      }
    }
  }

  /** `latest_id_in_batch` bounds the id of every record that parses, and is
      either 0 or the id of one of them. */
  lemma {:induction false} MaxRecordIdIs(evs: seq<Rendered>, channel: string)
    ensures forall j :: 0 <= j < |evs| && Parses(evs[j], channel) ==>
      ParseEventXml(evs[j], channel).value.recordId <= MaxRecordId(evs, channel)
    ensures MaxRecordId(evs, channel) == 0 ||
      exists j :: 0 <= j < |evs| && Parses(evs[j], channel) && ParseEventXml(evs[j], channel).value.recordId == MaxRecordId(evs, channel)
  {
    hide ParseEventXml;
    if evs != [] {
      var n := |evs| - 1;
      MaxRecordIdIs(evs[..n], channel);
      assert forall j :: 0 <= j < n ==> evs[..n][j] == evs[j];
    }
  }

  /** An event written from a batch is a parsed, admitted record of it. */
  lemma AdmittedOf(evs: seq<Rendered>, k: nat, channel: string, allow: Option<set<int>>, ev: Event)
    requires k <= |evs| && ev in FlatMap(evs[..k], Admit(channel, allow))
    ensures exists j :: 0 <= j < k && ParseEventXml(evs[j], channel) == Some(ev) && Admits(allow, ev.eventId)
  {
    hide RecordIdOf, ParseEventXml;
    FlatMapMember(evs[..k], Admit(channel, allow), ev);
    var j :| 0 <= j < k && ev in Admit(channel, allow)(evs[..k][j]);
    assert evs[..k][j] == evs[j];
  }

  /** The events written in a pass come from the records collected, parse,
      are admitted by the allow-list and lie above the watermark. */
  lemma WrittenOf(records: Option<seq<Rendered>>, mark: int, channel: string, allow: Option<set<int>>, running: bool, ev: Event)
    requires ev in ChannelOutcome(records, mark, channel, allow, running).written
    ensures records.Some? && running && Newer(records.value, mark).Ok?
    ensures exists r :: r in Newer(records.value, mark).value && ParseEventXml(r, channel) == Some(ev)
    ensures Admits(allow, ev.eventId) && ev.recordId > mark
  {
    hide RecordIdOf, ParseEventXml, FlatMap, Admit, FirstFailure, Newer, MaxRecordId, Admits;
    var ns := Newer(records.value, mark).value;
    var evs := Reversed(ns);
    AdmittedOf(evs, FirstFailure(evs, channel), channel, allow, ev);
    var j :| 0 <= j < |evs| && ParseEventXml(evs[j], channel) == Some(ev) && Admits(allow, ev.eventId);
    assert ns[|ns| - 1 - j] in ns;
    AboveOf(records.value, mark, channel, |ns| - 1 - j, ev);
  }

  /** A collected record that parses has its id above the watermark. */
  lemma AboveOf(records: seq<Rendered>, mark: int, channel: string, i: nat, ev: Event)
    requires Newer(records, mark).Ok? && i < |Newer(records, mark).value|
    requires ParseEventXml(Newer(records, mark).value[i], channel) == Some(ev)
    ensures ev.recordId > mark
  {
    hide ParseEventXml;
    WalkKept(records, mark);
    ParsedRecordId(Newer(records, mark).value[i], channel);
  }

  /** A pass that parses every collected record writes every admitted event. */
  lemma WrittenAll(records: seq<Rendered>, mark: int, channel: string, allow: Option<set<int>>, r: Rendered)
    requires Newer(records, mark).Ok? && r in Newer(records, mark).value
    requires forall x :: x in Newer(records, mark).value ==> Parses(x, channel)
    requires Parses(r, channel)
    requires Admits(allow, ParseEventXml(r, channel).value.eventId)
    ensures ParseEventXml(r, channel).value in ChannelOutcome(Some(records), mark, channel, allow, true).written
  {
    hide RecordIdOf, ParseEventXml, MaxRecordId, Newer, FlatMap, Admits;
    var ns := Newer(records, mark).value;
    var evs := Reversed(ns);
    var j := InReversed(ns, r);
    FirstFailureAt(evs, channel, |evs|);
    assert evs[..|evs|] == evs;
    FlatMapMember(evs, Admit(channel, allow), ParseEventXml(r, channel).value);
  }

  /** An element of a sequence is an element of its reversal. */
  lemma InReversed<T>(ns: seq<T>, r: T) returns (j: nat)
    requires r in ns
    ensures j < |Reversed(ns)| == |ns| && Reversed(ns)[j] == r
  {
    var i :| 0 <= i < |ns| && ns[i] == r;
    j := |ns| - 1 - i;
  }

  /** After a fully parsed batch the watermark becomes the largest record id
      of all records collected, filtered or not; it is above the old one. */
  lemma WatermarkAdvances(records: Option<seq<Rendered>>, mark: int, channel: string, allow: Option<set<int>>, running: bool)
    requires ChannelOutcome(records, mark, channel, allow, running).mark.Some?
    ensures var m := ChannelOutcome(records, mark, channel, allow, running).mark.value;
      records.Some? && Newer(records.value, mark).Ok? && m > mark && m > 0 &&
      (forall r :: r in Newer(records.value, mark).value ==> Above(r, mark) && RecordIdOf(r).value <= m) &&
      (exists r :: r in Newer(records.value, mark).value && RecordIdOf(r) == Some(m))
  {
    hide RecordIdOf, ParseEventXml;
    var ns := Newer(records.value, mark).value;
    var evs := Reversed(ns);
    var m := MaxRecordId(evs, channel);
    MaxRecordIdIs(evs, channel);
    WalkKept(records.value, mark);
    forall r | r in ns
      ensures Above(r, mark) && RecordIdOf(r).value <= m
    {
      var i :| 0 <= i < |ns| && ns[i] == r;
      assert evs[|ns| - 1 - i] == r;
      ParsedRecordId(r, channel);
    }
    var j :| 0 <= j < |evs| && Parses(evs[j], channel) && ParseEventXml(evs[j], channel).value.recordId == m;
    ParsedRecordId(evs[j], channel);
    assert evs[j] == ns[|ns| - 1 - j];
    assert Above(ns[|ns| - 1 - j], mark);
  }

  /** No event is written twice by two passes in a row when the first moved
      the watermark: everything the second writes is newer. */
  lemma NoEventTwice(r1: Option<seq<Rendered>>, r2: Option<seq<Rendered>>, mark: int, channel: string,
                     allow: Option<set<int>>, running: bool, e1: Event, e2: Event)
    requires ChannelOutcome(r1, mark, channel, allow, running).mark.Some?
    requires e1 in ChannelOutcome(r1, mark, channel, allow, running).written
    requires e2 in ChannelOutcome(r2, ChannelOutcome(r1, mark, channel, allow, running).mark.value, channel, allow, running).written
    ensures e1.recordId < e2.recordId
  {
    hide RecordIdOf, ParseEventXml;
    var m := ChannelOutcome(r1, mark, channel, allow, running).mark.value;
    WrittenOf(r1, mark, channel, allow, running, e1);
    WrittenOf(r2, m, channel, allow, running, e2);
    WatermarkAdvances(r1, mark, channel, allow, running);
    var r :| r in Newer(r1.value, mark).value && ParseEventXml(r, channel) == Some(e1);
    ParsedRecordId(r, channel);
  }

  /** A record of the batch fails to parse: the events before it are written,
      but the watermark stays where it was. */
  lemma FailedBatchKeepsMark(records: seq<Rendered>, mark: int, channel: string, allow: Option<set<int>>, i: nat)
    requires Newer(records, mark).Ok? && i < |Newer(records, mark).value|
    requires !Parses(Newer(records, mark).value[i], channel)
    ensures ChannelOutcome(Some(records), mark, channel, allow, true).mark.None?
  {
    hide RecordIdOf, ParseEventXml;
    var ns := Newer(records, mark).value;
    assert Reversed(ns)[|ns| - 1 - i] == ns[i];
  }

  /** The defect: while the watermark stays put, every poll of the channel
      writes the same lines again. */
  lemma StuckChannel(s: State, channels: Channels, channel: string, allow: Option<set<int>>)
    requires ChannelOutcome(Query(channels, channel), Mark(s.marks, channel), channel, allow, true).mark.None?
    ensures var w := JsonLines(ChannelOutcome(Query(channels, channel), Mark(s.marks, channel), channel, allow, true).written);
      Pass(Pass(s, channels, channel, allow, true), channels, channel, allow, true) == State(s.marks, s.sink + w + w)
  {
    hide RecordIdOf, ParseEventXml, ChannelOutcome;
  }

  /** A record with an id but no `EventID`: the walk keeps it, the parse rejects it. */
  function NoEventId(recordId: string): Rendered {
    Parsed(Elem(Ns + "Event", map[], None, [
      Elem(Ns + "System", map[], None, [Elem(Ns + "EventRecordID", map[], Some(recordId), [])])]))
  }

  lemma NoEventIdRecord(channel: string)
    ensures RecordIdOf(NoEventId("2")) == Some(2) && !Parses(NoEventId("2"), channel)
  {
    var n := Elem(Ns + "EventRecordID", map[], Some("2"), []);
    var sys := Elem(Ns + "System", map[], None, [n]);
    NoEventIdParts(n, sys);
    ParseTwo();
    hide *;
    IntChildOf(sys, "EventRecordID", n, 2);
    IntChildOf(sys, "EventID", n, 2);
  }

  lemma ParseTwo()
    ensures ParseInt("2") == Some(2)
  {
    ParseIntToString(2);
    assert IntToString(2) == "2";
  }

  lemma IntChildOf(system: Elem, local: string, x: Elem, i: int)
    requires EventXml.Find(system, local).Some? ==> EventXml.Find(system, local) == Some(x) && x.text == Some("2") && i == 2
    requires ParseInt("2") == Some(2)
    ensures IntChild(system, local) == if EventXml.Find(system, local).Some? then Some(i) else None
  {
    hide ParseInt, FindIn;
  }

  lemma NoEventIdParts(n: Elem, sys: Elem)
    requires n == Elem(Ns + "EventRecordID", map[], Some("2"), [])
    requires sys == Elem(Ns + "System", map[], None, [n])
    ensures NoEventId("2").Parsed? && EventXml.Find(NoEventId("2").root, "System") == Some(sys)
    ensures EventXml.Find(sys, "EventRecordID") == Some(n) && EventXml.Find(sys, "EventID").None?
  {
    assert NoEventId("2").root.children == [sys];
    assert sys.children == [n];
    TagsDiffer("EventRecordID", "EventID");
  }

  /** A logon record with record id 1. */
  function Logon(): Rendered {
    Parsed(Render(Record("Microsoft-Windows-Security-Auditing", 4624, 1, [])))
  }

  lemma LogonRecord(channel: string)
    ensures ParseEventXml(Logon(), channel) == Some(Event(channel, Some("Microsoft-Windows-Security-Auditing"), 4624, 1, []))
    ensures RecordIdOf(Logon()) == Some(1)
  {
    var r := Record("Microsoft-Windows-Security-Auditing", 4624, 1, []);
    RenderParse(r, channel);
    ParsedRecordId(Logon(), channel);
    assert DataEntries([]) == [];
  }

  /** An instance of the defect: record 2 lacks its `EventID`, record 1 is
      well formed. The pass writes record 1 and leaves the watermark at 0, so
      two polls write its line twice. */
  lemma StuckExample(channel: string)
    ensures var channels := map[channel := [NoEventId("2"), Logon()]];
      var o := ChannelOutcome(Query(channels, channel), 0, channel, None, true);
      o.written == [Event(channel, Some("Microsoft-Windows-Security-Auditing"), 4624, 1, [])] && o.mark.None? &&
      Pass(Pass(State(map[channel := 0], []), channels, channel, None, true), channels, channel, None, true).sink
        == JsonLines(o.written) + JsonLines(o.written)
  {
    StuckOutcome(channel);
    hide RecordIdOf, ParseEventXml, ChannelOutcome, NoEventId, Logon, JsonLines;
    var s := State(map[channel := 0], []);
    var channels := map[channel := [NoEventId("2"), Logon()]];
    assert Mark(s.marks, channel) == 0;
    StuckChannel(s, channels, channel, None);
  }

  /** The pass over the example channel writes record 1 and does not move the
      watermark. */
  lemma StuckOutcome(channel: string)
    ensures var channels := map[channel := [NoEventId("2"), Logon()]];
      var o := ChannelOutcome(Query(channels, channel), 0, channel, None, true);
      o.written == [Event(channel, Some("Microsoft-Windows-Security-Auditing"), 4624, 1, [])] && o.mark.None?
  {
    var good, bad := Logon(), NoEventId("2");
    NoEventIdRecord(channel);
    LogonRecord(channel);
    hide RecordIdOf, ParseEventXml, Logon, NoEventId;
    var ev := Event(channel, Some("Microsoft-Windows-Security-Auditing"), 4624, 1, []);
    var rs := [bad, good];
    assert rs[1..] == [good] && [good][1..] == [];
    assert WalkRecords([good], 0) == After([good], WalkRecords([], 0)) == Exhausted([good]);
    assert WalkRecords(rs, 0) == After([bad], Exhausted([good])) == Exhausted(rs);
    FailedBatchKeepsMark(rs, 0, channel, None, 0);
    var evs := Reversed(rs);
    assert evs == [good, bad];
    FirstFailureAt(evs, channel, 1);
    assert evs[..1] == [good];
    assert Admit(channel, None)(good) == [ev];
    assert FlatMap([good], Admit(channel, None)) == [ev] + FlatMap([good][1..], Admit(channel, None));
  }

  // ---------------------------------------------------------------------------
  // Order of the lines written

  /** The Event Log hands records over newest first, with strictly
      decreasing record ids. */
  predicate NewestFirst(rs: seq<Rendered>) {
    (forall i :: 0 <= i < |rs| ==> RecordIdOf(rs[i]).Some?) &&
    forall i, j :: 0 <= i < j < |rs| ==> RecordIdOf(rs[j]).value < RecordIdOf(rs[i]).value
  }

  /** Records in increasing id order, each yielding at most one event that
      carries the record's id, yield events in increasing id order. */
  lemma {:induction false} FlatMapIncreasing(s: seq<Rendered>, f: Rendered -> seq<Event>)
    requires forall i, j :: 0 <= i < j < |s| ==> IdKey(s[i]) < IdKey(s[j])
    requires forall x, u :: u in f(x) ==> u.recordId == IdKey(x)
    requires forall x :: |f(x)| <= 1
    ensures forall i, j :: 0 <= i < j < |FlatMap(s, f)| ==> FlatMap(s, f)[i].recordId < FlatMap(s, f)[j].recordId
  {
    hide IdKey;
    if s != [] {
      var t := s[1..];
      assert forall i, j :: 0 <= i < j < |t| ==> t[i] == s[i + 1] && t[j] == s[j + 1];
      FlatMapIncreasing(t, f);
      var head, rest := f(s[0]), FlatMap(t, f);
      forall v | v in rest
        ensures IdKey(s[0]) < v.recordId
      {
        FlatMapMember(t, f, v);
        var j :| 0 <= j < |t| && v in f(t[j]);
        assert t[j] == s[j + 1];
      }
      assert FlatMap(s, f) == head + rest;
      forall i, j | 0 <= i < j < |head + rest|
        ensures (head + rest)[i].recordId < (head + rest)[j].recordId
      {
        if j < |head| {
          assert false;
        } else if i < |head| {
          assert (head + rest)[i] in head && (head + rest)[j] == rest[j - |head|];
          assert rest[j - |head|] in rest;
        } else {
          assert (head + rest)[i] == rest[i - |head|] && (head + rest)[j] == rest[j - |head|];
        }
      }
    }
  }

  /** The key of a record in the order lemma: its id (0 when unreadable). */
  function IdKey(x: Rendered): int {
    if RecordIdOf(x).Some? then RecordIdOf(x).value else 0
  }

  /** When the channel hands its records over newest first, the events of a
      pass are written oldest first: their record ids strictly increase. */
  lemma WrittenInOrder(records: seq<Rendered>, mark: int, channel: string, allow: Option<set<int>>, running: bool)
    requires NewestFirst(records)
    ensures var w := ChannelOutcome(Some(records), mark, channel, allow, running).written;
      forall i, j :: 0 <= i < j < |w| ==> w[i].recordId < w[j].recordId
  {
    hide ParseEventXml, RecordIdOf;
    if running && Newer(records, mark).Ok? && Newer(records, mark).value != [] {
      var ns := Newer(records, mark).value;
      var evs := Reversed(ns);
      var k := FirstFailure(evs, channel);
      OldestFirst(records, mark, ns, k, evs[..k]);
      AdmitKeys(channel, allow);
      FlatMapIncreasing(evs[..k], Admit(channel, allow));
    }
  }

  /** The collected records, reversed, have increasing ids. */
  lemma OldestFirst(records: seq<Rendered>, mark: int, ns: seq<Rendered>, k: nat, s: seq<Rendered>)
    requires NewestFirst(records) && Newer(records, mark) == Ok(ns) && k <= |ns| && s == Reversed(ns)[..k]
    ensures forall i, j :: 0 <= i < j < |s| ==> IdKey(s[i]) < IdKey(s[j])
  {
    hide ParseEventXml, RecordIdOf;
    WalkKept(records, mark);
    forall i, j | 0 <= i < j < |s|
      ensures IdKey(s[i]) < IdKey(s[j])
    {
      assert s[i] == records[|ns| - 1 - i] && s[j] == records[|ns| - 1 - j];
    }
  }

  /** Each event admitted from a record carries the record's id. */
  lemma AdmitKeys(channel: string, allow: Option<set<int>>)
    ensures forall x, u :: u in Admit(channel, allow)(x) ==> u.recordId == IdKey(x)
    ensures forall x :: |Admit(channel, allow)(x)| <= 1
  {
    forall x, u | u in Admit(channel, allow)(x)
      ensures u.recordId == IdKey(x)
    {
      ParsedRecordId(x, channel);
    }
  }

  // ---------------------------------------------------------------------------
  // The sink as the log tailer reads it

  /** The lines the collector appends read back, line by line, as themselves. */
  lemma {:induction false} SinkLines(evs: seq<Event>)
    ensures LinesKeepEnds(Concat(JsonLines(evs))) == JsonLines(evs)
  {
    if evs == [] {
      LinesEmpty();
    } else {
      SinkLines(evs[1..]);
      var d := Dumps(ToValue(evs[0]));
      var x := JsonLine(evs[0]);
      assert JsonLines(evs) == [x] + JsonLines(evs[1..]);
      ConcatCons(x, JsonLines(evs[1..]));
      DumpsSingleLine(ToValue(evs[0]));
      assert '\n' !in d + "\r";
      assert x == (d + "\r") + "\n";
      LinesOfLine(d + "\r");
      LinesAppend(x, Concat(JsonLines(evs[1..])));
    }
  }

  /** What `process_line` of the log tailer makes of a line: stripping it
      leaves exactly the serialised event. */
  lemma StripJsonLine(ev: Event)
    ensures Strip(JsonLine(ev)) == Dumps(ToValue(ev))
  {
    var d := Dumps(ToValue(ev));
    assert d == "{" + DumpsEntries(ToValue(ev), ToValue(ev).entries) + "}";
    StripLineEnd(d);
  }

  /** A line ending in `\r\n` strips to its text when that text has no
      whitespace at its ends. */
  lemma StripLineEnd(d: string)
    requires d != [] && !IsSpace(d[0]) && !IsSpace(d[|d| - 1])
    ensures Strip(d + "\r\n") == d
  {
    var s := d + "\r\n";
    assert s[..|s| - 1] == d + "\r";
    assert (d + "\r")[..|d|] == d;
    assert RStrip(d) == d;
    assert RStrip(d + "\r") == d;
    assert RStrip(s) == d;
    assert LStrip(s) == s;
  }

  // ---------------------------------------------------------------------------
  // Configuration and start-up

  /** The setting written for a list of ids. */
  function IdStrings(ids: seq<int>): (r: seq<string>)
    ensures |r| == |ids| && forall i :: 0 <= i < |ids| ==> r[i] == IntToString(ids[i])
  {
    if ids == [] then [] else [IntToString(ids[0])] + IdStrings(ids[1..])
  }

  lemma {:induction false} IdSetOfInts(ids: seq<int>)
    ensures IdSet(IdStrings(ids)) == Ok(set i | i in ids)
  {
    hide ParseInt, IntToString;
    if ids != [] {
      IdSetOfInts(ids[1..]);
      ParseIntToString(ids[0]);
      var xs := IdStrings(ids);
      assert xs[0] == IntToString(ids[0]);
      assert xs[1..] == IdStrings(ids[1..]);
      assert IdSet(xs) == Ok({ids[0]} + (set i | i in ids[1..]));
      assert forall x :: x in ids <==> x == ids[0] || x in ids[1..];
      assert (set i | i in ids) == {ids[0]} + (set i | i in ids[1..]);
    } else {
      assert (set i | i in ids) == {};
    }
  }

  /** A comma-separated list of ids is read back as the set of those ids. */
  lemma AllowListRoundTrip(ids: seq<int>)
    requires ids != []
    ensures AllowList(Join(",", IdStrings(ids))) == Ok(Some(set i | i in ids))
  {
    var xs := IdStrings(ids);
    JoinSplit(xs, ',');
    assert [','] == ",";
    IdSetOfInts(ids);
    assert Join(",", xs) != "" by {
      if |xs| > 1 {
        assert Join(",", xs) == xs[0] + "," + Join(",", xs[1..]);
      }
    }
  }

  /** Start-up raises exactly when some channel's newest record has no
      readable id; otherwise each channel's watermark is its newest record id,
      and a channel that cannot be queried or is empty keeps its own. */
  lemma {:induction false} InitMarksMeaning(marks: map<string, int>, channels: Channels, cs: seq<string>)
    ensures InitMarks(marks, channels, cs).1 <==> exists i :: 0 <= i < |cs| && Newest(Query(channels, cs[i])).Err?
    ensures !InitMarks(marks, channels, cs).1 ==> forall c ::
      Mark(InitMarks(marks, channels, cs).0, c) ==
        if c in cs && Newest(Query(channels, c)).value.Some? then Newest(Query(channels, c)).value.value else Mark(marks, c)
  {
    hide RecordIdOf;
    if cs != [] {
      var n := |cs| - 1;
      InitMarksMeaning(marks, channels, cs[..n]);
      assert forall i :: 0 <= i < n ==> cs[..n][i] == cs[i];
      assert forall c :: c in cs <==> c in cs[..n] || c == cs[n];
      if InitMarks(marks, channels, cs[..n]).1 {
        var i :| 0 <= i < n && Newest(Query(channels, cs[..n][i])).Err?;
        assert Newest(Query(channels, cs[i])).Err?;
      }
    }
  }

}
