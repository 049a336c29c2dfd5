/** The rule-based threat scorer: an integer score per file or network event,
    from constant tables, turned into one of four levels. */
module ThreatScoring {
  import opened Common

  datatype Level = Low | Medium | High | Critical

  /** The level's name as the engine returns it. */
  function LevelName(l: Level): string {
    match l
    case Low => "LOW"
    case Medium => "MEDIUM"
    case High => "HIGH"
    case Critical => "CRITICAL"
  }

  function Rank(l: Level): nat {
    match l
    case Low => 0
    case Medium => 1
    case High => 2
    case Critical => 3
  }

  /** `_score_to_level`. */
  function ScoreToLevel(score: int): Level {
    if score >= 90 then Critical
    else if score >= 70 then High
    else if score >= 40 then Medium
    else Low
  }

  /** A higher score never gives a lower level. */
  lemma LevelMonotone(a: int, b: int)
    requires a <= b
    ensures Rank(ScoreToLevel(a)) <= Rank(ScoreToLevel(b))
  {
  }

  /** The thresholds: each level is reached exactly from its lower bound on. */
  lemma LevelThresholds(score: int)
    ensures ScoreToLevel(score) == Critical <==> score >= 90
    ensures Rank(ScoreToLevel(score)) >= 2 <==> score >= 70
    ensures Rank(ScoreToLevel(score)) >= 1 <==> score >= 40
  {
  }

  // ---------------------------------------------------------------------------
  // Tables

  /** A constant score table, in its literal's order. */
  type Table<K> = seq<(K, int)>

  /** `table.get(k, default)`: the first entry for `k` (the literals have distinct keys). */
  function Lookup<K(==)>(t: Table<K>, k: K, default: int): (r: int)
    ensures (exists i :: 0 <= i < |t| && t[i].0 == k) ==> exists i :: 0 <= i < |t| && t[i] == (k, r)
    ensures (forall i :: 0 <= i < |t| ==> t[i].0 != k) ==> r == default
    ensures r == default || exists i :: 0 <= i < |t| && t[i].1 == r
  {
    if t == [] then default
    else if t[0].0 == k then t[0].1
    else Lookup(t[1..], k, default)
  }

  const FileExtensionScores: Table<string> := [
    (".exe", 90), (".dll", 80), (".bat", 90), (".ps1", 85), (".vbs", 85), (".jar", 70),
    (".docm", 75), (".xlsm", 75), (".pptm", 75),
    (".zip", 40), (".rar", 40),
    (".txt", 5), (".log", 1)]

  const FileEventScores: Table<string> := [
    ("作成", 20), ("変更", 5), ("削除", 10), ("移動/名前変更", 15)]

  const RiskyPorts: Table<int> := [
    (21, 40), (22, 30), (23, 50), (135, 60), (445, 70), (3389, 80), (5900, 75)]

  const SuspiciousProcesses: Table<string> := [
    ("powershell", 70), ("cmd.exe", 60), ("svchost.exe", 20)]

  // ---------------------------------------------------------------------------
  // os.path.splitext on Windows

  /** `p.rfind(c)`: the last index of `c`, or -1. */
  function RFind(p: string, c: char): (i: int)
    ensures -1 <= i < |p|
    ensures i >= 0 ==> p[i] == c
    ensures forall j :: i < j < |p| ==> p[j] != c
  {
    if p == [] then -1
    else if p[|p| - 1] == c then |p| - 1
    else RFind(p[..|p| - 1], c)
  }

  /** The extension `splitext` returns: from the last dot on, when that dot
      follows the last separator and is not part of the base name's leading
      dots; otherwise empty. */
  function Ext(p: string): (e: string)
    ensures e == [] || (e[0] == '.' && IsSuffix(e, p))
  {
    var sep := if RFind(p, '\\') > RFind(p, '/') then RFind(p, '\\') else RFind(p, '/');
    var dot := RFind(p, '.');
    if dot > sep && exists j :: sep + 1 <= j < dot && p[j] != '.' then p[dot..] else ""
  }

  /** A name ending in `stem.ext`, where the stem's last character is neither
      a dot nor a separator, has the extension `ext` (a dot, then no dot or
      separator). */
  lemma ExtOf(stem: string, ext: string)
    requires stem != [] && stem[|stem| - 1] != '.' && stem[|stem| - 1] != '\\' && stem[|stem| - 1] != '/'
    requires ext != [] && ext[0] == '.'
    requires forall i :: 0 < i < |ext| ==> ext[i] != '.' && ext[i] != '\\' && ext[i] != '/'
    ensures Ext(stem + ext) == ext
  {
    var p := stem + ext;
    var n := |stem|;
    assert p[n] == '.' && forall j :: n < j < |p| ==> p[j] == ext[j - n];
    assert RFind(p, '.') == n;
    assert RFind(p, '\\') < n - 1 by {
      assert p[n - 1] != '\\';
    }
    assert RFind(p, '/') < n - 1 by {
      assert p[n - 1] != '/';
    }
    assert p[n - 1] != '.';
    assert p[n..] == ext;
  }

  // ---------------------------------------------------------------------------
  // File events

  /** The two keys `score_file_event` reads; `None` when the key is absent. */
  datatype FileEvent = FileEvent(path: Option<string>, eventType: Option<string>)

  function ExtScore(path: string): int {
    Lookup(FileExtensionScores, Ext(Lower(path)), 10)
  }

  function EventBonus(eventType: Option<string>): int {
    if eventType.None? then 0 else Lookup(FileEventScores, eventType.value, 0)
  }

  /** The integer score of `score_file_event`. */
  function FileScore(ev: FileEvent): int {
    var path := if ev.path.Some? then ev.path.value else "";
    ExtScore(path) + EventBonus(ev.eventType)
  }

  /** Extension scores lie between 1 and 90 and type bonuses between 0 and 20. */
  lemma FileScoreRange(ev: FileEvent)
    ensures 1 <= ExtScore(if ev.path.Some? then ev.path.value else "") <= 90
    ensures 0 <= EventBonus(ev.eventType) <= 20
    ensures 1 <= FileScore(ev) <= 110
  {
    hide Lookup, Ext, Lower;
    var e := Ext(Lower(if ev.path.Some? then ev.path.value else ""));
    var r := Lookup(FileExtensionScores, e, 10);
    assert r == 10 || exists i :: 0 <= i < |FileExtensionScores| && FileExtensionScores[i].1 == r;
    if ev.eventType.Some? {
      var b := Lookup(FileEventScores, ev.eventType.value, 0);
      assert b == 0 || exists i :: 0 <= i < |FileEventScores| && FileEventScores[i].1 == b;
    }
  }

  /** `score_file_event`. */
  function ScoreFileEvent(ev: FileEvent): Level {
    ScoreToLevel(FileScore(ev))
  }

  /** An executable or batch file event is critical, whatever its type. */
  lemma ExecutableCritical(ev: FileEvent)
    requires ev.path.Some? && Ext(Lower(ev.path.value)) in {".exe", ".bat"}
    ensures FileScore(ev) >= 90 && ScoreFileEvent(ev) == Critical
  {
    hide Ext, Lower;
    FileScoreRange(ev);
  }

  /** A text or log file event is low, with a score of at most 25. */
  lemma TextLow(ev: FileEvent)
    requires ev.path.Some? && Ext(Lower(ev.path.value)) in {".txt", ".log"}
    ensures FileScore(ev) <= 25 && ScoreFileEvent(ev) == Low
  {
    hide Ext, Lower, Lookup;
    FileScoreRange(ev);
    TextScores();
  }

  /** `.txt` scores 5 and `.log` scores 1. */
  lemma TextScores()
    ensures Lookup(FileExtensionScores, ".txt", 10) == 5
    ensures Lookup(FileExtensionScores, ".log", 10) == 1
  {
    hide Lookup;
    LookupAt(FileExtensionScores, 11, 10);
    LookupAt(FileExtensionScores, 12, 10);
  }

  /** The entry at `i` is found when no earlier entry has its key. */
  lemma {:induction false} LookupAt<K>(t: Table<K>, i: nat, default: int)
    requires i < |t| && forall j :: 0 <= j < i ==> t[j].0 != t[i].0
    ensures Lookup(t, t[i].0, default) == t[i].1
  {
    if i > 0 {
      LookupAt(t[1..], i - 1, default);
    }
  }

  /** An unknown extension scores 10, plus the event type's bonus. */
  lemma UnknownExtension(ev: FileEvent)
    requires forall i :: 0 <= i < |FileExtensionScores| ==>
      FileExtensionScores[i].0 != Ext(Lower(if ev.path.Some? then ev.path.value else ""))
    ensures FileScore(ev) == 10 + EventBonus(ev.eventType)
  {
  }

  /** `C:\tools\setup.EXE` has the extension `.exe` once lowercased, and so does
      every file name ending in `.exe` after a plain stem. */
  lemma ExeFileCritical(stem: string, t: Option<string>)
    requires stem != [] && stem[|stem| - 1] != '.' && stem[|stem| - 1] != '\\' && stem[|stem| - 1] != '/'
    ensures ScoreFileEvent(FileEvent(Some(stem + ".EXE"), t)) == Critical
  {
    ExeExt(stem);
    ExecutableCritical(FileEvent(Some(stem + ".EXE"), t));
  }

  lemma ExeExt(stem: string)
    requires stem != [] && stem[|stem| - 1] != '.' && stem[|stem| - 1] != '\\' && stem[|stem| - 1] != '/'
    ensures Ext(Lower(stem + ".EXE")) == ".exe"
  {
    LoweredExe(stem);
    ExtOfLowered(stem);
  }

  lemma ExtOfLowered(stem: string)
    requires stem != [] && stem[|stem| - 1] != '.' && stem[|stem| - 1] != '\\' && stem[|stem| - 1] != '/'
    ensures Ext(Lower(stem) + ".exe") == ".exe"
  {
    hide *;
    LowerLast(stem);
    ExtOf(Lower(stem), ".exe");
  }

  lemma LoweredExe(stem: string)
    ensures Lower(stem + ".EXE") == Lower(stem) + ".exe"
  {
    hide *;
    LowerAppend(stem, ".EXE");
    LowerExe();
  }

  lemma LowerExe()
    ensures Lower(".EXE") == ".exe"
  {
    hide Lower;
    var le := Lower(".EXE");
    assert le[1] == LowerChar('E') == 'e';
    assert le[2] == LowerChar('X') == 'x';
    assert le[3] == LowerChar('E') == 'e';
  }

  /** Lowercasing keeps a last character that is not a dot or a separator. */
  lemma LowerLast(stem: string)
    requires stem != [] && stem[|stem| - 1] != '.' && stem[|stem| - 1] != '\\' && stem[|stem| - 1] != '/'
    ensures var ls := Lower(stem); ls != [] && ls[|ls| - 1] != '.' && ls[|ls| - 1] != '\\' && ls[|ls| - 1] != '/'
  {
    hide Lower;
    var ls := Lower(stem);
    assert ls[|ls| - 1] == LowerChar(stem[|stem| - 1]);
  }

  // ---------------------------------------------------------------------------
  // Network events

  /** The two keys `score_network_event` reads; `None` when the key is absent. */
  datatype NetworkEvent = NetworkEvent(name: Option<string>, destination: Option<string>)

  /** `int(destination.split(':')[-1])`, `None` when it raises. */
  function Port(destination: string): Option<int> {
    var pieces := Split(destination, ':');
    ParseInt(pieces[|pieces| - 1])
  }

  function PortScore(destination: string): int {
    var port := Port(destination);
    if port.None? then 0 else Lookup(RiskyPorts, port.value, 0)
  }

  /** The loop over the suspicious processes: the sum of the scores of the names
      that occur in the process name. */
  function ProcessScore(table: Table<string>, name: string): int
  {
    if table == [] then 0
    else (if Find(name, table[0].0) then table[0].1 else 0) + ProcessScore(table[1..], name)
  }

  /** The integer score of `score_network_event`. */
  function NetworkScore(ev: NetworkEvent): int {
    var name := Lower(if ev.name.Some? then ev.name.value else "");
    var destination := if ev.destination.Some? then ev.destination.value else "";
    10 + PortScore(destination) + ProcessScore(SuspiciousProcesses, name)
  }

  /** `score_network_event`. */
  function ScoreNetworkEvent(ev: NetworkEvent): Level {
    ScoreToLevel(NetworkScore(ev))
  }

  /** The process score is the sum over exactly the table entries found in the name. */
  lemma {:induction false} ProcessScoreBounds(table: Table<string>, name: string)
    requires forall i :: 0 <= i < |table| ==> table[i].1 >= 0
    ensures 0 <= ProcessScore(table, name)
    ensures (forall i :: 0 <= i < |table| ==> !Contains(name, table[i].0)) ==> ProcessScore(table, name) == 0
  {
    if table != [] {
      ProcessScoreBounds(table[1..], name);
    }
  }

  /** A connection to an unlisted port from a process with no suspicious name
      scores exactly the base 10 and is low. */
  lemma QuietConnectionLow(ev: NetworkEvent)
    requires PortScore(if ev.destination.Some? then ev.destination.value else "") == 0
    requires forall i :: 0 <= i < |SuspiciousProcesses| ==>
      !Contains(Lower(if ev.name.Some? then ev.name.value else ""), SuspiciousProcesses[i].0)
    ensures NetworkScore(ev) == 10 && ScoreNetworkEvent(ev) == Low
  {
    hide Lookup, Port, PortScore, Lower, ProcessScore, Contains, Find;
    ProcessScoreBounds(SuspiciousProcesses, Lower(if ev.name.Some? then ev.name.value else ""));
  }

  /** Any connection whose port parses to 3389 (RDP) is critical. */
  lemma RdpCritical(ev: NetworkEvent)
    requires ev.destination.Some? && Port(ev.destination.value) == Some(3389)
    ensures NetworkScore(ev) >= 90 && ScoreNetworkEvent(ev) == Critical
  {
    hide Lookup, Port, ProcessScore, Lower, Find;
    LookupAt(RiskyPorts, 5, 0);
    ProcessScoreBounds(SuspiciousProcesses, Lower(if ev.name.Some? then ev.name.value else ""));
  }

  /** The last piece of `host:port` is the port text, whatever colons the host holds. */
  lemma {:induction false} LastPiece(host: string, port: string)
    requires ':' !in port
    ensures var pieces := Split(host + ":" + port, ':'); pieces[|pieces| - 1] == port
  {
    var s := host + ":" + port;
    if host == [] {
      assert s == [':'] + port;
      SplitSeparatorFirst(port, ':');
    } else {
      LastPiece(host[1..], port);
      assert s[1..] == host[1..] + ":" + port;
      assert ':' in s[1..] by {
        assert s[1..][|host| - 1] == ':';
      }
    }
  }

  /** `host:3389` is read as port 3389. */
  lemma RdpDestination(host: string)
    ensures Port(host + ":" + "3389") == Some(3389)
  {
    hide *;
    PortOf(host, "3389");
    Parse3389();
  }

  /** The port of `host:port` is the port text read as an integer. */
  lemma PortOf(host: string, port: string)
    requires ':' !in port
    ensures Port(host + ":" + port) == ParseInt(port)
  {
    hide Split, ParseInt;
    LastPiece(host, port);
  }

  lemma Parse3389()
    ensures ParseInt("3389") == Some(3389)
  {
    hide Strip;
    var t := "3389";
    StripOfTrimmed(t);
    assert AllDigits(t);
    assert t[0] != '-' && t[0] != '+';
    var a, b, c := t[..1], t[..2], t[..3];
    assert |a| == 1 && a[0] == '3' && a[..0] == [];
    assert DigitsValue(a) == 3;
    assert |b| == 2 && b[..1] == a && b[1] == '3';
    assert DigitsValue(b) == 33;
    assert |c| == 3 && c[..2] == b && c[2] == '8';
    assert DigitsValue(c) == 338;
    assert t[..3] == c && t[3] == '9';
  }
}
