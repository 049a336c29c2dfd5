# CYBER-AEGIS detection core, modelled in Dafny

This project models the Sigma-style detection pipeline of CYBER-AEGIS:

- the rule engine, which does the following:
  - flattens events;
  - loads rules;
  - evaluates selections with field aliases and modifiers;
  - rewrites the condition text;
  - evaluates the result without builtins.
- the Windows event-log collector, which walks each channel newest first down to its watermark, normalises each record's XML, appends admitted events to the sink file as JSON lines, and moves the watermark;
- the community-server scorer, which counts whole-word threat keywords over a server's messages, weights them and normalises the total by the number of messages;
- the rule-based threat scoring engine, which maps file events (by extension and event type) and network events (by port and process name) to a threat level;
- the log tailer, which polls an append-only sink file from a read offset and commits one batch of `SigmaMatch` rows per line.
- the Spamhaus DROP feed parser, which turns each non-comment line of the plain-text list into one threat entity named by its network;
- the local IP blocklist, a set of addresses mirrored line by line in an append-only text file;
- the CISA Known Exploited Vulnerabilities check, which keeps the catalog entries whose vendor and product text holds every word of a product name;
- the NICTER trend report, which splits the darknet observations into per-country and per-port host counts, sorts each list by count (largest first) and keeps the first `top_n`;
- the settings manager, which reads options, reads and extends comma-separated lists without duplicates, and reads the STIX/TAXII block;
- the file-change filter of the real-time monitor, which drops excluded paths and queues every other created, modified or moved file for a scan;
- the report-to-PDF text extraction, an HTML tag-stack state machine whose recorded fragments become paragraphs styled by their tag path;
- the simulation arena the red and blue team agents act on: a file system, a process table with increasing process ids, a quarantine register and an event log;
- the computing parts of the database manager: the unified leak identifiers, the formatting of stored leak rows, the two leak updates addressed by a unified identifier, and the choice of the next batch of community servers;
- the MITRE ATT&CK mapper, which collects the known threat names and maps each detected actor to the attack patterns it uses, grouped by tactic.

Inputs from outside the program are parameters of the model:

- YAML and JSON parsing: the outputs are taken as already-structured `Value`s, and JSON decoding is a function parameter.
- The `re` search is a function parameter.
- The database commit outcome is a function parameter.
- The file system is the sink's text as `Option<string>`; the collector's sink is the sequence of lines it appends.
- The Windows Event Log service (`EvtQuery`/`EvtNext`/`EvtRender`) is a map from channel to the records it renders, newest first; a channel that is missing from the map raises `win32evtlog.error`.
- The current time is a parameter `now`, in seconds, wherever the source reads the clock.
- Whether a path is a directory on disk (`os.path.isdir`) is a parameter of the file-change filter.
- The HTML tokenizer is not modelled: the extractor is fed the start-tag, end-tag and data events it would produce.
- The settings file, the blocklist file and the STIX bundle are values: the model receives their parsed contents.

## Model

| member | source | states |
|---|---|---|
| SigmaFlatten.Flatten | CYBER-AEGIS_ver1.1/src/threat_intel/sigma_analyzer.py:6-14 | the flattened map has distinct keys, and no value in it is a dict |
| SigmaFlatten.FlattenGet | CYBER-AEGIS_ver1.1/src/threat_intel/sigma_analyzer.py:6-14 | looking up a key in the flattened map gives the last non-dict leaf whose dotted path, with A-Z lowered, equals that key |
| SigmaFlatten.FlattenFlat | CYBER-AEGIS_ver1.1/src/threat_intel/sigma_analyzer.py:6-14 | flattening an already flat dict with lowercase keys changes no lookup |
| SigmaAnalyzer.LoadRules | CYBER-AEGIS_ver1.1/src/threat_intel/sigma_analyzer.py:21-37 | the loaded rules are, in walk order, exactly the kept files of every directory |
| SigmaAnalyzer.LoadDir | CYBER-AEGIS_ver1.1/src/threat_intel/sigma_analyzer.py:24-37 | one directory contributes its `.yml`/`.yaml` files whose content is a truthy document with a truthy `detection`, in walk order |
| SigmaAnalyzer.UnreadableSkipped | CYBER-AEGIS_ver1.1/src/threat_intel/sigma_analyzer.py:28-37 | an unreadable or unparsable file is skipped as if it were absent, and nothing is raised |
| SigmaAnalyzer.LoadedAreRules | CYBER-AEGIS_ver1.1/src/threat_intel/sigma_analyzer.py:31-34 | every loaded rule is a truthy document with a truthy `detection` |
| SigmaAnalyzer.Analyzer.constructor | CYBER-AEGIS_ver1.1/src/threat_intel/sigma_analyzer.py:17-19 | the analyzer holds the rules loaded from its directories |
| SigmaAnalyzer.Analyzer.AnalyzeLogEntry | CYBER-AEGIS_ver1.1/src/threat_intel/sigma_analyzer.py:39-48 | the result is, in load order, the rules whose check returns true on the flattened entry; a rule whose check raises is dropped |
| SigmaAnalyzer.MatchedAt | CYBER-AEGIS_ver1.1/src/threat_intel/sigma_analyzer.py:42-48 | rule i is kept exactly when its verdict is `Ok(true)`, independently of the other rules |
| SigmaAnalyzer.CheckRuleMatch | CYBER-AEGIS_ver1.1/src/threat_intel/sigma_analyzer.py:50-61 | the verdict: no condition gives false, a raising selection raises, and otherwise the condition is evaluated over the selection results |
| SigmaAnalyzer.FillResults | CYBER-AEGIS_ver1.1/src/threat_intel/sigma_analyzer.py:56-59 | the results map is built from every detection entry except `condition`, in order, and a raising selection raises |
| SigmaAnalyzer.NoConditionNeverMatches | CYBER-AEGIS_ver1.1/src/threat_intel/sigma_analyzer.py:53-55 | a rule without a condition never matches |
| SigmaAnalyzer.OutcomesRaise | CYBER-AEGIS_ver1.1/src/threat_intel/sigma_analyzer.py:56-59 | one raising selection makes the whole rule raise |
| SigmaAnalyzer.SelectionsMember | CYBER-AEGIS_ver1.1/src/threat_intel/sigma_analyzer.py:57-58 | the selections are exactly the detection entries other than `condition` |
| SigmaAnalyzer.OutcomeNames | CYBER-AEGIS_ver1.1/src/threat_intel/sigma_analyzer.py:56-59 | the results map has exactly the selection names as keys, in order |
| SigmaAnalyzer.QuantifierRuleNeverMatches | CYBER-AEGIS_ver1.1/src/threat_intel/sigma_analyzer.py:63-85 | a rule whose condition holds a quantifier matching at least one selection never matches |
| SigmaAnalyzer.FormulaRuleVerdict | CYBER-AEGIS_ver1.1/src/threat_intel/sigma_analyzer.py:79-85 | a rule whose condition is a Boolean formula over its selection names matches iff the formula holds over the selection results |
| SigmaSelection.SelectionMeaning | CYBER-AEGIS_ver1.1/src/threat_intel/sigma_analyzer.py:87-92 | a mapping is true iff every field-spec is true; a list is false iff every element is false; any other shape is false |
| SigmaSelection.SelectionEmpty | CYBER-AEGIS_ver1.1/src/threat_intel/sigma_analyzer.py:87-92 | the empty mapping is true and the empty list is false |
| SigmaSelection.AllOf | CYBER-AEGIS_ver1.1/src/threat_intel/sigma_analyzer.py:89 | Python `all` over a generator is true iff every item is true, and false iff an item is false before any raises |
| SigmaSelection.AnyOf | CYBER-AEGIS_ver1.1/src/threat_intel/sigma_analyzer.py:91 | Python `any` over a generator is false iff every item is false, and true iff an item is true before any raises |
| SigmaSelection.FieldAndModifier | CYBER-AEGIS_ver1.1/src/threat_intel/sigma_analyzer.py:103-106 | without a `|` the modifier is `contains`; otherwise the field and the modifier are the first two `|`-separated parts |
| SigmaSelection.ResolveCandidates | CYBER-AEGIS_ver1.1/src/threat_intel/sigma_analyzer.py:95-127 | resolution takes the first present of the aliased key, or of `key` then `winlog.key`, and falls back from `commandline` to `winlog.event_data.newprocessname` |
| SigmaSelection.AliasesWinlog | CYBER-AEGIS_ver1.1/src/threat_intel/sigma_analyzer.py:95-101 | every alias target lies under `winlog.` |
| SigmaSelection.FirstPresent | CYBER-AEGIS_ver1.1/src/threat_intel/sigma_analyzer.py:108-127 | the found value is non-null and stored under one of the candidates; nothing is found iff every candidate is missing or null |
| SigmaSelection.PyGet | CYBER-AEGIS_ver1.1/src/threat_intel/sigma_analyzer.py:113-124 | `dict.get` gives None exactly for a missing key or a stored null |
| SigmaSelection.MatchKvMeaning | CYBER-AEGIS_ver1.1/src/threat_intel/sigma_analyzer.py:94-141 | for the non-`re` modifiers the spec never raises, and it is true iff the field resolves and some expected × actual pair, both lowercased `str()`, satisfies the modifier |
| SigmaSelection.UnknownModifierFalse | CYBER-AEGIS_ver1.1/src/threat_intel/sigma_analyzer.py:129-141 | an unknown modifier, including the empty one from `field|`, never matches |
| SigmaSelection.AsList | CYBER-AEGIS_ver1.1/src/threat_intel/sigma_analyzer.py:129-130 | a list is taken as it is, and any other value as a one-element list |
| SigmaCondition.EvaluateCondition | CYBER-AEGIS_ver1.1/src/threat_intel/sigma_analyzer.py:63-85 | the method performs the quantifier pass, then the bare-name loop, then the guarded evaluation, giving the condition's value |
| SigmaCondition.AsMap | CYBER-AEGIS_ver1.1/src/threat_intel/sigma_analyzer.py:56-59 | the results dict has exactly the selection names as keys |
| SigmaCondition.AsMapAt | CYBER-AEGIS_ver1.1/src/threat_intel/sigma_analyzer.py:56-59 | with distinct names, each selection's entry holds its own result |
| SigmaCondition.MatchedQuantifierIsFalse | CYBER-AEGIS_ver1.1/src/threat_intel/sigma_analyzer.py:64-85 | a condition with a quantifier whose glob matches at least one selection evaluates to False |
| SigmaCondition.BareBreaks | CYBER-AEGIS_ver1.1/src/threat_intel/sigma_analyzer.py:79-85 | a quoted selection name left by the quantifier pass is re-wrapped by the bare-name pass, so the evaluation fails |
| SigmaCondition.QuotedAfterQuant | CYBER-AEGIS_ver1.1/src/threat_intel/sigma_analyzer.py:74-77 | a matching quantifier leaves `'name'` of its first matching selection in the text |
| SigmaCondition.NoDoubleQuote | CYBER-AEGIS_ver1.1/src/threat_intel/sigma_analyzer.py:64-77 | the quantifier pass introduces no double quote |
| SigmaQuant.QuantAt | CYBER-AEGIS_ver1.1/src/threat_intel/sigma_analyzer.py:77 | a quantifier match ends after its start and within the text |
| SigmaQuant.QuantShape | CYBER-AEGIS_ver1.1/src/threat_intel/sigma_analyzer.py:77 | a match starts at a word boundary with `1` or `all`, then whitespace, `of`, whitespace and a glob that ends at a word boundary |
| SigmaQuant.Matching | CYBER-AEGIS_ver1.1/src/threat_intel/sigma_analyzer.py:66-68 | the matching keys are exactly the selection names that the glob matches in full, in order |
| SigmaQuant.UnmatchedIsFalse | CYBER-AEGIS_ver1.1/src/threat_intel/sigma_analyzer.py:70-71 | a quantifier whose glob matches no selection becomes `False` |
| SigmaQuant.StarAfterExpansion | CYBER-AEGIS_ver1.1/src/threat_intel/sigma_analyzer.py:77 | a glob written with a trailing `*` loses that `*` to the closing `\b`, and it stays after the replacement |
| SigmaQuant.GlobLiteral | CYBER-AEGIS_ver1.1/src/threat_intel/sigma_analyzer.py:66-68 | a glob without `*` matches only the name equal to it |
| SigmaQuant.GlobStarAll | CYBER-AEGIS_ver1.1/src/threat_intel/sigma_analyzer.py:66-68 | the glob `*` matches every name |
| SigmaQuant.ReachedPhrase | CYBER-AEGIS_ver1.1/src/threat_intel/sigma_analyzer.py:77 | the quantifier pass copies the text before a reached quantifier and puts its expansion in its place |
| SigmaBare.ByLengthOrdered | CYBER-AEGIS_ver1.1/src/threat_intel/sigma_analyzer.py:79 | the keys are visited longest first |
| SigmaBare.ByLength | CYBER-AEGIS_ver1.1/src/threat_intel/sigma_analyzer.py:79 | the visiting order is a permutation of the keys |
| SigmaBare.PassAbsent | CYBER-AEGIS_ver1.1/src/threat_intel/sigma_analyzer.py:79-80 | the bare-name pass introduces no character that is absent from the text, the keys and `results['']` |
| SigmaBare.PassBreaksQuoted | CYBER-AEGIS_ver1.1/src/threat_intel/sigma_analyzer.py:79-80 | a quoted name is rewritten into a `'name['` glued shape that survives the remaining keys |
| SigmaRegex.Verbatim | CYBER-AEGIS_ver1.1/src/threat_intel/sigma_analyzer.py:80 | `re.sub` copies the text up to its next match unchanged |
| SigmaRegex.WordKeyMatch | CYBER-AEGIS_ver1.1/src/threat_intel/sigma_analyzer.py:80 | for a word key, `\bkey\b` matches exactly where the key is not preceded or followed by a word character |
| SigmaRegex.CharAbsent | CYBER-AEGIS_ver1.1/src/threat_intel/sigma_analyzer.py:80 | a substitution introduces no character absent from the text and the replacement |
| SigmaEval.GluedIsFalse | CYBER-AEGIS_ver1.1/src/threat_intel/sigma_analyzer.py:82-85 | a text holding a string literal glued to a name raises inside `eval`, so the condition is False |
| SigmaEval.StrThenNameIsFalse | CYBER-AEGIS_ver1.1/src/threat_intel/sigma_analyzer.py:82-85 | a string token directly followed by a name token is a syntax error, so the condition is False |
| SigmaFormula.FormulaValue | CYBER-AEGIS_ver1.1/src/threat_intel/sigma_analyzer.py:79-85 | a quantifier-free condition made of selection names, `and`, `or`, `not` and parentheses evaluates to that Boolean formula over the results |
| SigmaFormula.Rewritten | CYBER-AEGIS_ver1.1/src/threat_intel/sigma_analyzer.py:77-80 | both passes turn such a condition into the same formula with every name wrapped as `results['name']` |
| SigmaFormula.TextValue | CYBER-AEGIS_ver1.1/src/threat_intel/sigma_analyzer.py:82-85 | the wrapped text evaluates to the formula's truth |
| SigmaFormula.ParseToks | CYBER-AEGIS_ver1.1/src/threat_intel/sigma_analyzer.py:83 | the parser reads a printed formula back as the same expression |
| SigmaFormula.EvalTruth | CYBER-AEGIS_ver1.1/src/threat_intel/sigma_analyzer.py:83 | evaluating the parsed expression gives the formula's truth |
| LogMonitor.LogMonitorWorker.constructor | CYBER-AEGIS_ver1.1/service/workers/log_monitor.py:30-39 | a bare file name is placed under `logs`; both paths are joined to the project root; the rules come from the rule path; the worker is not running |
| LogMonitor.LogMonitorWorker.Start | CYBER-AEGIS_ver1.1/service/workers/log_monitor.py:43-51 | the worker runs, and the offset is the end of the existing file, or 0 when there is none |
| LogMonitor.LogMonitorWorker.Poll | CYBER-AEGIS_ver1.1/service/workers/log_monitor.py:53-68 | one cycle: a missing file changes nothing; otherwise the new lines are processed in order, and the offset moves to the end only if a line was read |
| LogMonitor.LogMonitorWorker.ProcessBatch | CYBER-AEGIS_ver1.1/service/workers/log_monitor.py:66-68 | the lines are processed in order until one raises, which ends the cycle |
| LogMonitor.LogMonitorWorker.Run | CYBER-AEGIS_ver1.1/service/workers/log_monitor.py:53-74 | while `running` holds, the offset and the store after the loop are those of one poll per file state in turn; a stopped worker changes neither |
| LogMonitor.RunGrows | CYBER-AEGIS_ver1.1/service/workers/log_monitor.py:53-74 | over any sequence of polls the offset never decreases and the store keeps what it held as a prefix |
| LogMonitor.LogMonitorWorker.ProcessLine | CYBER-AEGIS_ver1.1/service/workers/log_monitor.py:76-124 | a blank or non-JSON line adds nothing; otherwise the line's rows are committed together or rolled back together |
| LogMonitor.LogMonitorWorker.Stage | CYBER-AEGIS_ver1.1/service/workers/log_monitor.py:96-107 | one pending row per matched rule, in match order |
| LogMonitor.LogMonitorWorker.Commit | CYBER-AEGIS_ver1.1/service/workers/log_monitor.py:112-124 | the pending rows are appended to the store, or dropped on a failed commit; nothing stays pending |
| LogMonitor.LogMonitorWorker.Stop | CYBER-AEGIS_ver1.1/service/workers/log_monitor.py:126-129 | the session is closed; `running`, the offset and the store are unchanged |
| LogMonitor.IgnoredLine | CYBER-AEGIS_ver1.1/service/workers/log_monitor.py:77-85 | blank and non-JSON lines produce no store activity |
| LogMonitor.LineAllOrNothing | CYBER-AEGIS_ver1.1/service/workers/log_monitor.py:112-124 | a line's rows persist all together or not at all |
| LogMonitor.RowsOfRules | CYBER-AEGIS_ver1.1/service/workers/log_monitor.py:96-106 | exactly one row per matched rule |
| LogMonitor.RowDefaults | CYBER-AEGIS_ver1.1/service/workers/log_monitor.py:98-103 | title and level default to `N/A`, and the entry is stored JSON-serialised |
| LogMonitor.OffsetGrows | CYBER-AEGIS_ver1.1/service/workers/log_monitor.py:60-64 | a cycle never moves the offset back |
| LogMonitor.NothingReadTwice | CYBER-AEGIS_ver1.1/service/workers/log_monitor.py:60-64 | after a cycle, the next cycle reads only what was appended since |
| LogMonitor.HalfLineConsumed | CYBER-AEGIS_ver1.1/service/workers/log_monitor.py:60-64 | a trailing line without a newline is read and consumed, so it is never read again |
| LogMonitor.EscapeEndsBatch | CYBER-AEGIS_ver1.1/service/workers/log_monitor.py:66-74 | a line that raises ends the batch, while the offset has already moved past the batch |
| LogMonitor.GetOr | CYBER-AEGIS_ver1.1/service/workers/log_monitor.py:99-102 | `dict.get(k, default)` gives the stored value or the default |
| NtPath.JoinRelative | CYBER-AEGIS_ver1.1/service/workers/log_monitor.py:32-35 | joining a relative path adds one backslash separator |
| NtPath.JoinAbsolute | CYBER-AEGIS_ver1.1/service/workers/log_monitor.py:34-35 | joining an absolute path discards the first part |
| Community.Score | CYBER-AEGIS_ver1.1/src/core/community_analyzer.py:16-41 | for any keyword table, an empty message list scores 0 with no hits, and every score lies between 0 and 100 |
| Community.Analyze | CYBER-AEGIS_ver1.1/src/core/community_analyzer.py:16-41 | an empty message list scores 0 with no hits, and every score lies between 0 and 100 |
| Community.TallyNonNegative | CYBER-AEGIS_ver1.1/src/core/community_analyzer.py:27-32 | the total is the sum over the keywords of weight times whole-word hits, and it is never negative |
| Community.HitsExactly | CYBER-AEGIS_ver1.1/src/core/community_analyzer.py:27-41 | a label is reported iff it is `kw (xN)` for a keyword with N > 0 whole-word hits, N being its count |
| Community.NoHitsZero | CYBER-AEGIS_ver1.1/src/core/community_analyzer.py:16-41 | when no keyword occurs as a whole word the score is 0 and no label is reported |
| Community.ScoreIs | CYBER-AEGIS_ver1.1/src/core/community_analyzer.py:34-39 | the score is the weighted total times 20 divided by the number of messages, truncated and capped at 100 |
| Community.CountPositive | CYBER-AEGIS_ver1.1/src/core/community_analyzer.py:29 | a keyword is counted at least once iff a whole-word occurrence starts at or after the scan position |
| ThreatScoring.LevelThresholds | CYBER-AEGIS_ver1.1/src/threat_intel/threat_scoring_engine.py:44-53 | the level is CRITICAL iff the score is at least 90, at least HIGH iff at least 70, at least MEDIUM iff at least 40 |
| ThreatScoring.LevelMonotone | CYBER-AEGIS_ver1.1/src/threat_intel/threat_scoring_engine.py:44-53 | a higher score never gives a lower level |
| ThreatScoring.Lookup | CYBER-AEGIS_ver1.1/src/threat_intel/threat_scoring_engine.py:63 | `dict.get` gives the value stored under a present key, and the default for an absent one |
| ThreatScoring.LookupAt | CYBER-AEGIS_ver1.1/src/threat_intel/threat_scoring_engine.py:63 | an entry is found by its own key when no earlier entry has that key |
| ThreatScoring.RFind | CYBER-AEGIS_ver1.1/src/threat_intel/threat_scoring_engine.py:62 | the result is -1 or an index of the character, with no occurrence after it |
| ThreatScoring.Ext | CYBER-AEGIS_ver1.1/src/threat_intel/threat_scoring_engine.py:62 | the extension is empty, or a suffix of the path that starts with a dot |
| ThreatScoring.ExtOf | CYBER-AEGIS_ver1.1/src/threat_intel/threat_scoring_engine.py:62 | a path `stem` + `ext` whose stem ends in a plain character has the extension `ext` |
| ThreatScoring.FileScoreRange | CYBER-AEGIS_ver1.1/src/threat_intel/threat_scoring_engine.py:55-68 | extension scores lie between 1 and 90, type bonuses between 0 and 20, file scores between 1 and 110 |
| ThreatScoring.ExecutableCritical | CYBER-AEGIS_ver1.1/src/threat_intel/threat_scoring_engine.py:55-68 | a `.exe` or `.bat` file event is CRITICAL whatever its event type |
| ThreatScoring.TextLow | CYBER-AEGIS_ver1.1/src/threat_intel/threat_scoring_engine.py:55-68 | a `.txt` or `.log` file event scores at most 25 and is LOW |
| ThreatScoring.UnknownExtension | CYBER-AEGIS_ver1.1/src/threat_intel/threat_scoring_engine.py:61-66 | an extension missing from the table scores 10, plus the event type's bonus |
| ThreatScoring.ExeFileCritical | CYBER-AEGIS_ver1.1/src/threat_intel/threat_scoring_engine.py:58-68 | a path ending in upper-case `.EXE` after a plain stem is lowercased to `.exe` and is CRITICAL |
| ThreatScoring.ProcessScoreBounds | CYBER-AEGIS_ver1.1/src/threat_intel/threat_scoring_engine.py:83-86 | the process score is never negative, and it is 0 when no listed process name occurs in the name |
| ThreatScoring.QuietConnectionLow | CYBER-AEGIS_ver1.1/src/threat_intel/threat_scoring_engine.py:70-88 | a connection to an unlisted port from an unlisted process scores exactly the base 10 and is LOW |
| ThreatScoring.RdpCritical | CYBER-AEGIS_ver1.1/src/threat_intel/threat_scoring_engine.py:70-88 | a destination whose port parses to 3389 is CRITICAL |
| ThreatScoring.LastPiece | CYBER-AEGIS_ver1.1/src/threat_intel/threat_scoring_engine.py:78 | the last piece of `host:port` split at colons is the port text, whatever colons the host holds |
| ThreatScoring.PortOf | CYBER-AEGIS_ver1.1/src/threat_intel/threat_scoring_engine.py:77-81 | the port of `host:port` is the port text read as an integer, or none when `int()` raises |
| ThreatScoring.RdpDestination | CYBER-AEGIS_ver1.1/src/threat_intel/threat_scoring_engine.py:77-79 | `host:3389` is read as port 3389 |
| EventXml.FindIn | CYBER-AEGIS_ver1.1/service/workers/event_log_collector.py:119-133 | `find` returns a direct child carrying the tag, and returns nothing exactly when no child carries it |
| EventXml.Iter | CYBER-AEGIS_ver1.1/service/workers/event_log_collector.py:135 | `iter()` yields the element itself first |
| EventXml.ParseFails | CYBER-AEGIS_ver1.1/service/workers/event_log_collector.py:114-150 | the parse gives `None` exactly when `System`, an integer `EventID`, an integer `EventRecordID` or `Provider` is missing |
| EventXml.ParsedRecordId | CYBER-AEGIS_ver1.1/service/workers/event_log_collector.py:73-121 | the parsed `record_id` is the id the channel walk reads, and a record whose id cannot be read does not parse |
| EventXml.WinlogFields | CYBER-AEGIS_ver1.1/service/workers/event_log_collector.py:93-148 | `winlog.event_id` and `winlog.record_id` read back from the returned dictionary are the parsed ids |
| EventXml.EventDataGet | CYBER-AEGIS_ver1.1/service/workers/event_log_collector.py:124-138 | `event_data` holds each key once, with its last assignment: the named `Data` items first, then the `UserData` elements |
| EventXml.UserDataItself | CYBER-AEGIS_ver1.1/service/workers/event_log_collector.py:133-138 | `<UserData>` itself is the first element visited, so its own text is stored under `UserData` |
| EventXml.RenderParse | CYBER-AEGIS_ver1.1/service/workers/event_log_collector.py:114-148 | parsing a rendered record gives back its provider, its two ids and its named data items |
| EventLogCollector.IdSetErr | CYBER-AEGIS_ver1.1/service/workers/event_log_collector.py:28-30 | reading the allow-list raises exactly when some comma-separated item is not an integer |
| EventLogCollector.IdSetMembers | CYBER-AEGIS_ver1.1/service/workers/event_log_collector.py:30 | the allow-list holds exactly the integer values of the items |
| EventLogCollector.AllowListRoundTrip | CYBER-AEGIS_ver1.1/service/workers/event_log_collector.py:28-33 | a non-empty comma-separated list of ids is read back as the set of those ids |
| EventLogCollector.Collector.constructor | CYBER-AEGIS_ver1.1/service/workers/event_log_collector.py:16-36 | not running; output file is `logs\<log_file>` under the root, `security_events.log` by default; the allow-list is read from the setting; every channel's watermark is 0 |
| EventLogCollector.InitMarksMeaning | CYBER-AEGIS_ver1.1/service/workers/event_log_collector.py:42-50 | start-up raises exactly when some channel's newest record has no readable id; otherwise each channel's watermark is its newest record id, or stays as it was for a missing or empty channel |
| EventLogCollector.Collector.InitWatermarks | CYBER-AEGIS_ver1.1/service/workers/event_log_collector.py:42-50 | the loop computes the start-up watermarks and the raised flag of `InitMarks` |
| EventLogCollector.Collector.Start | CYBER-AEGIS_ver1.1/service/workers/event_log_collector.py:38-55 | `running` is set; unless start-up raised, the state is the one given by polling every channel once per Event Log snapshot |
| EventLogCollector.Collector.Stop | CYBER-AEGIS_ver1.1/service/workers/event_log_collector.py:57-59 | `running` is cleared |
| EventLogCollector.Collector.PollOnce | CYBER-AEGIS_ver1.1/service/workers/event_log_collector.py:53-54 | one turn processes every channel in order |
| EventLogCollector.Collector.ProcessChannel | CYBER-AEGIS_ver1.1/service/workers/event_log_collector.py:61-112 | a pass leaves the state the channel outcome describes: a missing channel, a walk that raises or an empty batch changes nothing |
| EventLogCollector.WalkKept | CYBER-AEGIS_ver1.1/service/workers/event_log_collector.py:65-81 | the records kept are a prefix of the channel's records, all above the watermark, and the walk stops at the first record that is not |
| EventLogCollector.WalkFails | CYBER-AEGIS_ver1.1/service/workers/event_log_collector.py:73 | the walk raises at a record whose id is unreadable, when every record before it is above the watermark |
| EventLogCollector.WalkAppend | CYBER-AEGIS_ver1.1/service/workers/event_log_collector.py:66-81 | walking a channel in chunks gives the same result as walking it at once |
| EventLogCollector.Collector.CollectRecords | CYBER-AEGIS_ver1.1/service/workers/event_log_collector.py:65-84 | the chunked loop with 100 records per chunk collects exactly the records newer than the watermark, or raises exactly when the walk does |
| EventLogCollector.Collector.ScanChunk | CYBER-AEGIS_ver1.1/service/workers/event_log_collector.py:71-78 | the inner loop walks one chunk |
| EventLogCollector.Collector.WriteEvents | CYBER-AEGIS_ver1.1/service/workers/event_log_collector.py:86-104 | lines are written for the admitted events up to the first record that does not parse; the loop fails exactly there; otherwise `latest_id_in_batch` is the largest parsed id |
| EventLogCollector.Collector.WriteEvent | CYBER-AEGIS_ver1.1/service/workers/event_log_collector.py:89-104 | one record appends its line when admitted and raises `latest_id_in_batch` to its id |
| EventLogCollector.Collector.WriteBatch | CYBER-AEGIS_ver1.1/service/workers/event_log_collector.py:86-107 | the watermark moves to the batch's largest id only when the whole batch parses and that id is positive |
| EventLogCollector.WrittenOf | CYBER-AEGIS_ver1.1/service/workers/event_log_collector.py:75-99 | each event written in a pass was collected, parses, is admitted by the allow-list and has its record id above the watermark |
| EventLogCollector.WrittenAll | CYBER-AEGIS_ver1.1/service/workers/event_log_collector.py:92-99 | when every collected record parses, every admitted event is written |
| EventLogCollector.WatermarkAdvances | CYBER-AEGIS_ver1.1/service/workers/event_log_collector.py:102-107 | after a pass that moves it, the watermark rises above its old value, to the largest id among all collected records, filtered or not |
| EventLogCollector.NoEventTwice | CYBER-AEGIS_ver1.1/service/workers/event_log_collector.py:75-107 | after a pass that moved the watermark, the next pass writes only newer events |
| EventLogCollector.WrittenInOrder | CYBER-AEGIS_ver1.1/service/workers/event_log_collector.py:88 | when the Event Log hands records over newest first, the events are written with strictly increasing record ids |
| EventLogCollector.FailedBatchKeepsMark | CYBER-AEGIS_ver1.1/service/workers/event_log_collector.py:89-112 | a collected record that does not parse ends the pass with the watermark unchanged |
| EventLogCollector.StuckChannel | CYBER-AEGIS_ver1.1/service/workers/event_log_collector.py:102-112 | while the watermark stays put, two passes write the same lines twice |
| EventLogCollector.StuckExample | CYBER-AEGIS_ver1.1/service/workers/event_log_collector.py:61-112 | a channel whose newest record lacks its `EventID` writes its older logon event again on every poll |
| EventLogCollector.SinkLines | CYBER-AEGIS_ver1.1/service/workers/event_log_collector.py:97-99 | the appended lines split back into the same lines |
| EventLogCollector.StripJsonLine | CYBER-AEGIS_ver1.1/service/workers/event_log_collector.py:97-99 | a written line stripped is the JSON text of the event |
| Spamhaus.BreakAt | CYBER-AEGIS_ver1.1/src/collectors/spamhaus_collector.py:19 | the first line boundary: the text before it holds no boundary, and the character there is one |
| Spamhaus.SplitLines | CYBER-AEGIS_ver1.1/src/collectors/spamhaus_collector.py:19 | `splitlines()` gives no line exactly for the empty text, and no line it gives holds a boundary |
| Spamhaus.SplitLinesStep | CYBER-AEGIS_ver1.1/src/collectors/spamhaus_collector.py:19 | a line ended by `\n` is split off whole, before the lines of the rest |
| Spamhaus.LineEntities | CYBER-AEGIS_ver1.1/src/collectors/spamhaus_collector.py:20-36 | one line contributes at most one entity |
| Spamhaus.ParseFeed | CYBER-AEGIS_ver1.1/src/collectors/spamhaus_collector.py:13-38 | a missing or empty feed gives no entities |
| Spamhaus.EntitiesAppend | CYBER-AEGIS_ver1.1/src/collectors/spamhaus_collector.py:20-38 | parsing distributes over concatenated line lists, so the entities keep line order |
| Spamhaus.SkippedLine | CYBER-AEGIS_ver1.1/src/collectors/spamhaus_collector.py:21-23 | a blank line or a `;` comment contributes nothing wherever it stands |
| Spamhaus.KeptLine | CYBER-AEGIS_ver1.1/src/collectors/spamhaus_collector.py:25-36 | every other line contributes exactly one entity, for the stripped text before its first `;`, in its place |
| Spamhaus.EntitiesCount | CYBER-AEGIS_ver1.1/src/collectors/spamhaus_collector.py:20-36 | there is one entity per line that is neither blank nor a comment |
| Spamhaus.StripFeedLine | CYBER-AEGIS_ver1.1/src/collectors/spamhaus_collector.py:21 | stripping a printed `network ; comment` line keeps its network and the `;` |
| Spamhaus.StripNetworkBlank | CYBER-AEGIS_ver1.1/src/collectors/spamhaus_collector.py:25 | the blank before the `;` is stripped off the network |
| Spamhaus.FeedLineNetwork | CYBER-AEGIS_ver1.1/src/collectors/spamhaus_collector.py:21-25 | a printed list line is kept and yields exactly its network |
| Spamhaus.FeedLineBreakFree | CYBER-AEGIS_ver1.1/src/collectors/spamhaus_collector.py:19 | a printed list line holds no line boundary |
| Spamhaus.FeedRoundTrip | CYBER-AEGIS_ver1.1/src/collectors/spamhaus_collector.py:19-36 | the lines of a printed list give back one entity per row, with id `SPAMHAUS-<network>`, in row order |
| Spamhaus.ParseFeedRoundTrip | CYBER-AEGIS_ver1.1/src/collectors/spamhaus_collector.py:13-38 | `_parse_feed` on a printed list gives back one entity per row, with id `SPAMHAUS-<network>`, in row order |
| RealDefense.Listed | CYBER-AEGIS_ver1.1/src/defense_matrix/real_defense.py:20 | the addresses a blocklist text names are its stripped lines, none of them empty |
| RealDefense.LoadBlocklist | CYBER-AEGIS_ver1.1/src/defense_matrix/real_defense.py:16-20 | a missing file gives the empty set, and no loaded address is empty |
| RealDefense.ListedAppend | CYBER-AEGIS_ver1.1/src/defense_matrix/real_defense.py:20 | the addresses of two line lists together are the union of each list's addresses |
| RealDefense.StripLine | CYBER-AEGIS_ver1.1/src/defense_matrix/real_defense.py:20-26 | a line written as `ip\n` strips back to the address |
| RealDefense.ListedOne | CYBER-AEGIS_ver1.1/src/defense_matrix/real_defense.py:20 | one non-blank line names exactly its stripped text |
| RealDefense.LinesAfterAppend | CYBER-AEGIS_ver1.1/src/defense_matrix/real_defense.py:25-26 | appending `ip\n` to a text whose lines are all terminated adds exactly one line |
| RealDefense.ReloadAfterAppend | CYBER-AEGIS_ver1.1/src/defense_matrix/real_defense.py:16-26 | reloading the file after an append names exactly one more address, the appended one |
| RealDefense.Defense.constructor | CYBER-AEGIS_ver1.1/src/defense_matrix/real_defense.py:7-10 | the set is loaded from the file as it stands, and agrees with it |
| RealDefense.Defense.AddToBlocklist | CYBER-AEGIS_ver1.1/src/defense_matrix/real_defense.py:22-31 | the result is true exactly for a new address; the address is then blocked, only a new one appends `ip\n`, no other address changes status, and the set keeps agreeing with the file |
| CisaKev.WordEnd | CYBER-AEGIS_ver1.1/src/threat_intel/cisa_kev_checker.py:44 | the leading run of non-blank characters ends at a blank or at the end of the text |
| CisaKev.Words | CYBER-AEGIS_ver1.1/src/threat_intel/cisa_kev_checker.py:44 | every word `split()` gives is non-empty and holds no blank |
| CisaKev.WordsBlank | CYBER-AEGIS_ver1.1/src/threat_intel/cisa_kev_checker.py:44 | blank text has no words |
| CisaKev.LStripSpace | CYBER-AEGIS_ver1.1/src/threat_intel/cisa_kev_checker.py:44 | a leading blank is skipped before the first word |
| CisaKev.WordsJoin | CYBER-AEGIS_ver1.1/src/threat_intel/cisa_kev_checker.py:44 | words joined by single blanks split back into the same words |
| CisaKev.WordsStep | CYBER-AEGIS_ver1.1/src/threat_intel/cisa_kev_checker.py:44 | a word that ends at a blank is the first word, followed by the words of the rest |
| CisaKev.WordEndAt | CYBER-AEGIS_ver1.1/src/threat_intel/cisa_kev_checker.py:44 | a word followed by nothing or by a blank ends where it ends |
| CisaKev.WordsAfterBlank | CYBER-AEGIS_ver1.1/src/threat_intel/cisa_kev_checker.py:44 | a leading blank does not change the words |
| CisaKev.TextField | CYBER-AEGIS_ver1.1/src/threat_intel/cisa_kev_checker.py:47 | a missing key reads as the empty text, and a present value is read only when it is a string |
| CisaKev.Target | CYBER-AEGIS_ver1.1/src/threat_intel/cisa_kev_checker.py:47 | the target text is read only from a dictionary entry |
| CisaKev.Matches | CYBER-AEGIS_ver1.1/src/threat_intel/cisa_kev_checker.py:46-55 | there are never more matches than catalog entries |
| CisaKev.CheckProduct | CYBER-AEGIS_ver1.1/src/threat_intel/cisa_kev_checker.py:38-68 | an empty catalog gives the not-loaded error report; otherwise the call raises exactly when matching raises, is Danger with the count, the list and the message when some entry matches, and is Safe with its message when none does |
| CisaKev.MatchesAppend | CYBER-AEGIS_ver1.1/src/threat_intel/cisa_kev_checker.py:46-55 | the catalog is filtered piecewise, so the matches keep catalog order |
| CisaKev.MatchesErr | CYBER-AEGIS_ver1.1/src/threat_intel/cisa_kev_checker.py:46-47 | matching raises exactly when some catalog entry's target text cannot be read |
| CisaKev.AllInContains | CYBER-AEGIS_ver1.1/src/threat_intel/cisa_kev_checker.py:49 | every search word is a substring of the target text |
| CisaKev.OneMatch | CYBER-AEGIS_ver1.1/src/threat_intel/cisa_kev_checker.py:44-55 | one entry is kept, with its four fields, exactly when every word of the lowercased product name occurs in its target text, and dropped otherwise |
| CisaKev.NoWordsMatchAll | CYBER-AEGIS_ver1.1/src/threat_intel/cisa_kev_checker.py:46-55 | with no search words every readable entry matches, in catalog order |
| CisaKev.BlankNoWords | CYBER-AEGIS_ver1.1/src/threat_intel/cisa_kev_checker.py:44 | a blank product name has no search words |
| CisaKev.BlankIsDanger | CYBER-AEGIS_ver1.1/src/threat_intel/cisa_kev_checker.py:38-63 | a blank product name over a readable catalog is Danger with every entry counted |
| Nicter.Field | CYBER-AEGIS_ver1.1/src/threat_intel/nicter_analyzer.py:41-49 | `threat.get(k)` gives a non-null value only when it is stored under the key |
| Nicter.Ranked | CYBER-AEGIS_ver1.1/src/threat_intel/nicter_analyzer.py:53-54 | the sort succeeds exactly when the counts can be compared, and then gives a permutation of the rows ordered by count, largest first |
| Nicter.TopAttackTrends | CYBER-AEGIS_ver1.1/src/threat_intel/nicter_analyzer.py:28-61 | the not-loaded report comes exactly from empty data; otherwise the call raises exactly when a threat is not a dictionary or a list's counts cannot be compared, and both lists come out ordered by count and at most `top_n` long; when the report is produced, each list is exactly the first `top_n` of its counts ranked (`Ranked`, the stable descending sort the source applies) |
| Nicter.TextLeTotal | CYBER-AEGIS_ver1.1/src/threat_intel/nicter_analyzer.py:53-54 | any two texts are ordered one way or the other by code points |
| Nicter.TextLeTrans | CYBER-AEGIS_ver1.1/src/threat_intel/nicter_analyzer.py:53-54 | the text order is transitive |
| Nicter.KeyLeTotal | CYBER-AEGIS_ver1.1/src/threat_intel/nicter_analyzer.py:53-54 | any two count keys are ordered one way or the other |
| Nicter.KeyLeTrans | CYBER-AEGIS_ver1.1/src/threat_intel/nicter_analyzer.py:53-54 | the order on count keys is transitive |
| Nicter.MoreHostsPreorder | CYBER-AEGIS_ver1.1/src/threat_intel/nicter_analyzer.py:53-54 | the descending order by count is a total preorder, so the stable sort applies |
| Nicter.MoreHostsNumbers | CYBER-AEGIS_ver1.1/src/threat_intel/nicter_analyzer.py:53-54 | on numeric counts a row comes first exactly when it has no fewer hosts |
| Nicter.SortedPrefix | CYBER-AEGIS_ver1.1/src/threat_intel/nicter_analyzer.py:59-60 | the first `top_n` rows of an ordered list are still ordered |
| Nicter.PickAppend | CYBER-AEGIS_ver1.1/src/threat_intel/nicter_analyzer.py:40-50 | the rows of one type are picked piecewise over the feed, in feed order |
| Nicter.ClassifyPicks | CYBER-AEGIS_ver1.1/src/threat_intel/nicter_analyzer.py:40-50 | each list holds exactly the rows of the threats of its type, in feed order |
| Nicter.ClassifyErr | CYBER-AEGIS_ver1.1/src/threat_intel/nicter_analyzer.py:40-41 | the classifying loop raises exactly when some threat is not a dictionary |
| Nicter.TopAreLargest | CYBER-AEGIS_ver1.1/src/threat_intel/nicter_analyzer.py:53-60 | every row kept was observed, and has at least as many hosts as every row cut |
| Nicter.RankedStable | CYBER-AEGIS_ver1.1/src/threat_intel/nicter_analyzer.py:53-54 | rows with equal counts keep the order of the feed |
| Nicter.RankedDescending | CYBER-AEGIS_ver1.1/src/threat_intel/nicter_analyzer.py:53-54 | with numeric counts the ranked list reads largest count first |
| ConfigManager.Lookup | CYBER-AEGIS_ver1.1/src/utils/config_manager.py:28-30 | `get` finds a value exactly when the section exists and holds the lowercased option name |
| ConfigManager.StripKeepsOut | CYBER-AEGIS_ver1.1/src/utils/config_manager.py:39 | stripping introduces no character |
| ConfigManager.Kept | CYBER-AEGIS_ver1.1/src/utils/config_manager.py:39 | filtering the stripped pieces never lengthens the list |
| ConfigManager.KeptItemsClean | CYBER-AEGIS_ver1.1/src/utils/config_manager.py:39 | pieces without a comma leave only clean items: non-empty, no blank at either end, no comma |
| ConfigManager.Items | CYBER-AEGIS_ver1.1/src/utils/config_manager.py:36-39 | every item `get_list` gives is clean |
| ConfigManager.KeptClean | CYBER-AEGIS_ver1.1/src/utils/config_manager.py:39 | clean items pass the strip-and-filter step unchanged |
| ConfigManager.ItemsJoin | CYBER-AEGIS_ver1.1/src/utils/config_manager.py:39-62 | a list of clean items stored with `",".join` reads back as the same list |
| ConfigManager.ItemsSingle | CYBER-AEGIS_ver1.1/src/utils/config_manager.py:39 | a clean value reads back as a list of one |
| ConfigManager.MergeProps | CYBER-AEGIS_ver1.1/src/utils/config_manager.py:54-59 | the merged list keeps the old list as a prefix, holds exactly the old items and the new values, and has no repeats when the old list had none |
| ConfigManager.MergeUnchanged | CYBER-AEGIS_ver1.1/src/utils/config_manager.py:55-61 | the list changes exactly when some value is not already in it |
| ConfigManager.AppendNew | CYBER-AEGIS_ver1.1/src/utils/config_manager.py:54-59 | the loop gives the merged list, and `updated` holds exactly when the list changed |
| ConfigManager.Stored | CYBER-AEGIS_ver1.1/src/utils/config_manager.py:45-47 | a boolean is stored as `true` exactly when it is true, and as `false` otherwise |
| ConfigManager.Wrap | CYBER-AEGIS_ver1.1/src/utils/config_manager.py:51-52 | a value that is not a list is taken as a list of one |
| ConfigManager.Texts | CYBER-AEGIS_ver1.1/src/utils/config_manager.py:56-62 | the texts of string values, one per value, in order |
| ConfigManager.IntOption | CYBER-AEGIS_ver1.1/src/utils/config_manager.py:79-81 | an absent option gives the fallback; a present one gives its value read by `int()`, and raises exactly when `int()` refuses it |
| ConfigManager.StixSettings | CYBER-AEGIS_ver1.1/src/utils/config_manager.py:72-84 | without the section the settings are empty; otherwise the call raises exactly when a count is not an integer, and gives the clean server list, the optional collection id, both proxies as stored (or absent), and each count as `IntOption` reads it, with defaults 10, 3 and 5 |
| ConfigManager.Config.constructor | CYBER-AEGIS_ver1.1/src/utils/config_manager.py:5-26 | without a settings file the defaults are written first; the settings held are those of the file |
| ConfigManager.Config.GetList | CYBER-AEGIS_ver1.1/src/utils/config_manager.py:36-39 | every item is clean, and a clean stored value reads as a list of one |
| ConfigManager.Config.Set | CYBER-AEGIS_ver1.1/src/utils/config_manager.py:41-47 | a missing section is created; text or a boolean is stored under the lowercased option and read back, nothing else changes, and the file is not written |
| ConfigManager.Config.Save | CYBER-AEGIS_ver1.1/src/utils/config_manager.py:66-69 | the file becomes the settings held |
| ConfigManager.Config.AddToList | CYBER-AEGIS_ver1.1/src/utils/config_manager.py:49-64 | the call fails exactly when a value is not text; the result is true exactly when the merged list differs from the old one, and only then is the joined list stored and the file written |
| ConfigManager.AddedListReadsBack | CYBER-AEGIS_ver1.1/src/utils/config_manager.py:36-62 | the list `add_to_list` stores reads back through `get_list` as the merged list |
| FileMonitor.Queued | CYBER-AEGIS_ver1.1/src/data_integrators/file_monitor.py:59-91 | one notification queues at most one request, exactly when it is not about a directory and the path passes every exclusion rule, and the request carries the event type and the path |
| FileMonitor.Handler.constructor | CYBER-AEGIS_ver1.1/src/data_integrators/file_monitor.py:51-57 | the handler keeps the scan worker (present or `None`) and the exclusions, normalises every watched path, and starts with an empty queue |
| FileMonitor.Handler.ProcessEvent | CYBER-AEGIS_ver1.1/src/data_integrators/file_monitor.py:59-79 | an admitted path appends one request with its event type when a scan worker exists and raises when it is `None`; any other path leaves the queue as it was and does not raise |
| FileMonitor.Handler.OnCreated | CYBER-AEGIS_ver1.1/src/data_integrators/file_monitor.py:81-83 | a creation queues what `Queued` gives for its source path under the type `作成`, or raises instead when there is no scan worker |
| FileMonitor.Handler.OnModified | CYBER-AEGIS_ver1.1/src/data_integrators/file_monitor.py:85-87 | a modification queues what `Queued` gives for its source path under the type `変更`, or raises instead when there is no scan worker |
| FileMonitor.Handler.OnMoved | CYBER-AEGIS_ver1.1/src/data_integrators/file_monitor.py:89-91 | a move queues what `Queued` gives for its destination path under the type `移動/名前変更`, or raises instead when there is no scan worker |
| FileMonitor.BasenameAfterSep | CYBER-AEGIS_ver1.1/src/data_integrators/file_monitor.py:71 | the base name of `dir\name` is `name` |
| FileMonitor.OwnFilesDropped | CYBER-AEGIS_ver1.1/src/data_integrators/file_monitor.py:57-72 | the monitor's own database, journal and log are never queued, in any directory |
| FileMonitor.LowerSplit | CYBER-AEGIS_ver1.1/src/data_integrators/file_monitor.py:74 | lowercasing works piece by piece |
| FileMonitor.PatternDropped | CYBER-AEGIS_ver1.1/src/data_integrators/file_monitor.py:56-75 | an ignore pattern in any letter case, anywhere in the path, drops it |
| FileMonitor.DirectoryDropped | CYBER-AEGIS_ver1.1/src/data_integrators/file_monitor.py:76 | an excluded directory, compared without regard to case, drops every path that contains it |
| FileMonitor.ExtensionDropped | CYBER-AEGIS_ver1.1/src/data_integrators/file_monitor.py:77 | a path ending with an excluded extension, in any letter case, is dropped |
| FileMonitor.MoreExclusionsAdmitLess | CYBER-AEGIS_ver1.1/src/data_integrators/file_monitor.py:76-77 | more exclusions never let more paths through |
| PdfGenerator.Extractor.constructor | CYBER-AEGIS_ver1.1/src/reporting/pdf_generator.py:14-19 | the extractor starts outside the body, with no open tag and nothing recorded |
| PdfGenerator.Extractor.HandleStartTag | CYBER-AEGIS_ver1.1/src/reporting/pdf_generator.py:21-26 | `<body>` opens the body; inside it every other tag is pushed; outside it nothing changes |
| PdfGenerator.Extractor.HandleEndTag | CYBER-AEGIS_ver1.1/src/reporting/pdf_generator.py:28-33 | `</body>` closes the body; inside it the top of the stack is popped only when it names the tag |
| PdfGenerator.Extractor.HandleData | CYBER-AEGIS_ver1.1/src/reporting/pdf_generator.py:35-40 | inside the body, non-blank text is recorded stripped, with the open tags joined by `/` |
| PdfGenerator.Extractor.Feed | CYBER-AEGIS_ver1.1/src/reporting/pdf_generator.py:80-82 | the handlers are applied to the document's tokens in order |
| PdfGenerator.StyleOf | CYBER-AEGIS_ver1.1/src/reporting/pdf_generator.py:86-90 | the style is `h2` exactly when the tag path contains `h2`, `h3` exactly when it contains `h3` but not `h2`, and `p` otherwise |
| PdfGenerator.ParagraphOf | CYBER-AEGIS_ver1.1/src/reporting/pdf_generator.py:86-95 | a fragment gets the style of its tag path, and its text is wrapped in `<b>` exactly when the path contains `strong` |
| PdfGenerator.Paragraphs | CYBER-AEGIS_ver1.1/src/reporting/pdf_generator.py:84-97 | one paragraph per fragment, in order |
| PdfGenerator.HtmlToFlowables | CYBER-AEGIS_ver1.1/src/reporting/pdf_generator.py:79-97 | the paragraphs are those of the fragments the extractor records from the document, in order |
| PdfGenerator.OutsideBody | CYBER-AEGIS_ver1.1/src/reporting/pdf_generator.py:21-40 | outside the body only `<body>` changes anything |
| PdfGenerator.BodyNeverPushed | CYBER-AEGIS_ver1.1/src/reporting/pdf_generator.py:22-26 | `body` never appears on the stack |
| PdfGenerator.EndTagPops | CYBER-AEGIS_ver1.1/src/reporting/pdf_generator.py:32-33 | an end tag pops exactly when it names the top of the stack inside the body, and otherwise leaves the stack alone |
| PdfGenerator.UnclosedBlocks | CYBER-AEGIS_ver1.1/src/reporting/pdf_generator.py:26-33 | an unclosed inner tag stays on top and keeps its enclosing tag open after the enclosing end tag |
| PdfGenerator.FedGrows | CYBER-AEGIS_ver1.1/src/reporting/pdf_generator.py:35-40 | recorded fragments are never lost, and every recorded text is non-blank |
| PdfGenerator.DataRecorded | CYBER-AEGIS_ver1.1/src/reporting/pdf_generator.py:37-40 | a non-blank text inside the body is recorded with the path of the open tags |
| PdfGenerator.JoinHasItem | CYBER-AEGIS_ver1.1/src/reporting/pdf_generator.py:40 | every open tag occurs in the joined path |
| PdfGenerator.NestedStyles | CYBER-AEGIS_ver1.1/src/reporting/pdf_generator.py:40-93 | text inside an open `h2` is a second-level heading, and text inside an open `strong` is bold |
| SimulationArena.TrimSeps | CYBER-AEGIS_ver1.1/src/core_ai/simulation_arena.py:129 | the directory part loses its trailing separators and nothing else |
| SimulationArena.PathSplit | CYBER-AEGIS_ver1.1/src/core_ai/simulation_arena.py:129 | the file part of `os.path.split` holds no separator |
| SimulationArena.TrimOneSep | CYBER-AEGIS_ver1.1/src/core_ai/simulation_arena.py:129 | one trailing separator after a plain character is trimmed back to the directory |
| SimulationArena.DriveOfJoin | CYBER-AEGIS_ver1.1/src/core_ai/simulation_arena.py:129 | the drive of `dir\name` is the drive of `dir`, and the rest follows it |
| SimulationArena.PathSplitJoin | CYBER-AEGIS_ver1.1/src/core_ai/simulation_arena.py:129-131 | `dir\name` splits back into `dir` and `name` |
| SimulationArena.UnnamedKept | CYBER-AEGIS_ver1.1/src/core_ai/simulation_arena.py:15-21 | a directory that no user path names keeps what it had |
| SimulationArena.ObjectivePlaced | CYBER-AEGIS_ver1.1/src/core_ai/simulation_arena.py:15-19 | the documents directory holds exactly the objective file, unless a later entry names the same directory |
| SimulationArena.ProcessName | CYBER-AEGIS_ver1.1/src/core_ai/simulation_arena.py:65 | the process is `powershell.exe` exactly when the lowercased command line names it, and `cmd.exe` otherwise |
| SimulationArena.RegistryBranchDead | CYBER-AEGIS_ver1.1/src/core_ai/simulation_arena.py:65-69 | the process name always contains `powershell` or `cmd`, so the registry branch is never taken |
| SimulationArena.PidOf | CYBER-AEGIS_ver1.1/src/core_ai/simulation_arena.py:87-91 | `int()` keeps an integer, and raises on `None`, a list or a dictionary |
| SimulationArena.FirstWithPid | CYBER-AEGIS_ver1.1/src/core_ai/simulation_arena.py:138 | the index found is that of the first process with the id, and none is found exactly when no process has it |
| SimulationArena.Arena.constructor | CYBER-AEGIS_ver1.1/src/core_ai/simulation_arena.py:8-35 | the file system is the base one plus the user's named paths; one `explorer.exe` process with id 101; the next id is 1000; no log and nothing quarantined |
| SimulationArena.Arena.Log | CYBER-AEGIS_ver1.1/src/core_ai/simulation_arena.py:46-50 | one log line is appended and nothing else changes |
| SimulationArena.Arena.CreateProcess | CYBER-AEGIS_ver1.1/src/core_ai/simulation_arena.py:114-126 | the new process gets the next id, which then moves on by one; the ids stay distinct and below the next one |
| SimulationArena.Arena.CreateFile | CYBER-AEGIS_ver1.1/src/core_ai/simulation_arena.py:128-135 | the call succeeds exactly when the directory is known, and then sets that one file; each outcome logs its line |
| SimulationArena.Arena.TerminateProcess | CYBER-AEGIS_ver1.1/src/core_ai/simulation_arena.py:137-143 | the first process with the id is removed and the others stay in order; an unknown id is only logged |
| SimulationArena.Arena.QuarantineFile | CYBER-AEGIS_ver1.1/src/core_ai/simulation_arena.py:145-150 | a present file leaves its directory and is recorded as quarantined; anything else changes nothing |
| SimulationArena.Arena.IngressToolTransfer | CYBER-AEGIS_ver1.1/src/core_ai/simulation_arena.py:97-112 | the transfer is logged first; a text destination gets the payload when its directory exists, and the file write's line and the `TACTIC_SUCCESS` or `TACTIC_FAIL` line follow; any other destination raises after the first line; processes, the next id and the quarantine register are unchanged |
| SimulationArena.Arena.ExecuteRedTeamTactic | CYBER-AEGIS_ver1.1/src/core_ai/simulation_arena.py:55-73 | a command without truthy parameters is logged as invalid; a command line starts the process it names under the next id and logs it; a T1105 command transfers its file with its log lines; any other tactic logs `TACTIC_NOT_IMPLEMENTED`; a dictionary of parameters whose `command_to_execute` is present but not text raises (at `.lower()`) and leaves the log unchanged; on every path that starts no process or writes no file, the process table, the next id and the file system are unchanged, and a raising path adds no log line except the transfer's first |
| SimulationArena.Arena.Dispatch | CYBER-AEGIS_ver1.1/src/core_ai/simulation_arena.py:60-73 | a command line starts the process it names under the next id and logs it; a T1105 command transfers its file with its log lines; a parameter set without a command and another tactic logs `TACTIC_NOT_IMPLEMENTED`; every other path leaves the process table, the next id and the file system unchanged |
| SimulationArena.Arena.ExecuteBlueTeamAction | CYBER-AEGIS_ver1.1/src/core_ai/simulation_arena.py:80-95 | no action, or an unknown one, changes nothing; `terminate_process` removes the first process with an id `int()` accepts and logs the outcome, or logs `BLUE_TEAM_FAIL`; `quarantine_file` quarantines a given path and a falsy one changes nothing; a raising path changes nothing; the next id never changes |
| SimulationArena.Arena.TerminateAction | CYBER-AEGIS_ver1.1/src/core_ai/simulation_arena.py:86-91 | dictionary parameters remove the first process with the id `int()` reads and log the outcome, or log `BLUE_TEAM_FAIL` and keep every process; other parameters raise and change nothing |
| SimulationArena.Arena.QuarantineAction | CYBER-AEGIS_ver1.1/src/core_ai/simulation_arena.py:92-95 | a non-empty `filepath` is quarantined when present, with its log line; a falsy one changes nothing; parameters that are not a dictionary, or a truthy `filepath` that is not text, raise and change nothing |
| DbManager.SourceOf | CYBER-AEGIS_ver1.1/src/database/db_manager.py:452-454 | a known prefix maps to a source whose own prefix is that one, and no known prefix holds a dash |
| DbManager.FirstDash | CYBER-AEGIS_ver1.1/src/database/db_manager.py:450 | the split point is the first dash, and there is none exactly when the identifier has no dash |
| DbManager.SourceAndId | CYBER-AEGIS_ver1.1/src/database/db_manager.py:449-456 | an identifier without a dash gives no source; a decoded source's prefix and a dash start the identifier |
| DbManager.FirstDashAfter | CYBER-AEGIS_ver1.1/src/database/db_manager.py:450 | after a dash-free prefix, the first dash is the one that follows it |
| DbManager.DecodeCases | CYBER-AEGIS_ver1.1/src/database/db_manager.py:449-456 | an unknown prefix gives no source; a known one with a non-integer tail raises; otherwise the source and the parsed id |
| DbManager.IdRoundTrip | CYBER-AEGIS_ver1.1/src/database/db_manager.py:449-456 | an id formatted for a source decodes back to that source and id |
| DbManager.Report | CYBER-AEGIS_ver1.1/src/database/db_manager.py:477-485 | the report is a one-key dictionary under `report_data`: empty for a missing or falsy value, the parsed JSON when it parses, and an error report otherwise |
| DbManager.FormatRow | CYBER-AEGIS_ver1.1/src/database/db_manager.py:460-490 | a row without an id is skipped; a GitHub row whose `matches` does not parse raises; every other row is kept |
| DbManager.FormatRowKeeps | CYBER-AEGIS_ver1.1/src/database/db_manager.py:463-485 | a kept row has its id prefixed by its source, its `ai_report` wrapped, and every other column except `matches` unchanged |
| DbManager.WithId | CYBER-AEGIS_ver1.1/src/database/db_manager.py:460-464 | the rows that have an id are no more than all the rows |
| DbManager.FormatRows | CYBER-AEGIS_ver1.1/src/database/db_manager.py:458-491 | the result is an error exactly when some row raises; otherwise it holds one item per row with an id, each the formatting of one of the rows |
| DbManager.FormatRowsAppend | CYBER-AEGIS_ver1.1/src/database/db_manager.py:459-491 | the items keep the order of the rows: formatting a concatenation gives the items of its first part followed by those of the second, and fails exactly when either part fails |
| DbManager.FormatRowsSingle | CYBER-AEGIS_ver1.1/src/database/db_manager.py:460-490 | one row gives its formatted item, nothing when it is skipped, or raises |
| DbManager.FormatLeakRows | CYBER-AEGIS_ver1.1/src/database/db_manager.py:458-491 | the loop's result is the formatting of the whole list |
| DbManager.FormattedIdDecodes | CYBER-AEGIS_ver1.1/src/database/db_manager.py:449-475 | the identifier a formatted row gets decodes back to its source and database id |
| DbManager.FormattedRowsShape | CYBER-AEGIS_ver1.1/src/database/db_manager.py:458-491 | every formatted item has an id and an `ai_report` dictionary under `report_data` |
| DbManager.UpdateRow | CYBER-AEGIS_ver1.1/src/database/db_manager.py:297-308 | only the row with the decoded id in the decoded source's table changes, by the given change; no table is added or removed |
| DbManager.LeakStore.constructor | CYBER-AEGIS_ver1.1/src/database/db_manager.py:66-99 | the store holds the four empty leak tables |
| DbManager.LeakStore.UpdateLeakStatus | CYBER-AEGIS_ver1.1/src/database/db_manager.py:297-308 | the call returns normally exactly when the id does not raise and its table exists; only that row's status changes |
| DbManager.LeakStore.UpdateLeakWithAiAnalysis | CYBER-AEGIS_ver1.1/src/database/db_manager.py:283-295 | the call returns normally exactly when the id does not raise and its table exists; only that row takes the analysis and the ANALYZED status |
| DbManager.BadIdUntouched | CYBER-AEGIS_ver1.1/src/database/db_manager.py:286 | an identifier without a source leaves every table as it was |
| DbManager.Servers | CYBER-AEGIS_ver1.1/src/database/db_manager.py:340-341 | the map fails exactly when some timestamp does not parse, and otherwise holds exactly the codes of the rows |
| DbManager.LastRowWins | CYBER-AEGIS_ver1.1/src/database/db_manager.py:341 | a code's server comes from the last row with that code |
| DbManager.Priority | CYBER-AEGIS_ver1.1/src/database/db_manager.py:353-359 | a failure in the last hour is 5; otherwise a NULL score fails the comparison; the priority is always 1, 2, 4 or 5 |
| DbManager.BeforePreorder | CYBER-AEGIS_ver1.1/src/database/db_manager.py:364 | the `(priority, last_scan)` order is total and transitive |
| DbManager.Unscanned | CYBER-AEGIS_ver1.1/src/database/db_manager.py:350-362 | the unscanned codes are codes of the input that are not in the database |
| DbManager.Partition | CYBER-AEGIS_ver1.1/src/database/db_manager.py:350-362 | it fails exactly when some known code's priority fails; the unscanned part is the codes not in the database; every known entry carries its code's priority and last scan |
| DbManager.CodesOf | CYBER-AEGIS_ver1.1/src/database/db_manager.py:370 | the codes are those of the entries, in order |
| DbManager.Fill | CYBER-AEGIS_ver1.1/src/database/db_manager.py:366-370 | the batch has at most the batch size |
| DbManager.Batch | CYBER-AEGIS_ver1.1/src/database/db_manager.py:337-376 | the batch has at most the batch size; a timestamp that does not parse, or a priority that cannot be computed (a NULL score compared), gives the first codes |
| DbManager.PrioritizedBatch | CYBER-AEGIS_ver1.1/src/database/db_manager.py:337-376 | the loop's batch is the specified batch |
| DbManager.BatchFromCodes | CYBER-AEGIS_ver1.1/src/database/db_manager.py:337-376 | every code in the batch is one of the input codes |
| DbManager.UnscannedFirst | CYBER-AEGIS_ver1.1/src/database/db_manager.py:366-370 | the batch starts with the first unscanned codes, and the rest are known servers |
| DbManager.UnscannedFillFirst | CYBER-AEGIS_ver1.1/src/database/db_manager.py:366-368 | when there are enough unscanned codes, the batch is exactly the first of them |
| DbManager.KnownInOrder | CYBER-AEGIS_ver1.1/src/database/db_manager.py:364-370 | the known servers are sorted by `(priority, last_scan)` as a permutation, the batch's tail is the first of them in order, and none left out comes before one taken |
| MitreMapper.LowerItems | CYBER-AEGIS_ver1.1/src/threat_intel/mitre_mapper.py:40-41 | the list lowers exactly when every item is a string, and then item by item |
| MitreMapper.Aliases | CYBER-AEGIS_ver1.1/src/threat_intel/mitre_mapper.py:39-41 | no `aliases` key gives no aliases; otherwise they lower exactly when they are a list of strings |
| MitreMapper.NamesOf | CYBER-AEGIS_ver1.1/src/threat_intel/mitre_mapper.py:35-41 | an object that is neither an intrusion set nor malware contributes nothing; a threat's names fail exactly when its name or an alias is not a string |
| MitreMapper.NamesOfMembers | CYBER-AEGIS_ver1.1/src/threat_intel/mitre_mapper.py:37-41 | a threat contributes exactly its lowercased name and its lowercased aliases |
| MitreMapper.KnownNames | CYBER-AEGIS_ver1.1/src/threat_intel/mitre_mapper.py:30-31 | no objects give no names |
| MitreMapper.KnownNamesErr | CYBER-AEGIS_ver1.1/src/threat_intel/mitre_mapper.py:33-41 | collecting the names fails exactly when some object's names fail |
| MitreMapper.KnownNamesMembers | CYBER-AEGIS_ver1.1/src/threat_intel/mitre_mapper.py:33-42 | a name is known exactly when some object contributes it |
| MitreMapper.ExtractKnownThreatNames | CYBER-AEGIS_ver1.1/src/threat_intel/mitre_mapper.py:26-42 | the loop fails exactly when the names fail; otherwise it returns every known name once and nothing else |
| MitreMapper.NameKnown | CYBER-AEGIS_ver1.1/src/threat_intel/mitre_mapper.py:37-38 | every threat's lowercased name is known |
| MitreMapper.AliasKnown | CYBER-AEGIS_ver1.1/src/threat_intel/mitre_mapper.py:39-41 | every threat's lowercased alias is known |
| MitreMapper.KnownNamesFromThreats | CYBER-AEGIS_ver1.1/src/threat_intel/mitre_mapper.py:33-42 | every known name comes from some intrusion set or malware object |
| MitreMapper.ByName | CYBER-AEGIS_ver1.1/src/threat_intel/mitre_mapper.py:73-74 | building the index fails exactly when an object of the kind has no string name; every entry is an object of the kind under its lowercased name |
| MitreMapper.ByNameHasAll | CYBER-AEGIS_ver1.1/src/threat_intel/mitre_mapper.py:73-74 | every object of the kind is in the index under its lowercased name |
| MitreMapper.Relationships | CYBER-AEGIS_ver1.1/src/threat_intel/mitre_mapper.py:76 | the relationships are exactly the objects that are `uses` relationships |
| MitreMapper.Techniques | CYBER-AEGIS_ver1.1/src/threat_intel/mitre_mapper.py:77 | the index fails exactly when an attack pattern has no id; every entry is an attack pattern under its own id |
| MitreMapper.AliasMatch | CYBER-AEGIS_ver1.1/src/threat_intel/mitre_mapper.py:86-94 | a match is the first indexed object that lists the key among its aliases, and there is none exactly when no object does |
| MitreMapper.Resolve | CYBER-AEGIS_ver1.1/src/threat_intel/mitre_mapper.py:80-94 | an intrusion set by name wins, then malware by name, then an intrusion set by alias, then malware by alias |
| MitreMapper.IntrusionSetFirst | CYBER-AEGIS_ver1.1/src/threat_intel/mitre_mapper.py:82 | an actor named like an intrusion set resolves to an intrusion set |
| MitreMapper.Target | CYBER-AEGIS_ver1.1/src/threat_intel/mitre_mapper.py:102-106 | a relationship fails exactly when it is the actor's and its truthy target is not a string; it yields exactly the actor's targets that start with `attack-pattern--` |
| MitreMapper.UsedIds | CYBER-AEGIS_ver1.1/src/threat_intel/mitre_mapper.py:100-106 | the technique ids have no repeats |
| MitreMapper.UsedIdsErr | CYBER-AEGIS_ver1.1/src/threat_intel/mitre_mapper.py:102-106 | collecting the ids fails exactly when some relationship fails |
| MitreMapper.UsedIdsMembers | CYBER-AEGIS_ver1.1/src/threat_intel/mitre_mapper.py:100-106 | an id is used exactly when some relationship yields it |
| MitreMapper.CollectUsedIds | CYBER-AEGIS_ver1.1/src/threat_intel/mitre_mapper.py:100-106 | the loop's set of ids is the specified one |
| MitreMapper.FirstMitre | CYBER-AEGIS_ver1.1/src/threat_intel/mitre_mapper.py:113-116 | the search fails exactly when a reference that is not a dictionary is reached before a `mitre-attack` one |
| MitreMapper.FirstMitreIsFirst | CYBER-AEGIS_ver1.1/src/threat_intel/mitre_mapper.py:112-116 | with no `mitre-attack` reference the id is `N/A`; otherwise it is the external id of the first one |
| MitreMapper.ExternalId | CYBER-AEGIS_ver1.1/src/threat_intel/mitre_mapper.py:112-113 | a technique without `external_references` has the id `N/A` |
| MitreMapper.FindExternalId | CYBER-AEGIS_ver1.1/src/threat_intel/mitre_mapper.py:112-116 | the loop's external id is the specified one |
| MitreMapper.ActorTechniques | CYBER-AEGIS_ver1.1/src/threat_intel/mitre_mapper.py:108-122 | it fails exactly when a known technique's external id fails; each entry is a known technique with its external id and name, and every known used id has an entry |
| MitreMapper.CollectTechniques | CYBER-AEGIS_ver1.1/src/threat_intel/mitre_mapper.py:108-122 | the loop's technique list is the specified one |
| MitreMapper.TitleFrom | CYBER-AEGIS_ver1.1/src/threat_intel/mitre_mapper.py:131 | a letter after a cased character is lowered and any other is raised, position by position |
| MitreMapper.Title | CYBER-AEGIS_ver1.1/src/threat_intel/mitre_mapper.py:131 | `str.title()`: a letter after a cased character is lowered and any other is raised, the length kept |
| MitreMapper.DashToSpace | CYBER-AEGIS_ver1.1/src/threat_intel/mitre_mapper.py:131 | every dash becomes a space and nothing else changes |
| MitreMapper.CaseOfCase | CYBER-AEGIS_ver1.1/src/threat_intel/mitre_mapper.py:131 | lowering and raising keep whether a character is cased, and each is idempotent and absorbs the other |
| MitreMapper.TitleIgnoresCase | CYBER-AEGIS_ver1.1/src/threat_intel/mitre_mapper.py:59 | titling a lowercased name gives the same as titling the name |
| MitreMapper.TitleIdempotent | CYBER-AEGIS_ver1.1/src/threat_intel/mitre_mapper.py:131 | titling twice is titling once |
| MitreMapper.AddPhases | CYBER-AEGIS_ver1.1/src/threat_intel/mitre_mapper.py:129-134 | filing fails exactly when some phase fails; every tactic in the result was there before or comes from a `mitre-attack` phase |
| MitreMapper.PhaseFiled | CYBER-AEGIS_ver1.1/src/threat_intel/mitre_mapper.py:129-134 | every `mitre-attack` phase files the technique under its tactic |
| MitreMapper.AddPhaseStep | CYBER-AEGIS_ver1.1/src/threat_intel/mitre_mapper.py:130-134 | one phase appends the technique's label to tactic `t`'s list exactly when it is a `mitre-attack` phase of tactic `t`, and creates the list on its first item |
| MitreMapper.AddPhasesAt | CYBER-AEGIS_ver1.1/src/threat_intel/mitre_mapper.py:129-134 | over all of a technique's phases, tactic `t`'s list gains exactly one label per `mitre-attack` phase of tactic `t`, in phase order |
| MitreMapper.TacticsFromMitrePhases | CYBER-AEGIS_ver1.1/src/threat_intel/mitre_mapper.py:125-134 | every tactic in the map comes from a `mitre-attack` phase of one of the actor's techniques |
| MitreMapper.TacticList | CYBER-AEGIS_ver1.1/src/threat_intel/mitre_mapper.py:125-134 | over the whole tactic map: tactic `t` is a key exactly when some technique has a `mitre-attack` phase of tactic `t`, and its list holds each such technique's label once per such phase, in technique order and nothing else |
| MitreMapper.FilePhases | CYBER-AEGIS_ver1.1/src/threat_intel/mitre_mapper.py:129-134 | the loop's filing is the specified one |
| MitreMapper.BuildTacticMap | CYBER-AEGIS_ver1.1/src/threat_intel/mitre_mapper.py:125-134 | the loop's tactic map is the specified one |
| MitreMapper.TacticMapErr | CYBER-AEGIS_ver1.1/src/threat_intel/mitre_mapper.py:125-134 | a failure while filing an earlier technique makes the whole map fail |
| MitreMapper.ActorEntry | CYBER-AEGIS_ver1.1/src/threat_intel/mitre_mapper.py:96-136 | an actor gets an entry exactly when it resolves and uses at least one known technique, and the entry is the tactic map of those techniques |
| MitreMapper.MappingErr | CYBER-AEGIS_ver1.1/src/threat_intel/mitre_mapper.py:79-136 | the mapping fails exactly when some actor's entry fails |
| MitreMapper.MappingKeys | CYBER-AEGIS_ver1.1/src/threat_intel/mitre_mapper.py:79-136 | an actor has an entry in the mapping exactly when it is listed and its entry is not empty |
| MitreMapper.MappingValue | CYBER-AEGIS_ver1.1/src/threat_intel/mitre_mapper.py:79-136 | the value an actor has in the mapping is its own entry, even when the actor is listed twice |
| MitreMapper.ActorListedIff | CYBER-AEGIS_ver1.1/src/threat_intel/mitre_mapper.py:124-136 | a listed actor is in the mapping exactly when it resolves and uses at least one known technique |
| MitreMapper.MapActors | CYBER-AEGIS_ver1.1/src/threat_intel/mitre_mapper.py:63-68 | no data gives the error message; otherwise the result is the "nothing found" message or a non-empty mapping |
| MitreMapper.MapActorsToTechniques | CYBER-AEGIS_ver1.1/src/threat_intel/mitre_mapper.py:63-138 | the loop's result is the specified one |
| MitreMapper.ActorTactics | CYBER-AEGIS_ver1.1/src/threat_intel/mitre_mapper.py:63-138 | in a non-empty result, every actor's entry holds, under each tactic, exactly the labels of its techniques that have a `mitre-attack` phase of that tactic, once per phase, in technique order; a tactic with no such phase is not a key |
| MitreMapper.ActorMapping | CYBER-AEGIS_ver1.1/src/threat_intel/mitre_mapper.py:79-136 | the loop's entry for one actor is the specified one |
| MitreMapper.NothingListed | CYBER-AEGIS_ver1.1/src/threat_intel/mitre_mapper.py:138 | with no actor in the mapping the result is the "nothing found" message |

## Left out

- Python `eval` accepts all of Python: the evaluator here covers `results['name']` subscripts, calls to `any`/`all` on list displays, `and`/`or`/`not`, parentheses and `True`/`False`/`None`. A bare name is an evaluation failure even where Python would find it truthy (`any`, `results`, a builtin), and so is every other construct; a failure counts as False.
- The `re` modifier's pattern search is a parameter: Python's regex engine is not modelled.
- YAML, JSON and XML parsing are not modelled: the parsers' outputs are structured values, and decoding is a parameter.
- The read offset counts characters, not the bytes that `f.tell()` reports.
- File I/O, `time.sleep`, the debug log files and printing are not modelled.
- The `SigmaMatch` id and timestamp are not modelled: the database assigns them.
- XML text is not parsed: a rendered record is either malformed or an ElementTree element, and `int()` accepts the optionally signed decimal digits after whitespace is stripped (Python's underscores and Unicode digits are not modelled).
- The collector's `time.sleep(5)`, the thread that calls `stop` while `start` runs, the `os.makedirs` of the log directory and its printing are not modelled; `Start` polls once per given Event Log snapshot, and `running` is only cleared by `Stop` between calls.
- The sink file's text-mode newline translation and its UTF-8 encoding are not modelled: the sink holds the lines as written, `\r\n` included.
- EventLogCollector.Collector.constructor: requires a valid allow-list setting; with a malformed one `__init__` raises and no collector exists.
- An exception other than `win32evtlog.error` raised by `start`'s watermark loop ends `start`; the model returns `raised` and leaves the polling loop out.
- SigmaRegex.WordKeyMatch: the `\w` class, and so `\b`, is ASCII-only (letters, digits, underscore), while Python's `re` on `str` also counts Unicode letters and digits; around a non-ASCII letter the model sees a boundary where Python sees none.
- Community.Analyze: word characters and `lower()` are ASCII-only here, so a keyword next to a non-ASCII letter counts a hit in the model but not in Python (`rat` in `ratツール`), and a non-ASCII capital is not lowered.
- Community.Analyze: a message whose `message_text` is present but `None` or not a string makes `.lower()` raise in the source; `Option<string>` models only a missing key, which reads as `''`.
- Community.Analyze: the float expression `(total_score / len(messages)) * 20` is modelled as the exact quotient `total * 20 / len` truncated; where the float rounds just below an integer, `int()` in the source gives one less.
- Community.Analyze: the hit list is `list(set(...))`, whose order Python leaves unspecified; the model returns the set of labels.
- SigmaSelection.MatchKvMeaning: `str.lower()` is ASCII-only, so `évian` and `ÉVIAN` do not match in the model though they do in Python. Whitespace (for `strip`, `split` and `\s`) is Python's full `str.isspace` set.
- SigmaSelection.MatchKvMeaning: `str()` of a list or dict value uses the model's `Repr`, which always quotes strings with `'` and never escapes, while Python picks `"` for a string holding `'` and escapes backslashes and control characters; `contains`, `startswith` and `endswith` on such values can then differ.
- SigmaSelection.MatchKvMeaning: `Value` has no floats or dates (YAML timestamps), and dictionary keys are strings only.
- SigmaCondition.EvaluateCondition: selection names are rewritten only where they stand between ASCII word boundaries, so a selection named `選択` is not rewritten and the condition is False.
- SigmaCondition.EvaluateCondition: the tokenizer treats any line break as a failure, so a condition with a trailing newline (`selection\n` from a YAML block scalar) or a line break inside parentheses or brackets (`(sel1 or\n sel2)`) is False here though Python evaluates it.
- SigmaCondition.EvaluateCondition: the `re.sub` replacement `results['<name>']` is inserted literally, and a backslash inside a string literal is a tokenizer failure, so a selection named `sel\-x` gives False here though Python evaluates it; Python would also expand group references such as `\1` in the replacement.
- NtPath.JoinRelative: UNC prefixes (`\\server\share`) are not modelled; a drive is a letter and a colon. The same holds for NtPath.JoinAbsolute and NtPath.NormPathBackslashes.
- ThreatScoring.FileScore: a `path` present but `None` makes `.lower()` raise in the source, and so does a `name` or `destination` that is `None` in ThreatScoring.NetworkScore; `Option<string>` models only a missing key. `lower()` is ASCII-only.
- The Spamhaus and CISA KEV fetches (cache validity, the network, the cache write and the stale-cache fallback) are not modelled; `_parse_feed` receives the text and the check receives the loaded catalog.
- Spamhaus.ParseFeed: a threat entity's only varying field is its `id`; the other six fields are constant members of the datatype.
- RealDefense.LoadBlocklist: the file is its text as Python's text mode reads it, with every `\r\n` and lone `\r` already turned into `\n`; the encoding and the `\r\n` that Windows text mode writes for each `\n` are not modelled.
- `RealDefense.quarantine_file` (a `shutil.move`) and the `os.makedirs` of the quarantine directory are file-system operations and are not modelled.
- CisaKev.CheckProduct: `lower()` is ASCII-only, so a non-ASCII capital such as `É` is not lowered; `split()` uses Python's full whitespace set.
- Nicter.TopAttackTrends: counts are integers, booleans or strings; a float count, or a list of counts that Python could still compare (lists, tuples), is modelled as a failed sort.
- The NICTER cache loading (`_load_nicter_data`) and the CISA KEV loading (`_load_kev_data`) are file reads and are not modelled; the loaded lists are parameters.
- The settings parser's `DEFAULT` section, interpolation, the file format and `get_boolean` are not modelled; option names are lowercased ASCII.
- The `ScanWorker` and `MonitorThread` loops, the YARA scanner and the `watchdog` observer are threads and are not modelled; only the handler's decision and its queue are, with the scan worker present or `None`.
- FileMonitor.Handler.ProcessEvent: `lower()` is ASCII-only, so a path holding the full-width `Ｄｏｃｓ` is not excluded by the exclusion `ｄｏｃｓ` here, though Python lowers it and excludes it. The same holds for Queued, OnCreated, OnModified and OnMoved.
- PdfGenerator.StyleOf: the style is chosen by a substring test on the `/`-joined tag path, as in the source, so a tag whose name contains `h2` (none in HTML) would also select the heading style.
- The reportlab styles, fonts, `Paragraph` markup and `generate_pdf_from_html` (a file dialog and the PDF build) are not modelled.
- The security rules of the simulation arena that block or alert with probability `confidence` (`random.random()`), and the block branch of `execute_t1105_ingress_tool_transfer`, are left out: the model is the arena without a security profile, where no rule ever fires. The alert rules only add log lines, and the process table and the file system do not depend on them.
- Log timestamps in the simulation arena, `installed_software`, `get_current_state_for_ai` and `get_all_logs` (read-only views) are not modelled.
- SigmaFlatten.Flatten: `lower()` is ASCII-only, so only A-Z are folded in the event keys; `FlattenGet` and `FlattenFlat` inherit this. Python lowers the event key `Ñame` to `ñame`, so a rule field `ñame` finds it, and the keys `Ñame` and `ñame` collide into one; here `Ñame` is kept, the field is not found, and the two keys stay apart.
- SimulationArena.Arena.ExecuteRedTeamTactic: for parameters that are truthy but not a dictionary (a list or a text holding `command_to_execute`), the contract states only that nothing but the log changes, not whether the call raises.
- The arena's file system is a map, so the insertion order of a Python dict (visible only when it is listed) is not modelled.
- The database's SQL, connections, locking and every query-only accessor are not modelled; a leak table is a map from id to row, and the community scores are the rows of one query.
- DbManager.Batch: timestamps are seconds and time zones are ignored; the `status` column is text, so a NULL status is modelled as one other than `FAILED`, which is how Python compares it.
- DbManager.Report: `json.loads` is a parameter, while the `json.loads('[]')` of an empty `matches` column is the empty list.
- MitreMapper: `extract_threat_actors` (a `\b` regular expression search over `json.dumps` of the results) is not modelled.
- MitreMapper.NamesOf: an object that is not a dictionary, or aliases, references or kill-chain phases given as a string or a dictionary (which Python would iterate), are modelled as a failure; an unhashable id is not modelled.
- MitreMapper.ExtractKnownThreatNames: the contract states the names as a collection without repeats and not their order, because the order of `list(set(...))` is unspecified in Python. `KnownNames` itself keeps repeats.
- MitreMapper.UsedIds: `used_technique_ids` is a Python `set`, whose iteration order is unspecified; the model visits the ids in order of first occurrence among the relationships. `ActorTechniques` follows that order, and so the order of labels inside each tactic list (`TacticList`, `ActorTactics`) is this chosen order, not one Python guarantees. Each id is visited once in either order, so the order affects only where a label sits in a list.
- MitreMapper.Title: `str.title()` and `lower()` are ASCII-only. The same `Lower` folds threat names and aliases in `LowerItems`, `NamesOf` and `ByName`, and the actor keys in `MapActors`: an actor `Ñame` does not resolve to an intrusion set named `ñame`, though Python lowers both to `ñame`.
- The loading of the ATT&CK data through the collector (`_load_attack_data`) is not modelled; the model receives the bundle's `objects`.
