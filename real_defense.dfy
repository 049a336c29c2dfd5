/** The local IP blocklist of the defence matrix: a set of blocked addresses,
    mirrored line by line in an append-only text file. */
module RealDefense {
  import opened Common

  /** The addresses a blocklist text names: its stripped, non-empty lines. */
  function Listed(lines: seq<string>): (r: set<string>)
    ensures forall ip :: ip in r ==> ip != []
  {
    set l | l in lines && Strip(l) != [] :: Strip(l)
  }

  /** `_load_blocklist`: a missing file gives the empty set. The text is the
      file as text mode reads it, so its lines end at `\n`. */
  function LoadBlocklist(file: Option<string>): (r: set<string>)
    ensures file == None ==> r == {}
    ensures forall ip :: ip in r ==> ip != []
  {
    if file == None then {} else Listed(LinesKeepEnds(file.value))
  }

  /** The text of the file, empty while it does not exist. */
  function Text(file: Option<string>): string {
    if file == None then "" else file.value
  }

  /** Every line of the file is ended by its newline. */
  predicate Terminated(file: Option<string>) {
    var t := Text(file);
    t == [] || t[|t| - 1] == '\n'
  }

  /** An address as it is written back: no newline, nothing to strip. */
  predicate CleanIp(ip: string) {
    NoSpaceAtEnds(ip) && '\n' !in ip
  }

  lemma ListedAppend(a: seq<string>, b: seq<string>)
    ensures Listed(a + b) == Listed(a) + Listed(b)
  {
  }

  lemma StripLine(ip: string)
    requires CleanIp(ip)
    ensures Strip(ip + "\n") == ip
  {
    var s := ip + "\n";
    assert s[0] == ip[0];
    assert LStrip(s) == s;
    var r := RStrip(s);
    assert s[|ip| - 1] == ip[|ip| - 1];
    assert |r| >= |ip|;
    assert |r| != |s|;
    assert r == s[..|ip|] == ip;
  }

  lemma ListedOne(l: string)
    requires Strip(l) != []
    ensures Listed([l]) == {Strip(l)}
  {
  }

  /** The lines of a terminated text after one more line. */
  lemma LinesAfterAppend(t: string, ip: string)
    requires t == [] || t[|t| - 1] == '\n'
    requires CleanIp(ip)
    ensures LinesKeepEnds(t + ip + "\n") == LinesKeepEnds(t) + [ip + "\n"]
  {
    hide Strip, LStrip, RStrip, LinesKeepEnds, LineEnd;
    LinesAppend(t, ip + "\n");
    LinesOfLine(ip);
    assert t + ip + "\n" == t + (ip + "\n");
  }

  /** Reloading a terminated file after one more line names one more address. */
  lemma ReloadAfterAppend(file: Option<string>, ip: string)
    requires Terminated(file) && CleanIp(ip)
    ensures LoadBlocklist(Some(Text(file) + ip + "\n")) == LoadBlocklist(file) + {ip}
  {
    hide Strip, LStrip, RStrip, LinesKeepEnds, LineEnd;
    var t := Text(file);
    var line := ip + "\n";
    LinesAfterAppend(t, ip);
    StripLine(ip);
    ListedOne(line);
    var before := LinesKeepEnds(t);
    ListedAppend(before, [line]);
    if file == None {
      LinesEmpty();
      assert Listed(before) == {};
    }
    hide Listed;
    assert LoadBlocklist(Some(t + ip + "\n")) == Listed(before + [line]);
    assert LoadBlocklist(file) == Listed(before);
  }

  class Defense {
    /** `blocked_ips` */
    var blocked: set<string>
    /** The blocklist file's text as text mode reads it (line endings turned
        into `\n`), `None` while the file does not exist. */
    var file: Option<string>

    /** The set is what the file names. */
    ghost predicate Synced()
      reads this
    {
      blocked == LoadBlocklist(file)
    }

    /** Loads the set from the file as it stands. */
    constructor(file: Option<string>)
      ensures this.file == file && blocked == LoadBlocklist(file)
      ensures Synced()
    {
      this.file := file;
      blocked := LoadBlocklist(file);
    }

    /** `is_blocked` */
    predicate IsBlocked(ip: string)
      reads this
    {
      ip in blocked
    }

    /** `add_to_blocklist`: a new address joins the set and one line `ip\n` is
        appended to the file; a known one changes nothing. A clean address keeps
        the file and the set in step. */
    method AddToBlocklist(ip: string) returns (added: bool)
      modifies this
      ensures added <==> ip !in old(blocked)
      ensures blocked == old(blocked) + {ip}
      ensures added ==> file == Some(Text(old(file)) + ip + "\n")
      ensures !added ==> file == old(file)
      ensures IsBlocked(ip)
      ensures forall other :: other != ip ==> (IsBlocked(other) <==> other in old(blocked))
      ensures old(Synced()) && Terminated(old(file)) && CleanIp(ip) ==> Synced() && Terminated(file)
    {
      if ip !in blocked {
        if Terminated(file) && CleanIp(ip) {
          ReloadAfterAppend(file, ip);
        }
        blocked := blocked + {ip};
        file := Some(Text(file) + ip + "\n");
        return true;
      }
      return false;
    }
  }
}
