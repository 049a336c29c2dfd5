/** The settings file: sections of options holding text, comma-separated lists
    read and extended without duplicates, and the STIX/TAXII settings block. */
module ConfigManager {
  import opened Common
  import opened Values

  /** Section name to option name to text. Option names are stored lowercased,
      as the settings parser does; section names are kept as written. */
  type Sections = map<string, map<string, string>>

  /** The settings written when no settings file exists yet. */
  function Defaults(): Sections {
    map[
      "AI" := map["model" := "gemma:2b"],
      "DATABASE" := map["path" := "aegis.db"],
      "FileMonitorExclusions" := map[
        "directories" := "/AppData/, /Windows/, /Program Files/, /Program Files (x86)/",
        "extensions" := ".log, .tmp, .cache, .json",
        "processes" := "svchost.exe, msedge.exe, Discord.exe"],
      "Automation" := map["auto_defense_enabled" := "false"]]
  }

  /** The options of a section, none when it is absent. */
  function SectionOf(s: Sections, section: string): map<string, string> {
    if section in s then s[section] else map[]
  }

  /** `get(section, option)` without a fallback: absent section or option give `None`. */
  function Lookup(s: Sections, section: string, option: string): (r: Option<string>)
    ensures r.Some? <==> section in s && Lower(option) in s[section]
  {
    var key := Lower(option);
    if section in s && key in s[section] then Some(s[section][key]) else None
  }

  function OrEmpty(v: Option<string>): string {
    if v == None then "" else v.value
  }

  // ---------------------------------------------------------------------------
  // Comma-separated lists

  /** An item a list can hold: non-empty, no blank at either end, no comma. */
  predicate CleanItem(x: string) {
    NoSpaceAtEnds(x) && ',' !in x
  }

  lemma StripKeepsOut(s: string, c: char)
    requires c !in s
    ensures c !in Strip(s)
  {
    var r := Strip(s);
    var i :| OccursAt(s, r, i);
    forall j | 0 <= j < |r|
      ensures r[j] != c
    {
      assert r[j] == s[i + j];
    }
  }

  /** The stripped, non-empty pieces, in order. */
  function Kept(parts: seq<string>): (r: seq<string>)
    ensures |r| <= |parts|
  {
    if parts == [] then []
    else
      var t := Strip(parts[0]);
      (if t != [] then [t] else []) + Kept(parts[1..])
  }

  /** Pieces without a comma leave only clean items. */
  lemma {:induction false} KeptItemsClean(parts: seq<string>)
    requires forall k :: 0 <= k < |parts| ==> ',' !in parts[k]
    ensures forall k :: 0 <= k < |Kept(parts)| ==> CleanItem(Kept(parts)[k])
  {
    if parts != [] {
      KeptItemsClean(parts[1..]);
      StripKeepsOut(parts[0], ',');
      var t := Strip(parts[0]);
      hide Strip;
      assert Kept(parts) == (if t != [] then [t] else []) + Kept(parts[1..]);
    }
  }

  /** `[item.strip() for item in value.split(',') if item.strip()]` */
  function Items(value: string): (r: seq<string>)
    ensures forall k :: 0 <= k < |r| ==> CleanItem(r[k])
  {
    KeptItemsClean(Split(value, ','));
    Kept(Split(value, ','))
  }

  lemma {:induction false} KeptClean(xs: seq<string>)
    requires forall k :: 0 <= k < |xs| ==> CleanItem(xs[k])
    ensures Kept(xs) == xs
  {
    if xs != [] {
      StripOfTrimmed(xs[0]);
      KeptClean(xs[1..]);
    }
  }

  /** Reading back a stored list of clean items gives the same list. */
  lemma ItemsJoin(xs: seq<string>)
    requires forall k :: 0 <= k < |xs| ==> CleanItem(xs[k])
    ensures Items(Join(",", xs)) == xs
  {
    if xs == [] {
      assert Split("", ',') == [""];
      assert Strip("") == [];
    } else {
      assert "," == [','];
      JoinSplit(xs, ',');
      KeptClean(xs);
    }
  }

  /** A clean value is read back as a list of one. */
  lemma ItemsSingle(v: string)
    ensures CleanItem(v) ==> Items(v) == [v]
  {
    if CleanItem(v) {
      ItemsJoin([v]);
    }
  }

  /** The list after appending, in order, each value not already present; a
      value appended earlier in the same call counts as present. */
  function Merge(base: seq<string>, vals: seq<string>): (r: seq<string>)
    decreases |vals|
  {
    if vals == [] then base
    else
      var m := Merge(base, vals[..|vals| - 1]);
      if vals[|vals| - 1] in m then m else m + [vals[|vals| - 1]]
  }

  /** The old list is kept as a prefix; the list holds exactly the old items and
      the new values; no duplicate is introduced. */
  lemma {:induction false} MergeProps(base: seq<string>, vals: seq<string>)
    ensures |base| <= |Merge(base, vals)| && Merge(base, vals)[..|base|] == base
    ensures forall x :: x in Merge(base, vals) <==> x in base || x in vals
    ensures NoDup(base) ==> NoDup(Merge(base, vals))
    decreases |vals|
  {
    if vals != [] {
      var init := vals[..|vals| - 1];
      MergeProps(base, init);
      var m := Merge(base, init);
      var v := vals[|vals| - 1];
      assert vals == init + [v];
      if v !in m {
        assert (m + [v])[..|base|] == m[..|base|];
      }
    }
  }

  /** The list changes exactly when some value is new. */
  lemma {:induction false} MergeUnchanged(base: seq<string>, vals: seq<string>)
    ensures (Merge(base, vals) == base) <==> (forall k :: 0 <= k < |vals| ==> vals[k] in base)
    decreases |vals|
  {
    MergeProps(base, vals);
    if vals != [] {
      var init := vals[..|vals| - 1];
      MergeUnchanged(base, init);
      MergeProps(base, init);
      var m := Merge(base, init);
      var v := vals[|vals| - 1];
      if m == base {
        assert forall k :: 0 <= k < |init| ==> init[k] == vals[k];
      } else {
        assert |Merge(base, vals)| >= |m| > |base|;
        assert exists k :: 0 <= k < |init| && init[k] !in base;
        var k :| 0 <= k < |init| && init[k] !in base;
        assert vals[k] == init[k];
      }
    }
  }

  /** The loop of `add_to_list`: each value not yet in the list is appended,
      and `updated` records whether any was. */
  method AppendNew(base: seq<string>, texts: seq<string>) returns (current: seq<string>, updated: bool)
    ensures current == Merge(base, texts)
    ensures updated <==> current != base
  {
    current := base;
    updated := false;
    var i := 0;
    while i < |texts|
      invariant 0 <= i <= |texts|
      invariant current == Merge(base, texts[..i])
      invariant updated <==> current != base
    {
      assert texts[..i + 1][..i] == texts[..i];
      MergeProps(base, texts[..i]);
      if texts[i] !in current {
        current := current + [texts[i]];
        updated := true;
      }
      i := i + 1;
    }
    assert texts[..i] == texts;
  }

  /** How `set` stores a value: booleans as `true` / `false`, text as it is. */
  function Stored(v: Value): (r: string)
    requires v.Str? || v.Bool?
    ensures v.Bool? ==> (r == "true" <==> v.b)
  {
    match v
    case Bool(b) => if b then "true" else "false"
    case Str(s) => s
  }

  /** The values `add_to_list` was given: a list, or one value as a list of one. */
  function Wrap(v: Value): (r: seq<Value>)
    ensures !v.List? ==> r == [v]
  {
    if v.List? then v.items else [v]
  }

  function Texts(vals: seq<Value>): (r: seq<string>)
    requires forall k :: 0 <= k < |vals| ==> vals[k].Str?
    ensures |r| == |vals| && forall k :: 0 <= k < |r| ==> r[k] == vals[k].s
  {
    if vals == [] then [] else [vals[0].s] + Texts(vals[1..])
  }

  // ---------------------------------------------------------------------------
  // STIX/TAXII settings

  /** `getint` with a fallback: an absent option gives the fallback, text that
      is not an integer raises. */
  function IntOption(s: Sections, section: string, option: string, fallback: int): (r: Result<int>)
    ensures Lookup(s, section, option) == None ==> r == Ok(fallback)
    ensures Lookup(s, section, option).Some? ==>
      (r.Ok? <==> ParseInt(Lookup(s, section, option).value).Some?)
      && (r.Ok? ==> Some(r.value) == ParseInt(Lookup(s, section, option).value))
  {
    match Lookup(s, section, option)
    case None => Ok(fallback)
    case Some(t) => if ParseInt(t).Some? then Ok(ParseInt(t).value) else Err
  }

  datatype Stix =
    | NoSection
    | Stix(servers: seq<string>, collectionId: Option<string>, timeout: int, retries: int,
           retryDelay: int, proxyHttp: Option<string>, proxyHttps: Option<string>)

  /** `get_stix_taxii_settings`: nothing without its section; otherwise the server
      list, the optional ids and proxies, and the three counts with their
      defaults 10, 3 and 5. */
  function StixSettings(s: Sections): (r: Result<Stix>)
    ensures "STIX_TAXII" !in s ==> r == Ok(NoSection)
    ensures r.Ok? && r.value.Stix? ==>
      r.value.servers == Items(OrEmpty(Lookup(s, "STIX_TAXII", "servers")))
      && r.value.collectionId == Lookup(s, "STIX_TAXII", "collection_id")
      && (Lookup(s, "STIX_TAXII", "timeout") == None ==> r.value.timeout == 10)
      && (Lookup(s, "STIX_TAXII", "retries") == None ==> r.value.retries == 3)
      && (Lookup(s, "STIX_TAXII", "retry_delay") == None ==> r.value.retryDelay == 5)
      && Ok(r.value.timeout) == IntOption(s, "STIX_TAXII", "timeout", 10)
      && Ok(r.value.retries) == IntOption(s, "STIX_TAXII", "retries", 3)
      && Ok(r.value.retryDelay) == IntOption(s, "STIX_TAXII", "retry_delay", 5)
      && r.value.proxyHttp == Lookup(s, "STIX_TAXII", "proxy_http")
      && r.value.proxyHttps == Lookup(s, "STIX_TAXII", "proxy_https")
    ensures "STIX_TAXII" in s ==> r.Ok? ==> r.value.Stix?
    ensures "STIX_TAXII" in s ==> (r.Err? <==>
      IntOption(s, "STIX_TAXII", "timeout", 10).Err?
      || IntOption(s, "STIX_TAXII", "retries", 3).Err?
      || IntOption(s, "STIX_TAXII", "retry_delay", 5).Err?)
  {
    var sec := "STIX_TAXII";
    if sec !in s then Ok(NoSection)
    else
      var timeout := IntOption(s, sec, "timeout", 10);
      var retries := IntOption(s, sec, "retries", 3);
      var delay := IntOption(s, sec, "retry_delay", 5);
      if timeout.Err? || retries.Err? || delay.Err? then Err
      else Ok(Stix(Items(OrEmpty(Lookup(s, sec, "servers"))), Lookup(s, sec, "collection_id"),
        timeout.value, retries.value, delay.value,
        Lookup(s, sec, "proxy_http"), Lookup(s, sec, "proxy_https")))
  }

  // ---------------------------------------------------------------------------
  // The settings object

  class Config {
    /** The settings held in memory. */
    var sections: Sections
    /** The settings file as last written. */
    var file: Sections

    /** Reads the settings file, writing the defaults first when there is none. */
    constructor(existing: Option<Sections>)
      ensures file == (if existing == None then Defaults() else existing.value)
      ensures sections == file
    {
      file := if existing == None then Defaults() else existing.value;
      sections := file;
    }

    /** `get(section, option, fallback='')` */
    function Get(section: string, option: string): string
      reads this
    {
      OrEmpty(Lookup(sections, section, option))
    }

    /** `get_list` */
    function GetList(section: string, option: string): (r: seq<string>)
      reads this
      ensures forall k :: 0 <= k < |r| ==> CleanItem(r[k])
      ensures CleanItem(Get(section, option)) ==>
        r == [Get(section, option)]
    {
      var v := Get(section, option);
      ItemsSingle(v);
      Items(v)
    }

    /** `set`: a missing section is created first; a value that is neither text
        nor a boolean is refused after that. */
    method Set(section: string, option: string, value: Value) returns (ok: bool)
      modifies this
      ensures ok <==> value.Str? || value.Bool?
      ensures file == old(file)
      ensures !ok ==> sections == old(sections)[section := SectionOf(old(sections), section)]
      ensures ok ==> (sections ==
        old(sections)[section := SectionOf(old(sections), section)[Lower(option) := Stored(value)]])
      ensures ok ==> Lookup(sections, section, option) == Some(Stored(value))
      ensures forall s, o :: s != section || Lower(o) != Lower(option) ==>
        Lookup(sections, s, o) == Lookup(old(sections), s, o)
    {
      if section !in sections {
        sections := sections[section := map[]];
      }
      if value.Str? || value.Bool? {
        sections := sections[section := sections[section][Lower(option) := Stored(value)]];
        ok := true;
      } else {
        ok := false;
      }
    }

    /** `save` */
    method Save()
      modifies this
      ensures file == sections && sections == old(sections)
    {
      file := sections;
    }

    /** `add_to_list`: each new value not yet in the list is appended; only when
        something was appended is the joined list stored and the file written.
        A value that is not text cannot be joined, and the call fails before
        anything is stored. */
    method AddToList(section: string, option: string, newValues: Value) returns (r: Result<bool>)
      modifies this
      ensures r.Err? <==> exists k :: 0 <= k < |Wrap(newValues)| && !Wrap(newValues)[k].Str?
      ensures r.Err? || r == Ok(false) ==> sections == old(sections) && file == old(file)
      ensures r.Ok? ==> var merged := Merge(old(GetList(section, option)), Texts(Wrap(newValues)));
        (r.value <==> merged != old(GetList(section, option)))
        && (r.value ==> (sections == old(sections)[section :=
              SectionOf(old(sections), section)[Lower(option) := Join(",", merged)]]
            && file == sections))
    {
      hide Lower, Items, Kept, Strip, Split, Join, Merge;
      var vals := Wrap(newValues);
      if exists k :: 0 <= k < |vals| && !vals[k].Str? {
        return Err;
      }
      var current, updated := AppendNew(GetList(section, option), Texts(vals));
      if updated {
        var stored := Set(section, option, Str(Join(",", current)));
        Save();
      }
      return Ok(updated);
    }

    /** `get_stix_taxii_settings` */
    function StixTaxii(): Result<Stix>
      reads this
    {
      StixSettings(sections)
    }
  }

  /** What `add_to_list` stores reads back, through `get_list`, as the merged
      list whenever every new value is a clean item. */
  lemma AddedListReadsBack(base: seq<string>, vals: seq<string>)
    requires forall k :: 0 <= k < |base| ==> CleanItem(base[k])
    requires forall k :: 0 <= k < |vals| ==> CleanItem(vals[k])
    ensures Items(Join(",", Merge(base, vals))) == Merge(base, vals)
  {
    MergeProps(base, vals);
    var m := Merge(base, vals);
    forall k | 0 <= k < |m|
      ensures CleanItem(m[k])
    {
      assert m[k] in base || m[k] in vals;
    }
    ItemsJoin(m);
  }
}
