/** The MITRE ATT&CK mapper: the known threat names are read from the STIX
    bundle's intrusion sets and malware, and each detected actor is resolved to
    its STIX object and, through its `uses` relationships, to the attack
    patterns it uses, grouped by tactic. A STIX object is a dictionary; what it
    holds is a loaded value. `Err` stands for an exception escaping the call. */
module MitreMapper {
  import opened Common
  import opened Values

  type Object = seq<Entry>

  /** `obj.get(k)` */
  function Field(obj: Object, k: string): Value {
    match Get(obj, k)
    case None => Null
    case Some(v) => v
  }

  /** `[a.lower() for a in items]`: every item must be a string. */
  function LowerItems(items: seq<Value>): (r: Result<seq<string>>)
    ensures r.Ok? <==> forall i :: 0 <= i < |items| ==> items[i].Str?
    ensures r.Ok? ==> |r.value| == |items| && forall i :: 0 <= i < |items| ==> r.value[i] == Lower(items[i].s)
  {
    if items == [] then Ok([])
    else
      var init, last := items[..|items| - 1], items[|items| - 1];
      assert forall i :: 0 <= i < |init| ==> init[i] == items[i];
      match LowerItems(init)
      case Err => Err
      case Ok(xs) => if last.Str? then Ok(xs + [Lower(last.s)]) else Err
  }

  /** The lowercased aliases of an object, none when it has no `aliases`. */
  function Aliases(obj: Object): (r: Result<seq<string>>)
    ensures Get(obj, "aliases").None? ==> r == Ok([])
    ensures Get(obj, "aliases").Some? ==>
      (r.Ok? <==> Get(obj, "aliases").value.List? && LowerItems(Get(obj, "aliases").value.items).Ok?)
  {
    match Get(obj, "aliases")
    case None => Ok([])
    case Some(v) => if v.List? then LowerItems(v.items) else Err
  }

  // ---------------------------------------------------------------------------
  // Known threat names

  predicate IsThreat(obj: Object) {
    Field(obj, "type") == Str("intrusion-set") || Field(obj, "type") == Str("malware")
  }

  /** The names one object contributes: the lowercased `name` and aliases of an
      intrusion set or malware, nothing for any other object. */
  function NamesOf(obj: Object): (r: Result<seq<string>>)
    ensures !IsThreat(obj) ==> r == Ok([])
    ensures IsThreat(obj) ==>
      (r.Ok? <==> (Get(obj, "name").None? || Get(obj, "name").value.Str?) && Aliases(obj).Ok?)
  {
    if !IsThreat(obj) then Ok([])
    else
      var name := match Get(obj, "name")
        case None => Ok([])
        case Some(v) => if v.Str? then Ok([Lower(v.s)]) else Err;
      var aliases := Aliases(obj);
      if name.Err? || aliases.Err? then Err else Ok(name.value + aliases.value)
  }

  /** A threat object contributes its lowercased name and its aliases. */
  lemma NamesOfMembers(obj: Object, x: string)
    requires IsThreat(obj) && NamesOf(obj).Ok?
    ensures x in NamesOf(obj).value <==>
      (Get(obj, "name").Some? && x == Lower(Get(obj, "name").value.s)) || x in Aliases(obj).value
  {
  }

  /** The known threat names of a bundle, object by object, repeats kept. */
  function KnownNames(objects: seq<Object>): (r: Result<seq<string>>)
    ensures objects == [] ==> r == Ok([])
  {
    if objects == [] then Ok([])
    else
      match KnownNames(objects[..|objects| - 1])
      case Err => Err
      case Ok(s) =>
        match NamesOf(objects[|objects| - 1])
        case Err => Err
        case Ok(ns) => Ok(s + ns)
  }

  /** Collecting the names fails exactly when some object's names are malformed. */
  lemma {:induction false} KnownNamesErr(objects: seq<Object>)
    ensures KnownNames(objects).Err? <==> exists k :: 0 <= k < |objects| && NamesOf(objects[k]).Err?
    decreases |objects|
  {
    hide NamesOf, Aliases, Get, Lower, IsThreat, Field, LowerItems;
    if objects != [] {
      var init := objects[..|objects| - 1];
      KnownNamesErr(init);
      assert forall k :: 0 <= k < |init| ==> init[k] == objects[k];
      if exists k :: 0 <= k < |objects| && NamesOf(objects[k]).Err? {
        var k :| 0 <= k < |objects| && NamesOf(objects[k]).Err?;
        if k < |init| {
          assert NamesOf(init[k]).Err?;
        }
      }
    }
  }

  /** A name is known exactly when some object contributes it. */
  lemma {:induction false} KnownNamesMembers(objects: seq<Object>, x: string)
    requires KnownNames(objects).Ok?
    ensures x in KnownNames(objects).value <==>
      exists k :: 0 <= k < |objects| && NamesOf(objects[k]).Ok? && x in NamesOf(objects[k]).value
    decreases |objects|
  {
    hide NamesOf, Aliases, Get, Lower, IsThreat, Field, LowerItems;
    if objects != [] {
      var init, last := objects[..|objects| - 1], objects[|objects| - 1];
      assert KnownNames(objects).value == KnownNames(init).value + NamesOf(last).value;
      KnownNamesMembers(init, x);
      assert forall k :: 0 <= k < |init| ==> init[k] == objects[k];
      if x in KnownNames(objects).value && x !in KnownNames(init).value {
        assert NamesOf(objects[|objects| - 1]).Ok? && x in NamesOf(objects[|objects| - 1]).value;
      }
      if exists k :: 0 <= k < |objects| && NamesOf(objects[k]).Ok? && x in NamesOf(objects[k]).value {
        var k :| 0 <= k < |objects| && NamesOf(objects[k]).Ok? && x in NamesOf(objects[k]).value;
        if k < |init| {
          assert NamesOf(init[k]).Ok? && x in NamesOf(init[k]).value;
        }
      }
    }
  }

  /** `_extract_known_threat_names`: the known names without repeats (the
      order of Python's `list(set)` is not specified; here it is the order of
      first occurrence). */
  method ExtractKnownThreatNames(objects: seq<Object>) returns (r: Result<seq<string>>)
    ensures objects == [] ==> r == Ok([])
    ensures r.Err? <==> KnownNames(objects).Err?
    ensures r.Ok? ==> NoDup(r.value) && forall x :: x in r.value <==> x in KnownNames(objects).value
  {
    hide NamesOf;
    if objects == [] {
      return Ok([]);
    }
    var threats: seq<string> := [];
    for i := 0 to |objects|
      invariant KnownNames(objects[..i]).Ok? && NoDup(threats)
      invariant forall x :: x in threats <==> x in KnownNames(objects[..i]).value
    {
      var names := NamesOf(objects[i]);
      if names.Err? {
        KnownNamesErr(objects);
        return Err;
      }
      assert objects[..i + 1][..i] == objects[..i];
      assert KnownNames(objects[..i + 1]).value == KnownNames(objects[..i]).value + names.value;
      for j := 0 to |names.value|
        invariant NoDup(threats)
        invariant forall x :: x in threats <==> x in KnownNames(objects[..i]).value || x in names.value[..j]
      {
        assert names.value[..j + 1] == names.value[..j] + [names.value[j]];
        if names.value[j] !in threats {
          threats := threats + [names.value[j]];
        }
      }
      assert names.value[..|names.value|] == names.value;
    }
    assert objects[..|objects|] == objects;
    return Ok(threats);
  }

  /** The name of every intrusion set and malware object is known, lowercased. */
  lemma NameKnown(objects: seq<Object>, k: nat, name: string)
    requires KnownNames(objects).Ok? && k < |objects| && IsThreat(objects[k])
    requires Get(objects[k], "name") == Some(Str(name))
    ensures Lower(name) in KnownNames(objects).value
  {
    hide KnownNames, Aliases, LowerItems;
    KnownNamesErr(objects);
    assert NamesOf(objects[k]).Ok?;
    NamesOfMembers(objects[k], Lower(name));
    KnownNamesMembers(objects, Lower(name));
  }

  /** So is each of its aliases. */
  lemma AliasKnown(objects: seq<Object>, k: nat, i: nat)
    requires KnownNames(objects).Ok? && k < |objects| && IsThreat(objects[k])
    requires Get(objects[k], "aliases").Some? && Get(objects[k], "aliases").value.List?
    requires i < |Get(objects[k], "aliases").value.items| && Get(objects[k], "aliases").value.items[i].Str?
    ensures Lower(Get(objects[k], "aliases").value.items[i].s) in KnownNames(objects).value
  {
    hide KnownNames;
    KnownNamesErr(objects);
    assert NamesOf(objects[k]).Ok?;
    assert Aliases(objects[k]).value[i] in Aliases(objects[k]).value;
    NamesOfMembers(objects[k], Aliases(objects[k]).value[i]);
    KnownNamesMembers(objects, Aliases(objects[k]).value[i]);
  }

  /** An object that is neither an intrusion set nor malware contributes no
      name: a name is known only if a threat object carries it. */
  lemma KnownNamesFromThreats(objects: seq<Object>, x: string)
    requires KnownNames(objects).Ok? && x in KnownNames(objects).value
    ensures exists k :: 0 <= k < |objects| && IsThreat(objects[k]) && NamesOf(objects[k]).Ok? && x in NamesOf(objects[k]).value
  {
    KnownNamesMembers(objects, x);
    var k :| 0 <= k < |objects| && NamesOf(objects[k]).Ok? && x in NamesOf(objects[k]).value;
    assert IsThreat(objects[k]);
  }

  // ---------------------------------------------------------------------------
  // Lookup tables

  /** The object has a string `name`. */
  predicate NamedByString(obj: Object) {
    Get(obj, "name").Some? && Get(obj, "name").value.Str?
  }

  /** An entry of a lookup table: an object of the kind under its lowercased
      name. */
  predicate Filed(e: Entry, kind: string) {
    e.val.Dict? && Field(e.val.entries, "type") == Str(kind) && NamedByString(e.val.entries)
    && Lower(Get(e.val.entries, "name").value.s) == e.key
  }

  /** `{obj['name'].lower(): obj for obj in objects if obj.get('type') == kind}`:
      a later object with the same key replaces an earlier one in its place. */
  function ByName(objects: seq<Object>, kind: string): (r: Result<seq<Entry>>)
    ensures r.Err? <==> exists k :: 0 <= k < |objects| && Field(objects[k], "type") == Str(kind) && !NamedByString(objects[k])
    ensures r.Ok? ==> forall e :: e in r.value ==> Filed(e, kind)
  {
    if objects == [] then Ok([])
    else
      var init, obj := objects[..|objects| - 1], objects[|objects| - 1];
      assert forall k :: 0 <= k < |init| ==> init[k] == objects[k];
      match ByName(init, kind)
      case Err => Err
      case Ok(m) =>
        if Field(obj, "type") != Str(kind) then Ok(m)
        else match Get(obj, "name")
          case None => Err
          case Some(v) => if v.Str? then Ok(Put(m, Lower(v.s), Dict(obj))) else Err
  }

  /** Every object of the kind is reachable under its lowercased name. */
  lemma {:induction false} ByNameHasAll(objects: seq<Object>, kind: string, k: nat)
    requires ByName(objects, kind).Ok? && k < |objects| && Field(objects[k], "type") == Str(kind)
    ensures Get(objects[k], "name").Some? && Get(objects[k], "name").value.Str?
    ensures Get(ByName(objects, kind).value, Lower(Get(objects[k], "name").value.s)).Some?
    decreases |objects|
  {
    var init := objects[..|objects| - 1];
    assert forall j :: 0 <= j < |init| ==> init[j] == objects[j];
    assert ByName(init, kind).Ok?;
    if k < |objects| - 1 {
      ByNameHasAll(init, kind, k);
    }
  }

  /** The dictionaries of a lookup table. */
  predicate Indexed(index: seq<Entry>) {
    forall e :: e in index ==> e.val.Dict?
  }

  predicate IsUses(obj: Object) {
    Field(obj, "type") == Str("relationship") && Field(obj, "relationship_type") == Str("uses")
  }

  /** `relationships`: the `uses` relationships, in bundle order. */
  function Relationships(objects: seq<Object>): (r: seq<Object>)
    ensures forall x :: x in r <==> x in objects && IsUses(x)
  {
    if objects == [] then []
    else
      var init, obj := objects[..|objects| - 1], objects[|objects| - 1];
      Relationships(init) + (if IsUses(obj) then [obj] else [])
  }

  predicate IsPattern(obj: Object) {
    Field(obj, "type") == Str("attack-pattern")
  }

  /** `techniques`: attack patterns by `id`; an attack pattern without one raises. */
  function Techniques(objects: seq<Object>): (r: Result<map<Value, Object>>)
    ensures r.Err? <==> exists k :: 0 <= k < |objects| && IsPattern(objects[k]) && Get(objects[k], "id").None?
    ensures r.Ok? ==> forall id :: id in r.value ==> IsPattern(r.value[id]) && Get(r.value[id], "id") == Some(id)
  {
    if objects == [] then Ok(map[])
    else
      var init, obj := objects[..|objects| - 1], objects[|objects| - 1];
      assert forall k :: 0 <= k < |init| ==> init[k] == objects[k];
      match Techniques(init)
      case Err => Err
      case Ok(m) =>
        if !IsPattern(obj) then Ok(m)
        else match Get(obj, "id")
          case None => Err
          case Some(id) => Ok(m[id := obj])
  }

  // ---------------------------------------------------------------------------
  // Resolving an actor

  predicate HasAlias(obj: Object, key: string) {
    Aliases(obj).Ok? && key in Aliases(obj).value
  }

  predicate LacksAlias(obj: Object, key: string) {
    Aliases(obj).Ok? && key !in Aliases(obj).value
  }

  /** The first object of the table, in table order, whose aliases include
      `key`; the alias lists up to that object are all read. */
  function AliasMatch(index: seq<Entry>, key: string): (r: Result<Option<Object>>)
    requires Indexed(index)
    ensures r.Ok? && r.value.Some? ==> exists k :: (0 <= k < |index| && index[k].val == Dict(r.value.value)
      && HasAlias(r.value.value, key) && forall j :: 0 <= j < k ==> LacksAlias(index[j].val.entries, key))
    ensures r == Ok(None) <==> forall k :: 0 <= k < |index| ==> LacksAlias(index[k].val.entries, key)
    decreases |index|
  {
    if index == [] then Ok(None)
    else
      assert index[0] in index;
      assert forall j :: 0 <= j < |index| - 1 ==> index[1..][j] == index[j + 1];
      match Aliases(index[0].val.entries)
      case Err => Err
      case Ok(als) =>
        if key in als then Ok(Some(index[0].val.entries))
        else AliasMatch(index[1..], key)
  }

  /** The actor's object: by exact lowercase name among the intrusion sets,
      then among the malware, then by alias among the intrusion sets, then
      among the malware. */
  function Resolve(key: string, sets: seq<Entry>, malware: seq<Entry>): (r: Result<Option<Object>>)
    requires Indexed(sets) && Indexed(malware)
    ensures Get(sets, key).Some? ==> r == Ok(Some(Get(sets, key).value.entries))
    ensures Get(sets, key).None? && Get(malware, key).Some? ==> r == Ok(Some(Get(malware, key).value.entries))
    ensures Get(sets, key).None? && Get(malware, key).None? && AliasMatch(sets, key).Ok? && AliasMatch(sets, key).value.Some? ==>
      r == AliasMatch(sets, key)
    ensures Get(sets, key).None? && Get(malware, key).None? && AliasMatch(sets, key) == Ok(None) ==>
      r == AliasMatch(malware, key)
  {
    match Get(sets, key)
    case Some(v) => Ok(Some(v.entries))
    case None =>
      match Get(malware, key)
      case Some(v) => Ok(Some(v.entries))
      case None =>
        match AliasMatch(sets, key)
        case Err => Err
        case Ok(found) => if found.Some? then Ok(found) else AliasMatch(malware, key)
  }

  // ---------------------------------------------------------------------------
  // An actor's techniques

  /** What one relationship adds for the actor: its target when the source is
      the actor and the target is a non-empty `attack-pattern--` id. A truthy
      target that is not a string has no `startswith` and raises. */
  function Target(rel: Object, actorId: Value): (r: Result<Option<string>>)
    ensures r.Err? <==> (Field(rel, "source_ref") == actorId && Truthy(Field(rel, "target_ref"))
      && !Field(rel, "target_ref").Str?)
    ensures forall x :: r == Ok(Some(x)) <==> (Field(rel, "source_ref") == actorId
      && Field(rel, "target_ref") == Str(x) && IsPrefix("attack-pattern--", x))
  {
    if Field(rel, "source_ref") != actorId then Ok(None)
    else
      var t := Field(rel, "target_ref");
      if !Truthy(t) then Ok(None)
      else if !t.Str? then Err
      else if IsPrefix("attack-pattern--", t.s) then Ok(Some(t.s))
      else Ok(None)
  }

  /** `used_technique_ids`, in order of first occurrence. */
  function UsedIds(rels: seq<Object>, actorId: Value): (r: Result<seq<string>>)
    ensures r.Ok? ==> NoDup(r.value)
  {
    if rels == [] then Ok([])
    else
      var init, rel := rels[..|rels| - 1], rels[|rels| - 1];
      match UsedIds(init, actorId)
      case Err => Err
      case Ok(ids) =>
        match Target(rel, actorId)
        case Err => Err
        case Ok(t) => if t.Some? && t.value !in ids then Ok(ids + [t.value]) else Ok(ids)
  }

  /** Collecting the ids raises exactly when some relationship's target does. */
  lemma {:induction false} UsedIdsErr(rels: seq<Object>, actorId: Value)
    ensures UsedIds(rels, actorId).Err? <==> exists k :: 0 <= k < |rels| && Target(rels[k], actorId).Err?
    decreases |rels|
  {
    hide Target, Field, Get, Truthy, IsPrefix;
    if rels != [] {
      var init := rels[..|rels| - 1];
      UsedIdsErr(init, actorId);
      assert forall k :: 0 <= k < |init| ==> init[k] == rels[k];
      if exists k :: 0 <= k < |rels| && Target(rels[k], actorId).Err? {
        var k :| 0 <= k < |rels| && Target(rels[k], actorId).Err?;
        if k < |init| {
          assert Target(init[k], actorId).Err?;
        }
      }
    }
  }

  /** The used ids are exactly the attack patterns some relationship of the
      actor targets. */
  lemma {:induction false} UsedIdsMembers(rels: seq<Object>, actorId: Value, x: string)
    requires UsedIds(rels, actorId).Ok?
    ensures x in UsedIds(rels, actorId).value <==>
      exists k :: 0 <= k < |rels| && Target(rels[k], actorId) == Ok(Some(x))
    decreases |rels|
  {
    hide Target, Field, Get, Truthy, IsPrefix;
    if rels != [] {
      var init := rels[..|rels| - 1];
      UsedIdsMembers(init, actorId, x);
      assert forall k :: 0 <= k < |init| ==> init[k] == rels[k];
      if exists k :: 0 <= k < |rels| && Target(rels[k], actorId) == Ok(Some(x)) {
        var k :| 0 <= k < |rels| && Target(rels[k], actorId) == Ok(Some(x));
        if k < |init| {
          assert Target(init[k], actorId) == Ok(Some(x));
        }
      }
    }
  }

  /** The relationship loop of `map_actors_to_techniques`. */
  method CollectUsedIds(rels: seq<Object>, actorId: Value) returns (r: Result<seq<string>>)
    ensures r == UsedIds(rels, actorId)
  {
    var ids: seq<string> := [];
    for i := 0 to |rels|
      invariant UsedIds(rels[..i], actorId) == Ok(ids)
    {
      assert rels[..i + 1][..i] == rels[..i];
      var t := Target(rels[i], actorId);
      if t.Err? {
        UsedIdsErr(rels, actorId);
        return Err;
      }
      if t.value.Some? && t.value.value !in ids {
        ids := ids + [t.value.value];
      }
    }
    assert rels[..|rels|] == rels;
    return Ok(ids);
  }

  /** The external id: that of the first reference from `mitre-attack`, else
      `"N/A"`; a reference that is not a dictionary raises. */
  predicate IsMitreRef(ref: Value) {
    ref.Dict? && Field(ref.entries, "source_name") == Str("mitre-attack")
  }

  function FirstMitre(refs: seq<Value>): (r: Result<Value>)
    ensures r.Err? <==> exists k :: 0 <= k < |refs| && !refs[k].Dict? && forall j :: 0 <= j < k ==> !IsMitreRef(refs[j])
    decreases |refs|
  {
    if refs == [] then Ok(Str("N/A"))
    else
      assert forall j :: 0 <= j < |refs| - 1 ==> refs[1..][j] == refs[j + 1];
      if !refs[0].Dict? then Err
      else if IsMitreRef(refs[0]) then Ok(Field(refs[0].entries, "external_id"))
      else FirstMitre(refs[1..])
  }

  /** The external id comes from the first `mitre-attack` reference, or is
      `"N/A"` when there is none. */
  lemma {:induction false} FirstMitreIsFirst(refs: seq<Value>)
    requires FirstMitre(refs).Ok?
    ensures (forall k :: 0 <= k < |refs| ==> !IsMitreRef(refs[k])) ==> FirstMitre(refs) == Ok(Str("N/A"))
    ensures (exists k :: 0 <= k < |refs| && IsMitreRef(refs[k])) ==>
      exists k :: (0 <= k < |refs| && IsMitreRef(refs[k]) && FirstMitre(refs) == Ok(Field(refs[k].entries, "external_id"))
        && forall j :: 0 <= j < k ==> !IsMitreRef(refs[j]))
    decreases |refs|
  {
    if refs != [] && !IsMitreRef(refs[0]) {
      var rest := refs[1..];
      assert forall j :: 0 <= j < |rest| ==> rest[j] == refs[j + 1];
      FirstMitreIsFirst(rest);
      if exists k :: 0 <= k < |refs| && IsMitreRef(refs[k]) {
        var k :| 0 <= k < |refs| && IsMitreRef(refs[k]);
        assert IsMitreRef(rest[k - 1]);
        var k2 :| 0 <= k2 < |rest| && IsMitreRef(rest[k2]) && FirstMitre(rest) == Ok(Field(rest[k2].entries, "external_id"))
          && forall j :: 0 <= j < k2 ==> !IsMitreRef(rest[j]);
        assert forall j :: 0 <= j < k2 + 1 ==> !IsMitreRef(refs[j]) by {
          forall j | 0 <= j < k2 + 1 ensures !IsMitreRef(refs[j]) {
            if j > 0 { assert refs[j] == rest[j - 1]; }
          }
        }
      }
    }
  }

  /** The external id of a technique, from its `external_references`. */
  function ExternalId(technique: Object): (r: Result<Value>)
    ensures Get(technique, "external_references").None? ==> r == Ok(Str("N/A"))
  {
    match Get(technique, "external_references")
    case None => Ok(Str("N/A"))
    case Some(v) => if v.List? then FirstMitre(v.items) else Err
  }

  /** The reference loop, stopping at the first `mitre-attack` reference. */
  method FindExternalId(technique: Object) returns (r: Result<Value>)
    ensures r == ExternalId(technique)
  {
    var refs := Get(technique, "external_references");
    if refs.None? {
      return Ok(Str("N/A"));
    }
    if !refs.value.List? {
      return Err;
    }
    var items := refs.value.items;
    var i := 0;
    while i < |items|
      invariant 0 <= i <= |items|
      invariant FirstMitre(items[i..]) == FirstMitre(items)
    {
      assert items[i..][1..] == items[i + 1..];
      if !items[i].Dict? {
        return Err;
      }
      if IsMitreRef(items[i]) {
        return Ok(Field(items[i].entries, "external_id"));
      }
      i := i + 1;
    }
    return Ok(Str("N/A"));
  }

  /** An entry of `actor_techniques`: `id`, `name` and `tactic_id`. */
  datatype Technique = Technique(id: Value, name: Value, tacticId: string)

  /** `actor_techniques`: one entry per used id that names an attack pattern. */
  function ActorTechniques(ids: seq<string>, techniques: map<Value, Object>): (r: Result<seq<Technique>>)
    ensures r.Err? <==> exists k :: 0 <= k < |ids| && Str(ids[k]) in techniques && ExternalId(techniques[Str(ids[k])]).Err?
    ensures r.Ok? ==> forall t :: t in r.value ==> (t.tacticId in ids && Str(t.tacticId) in techniques
      && ExternalId(techniques[Str(t.tacticId)]) == Ok(t.id) && t.name == Field(techniques[Str(t.tacticId)], "name"))
    ensures r.Ok? ==> forall x :: x in ids && Str(x) in techniques ==> exists t :: t in r.value && t.tacticId == x
  {
    if ids == [] then Ok([])
    else
      var init, id := ids[..|ids| - 1], ids[|ids| - 1];
      assert forall k :: 0 <= k < |init| ==> init[k] == ids[k];
      match ActorTechniques(init, techniques)
      case Err => Err
      case Ok(ts) =>
        if Str(id) !in techniques then Ok(ts)
        else match ExternalId(techniques[Str(id)])
          case Err => Err
          case Ok(ext) => Ok(ts + [Technique(ext, Field(techniques[Str(id)], "name"), id)])
  }

  /** The technique loop of `map_actors_to_techniques`. */
  method CollectTechniques(ids: seq<string>, techniques: map<Value, Object>) returns (r: Result<seq<Technique>>)
    ensures r == ActorTechniques(ids, techniques)
  {
    var ts: seq<Technique> := [];
    for i := 0 to |ids|
      invariant ActorTechniques(ids[..i], techniques) == Ok(ts)
    {
      assert ids[..i + 1][..i] == ids[..i];
      if Str(ids[i]) in techniques {
        var technique := techniques[Str(ids[i])];
        var ext := FindExternalId(technique);
        if ext.Err? {
          assert ExternalId(techniques[Str(ids[i])]).Err?;
          return Err;
        }
        ts := ts + [Technique(ext.value, Field(technique, "name"), ids[i])];
      }
    }
    assert ids[..|ids|] == ids;
    return Ok(ts);
  }

  // ---------------------------------------------------------------------------
  // Grouping by tactic

  predicate IsCased(c: char) {
    ('a' <= c <= 'z') || ('A' <= c <= 'Z')
  }

  function TitleFrom(s: string, afterCased: bool): (r: string)
    ensures |r| == |s|
    ensures forall i :: 0 <= i < |s| ==>
      r[i] == (if (i == 0 && afterCased) || (i > 0 && IsCased(s[i - 1])) then LowerChar(s[i]) else UpperChar(s[i]))
  {
    if s == [] then []
    else
      var c := if afterCased then LowerChar(s[0]) else UpperChar(s[0]);
      var rest := TitleFrom(s[1..], IsCased(s[0]));
      assert forall i :: 0 <= i < |s| - 1 ==> s[1..][i] == s[i + 1];
      [c] + rest
  }

  /** `str.title()` on ASCII: a letter right after a letter is lowered, every
      other letter raised. */
  function Title(s: string): (r: string)
    ensures |r| == |s|
    ensures forall i :: 0 <= i < |s| ==>
      r[i] == (if i > 0 && IsCased(s[i - 1]) then LowerChar(s[i]) else UpperChar(s[i]))
  {
    TitleFrom(s, false)
  }

  /** `.replace('-', ' ')` */
  function DashToSpace(s: string): (r: string)
    ensures |r| == |s| && forall i :: 0 <= i < |s| ==> r[i] == (if s[i] == '-' then ' ' else s[i])
  {
    seq(|s|, i requires 0 <= i < |s| => if s[i] == '-' then ' ' else s[i])
  }

  /** The tactic of a `mitre-attack` phase; a `phase_name` that is not a string
      raises. */
  function TacticName(phase: Object): Result<string> {
    match Get(phase, "phase_name")
    case None => Ok(Title(DashToSpace("unknown-tactic")))
    case Some(v) => if v.Str? then Ok(Title(DashToSpace(v.s))) else Err
  }

  lemma CaseOfCase(c: char)
    ensures IsCased(LowerChar(c)) == IsCased(c) && IsCased(UpperChar(c)) == IsCased(c)
    ensures LowerChar(LowerChar(c)) == LowerChar(c) && UpperChar(LowerChar(c)) == UpperChar(c)
    ensures LowerChar(UpperChar(c)) == LowerChar(c) && UpperChar(UpperChar(c)) == UpperChar(c)
  {
  }

  /** Title case does not depend on the case of the input. */
  lemma TitleIgnoresCase(s: string)
    ensures Title(Lower(s)) == Title(s)
  {
    var l, t, tl := Lower(s), Title(s), Title(Lower(s));
    forall i | 0 <= i < |s| ensures tl[i] == t[i] {
      CaseOfCase(s[i]);
      if i > 0 {
        CaseOfCase(s[i - 1]);
      }
    }
  }

  /** Title case is stable. */
  lemma TitleIdempotent(s: string)
    ensures Title(Title(s)) == Title(s)
  {
    var t, tt := Title(s), Title(Title(s));
    forall i | 0 <= i < |s| ensures tt[i] == t[i] {
      CaseOfCase(s[i]);
      if i > 0 {
        CaseOfCase(s[i - 1]);
        if i - 1 > 0 && IsCased(s[i - 2]) {
          assert t[i - 1] == LowerChar(s[i - 1]);
        } else {
          assert t[i - 1] == UpperChar(s[i - 1]);
        }
      }
    }
  }

  /** The item for one technique: `f"{tech['name']} ({tech['id']})"`. */
  function LabelOf(t: Technique): string {
    ToStr(t.name) + " (" + ToStr(t.id) + ")"
  }

  /** The list held under a key, empty when absent. */
  function ListAt(m: seq<Entry>, k: string): seq<Value> {
    match Get(m, k)
    case Some(List(items)) => items
    case _ => []
  }

  predicate IsMitrePhase(phase: Value) {
    phase.Dict? && Field(phase.entries, "kill_chain_name") == Str("mitre-attack")
  }

  /** A phase that raises: not a dictionary, or a `mitre-attack` phase whose
      name is not a string. */
  predicate PhaseFails(phase: Value) {
    !phase.Dict? || (IsMitrePhase(phase) && TacticName(phase.entries).Err?)
  }

  /** The phases of one technique file its item under their tactics. */
  function AddPhases(m: seq<Entry>, phases: seq<Value>, item: string): (r: Result<seq<Entry>>)
    ensures r.Err? <==> exists k :: 0 <= k < |phases| && PhaseFails(phases[k])
    ensures r.Ok? ==> forall t :: Get(r.value, t).Some? ==> (Get(m, t).Some? ||
      exists k :: 0 <= k < |phases| && IsMitrePhase(phases[k]) && TacticName(phases[k].entries) == Ok(t))
  {
    if phases == [] then Ok(m)
    else
      var init, phase := phases[..|phases| - 1], phases[|phases| - 1];
      assert forall k :: 0 <= k < |init| ==> init[k] == phases[k];
      match AddPhases(m, init, item)
      case Err => Err
      case Ok(m1) =>
        if !phase.Dict? then Err
        else if !IsMitrePhase(phase) then Ok(m1)
        else match TacticName(phase.entries)
          case Err => Err
          case Ok(t) => Ok(Put(m1, t, List(ListAt(m1, t) + [Str(item)])))
  }

  /** Every `mitre-attack` phase files the item under its tactic. */
  lemma {:induction false} PhaseFiled(m: seq<Entry>, phases: seq<Value>, item: string, k: nat)
    requires AddPhases(m, phases, item).Ok? && k < |phases| && IsMitrePhase(phases[k])
    ensures TacticName(phases[k].entries).Ok?
    ensures Str(item) in ListAt(AddPhases(m, phases, item).value, TacticName(phases[k].entries).value)
    decreases |phases|
  {
    hide Title, DashToSpace, Field;
    var init, phase := phases[..|phases| - 1], phases[|phases| - 1];
    assert forall j :: 0 <= j < |init| ==> init[j] == phases[j];
    assert !PhaseFails(phases[k]);
    var m1 := AddPhases(m, init, item).value;
    var t := TacticName(phases[k].entries).value;
    if k < |phases| - 1 {
      PhaseFiled(m, init, item, k);
      if IsMitrePhase(phase) {
        var t2 := TacticName(phase.entries).value;
        if t2 == t {
          assert ListAt(m1, t) <= ListAt(m1, t) + [Str(item)];
        }
      }
    }
  }

  /** A tactic's entry as the map holds it: absent while it has no item, else
      the list of its items. */
  function ListEntry(items: seq<Value>): Option<Value> {
    if items == [] then None else Some(List(items))
  }

  /** The items the phases of one technique file under tactic `t`: one per
      `mitre-attack` phase of that tactic, in phase order. */
  function PhaseItems(phases: seq<Value>, item: string, t: string): seq<Value> {
    if phases == [] then []
    else
      var last := phases[|phases| - 1];
      PhaseItems(phases[..|phases| - 1], item, t)
        + (if IsMitrePhase(last) && TacticName(last.entries) == Ok(t) then [Str(item)] else [])
  }

  /** One phase of `AddPhases`: the list under `t` gains the item exactly when
      the phase is a `mitre-attack` phase of tactic `t`. */
  lemma AddPhaseStep(m1: seq<Entry>, m2: seq<Entry>, phase: Value, item: string, t: string, before: seq<Value>)
    requires Get(m1, t) == ListEntry(before)
    requires IsMitrePhase(phase) ==> TacticName(phase.entries).Ok?
    requires m2 == if IsMitrePhase(phase)
      then Put(m1, TacticName(phase.entries).value, List(ListAt(m1, TacticName(phase.entries).value) + [Str(item)]))
      else m1
    ensures Get(m2, t) == ListEntry(before + (if IsMitrePhase(phase) && TacticName(phase.entries) == Ok(t) then [Str(item)] else []))
  {
    hide Title, DashToSpace, Put, Get;
    assert ListAt(m1, t) == before;
    if IsMitrePhase(phase) && TacticName(phase.entries) == Ok(t) {
      assert Get(m2, t) == Some(List(before + [Str(item)]));
    } else if IsMitrePhase(phase) {
      assert Get(m2, t) == Get(m1, t);
      assert before + [] == before;
    } else {
      assert before + [] == before;
    }
  }

  /** The list under tactic `t` gains exactly `PhaseItems`. */
  lemma {:induction false} AddPhasesAt(m: seq<Entry>, phases: seq<Value>, item: string, t: string)
    requires AddPhases(m, phases, item).Ok? && Get(m, t) == ListEntry(ListAt(m, t))
    ensures Get(AddPhases(m, phases, item).value, t) == ListEntry(ListAt(m, t) + PhaseItems(phases, item, t))
    decreases |phases|
  {
    hide Title, DashToSpace, Put, Get, ListAt;
    if phases == [] {
      assert ListAt(m, t) + [] == ListAt(m, t);
    } else {
      var init, phase := phases[..|phases| - 1], phases[|phases| - 1];
      var extra := if IsMitrePhase(phase) && TacticName(phase.entries) == Ok(t) then [Str(item)] else [];
      assert PhaseItems(phases, item, t) == PhaseItems(init, item, t) + extra;
      hide PhaseItems;
      assert forall j :: 0 <= j < |init| ==> init[j] == phases[j];
      var m1 := AddPhases(m, init, item).value;
      var m2 := AddPhases(m, phases, item).value;
      assert phase.Dict? && (IsMitrePhase(phase) ==> TacticName(phase.entries).Ok?);
      assert m2 == if IsMitrePhase(phase)
        then Put(m1, TacticName(phase.entries).value, List(ListAt(m1, TacticName(phase.entries).value) + [Str(item)]))
        else m1;
      hide AddPhases;
      AddPhasesAt(m, init, item, t);
      AddPhaseStep(m1, m2, phase, item, t, ListAt(m, t) + PhaseItems(init, item, t));
      assert ListAt(m, t) + PhaseItems(init, item, t) + extra == ListAt(m, t) + PhaseItems(phases, item, t);
    }
  }

  /** The phases of a technique: `kill_chain_phases`, none when absent. */
  function PhasesOf(technique: Object): Result<seq<Value>> {
    match Get(technique, "kill_chain_phases")
    case None => Ok([])
    case Some(v) => if v.List? then Ok(v.items) else Err
  }

  /** `techniques.get(tech['tactic_id'], {}).get('kill_chain_phases', [])` */
  function TechPhases(t: Technique, techniques: map<Value, Object>): Result<seq<Value>> {
    if Str(t.tacticId) in techniques then PhasesOf(techniques[Str(t.tacticId)]) else Ok([])
  }

  /** `tactic_map` of an actor. */
  function TacticMap(techs: seq<Technique>, techniques: map<Value, Object>): Result<seq<Entry>> {
    if techs == [] then Ok([])
    else
      var init, t := techs[..|techs| - 1], techs[|techs| - 1];
      assert forall k :: 0 <= k < |init| ==> init[k] == techs[k];
      match TacticMap(init, techniques)
      case Err => Err
      case Ok(m) =>
        match TechPhases(t, techniques)
        case Err => Err
        case Ok(phases) => AddPhases(m, phases, LabelOf(t))
  }

  /** Only `mitre-attack` phases of the actor's techniques make tactics. */
  lemma {:induction false} TacticsFromMitrePhases(techs: seq<Technique>, techniques: map<Value, Object>, t: string)
    requires TacticMap(techs, techniques).Ok? && Get(TacticMap(techs, techniques).value, t).Some?
    ensures exists k, j :: (0 <= k < |techs| && TechPhases(techs[k], techniques).Ok?
      && 0 <= j < |TechPhases(techs[k], techniques).value| && IsMitrePhase(TechPhases(techs[k], techniques).value[j])
      && TacticName(TechPhases(techs[k], techniques).value[j].entries) == Ok(t))
    decreases |techs|
  {
    var init, last := techs[..|techs| - 1], techs[|techs| - 1];
    assert forall k :: 0 <= k < |init| ==> init[k] == techs[k];
    var m := TacticMap(init, techniques).value;
    var phases := TechPhases(last, techniques).value;
    assert TacticMap(techs, techniques) == AddPhases(m, phases, LabelOf(last));
    hide TacticMap, AddPhases;
    if Get(m, t).Some? {
      TacticsFromMitrePhases(init, techniques, t);
      var k, j :| 0 <= k < |init| && TechPhases(init[k], techniques).Ok?
        && 0 <= j < |TechPhases(init[k], techniques).value| && IsMitrePhase(TechPhases(init[k], techniques).value[j])
        && TacticName(TechPhases(init[k], techniques).value[j].entries) == Ok(t);
      assert techs[k] == init[k];
    } else {
      var j :| 0 <= j < |phases| && IsMitrePhase(phases[j]) && TacticName(phases[j].entries) == Ok(t);
      assert techs[|techs| - 1] == last;
    }
  }

  /** The items of tactic `t` over an actor's techniques: each technique's
      label once per `mitre-attack` phase of that tactic, in technique order. */
  function TacticItems(techs: seq<Technique>, techniques: map<Value, Object>, t: string): seq<Value> {
    if techs == [] then []
    else
      var last := techs[|techs| - 1];
      TacticItems(techs[..|techs| - 1], techniques, t)
        + (match TechPhases(last, techniques)
           case Ok(phases) => PhaseItems(phases, LabelOf(last), t)
           case Err => [])
  }

  /** The whole tactic map: a tactic is a key exactly when it has an item, and
      its list is exactly `TacticItems`. */
  lemma {:induction false} TacticList(techs: seq<Technique>, techniques: map<Value, Object>, t: string)
    requires TacticMap(techs, techniques).Ok?
    ensures Get(TacticMap(techs, techniques).value, t) == ListEntry(TacticItems(techs, techniques, t))
    decreases |techs|
  {
    if techs != [] {
      var init, last := techs[..|techs| - 1], techs[|techs| - 1];
      assert forall k :: 0 <= k < |init| ==> init[k] == techs[k];
      var m := TacticMap(init, techniques).value;
      var phases := TechPhases(last, techniques).value;
      assert TacticMap(techs, techniques) == AddPhases(m, phases, LabelOf(last));
      assert TacticItems(techs, techniques, t) == TacticItems(init, techniques, t) + PhaseItems(phases, LabelOf(last), t);
      hide TacticMap, AddPhases, TacticItems, PhaseItems, Get;
      TacticList(init, techniques, t);
      assert ListAt(m, t) == TacticItems(init, techniques, t);
      AddPhasesAt(m, phases, LabelOf(last), t);
    }
  }

  /** The phase loop for one technique. */
  method FilePhases(m: seq<Entry>, phases: seq<Value>, item: string) returns (r: Result<seq<Entry>>)
    ensures r == AddPhases(m, phases, item)
  {
    var acc := m;
    for j := 0 to |phases|
      invariant AddPhases(m, phases[..j], item) == Ok(acc)
    {
      assert phases[..j + 1][..j] == phases[..j];
      var phase := phases[j];
      if !phase.Dict? {
        assert PhaseFails(phases[j]);
        return Err;
      }
      if IsMitrePhase(phase) {
        var tactic := TacticName(phase.entries);
        if tactic.Err? {
          assert PhaseFails(phases[j]);
          return Err;
        }
        acc := Put(acc, tactic.value, List(ListAt(acc, tactic.value) + [Str(item)]));
      }
    }
    assert phases[..|phases|] == phases;
    return Ok(acc);
  }

  /** The technique loop that builds `tactic_map`. */
  method BuildTacticMap(techs: seq<Technique>, techniques: map<Value, Object>) returns (r: Result<seq<Entry>>)
    ensures r == TacticMap(techs, techniques)
  {
    var m: seq<Entry> := [];
    for i := 0 to |techs|
      invariant TacticMap(techs[..i], techniques) == Ok(m)
    {
      assert techs[..i + 1][..i] == techs[..i];
      var phases := TechPhases(techs[i], techniques);
      if phases.Err? {
        assert TacticMap(techs[..i + 1], techniques).Err?;
        TacticMapErr(techs, techniques, i + 1);
        return Err;
      }
      var next := FilePhases(m, phases.value, LabelOf(techs[i]));
      if next.Err? {
        assert TacticMap(techs[..i + 1], techniques).Err?;
        TacticMapErr(techs, techniques, i + 1);
        return Err;
      }
      m := next.value;
    }
    assert techs[..|techs|] == techs;
    return Ok(m);
  }

  /** Once the map raises on a prefix it raises on the whole. */
  lemma {:induction false} TacticMapErr(techs: seq<Technique>, techniques: map<Value, Object>, n: nat)
    requires n <= |techs| && TacticMap(techs[..n], techniques).Err?
    ensures TacticMap(techs, techniques).Err?
    decreases |techs| - n
  {
    if n < |techs| {
      assert techs[..n + 1][..n] == techs[..n];
      TacticMapErr(techs, techniques, n + 1);
    } else {
      assert techs[..n] == techs;
    }
  }

  // ---------------------------------------------------------------------------
  // The mapping

  /** The techniques of an actor, `None` when the actor does not resolve. */
  function TechniquesOf(actor: string, sets: seq<Entry>, malware: seq<Entry>, rels: seq<Object>,
                        techniques: map<Value, Object>): Result<Option<seq<Technique>>>
    requires Indexed(sets) && Indexed(malware)
  {
    match Resolve(Lower(actor), sets, malware)
    case Err => Err
    case Ok(None) => Ok(None)
    case Ok(Some(obj)) =>
      match UsedIds(rels, Field(obj, "id"))
      case Err => Err
      case Ok(ids) =>
        match ActorTechniques(ids, techniques)
        case Err => Err
        case Ok(ts) => Ok(Some(ts))
  }

  /** An actor's entry of the mapping: its tactic map when it has a technique,
      even if no phase of those techniques is a `mitre-attack` one. */
  function ActorEntry(actor: string, sets: seq<Entry>, malware: seq<Entry>, rels: seq<Object>,
                      techniques: map<Value, Object>): (r: Result<Option<seq<Entry>>>)
    requires Indexed(sets) && Indexed(malware)
    ensures r.Ok? ==> TechniquesOf(actor, sets, malware, rels, techniques).Ok?
    ensures r.Ok? ==> (r.value.Some? <==>
      TechniquesOf(actor, sets, malware, rels, techniques).value.Some?
      && TechniquesOf(actor, sets, malware, rels, techniques).value.value != [])
    ensures r.Ok? && r.value.Some? ==>
      TacticMap(TechniquesOf(actor, sets, malware, rels, techniques).value.value, techniques) == Ok(r.value.value)
  {
    match TechniquesOf(actor, sets, malware, rels, techniques)
    case Err => Err
    case Ok(None) => Ok(None)
    case Ok(Some(ts)) =>
      if ts == [] then Ok(None)
      else match TacticMap(ts, techniques)
        case Err => Err
        case Ok(m) => Ok(Some(m))
  }

  /** `mapping`, actor by actor. */
  function Mapping(actors: seq<string>, sets: seq<Entry>, malware: seq<Entry>, rels: seq<Object>,
                   techniques: map<Value, Object>): (r: Result<seq<Entry>>)
    requires Indexed(sets) && Indexed(malware)
  {
    if actors == [] then Ok([])
    else
      var init, a := actors[..|actors| - 1], actors[|actors| - 1];
      assert forall k :: 0 <= k < |init| ==> init[k] == actors[k];
      match Mapping(init, sets, malware, rels, techniques)
      case Err => Err
      case Ok(m) =>
        match ActorEntry(a, sets, malware, rels, techniques)
        case Err => Err
        case Ok(None) => Ok(m)
        case Ok(Some(tm)) => Ok(Put(m, a, Dict(tm)))
  }

  /** The mapping raises exactly when some actor's entry does. */
  lemma {:induction false} MappingErr(actors: seq<string>, sets: seq<Entry>, malware: seq<Entry>, rels: seq<Object>,
                                      techniques: map<Value, Object>)
    requires Indexed(sets) && Indexed(malware)
    ensures Mapping(actors, sets, malware, rels, techniques).Err? <==>
      exists k :: 0 <= k < |actors| && ActorEntry(actors[k], sets, malware, rels, techniques).Err?
    decreases |actors|
  {
    hide ActorEntry, Put, TechniquesOf, TacticMap, Get;
    if actors != [] {
      var init, a := actors[..|actors| - 1], actors[|actors| - 1];
      assert forall k :: 0 <= k < |init| ==> init[k] == actors[k];
      MappingErr(init, sets, malware, rels, techniques);
    }
  }

  /** An actor has an entry in the mapping exactly when it is listed and its
      own entry is present. */
  lemma {:induction false} MappingKeys(actors: seq<string>, sets: seq<Entry>, malware: seq<Entry>, rels: seq<Object>,
                                       techniques: map<Value, Object>, a: string)
    requires Indexed(sets) && Indexed(malware)
    requires Mapping(actors, sets, malware, rels, techniques).Ok?
    ensures Get(Mapping(actors, sets, malware, rels, techniques).value, a).Some? <==>
      (a in actors && ActorEntry(a, sets, malware, rels, techniques) != Ok(None))
    ensures a in actors ==> ActorEntry(a, sets, malware, rels, techniques).Ok?
    decreases |actors|
  {
    hide ActorEntry, TechniquesOf, TacticMap, Put, Get;
    if actors != [] {
      var init, last := actors[..|actors| - 1], actors[|actors| - 1];
      assert actors == init + [last];
      var m := Mapping(init, sets, malware, rels, techniques);
      var e := ActorEntry(last, sets, malware, rels, techniques);
      assert m.Ok? && e.Ok?;
      MappingKeys(init, sets, malware, rels, techniques, a);
      if e.value.Some? {
        assert Mapping(actors, sets, malware, rels, techniques) == Ok(Put(m.value, last, Dict(e.value.value)));
      } else {
        assert Mapping(actors, sets, malware, rels, techniques) == m;
      }
    }
  }

  /** An actor's value in the mapping is its own entry's tactic map. */
  lemma {:induction false} MappingValue(actors: seq<string>, sets: seq<Entry>, malware: seq<Entry>, rels: seq<Object>,
                                        techniques: map<Value, Object>, a: string)
    requires Indexed(sets) && Indexed(malware)
    requires Mapping(actors, sets, malware, rels, techniques).Ok?
    requires Get(Mapping(actors, sets, malware, rels, techniques).value, a).Some?
    ensures ActorEntry(a, sets, malware, rels, techniques).Ok? && ActorEntry(a, sets, malware, rels, techniques).value.Some?
    ensures Get(Mapping(actors, sets, malware, rels, techniques).value, a)
      == Some(Dict(ActorEntry(a, sets, malware, rels, techniques).value.value))
    decreases |actors|
  {
    hide ActorEntry, TechniquesOf, TacticMap, Put, Get;
    var init, last := actors[..|actors| - 1], actors[|actors| - 1];
    assert forall k :: 0 <= k < |init| ==> init[k] == actors[k];
    var m := Mapping(init, sets, malware, rels, techniques);
    var e := ActorEntry(last, sets, malware, rels, techniques);
    assert m.Ok? && e.Ok?;
    if e.value.Some? && last == a {
      assert Mapping(actors, sets, malware, rels, techniques) == Ok(Put(m.value, last, Dict(e.value.value)));
    } else if e.value.Some? {
      assert Mapping(actors, sets, malware, rels, techniques) == Ok(Put(m.value, last, Dict(e.value.value)));
      MappingValue(init, sets, malware, rels, techniques, a);
    } else {
      assert Mapping(actors, sets, malware, rels, techniques) == m;
      MappingValue(init, sets, malware, rels, techniques, a);
    }
  }

  const NoData: Value := Dict([Entry("error", Str("MITRE ATT&CK data not available."))])
  const NothingFound: Value := Dict([Entry("info", Str("検出された脅威と一致するMITRE ATT&CKの戦術・技術は見つかりませんでした。"))])

  /** `map_actors_to_techniques` over the loaded objects. */
  function MapActors(objects: seq<Object>, actors: seq<string>): (r: Result<Value>)
    ensures objects == [] ==> r == Ok(NoData)
    ensures r.Ok? && objects != [] ==> r.value == NothingFound || (r.value.Dict? && r.value.entries != [])
  {
    if objects == [] then Ok(NoData)
    else
      var sets, malware, techniques := ByName(objects, "intrusion-set"), ByName(objects, "malware"), Techniques(objects);
      if sets.Err? || malware.Err? || techniques.Err? then Err
      else
        assert Indexed(sets.value) && Indexed(malware.value);
        match Mapping(actors, sets.value, malware.value, Relationships(objects), techniques.value)
        case Err => Err
        case Ok(m) => if m == [] then Ok(NothingFound) else Ok(Dict(m))
  }

  /** `map_actors_to_techniques`. */
  method MapActorsToTechniques(objects: seq<Object>, actors: seq<string>) returns (r: Result<Value>)
    ensures r == MapActors(objects, actors)
  {
    hide ActorEntry, Put, TechniquesOf, TacticMap, ByName, Techniques, Relationships, Get;
    if objects == [] {
      return Ok(NoData);
    }
    var sets := ByName(objects, "intrusion-set");
    var malware := ByName(objects, "malware");
    var rels := Relationships(objects);
    var techniques := Techniques(objects);
    if sets.Err? || malware.Err? || techniques.Err? {
      return Err;
    }
    assert Indexed(sets.value) && Indexed(malware.value);
    var mapping: seq<Entry> := [];
    for i := 0 to |actors|
      invariant Mapping(actors[..i], sets.value, malware.value, rels, techniques.value) == Ok(mapping)
    {
      assert actors[..i + 1][..i] == actors[..i];
      var entry := ActorMapping(actors[i], sets.value, malware.value, rels, techniques.value);
      if entry.Err? {
        MappingErr(actors, sets.value, malware.value, rels, techniques.value);
        return Err;
      }
      if entry.value.Some? {
        mapping := Put(mapping, actors[i], Dict(entry.value.value));
      }
    }
    assert actors[..|actors|] == actors;
    if mapping == [] {
      return Ok(NothingFound);
    }
    return Ok(Dict(mapping));
  }

  /** The body of the actor loop. */
  method ActorMapping(actor: string, sets: seq<Entry>, malware: seq<Entry>, rels: seq<Object>,
                      techniques: map<Value, Object>) returns (r: Result<Option<seq<Entry>>>)
    requires Indexed(sets) && Indexed(malware)
    ensures r == ActorEntry(actor, sets, malware, rels, techniques)
  {
    var obj := Resolve(Lower(actor), sets, malware);
    if obj.Err? {
      return Err;
    }
    if obj.value.None? {
      return Ok(None);
    }
    var ids := CollectUsedIds(rels, Field(obj.value.value, "id"));
    if ids.Err? {
      return Err;
    }
    var ts := CollectTechniques(ids.value, techniques);
    if ts.Err? {
      return Err;
    }
    if ts.value == [] {
      return Ok(None);
    }
    var m := BuildTacticMap(ts.value, techniques);
    if m.Err? {
      return Err;
    }
    return Ok(Some(m.value));
  }

  // ---------------------------------------------------------------------------
  // Properties of the mapping

  /** An actor named exactly like an intrusion set resolves to an intrusion set
      of that name even when a malware object shares it. */
  lemma IntrusionSetFirst(objects: seq<Object>, k: nat, actor: string)
    requires ByName(objects, "intrusion-set").Ok? && ByName(objects, "malware").Ok?
    requires k < |objects| && Field(objects[k], "type") == Str("intrusion-set")
    requires Get(objects[k], "name").Some? && Get(objects[k], "name").value.Str?
    requires Lower(actor) == Lower(Get(objects[k], "name").value.s)
    ensures var sets := ByName(objects, "intrusion-set").value; var malware := ByName(objects, "malware").value;
      Indexed(sets) && Indexed(malware)
      && Resolve(Lower(actor), sets, malware).Ok? && Resolve(Lower(actor), sets, malware).value.Some?
      && Filed(Entry(Lower(actor), Dict(Resolve(Lower(actor), sets, malware).value.value)), "intrusion-set")
  {
    var sets := ByName(objects, "intrusion-set").value;
    var malware := ByName(objects, "malware").value;
    ByNameHasAll(objects, "intrusion-set", k);
    hide ByName;
    var v := Get(sets, Lower(actor)).value;
    assert Entry(Lower(actor), v) in sets;
    assert Filed(Entry(Lower(actor), v), "intrusion-set");
    assert v == Dict(v.entries);
  }

  /** An actor is in the mapping exactly when it resolves and has at least one
      technique. */
  lemma ActorListedIff(actors: seq<string>, sets: seq<Entry>, malware: seq<Entry>, rels: seq<Object>,
                       techniques: map<Value, Object>, k: nat)
    requires Indexed(sets) && Indexed(malware) && k < |actors|
    requires Mapping(actors, sets, malware, rels, techniques).Ok?
    ensures var ts := TechniquesOf(actors[k], sets, malware, rels, techniques);
      ts.Ok? && (Get(Mapping(actors, sets, malware, rels, techniques).value, actors[k]).Some?
        <==> ts.value.Some? && ts.value.value != [])
  {
    MappingKeys(actors, sets, malware, rels, techniques, actors[k]);
  }

  /** With no actor listed the result is the "nothing found" message. */
  lemma NothingListed(objects: seq<Object>, actors: seq<string>)
    requires objects != [] && MapActors(objects, actors).Ok?
    requires forall k :: 0 <= k < |actors| ==>
      ByName(objects, "intrusion-set").Ok? && ByName(objects, "malware").Ok? && Techniques(objects).Ok?
      && ActorEntry(actors[k], ByName(objects, "intrusion-set").value, ByName(objects, "malware").value,
                    Relationships(objects), Techniques(objects).value) == Ok(None)
    ensures MapActors(objects, actors) == Ok(NothingFound)
  {
    var sets := ByName(objects, "intrusion-set").value;
    var malware := ByName(objects, "malware").value;
    var rels, techniques := Relationships(objects), Techniques(objects).value;
    var m := Mapping(actors, sets, malware, rels, techniques).value;
    if m != [] {
      assert Get(m, m[0].key).Some?;
      MappingKeys(actors, sets, malware, rels, techniques, m[0].key);
    }
  }

  /** The tactic lists of the whole result: for every actor in the mapping and
      every tactic `t`, `t` is a key of the actor's entry exactly when some
      technique of the actor has a `mitre-attack` phase of tactic `t`, and its
      list holds each such technique's label once per such phase, in
      technique order. */
  lemma ActorTactics(objects: seq<Object>, actors: seq<string>, a: string, t: string)
    requires MapActors(objects, actors).Ok? && MapActors(objects, actors).value !in {NoData, NothingFound}
    requires MapActors(objects, actors).value.Dict? && Get(MapActors(objects, actors).value.entries, a).Some?
    ensures ByName(objects, "intrusion-set").Ok? && ByName(objects, "malware").Ok? && Techniques(objects).Ok?
    ensures var sets, malware := ByName(objects, "intrusion-set").value, ByName(objects, "malware").value;
      var ts := TechniquesOf(a, sets, malware, Relationships(objects), Techniques(objects).value);
      var entry := Get(MapActors(objects, actors).value.entries, a).value;
      Indexed(sets) && Indexed(malware) && ts.Ok? && ts.value.Some? && ts.value.value != [] && entry.Dict?
      && Get(entry.entries, t) == ListEntry(TacticItems(ts.value.value, Techniques(objects).value, t))
  {
    assert objects != [];
    var sets, malware, techniques := ByName(objects, "intrusion-set").value, ByName(objects, "malware").value, Techniques(objects).value;
    var rels := Relationships(objects);
    assert Indexed(sets) && Indexed(malware);
    var m := Mapping(actors, sets, malware, rels, techniques).value;
    assert MapActors(objects, actors).value == Dict(m);
    hide ByName, Techniques, Relationships, MapActors, Mapping, ActorEntry, TechniquesOf, TacticMap, Get;
    MappingValue(actors, sets, malware, rels, techniques, a);
    var ts := TechniquesOf(a, sets, malware, rels, techniques).value.value;
    TacticList(ts, techniques, t);
  }
}
