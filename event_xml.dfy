/** Windows Event Log records as `xml.etree.ElementTree` hands them over, and
    the normalisation `parse_event_xml` applies to them. The XML text itself is
    not parsed here: a rendered record is either malformed (`ET.fromstring`
    raises) or an element tree. */
module EventXml {
  import opened Common
  import opened Values

  /** The event schema's namespace in ElementTree's `{uri}` tag prefix. */
  const Ns: string := "{http://schemas.microsoft.com/win/2004/08/events/event}"

  /** An element: qualified tag, attributes, text (`None` when the element has
      none) and children in document order. */
  datatype Elem = Elem(tag: string, attrs: map<string, string>, text: Option<string>, children: seq<Elem>)

  /** `EvtRender(event, EvtRenderEventXml)` passed through `ET.fromstring`. */
  datatype Rendered = Malformed | Parsed(root: Elem)

  /** `elem.find(tag)` over the direct children. */
  function FindIn(cs: seq<Elem>, tag: string): (r: Option<Elem>)
    ensures r.Some? ==> r.value in cs && r.value.tag == tag
    ensures r.None? <==> forall c :: c in cs ==> c.tag != tag
  {
    if cs == [] then None
    else if cs[0].tag == tag then Some(cs[0])
    else FindIn(cs[1..], tag)
  }

  /** `elem.find('e:' + local, ns)`. */
  function Find(e: Elem, local: string): Option<Elem> {
    FindIn(e.children, Ns + local)
  }

  function Named(tag: string): Elem -> seq<Elem> {
    (c: Elem) => if c.tag == tag then [c] else []
  }

  /** `elem.findall('e:' + local, ns)`: every direct child with that tag, in order. */
  function FindAll(e: Elem, local: string): seq<Elem> {
    FlatMap(e.children, Named(Ns + local))
  }

  /** `elem.iter()`: the element itself, then its descendants in document order. */
  function Iter(e: Elem): (r: seq<Elem>)
    ensures r != [] && r[0] == e
    decreases e, 1
  {
    [e] + IterAll(e, e.children)
  }

  function IterAll(ghost parent: Elem, es: seq<Elem>): seq<Elem>
    requires forall x :: x in es ==> x < parent
    decreases parent, 0, |es|
  {
    if es == [] then []
    else
      assert es[0] in es && forall x :: x in es[1..] ==> x in es;
      Iter(es[0]) + IterAll(parent, es[1..])
  }

  /** An element's text as a dictionary value: `None` becomes `null`. */
  function TextValue(t: Option<string>): Value {
    if t.Some? then Str(t.value) else Null
  }

  /** `int(system_part.find('e:' + local, ns).text)`: a missing element or a
      missing text raises, and so does text that is not a decimal integer. */
  function IntChild(system: Elem, local: string): Option<int> {
    match Find(system, local)
    case None => None
    case Some(x) => if x.text.Some? then ParseInt(x.text.value) else None
  }

  /** The record id the collector reads while walking a channel:
      `int(ET.fromstring(xml).find(System).find(EventRecordID).text)`. */
  function RecordIdOf(x: Rendered): Option<int> {
    if x.Malformed? then None
    else match Find(x.root, "System")
      case None => None
      case Some(system) => IntChild(system, "EventRecordID")
  }

  /** One `<Data Name="...">` element: kept only when its `Name` is truthy. */
  function DataItem(d: Elem): seq<Entry> {
    if "Name" in d.attrs && d.attrs["Name"] != [] then [Entry(d.attrs["Name"], TextValue(d.text))] else []
  }

  /** The part after the last `}` of a tag: `tag.split('}')[-1]`. */
  function LocalName(tag: string): string {
    var parts := Split(tag, '}');
    parts[|parts| - 1]
  }

  /** One element under `<UserData>`: kept, by local name, when its tag is namespaced. */
  function UserItem(x: Elem): seq<Entry> {
    if '}' in x.tag then [Entry(LocalName(x.tag), TextValue(x.text))] else []
  }

  /** The assignments of the `EventData` loop, in order. */
  function DataItems(root: Elem): seq<Entry> {
    match Find(root, "EventData")
    case None => []
    case Some(part) => FlatMap(FindAll(part, "Data"), DataItem)
  }

  /** The assignments of the `UserData` loop, in order; `iter()` starts with
      `<UserData>` itself. */
  function UserItems(root: Elem): seq<Entry> {
    match Find(root, "UserData")
    case None => []
    case Some(part) => FlatMap(Iter(part), UserItem)
  }

  /** The normalised event; `ToValue` is the dictionary the source returns. */
  datatype Event = Event(channel: string, provider: Option<string>, eventId: int, recordId: int, eventData: seq<Entry>)

  function ToValue(ev: Event): Value {
    Dict([Entry("winlog", Dict([
      Entry("channel", Str(ev.channel)),
      Entry("provider_name", TextValue(ev.provider)),
      Entry("event_id", Int(ev.eventId)),
      Entry("record_id", Int(ev.recordId)),
      Entry("event_data", Dict(ev.eventData))]))])
  }

  /** `parse_event_xml(xml_content, channel)`; `None` whenever anything raises. */
  function ParseEventXml(x: Rendered, channel: string): Option<Event> {
    if x.Malformed? then None
    else
      var root := x.root;
      match Find(root, "System")
      case None => None
      case Some(system) =>
        var eventId := IntChild(system, "EventID");
        var recordId := IntChild(system, "EventRecordID");
        var provider := Find(system, "Provider");
        if eventId.None? || recordId.None? || provider.None? then None
        else
          var name := if "Name" in provider.value.attrs then Some(provider.value.attrs["Name"]) else None;
          Some(Event(channel, name, eventId.value, recordId.value, PutAll([], DataItems(root) + UserItems(root))))
  }

  /** `.get("winlog", {}).get(k, default)` on a value. */
  function WinlogField(v: Value, k: string, default: Value): Value {
    var w := if v.Dict? && Get(v.entries, "winlog").Some? then Get(v.entries, "winlog").value else Dict([]);
    if w.Dict? && Get(w.entries, k).Some? then Get(w.entries, k).value else default
  }

  // ---------------------------------------------------------------------------
  // Properties

  /** The parse fails exactly when one of the lookups it chains fails: no
      `System`, no integer `EventID` or `EventRecordID`, or no `Provider`. */
  lemma ParseFails(x: Rendered, channel: string)
    ensures ParseEventXml(x, channel).None? <==>
      RecordIdOf(x).None? || IntChild(Find(x.root, "System").value, "EventID").None?
      || Find(Find(x.root, "System").value, "Provider").None?
  {
  }

  /** The record id in the parsed event is the one the channel walk reads, and a
      record whose id cannot be read does not parse. */
  lemma ParsedRecordId(x: Rendered, channel: string)
    ensures ParseEventXml(x, channel).Some? ==> RecordIdOf(x) == Some(ParseEventXml(x, channel).value.recordId)
    ensures RecordIdOf(x).None? ==> ParseEventXml(x, channel).None?
  {
  }

  /** The collector's `.get` chains read the ids back from the returned dictionary. */
  lemma WinlogFields(ev: Event)
    ensures WinlogField(ToValue(ev), "event_id", Null) == Int(ev.eventId)
    ensures WinlogField(ToValue(ev), "record_id", Int(0)) == Int(ev.recordId)
  {
    var w := ToValue(ev).entries[0].val.entries;
    GetAt(ToValue(ev).entries, 0);
    GetAt(w, 2);
    GetAt(w, 3);
  }

  /** The value stored at a position whose key occurs nowhere before it. */
  lemma GetAt(entries: seq<Entry>, i: nat)
    requires i < |entries| && forall j :: 0 <= j < i ==> entries[j].key != entries[i].key
    ensures Get(entries, entries[i].key) == Some(entries[i].val)
  {
  }

  /** `event_data` maps each key to the last assignment of it: the named `Data`
      elements first, then the `UserData` elements, later ones overwriting
      earlier ones. */
  lemma EventDataGet(x: Rendered, channel: string, k: string)
    requires ParseEventXml(x, channel).Some?
    ensures Get(ParseEventXml(x, channel).value.eventData, k) == Last(DataItems(x.root) + UserItems(x.root), k)
    ensures DistinctKeys(ParseEventXml(x, channel).value.eventData)
  {
    GetPutAll([], DataItems(x.root) + UserItems(x.root), k);
  }

  /** `<UserData>` itself is the first element `iter()` yields, so its own text
      is stored under the key `UserData`. */
  lemma UserDataItself(root: Elem)
    requires Find(root, "UserData").Some?
    ensures UserItems(root) != [] && UserItems(root)[0] == Entry("UserData", TextValue(Find(root, "UserData").value.text))
  {
    var u := Find(root, "UserData").value;
    assert u.tag == Ns + "UserData";
    assert u.tag[|Ns| - 1] == '}';
    assert '}' in u.tag;
    LocalNameAfter(Ns[..|Ns| - 1], "UserData");
    assert Ns + "UserData" == Ns[..|Ns| - 1] + "}" + "UserData";
    assert Iter(u)[0] == u;
    assert FlatMap(Iter(u), UserItem) == UserItem(u) + FlatMap(Iter(u)[1..], UserItem);
  }

  /** The local name of `{uri}name` is `name` when `name` holds no `}`. */
  lemma LocalNameAfter(uri: string, name: string)
    requires '}' !in name
    ensures LocalName(uri + "}" + name) == name
  {
    var t := uri + "}" + name;
    SplitJoin(t, '}');
    SplitLast(uri, name);
  }

  /** Splitting at a separator leaves the separator-free tail as the last piece. */
  lemma {:induction false} SplitLast(a: string, name: string)
    requires '}' !in name
    ensures var p := Split(a + "}" + name, '}'); p[|p| - 1] == name
    decreases |a|
  {
    if a == [] {
      assert a + "}" + name == ['}'] + name;
      SplitSeparatorFirst(name, '}');
      assert Split(name, '}') == [name];
    } else {
      SplitLast(a[1..], name);
      assert (a + "}" + name)[1..] == a[1..] + "}" + name;
    }
  }

  // ---------------------------------------------------------------------------
  // Round trip through a rendered record

  /** What the Event Log service puts in a record's XML: the provider, both ids
      and named `Data` items. */
  datatype Record = Record(provider: string, eventId: int, recordId: int, data: seq<(string, string)>)

  function DataElems(data: seq<(string, string)>): (r: seq<Elem>)
    ensures |r| == |data|
  {
    if data == [] then [] else [Elem(Ns + "Data", map["Name" := data[0].0], Some(data[0].1), [])] + DataElems(data[1..])
  }

  function DataEntries(data: seq<(string, string)>): (r: seq<Entry>)
    ensures |r| == |data| && forall i :: 0 <= i < |data| ==> r[i] == Entry(data[i].0, Str(data[i].1))
  {
    if data == [] then [] else [Entry(data[0].0, Str(data[0].1))] + DataEntries(data[1..])
  }

  /** The element tree of a record, in the schema's layout. */
  function Render(r: Record): Elem {
    Elem(Ns + "Event", map[], None, [
      Elem(Ns + "System", map[], None, [
        Elem(Ns + "Provider", map["Name" := r.provider], None, []),
        Elem(Ns + "EventID", map[], Some(IntToString(r.eventId)), []),
        Elem(Ns + "EventRecordID", map[], Some(IntToString(r.recordId)), [])]),
      Elem(Ns + "EventData", map[], None, DataElems(r.data))])
  }

  /** Parsing a rendered record gives back its provider, its ids and its data
      items, when the item names are non-empty and distinct. */
  lemma RenderParse(r: Record, channel: string)
    requires forall i :: 0 <= i < |r.data| ==> r.data[i].0 != []
    requires forall i, j :: 0 <= i < j < |r.data| ==> r.data[i].0 != r.data[j].0
    ensures ParseEventXml(Parsed(Render(r)), channel) == Some(Event(channel, Some(r.provider), r.eventId, r.recordId, DataEntries(r.data)))
  {
    var system, provider := RenderFinds(r);
    ParseParts(Render(r), channel, system, provider);
    RenderItems(r);
    DistinctEntries(r.data);
    PutAllFresh([], DataEntries(r.data));
    assert [] + DataEntries(r.data) == DataEntries(r.data);
  }

  /** What the lookups of the parse find in a rendered record. */
  lemma RenderFinds(r: Record) returns (system: Elem, provider: Elem)
    ensures Find(Render(r), "System") == Some(system)
    ensures Find(system, "Provider") == Some(provider) && provider.attrs == map["Name" := r.provider]
    ensures IntChild(system, "EventID") == Some(r.eventId)
    ensures IntChild(system, "EventRecordID") == Some(r.recordId)
  {
    provider := Elem(Ns + "Provider", map["Name" := r.provider], None, []);
    var e := Elem(Ns + "EventID", map[], Some(IntToString(r.eventId)), []);
    var n := Elem(Ns + "EventRecordID", map[], Some(IntToString(r.recordId)), []);
    system := Elem(Ns + "System", map[], None, [provider, e, n]);
    assert Render(r).children[0] == system;
    hide Render, ParseInt, IntToString;
    ParseIntToString(r.eventId);
    ParseIntToString(r.recordId);
    TagsDiffer("Provider", "EventID");
    TagsDiffer("Provider", "EventRecordID");
    TagsDiffer("EventID", "EventRecordID");
    FindOfThree(provider, e, n, Ns + "EventID");
    FindOfThree(provider, e, n, Ns + "EventRecordID");
  }

  lemma FindOfThree(a: Elem, b: Elem, c: Elem, tag: string)
    ensures FindIn([a, b, c], tag) ==
      if a.tag == tag then Some(a) else if b.tag == tag then Some(b) else if c.tag == tag then Some(c) else None
  {
    assert [a, b, c][1..] == [b, c] && [b, c][1..] == [c] && [c][1..] == [];
  }

  lemma TagsDiffer(a: string, b: string)
    requires |a| != |b|
    ensures Ns + a != Ns + b
  {
    assert |Ns + a| != |Ns + b|;
  }

  lemma RenderItems(r: Record)
    requires forall i :: 0 <= i < |r.data| ==> r.data[i].0 != []
    ensures DataItems(Render(r)) + UserItems(Render(r)) == DataEntries(r.data)
  {
    var root := Render(r);
    assert Find(root, "EventData") == Some(root.children[1]);
    assert Find(root, "UserData").None?;
    DataItemsOf(r.data);
    AllNamed(DataElems(r.data), Ns + "Data");
    assert DataItems(root) == DataEntries(r.data);
  }

  /** The parse in terms of the elements its lookups find. */
  lemma ParseParts(root: Elem, channel: string, system: Elem, provider: Elem)
    requires Find(root, "System") == Some(system) && Find(system, "Provider") == Some(provider)
    requires IntChild(system, "EventID").Some? && IntChild(system, "EventRecordID").Some?
    ensures ParseEventXml(Parsed(root), channel) ==
      Some(Event(channel, if "Name" in provider.attrs then Some(provider.attrs["Name"]) else None,
                 IntChild(system, "EventID").value, IntChild(system, "EventRecordID").value,
                 PutAll([], DataItems(root) + UserItems(root))))
  {
  }

  lemma {:induction false} AllNamed(cs: seq<Elem>, tag: string)
    requires forall c :: c in cs ==> c.tag == tag
    ensures FlatMap(cs, Named(tag)) == cs
  {
    if cs != [] {
      AllNamed(cs[1..], tag);
      assert cs[0] in cs;
      ConsSlice(cs);
    }
  }

  lemma {:induction false} DataItemsOf(data: seq<(string, string)>)
    requires forall i :: 0 <= i < |data| ==> data[i].0 != []
    ensures forall c :: c in DataElems(data) ==> c.tag == Ns + "Data"
    ensures FlatMap(DataElems(data), DataItem) == DataEntries(data)
  {
    if data != [] {
      DataItemsOf(data[1..]);
      assert data[0].0 != [];
      var es := DataElems(data);
      assert es[1..] == DataElems(data[1..]);
    }
  }

  lemma DistinctEntries(data: seq<(string, string)>)
    requires forall i, j :: 0 <= i < j < |data| ==> data[i].0 != data[j].0
    ensures DistinctKeys(DataEntries(data))
  {
  }

  /** `dict` over items whose keys are all new keeps them in order. */
  lemma {:induction false} PutAllFresh(acc: seq<Entry>, items: seq<Entry>)
    requires DistinctKeys(acc + items)
    ensures PutAll(acc, items) == acc + items
    decreases |items|
  {
    if items != [] {
      var e := items[0];
      assert (acc + items)[|acc|] == e;
      assert forall i :: 0 <= i < |acc| ==> acc[i].key != e.key by {
        forall i | 0 <= i < |acc| ensures acc[i].key != e.key {
          assert (acc + items)[i] == acc[i];
        }
      }
      assert Put(acc, e.key, e.val) == acc + [e];
      assert acc + [e] + items[1..] == acc + items by { ConsSlice(items); ConcatAssoc(acc, [e], items[1..]); }
      PutAllFresh(acc + [e], items[1..]);
    }
  }
}
