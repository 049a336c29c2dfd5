/** Structured values as the YAML and JSON loaders hand them to the modelled code,
    with the parts of Python's object protocol the code uses on them: truthiness,
    `str()`, dictionary lookup and insertion, and `json.dumps`. Floating-point
    numbers and dates are not part of this model. */
module Values {
  import opened Common

  datatype Value =
    | Null
    | Bool(b: bool)
    | Int(i: int)
    | Str(s: string)
    | List(items: seq<Value>)
    | Dict(entries: seq<Entry>)

  /** One key/value pair of a dictionary, in insertion order. */
  datatype Entry = Entry(key: string, val: Value)

  /** Python truthiness: `None`, `False`, `0`, `''`, `[]` and `{}` are false. */
  predicate Truthy(v: Value) {
    match v
    case Null => false
    case Bool(b) => b
    case Int(i) => i != 0
    case Str(s) => s != []
    case List(items) => items != []
    case Dict(entries) => entries != []
  }

  // ---------------------------------------------------------------------------
  // Dictionaries (insertion-ordered, keys distinct)

  function Keys(entries: seq<Entry>): (r: seq<string>)
    ensures |r| == |entries|
    ensures forall i :: 0 <= i < |entries| ==> r[i] == entries[i].key
  {
    if entries == [] then [] else [entries[0].key] + Keys(entries[1..])
  }

  predicate DistinctKeys(entries: seq<Entry>) {
    forall i, j :: 0 <= i < j < |entries| ==> entries[i].key != entries[j].key
  }

  /** Index of the entry for `k`, if any. */
  function IndexOf(entries: seq<Entry>, k: string): (r: Option<nat>)
    ensures r.None? <==> forall i :: 0 <= i < |entries| ==> entries[i].key != k
    ensures r.Some? ==> r.value < |entries| && entries[r.value].key == k
    ensures r.Some? ==> forall i :: 0 <= i < r.value ==> entries[i].key != k
  {
    if entries == [] then None
    else if entries[0].key == k then Some(0)
    else match IndexOf(entries[1..], k)
      case None => None
      case Some(j) => Some(j + 1)
  }

  /** `d.get(k)`: `None` when the key is absent. */
  function Get(entries: seq<Entry>, k: string): (r: Option<Value>)
    ensures r.None? <==> forall i :: 0 <= i < |entries| ==> entries[i].key != k
    ensures r.Some? ==> exists i :: 0 <= i < |entries| && entries[i] == Entry(k, r.value)
  {
    match IndexOf(entries, k)
    case None => None
    case Some(i) => Some(entries[i].val)
  }

  /** `d[k] = v`: an existing key keeps its position and takes the new value, a new
      key is appended. */
  function Put(entries: seq<Entry>, k: string, v: Value): (r: seq<Entry>)
    ensures Get(r, k) == Some(v)
    ensures forall k' :: k' != k ==> Get(r, k') == Get(entries, k')
    ensures DistinctKeys(entries) ==> DistinctKeys(r)
    ensures |r| == |entries| || |r| == |entries| + 1
    ensures forall e :: e in r ==> e in entries || e == Entry(k, v)
  {
    match IndexOf(entries, k)
    case None =>
      var r := entries + [Entry(k, v)];
      assert forall k' :: k' != k ==> Get(r, k') == Get(entries, k') by {
        forall k' | k' != k ensures Get(r, k') == Get(entries, k') {
          IndexOfAppend(entries, Entry(k, v), k');
        }
      }
      IndexOfAppend(entries, Entry(k, v), k);
      r
    case Some(i) =>
      var r := entries[i := Entry(k, v)];
      assert forall e :: e in r ==> e in entries || e == Entry(k, v) by {
        forall e | e in r ensures e in entries || e == Entry(k, v) {
          var j :| 0 <= j < |r| && r[j] == e;
          if j != i { assert e == entries[j]; }
        }
      }
      assert forall k' :: IndexOf(r, k') == IndexOf(entries, k') by {
        forall k' ensures IndexOf(r, k') == IndexOf(entries, k') {
          IndexOfUpdate(entries, i, v, k');
        }
      }
      r
  }

  lemma {:induction false} IndexOfAppend(entries: seq<Entry>, e: Entry, k: string)
    ensures IndexOf(entries + [e], k) ==
      (if IndexOf(entries, k).Some? then IndexOf(entries, k)
       else if e.key == k then Some(|entries|) else None)
  {
    if entries != [] {
      IndexOfAppend(entries[1..], e, k);
      assert (entries + [e])[1..] == entries[1..] + [e];
    }
  }

  lemma {:induction false} IndexOfUpdate(entries: seq<Entry>, i: nat, v: Value, k: string)
    requires i < |entries|
    ensures IndexOf(entries[i := Entry(entries[i].key, v)], k) == IndexOf(entries, k)
  {
    if i > 0 {
      IndexOfUpdate(entries[1..], i - 1, v, k);
      assert entries[i := Entry(entries[i].key, v)][1..] == entries[1..][i - 1 := Entry(entries[i].key, v)];
    }
  }

  // ---------------------------------------------------------------------------
  // str() and repr()

  function BoolText(b: bool): string {
    if b then "True" else "False"
  }

  /** Python's `repr` for the values the model carries (strings are shown between
      single quotes, without the escaping `repr` would add). */
  function Repr(v: Value): string
    decreases v, 1
  {
    match v
    case Null => "None"
    case Bool(b) => BoolText(b)
    case Int(i) => IntToString(i)
    case Str(s) => "'" + s + "'"
    case List(items) => "[" + ReprItems(v, items) + "]"
    case Dict(entries) => "{" + ReprEntries(v, entries) + "}"
  }

  function ReprItems(ghost parent: Value, items: seq<Value>): string
    requires forall x :: x in items ==> x < parent
    decreases parent, 0, |items|
  {
    if items == [] then ""
    else
      assert items[0] in items && forall x :: x in items[1..] ==> x in items;
      if |items| == 1 then Repr(items[0])
    else Repr(items[0]) + ", " + ReprItems(parent, items[1..])
  }

  function ReprEntries(ghost parent: Value, entries: seq<Entry>): string
    requires forall e :: e in entries ==> e.val < parent
    decreases parent, 0, |entries|
  {
    if entries == [] then ""
    else
      var head := "'" + entries[0].key + "': " + Repr(entries[0].val);
      if |entries| == 1 then head else head + ", " + ReprEntries(parent, entries[1..])
  }

  /** Python's `str(v)`: a string is itself, anything else its `repr`. */
  function ToStr(v: Value): (r: string)
    ensures v.Str? ==> r == v.s
  {
    if v.Str? then v.s else Repr(v)
  }

  // ---------------------------------------------------------------------------
  // json.dumps(v, ensure_ascii=False)

  function HexDigit(d: nat): char
    requires d < 16
  {
    if d < 10 then ('0' as int + d) as char else ('a' as int + d - 10) as char
  }

  /** The escape `json.dumps` writes for one character of a string. */
  function EscapeChar(c: char): (r: string)
    ensures '\n' !in r && '\r' !in r
  {
    if c == '"' then "\\\""
    else if c == '\\' then "\\\\"
    else if c == '\n' then "\\n"
    else if c == '\r' then "\\r"
    else if c == '\t' then "\\t"
    else if c == '\U{0008}' then "\\b"
    else if c == '\U{000C}' then "\\f"
    else if (c as int) < 32 then "\\u00" + [HexDigit(c as int / 16), HexDigit(c as int % 16)]
    else [c]
  }

  function EscapeJson(s: string): (r: string)
    ensures '\n' !in r && '\r' !in r
  {
    if s == [] then "" else EscapeChar(s[0]) + EscapeJson(s[1..])
  }

  function JsonString(s: string): (r: string)
    ensures '\n' !in r && '\r' !in r
  {
    "\"" + EscapeJson(s) + "\""
  }

  /** `json.dumps(v, ensure_ascii=False)` with its default separators. */
  function Dumps(v: Value): string
    decreases v, 1
  {
    match v
    case Null => "null"
    case Bool(b) => if b then "true" else "false"
    case Int(i) => IntToString(i)
    case Str(s) => JsonString(s)
    case List(items) => "[" + DumpsItems(v, items) + "]"
    case Dict(entries) => "{" + DumpsEntries(v, entries) + "}"
  }

  function DumpsItems(ghost parent: Value, items: seq<Value>): string
    requires forall x :: x in items ==> x < parent
    decreases parent, 0, |items|
  {
    if items == [] then ""
    else
      assert items[0] in items && forall x :: x in items[1..] ==> x in items;
      if |items| == 1 then Dumps(items[0])
    else Dumps(items[0]) + ", " + DumpsItems(parent, items[1..])
  }

  function DumpsEntries(ghost parent: Value, entries: seq<Entry>): string
    requires forall e :: e in entries ==> e.val < parent
    decreases parent, 0, |entries|
  {
    if entries == [] then ""
    else
      var head := JsonString(entries[0].key) + ": " + Dumps(entries[0].val);
      if |entries| == 1 then head else head + ", " + DumpsEntries(parent, entries[1..])
  }

  /** A serialised value never spans lines: `json.dumps` escapes every line break
      inside strings and inserts none of its own. */
  lemma {:induction false} DumpsSingleLine(v: Value)
    ensures '\n' !in Dumps(v) && '\r' !in Dumps(v)
    decreases v, 1
  {
    match v
    case Null =>
    case Bool(b) =>
    case Int(i) =>
    case Str(s) =>
    case List(items) => DumpsItemsSingleLine(v, items);
    case Dict(entries) => DumpsEntriesSingleLine(v, entries);
  }

  lemma {:induction false} DumpsItemsSingleLine(parent: Value, items: seq<Value>)
    requires forall x :: x in items ==> x < parent
    ensures '\n' !in DumpsItems(parent, items) && '\r' !in DumpsItems(parent, items)
    decreases parent, 0, |items|
  {
    if items != [] {
      assert items[0] in items && forall x :: x in items[1..] ==> x in items;
      DumpsSingleLine(items[0]);
      if |items| > 1 {
        DumpsItemsSingleLine(parent, items[1..]);
      }
    }
  }

  lemma {:induction false} DumpsEntriesSingleLine(parent: Value, entries: seq<Entry>)
    requires forall e :: e in entries ==> e.val < parent
    ensures '\n' !in DumpsEntries(parent, entries) && '\r' !in DumpsEntries(parent, entries)
    decreases parent, 0, |entries|
  {
    if entries != [] {
      DumpsSingleLine(entries[0].val);
      if |entries| > 1 {
        DumpsEntriesSingleLine(parent, entries[1..]);
      }
    }
  }

  // ---------------------------------------------------------------------------
  // Building a dictionary item by item

  /** `dict(items)`: later items overwrite earlier ones with the same key. */
  function PutAll(acc: seq<Entry>, items: seq<Entry>): (r: seq<Entry>)
    ensures DistinctKeys(acc) ==> DistinctKeys(r)
    ensures forall e :: e in r ==> e in acc || e in items
    decreases |items|
  {
    if items == [] then acc else PutAll(Put(acc, items[0].key, items[0].val), items[1..])
  }

  /** The value of the last item whose key is exactly `k`. */
  function Last(items: seq<Entry>, k: string): Option<Value> {
    if items == [] then None
    else if items[|items| - 1].key == k then Some(items[|items| - 1].val)
    else Last(items[..|items| - 1], k)
  }

  lemma {:induction false} LastAppend(a: seq<Entry>, b: seq<Entry>, k: string)
    ensures Last(a + b, k) == if Last(b, k).Some? then Last(b, k) else Last(a, k)
    decreases |b|
  {
    if b == [] {
      assert a + b == a;
    } else {
      assert (a + b)[..|a + b| - 1] == a + b[..|b| - 1];
      LastAppend(a, b[..|b| - 1], k);
    }
  }

  lemma {:induction false} LastFirst(x: Entry, rest: seq<Entry>, k: string)
    ensures Last([x] + rest, k) == if Last(rest, k).Some? then Last(rest, k)
                                   else if x.key == k then Some(x.val) else None
  {
    LastAppend([x], rest, k);
    assert [x][..0] == [];
  }

  /** In a dictionary without repeated keys the last item for a key is its entry. */
  lemma {:induction false} LastDistinct(items: seq<Entry>, k: string)
    requires DistinctKeys(items)
    ensures Last(items, k) == Get(items, k)
    decreases |items|
  {
    if items != [] {
      var init := items[..|items| - 1];
      LastDistinct(init, k);
      IndexOfAppend(init, items[|items| - 1], k);
      assert init + [items[|items| - 1]] == items;
    }
  }

  /** Looking a key up after `dict(items)` over an initial dictionary. */
  lemma {:induction false} GetPutAll(acc: seq<Entry>, items: seq<Entry>, k: string)
    ensures Get(PutAll(acc, items), k) == if Last(items, k).Some? then Last(items, k) else Get(acc, k)
    decreases |items|
  {
    if items != [] {
      var x := items[0];
      GetPutAll(Put(acc, x.key, x.val), items[1..], k);
      LastFirst(x, items[1..], k);
      ConsSlice(items);
      hide PutAll, Last;
    }
  }
}
