/** The NICTER trend report: the cached darknet observations are split into
    per-country and per-port host counts, each list is sorted by count,
    largest first, and cut to its first `top_n` entries. */
module Nicter {
  import opened Common
  import opened Values
  import Sorting

  const CountryType: string := "国別ユニークホスト数"
  const ServiceType: string := "TCPポート別ユニークホスト数"

  // ---------------------------------------------------------------------------
  // Rows and their grouping

  /** One entry of either result list: the threat's `name` and its observed host
      count, `Null` where the threat has no such key. */
  datatype Row = Row(name: Value, count: Value)

  /** `threat.get(k)` on a dictionary. */
  function Field(entries: seq<Entry>, k: string): (r: Value)
    ensures r != Null ==> Get(entries, k) == Some(r)
  {
    match Get(entries, k)
    case None => Null
    case Some(v) => v
  }

  function RowOf(entries: seq<Entry>): Row {
    Row(Field(entries, "name"), Field(entries, "count"))
  }

  /** The two lists the classifying loop builds. */
  datatype Grouped = Grouped(countries: seq<Row>, services: seq<Row>)

  /** What one dictionary threat adds: a row to the list its `type` names, and
      nothing for any other type. */
  function Add(g: Grouped, entries: seq<Entry>): Grouped {
    var kind := Field(entries, "type");
    if kind == Str(CountryType) then g.(countries := g.countries + [RowOf(entries)])
    else if kind == Str(ServiceType) then g.(services := g.services + [RowOf(entries)])
    else g
  }

  /** The classifying loop over the threats in order; a threat that is not a
      dictionary has no `get` and stops the report with an error. */
  function Classify(data: seq<Value>): (r: Result<Grouped>)
    decreases |data|
  {
    if data == [] then Ok(Grouped([], []))
    else
      match Classify(data[..|data| - 1])
      case Err => Err
      case Ok(g) =>
        var t := data[|data| - 1];
        if t.Dict? then Ok(Add(g, t.entries)) else Err
  }

  /** The rows of the threats of one type, in feed order: a reference
      definition of one result list, built from the front. */
  function Pick(data: seq<Value>, kind: string): seq<Row> {
    if data == [] then []
    else
      var t := data[0];
      (if t.Dict? && Field(t.entries, "type") == Str(kind) then [RowOf(t.entries)] else [])
      + Pick(data[1..], kind)
  }

  // ---------------------------------------------------------------------------
  // Ordering by host count

  /** How Python compares two counts: numbers (a `bool` is 0 or 1) with each
      other, strings with each other by code points; any other pairing raises. */
  datatype Key = Num(n: int) | Text(s: string) | Other

  function KeyOf(v: Value): Key {
    match v
    case Int(i) => Num(i)
    case Bool(b) => Num(if b then 1 else 0)
    case Str(s) => Text(s)
    case _ => Other
  }

  /** Lexicographic order on code points. */
  predicate TextLe(a: string, b: string) {
    a == [] || (b != [] && (a[0] < b[0] || (a[0] == b[0] && TextLe(a[1..], b[1..]))))
  }

  function Rank(k: Key): nat {
    match k
    case Num(_) => 0
    case Text(_) => 1
    case Other => 2
  }

  /** A total preorder on keys that agrees with Python's `<=` wherever Python can
      compare the two; keys it cannot compare are only ordered by kind. */
  predicate KeyLe(x: Key, y: Key) {
    if Rank(x) != Rank(y) then Rank(x) < Rank(y)
    else match x
      case Num(m) => m <= y.n
      case Text(s) => TextLe(s, y.s)
      case Other => true
  }

  /** The order of `sorted(..., key=count, reverse=True)`: `a` may come before
      `b` when its count is not smaller. */
  predicate MoreHosts(a: Row, b: Row) {
    KeyLe(KeyOf(b.count), KeyOf(a.count))
  }

  /** The counts can be sorted without a `TypeError`: with two rows or more every
      count must be a number, or every count a string. */
  predicate Comparable(rows: seq<Row>) {
    |rows| <= 1
    || (forall k :: 0 <= k < |rows| ==> KeyOf(rows[k].count).Num?)
    || (forall k :: 0 <= k < |rows| ==> KeyOf(rows[k].count).Text?)
  }

  /** One list sorted by count, largest first, equal counts in feed order. */
  function Ranked(rows: seq<Row>): (r: Result<seq<Row>>)
    ensures r.Ok? <==> Comparable(rows)
    ensures r.Ok? ==> multiset(r.value) == multiset(rows)
    ensures r.Ok? ==> Sorting.Sorted(r.value, MoreHosts)
  {
    if Comparable(rows) then
      Sorting.SortPerm(rows, MoreHosts);
      MoreHostsPreorder();
      Sorting.SortSorted(rows, MoreHosts);
      Ok(Sorting.Sort(rows, MoreHosts))
    else Err
  }

  // ---------------------------------------------------------------------------
  // The report

  datatype Trends = NotLoaded | Report(countries: seq<Row>, services: seq<Row>)
  {
    const error := "NICTERデータがロードされていません。"
    const verdict := "情報あり"
    const detail := "NICTERのダークネット観測網における最新の攻撃傾向トップ5です。"
  }

  /** `get_top_attack_trends(top_n)`: no data gives the error report; otherwise
      both lists are ranked and cut to `top_n` entries. */
  function TopAttackTrends(data: seq<Value>, topN: int): (r: Result<Trends>)
    ensures (r == Ok(NotLoaded)) <==> (data == [])
    ensures data != [] ==> (r.Err? <==> (Classify(data).Err?
      || !Comparable(Classify(data).value.countries)
      || !Comparable(Classify(data).value.services)))
    ensures r.Ok? && r.value.Report? ==>
      Sorting.Sorted(r.value.countries, MoreHosts) && Sorting.Sorted(r.value.services, MoreHosts)
    ensures r.Ok? && r.value.Report? && 0 <= topN ==>
      |r.value.countries| <= topN && |r.value.services| <= topN
    ensures r.Ok? && r.value.Report? ==>
      Classify(data).Ok?
      && Ranked(Classify(data).value.countries).Ok? && Ranked(Classify(data).value.services).Ok?
      && r.value.countries == Head(Ranked(Classify(data).value.countries).value, topN)
      && r.value.services == Head(Ranked(Classify(data).value.services).value, topN)
  {
    if data == [] then Ok(NotLoaded)
    else
      match Classify(data)
      case Err => Err
      case Ok(g) =>
        match Ranked(g.countries)
        case Err => Err
        case Ok(c) =>
          match Ranked(g.services)
          case Err => Err
          case Ok(s) =>
            SortedPrefix(c, topN);
            SortedPrefix(s, topN);
            Ok(Report(Head(c, topN), Head(s, topN)))
  }

  // ---------------------------------------------------------------------------
  // Properties of the order

  lemma {:induction false} TextLeTotal(a: string, b: string)
    ensures TextLe(a, b) || TextLe(b, a)
    decreases |a|
  {
    if a != [] && b != [] && a[0] == b[0] {
      TextLeTotal(a[1..], b[1..]);
    }
  }

  lemma {:induction false} TextLeTrans(a: string, b: string, c: string)
    requires TextLe(a, b) && TextLe(b, c)
    ensures TextLe(a, c)
    decreases |a|
  {
    if a != [] && b != [] && c != [] && a[0] == b[0] == c[0] {
      TextLeTrans(a[1..], b[1..], c[1..]);
    }
  }

  lemma KeyLeTotal(x: Key, y: Key)
    ensures KeyLe(x, y) || KeyLe(y, x)
  {
    if x.Text? && y.Text? {
      TextLeTotal(x.s, y.s);
    }
  }

  lemma KeyLeTrans(x: Key, y: Key, z: Key)
    requires KeyLe(x, y) && KeyLe(y, z)
    ensures KeyLe(x, z)
  {
    if x.Text? && y.Text? && z.Text? {
      TextLeTrans(x.s, y.s, z.s);
    }
  }

  /** The descending order is a total preorder, so the stable sort applies. */
  lemma MoreHostsPreorder()
    ensures Sorting.TotalPreorder(MoreHosts)
  {
    forall a: Row, b: Row
      ensures MoreHosts(a, b) || MoreHosts(b, a)
    {
      KeyLeTotal(KeyOf(a.count), KeyOf(b.count));
    }
    forall a: Row, b: Row, c: Row | MoreHosts(a, b) && MoreHosts(b, c)
      ensures MoreHosts(a, c)
    {
      KeyLeTrans(KeyOf(c.count), KeyOf(b.count), KeyOf(a.count));
    }
  }

  /** On numeric counts the order is "not fewer hosts". */
  lemma MoreHostsNumbers(a: Row, b: Row)
    requires KeyOf(a.count).Num? && KeyOf(b.count).Num?
    ensures MoreHosts(a, b) <==> KeyOf(a.count).n >= KeyOf(b.count).n
  {
  }

  /** A prefix of an ordered list is ordered. */
  lemma SortedPrefix(s: seq<Row>, n: int)
    requires Sorting.Sorted(s, MoreHosts)
    ensures Sorting.Sorted(Head(s, n), MoreHosts)
  {
    var h := Head(s, n);
    forall i, j | 0 <= i < j < |h|
      ensures MoreHosts(h[i], h[j])
    {
      assert h[i] == s[i] && h[j] == s[j];
    }
  }

  // ---------------------------------------------------------------------------
  // Properties of the grouping

  lemma PickAppend(a: seq<Value>, b: seq<Value>, kind: string)
    ensures Pick(a + b, kind) == Pick(a, kind) + Pick(b, kind)
    decreases |a|
  {
    hide RowOf, Field;
    if a == [] {
      assert a + b == b;
    } else {
      assert (a + b)[1..] == a[1..] + b;
      PickAppend(a[1..], b, kind);
    }
  }

  /** Each list holds exactly the rows of the threats of its type, in feed order;
      threats of every other type are ignored. */
  lemma {:induction false} ClassifyPicks(data: seq<Value>)
    requires Classify(data).Ok?
    ensures Classify(data).value.countries == Pick(data, CountryType)
    ensures Classify(data).value.services == Pick(data, ServiceType)
    decreases |data|
  {
    if data != [] {
      var init, t := data[..|data| - 1], data[|data| - 1];
      ClassifyPicks(init);
      assert data == init + [t];
      PickAppend(init, [t], CountryType);
      PickAppend(init, [t], ServiceType);
      hide RowOf, Field;
      assert Pick([t], CountryType) == (if t.Dict? && Field(t.entries, "type") == Str(CountryType) then [RowOf(t.entries)] else []);
      assert Pick([t], ServiceType) == (if t.Dict? && Field(t.entries, "type") == Str(ServiceType) then [RowOf(t.entries)] else []);
    }
  }

  /** The loop fails exactly when some threat is not a dictionary. */
  lemma {:induction false} ClassifyErr(data: seq<Value>)
    ensures Classify(data).Err? <==> exists i :: 0 <= i < |data| && !data[i].Dict?
    decreases |data|
  {
    if data != [] {
      var init := data[..|data| - 1];
      ClassifyErr(init);
      hide Add;
      if Classify(init).Err? {
        var i :| 0 <= i < |init| && !init[i].Dict?;
        assert data[i] == init[i];
      } else if data[|data| - 1].Dict? {
        forall i | 0 <= i < |data|
          ensures data[i].Dict?
        {
          if i < |init| {
            assert data[i] == init[i];
          }
        }
      }
    }
  }

  // ---------------------------------------------------------------------------
  // Properties of the cut

  /** The report's list is the `top_n` largest rows: every row kept has at least
      as many hosts as every row cut, and nothing is kept that was not observed. */
  lemma TopAreLargest(rows: seq<Row>, n: int)
    requires Comparable(rows)
    ensures var s := Ranked(rows).value; var top := Head(s, n);
      multiset(top) <= multiset(rows)
      && forall i, j :: 0 <= i < |top| <= j < |s| ==> MoreHosts(top[i], s[j])
  {
    var s := Ranked(rows).value;
    hide Ranked, MoreHosts, Comparable;
    var top := Head(s, n);
    assert s == top + s[|top|..];
  }

  /** Rows with equal counts keep the order of the feed. */
  lemma RankedStable(rows: seq<Row>, z: Row)
    requires Comparable(rows)
    ensures Sorting.Class(Ranked(rows).value, MoreHosts, z) == Sorting.Class(rows, MoreHosts, z)
  {
    MoreHostsPreorder();
    Sorting.SortStable(rows, MoreHosts, z);
  }

  /** With numeric counts the list reads largest count first. */
  lemma RankedDescending(rows: seq<Row>)
    requires forall k :: 0 <= k < |rows| ==> KeyOf(rows[k].count).Num?
    ensures var s := Ranked(rows).value;
      forall i, j :: 0 <= i < j < |s| ==>
        KeyOf(s[i].count).Num? && KeyOf(s[j].count).Num? && KeyOf(s[i].count).n >= KeyOf(s[j].count).n
  {
    var s := Ranked(rows).value;
    forall i, j | 0 <= i < j < |s|
      ensures KeyOf(s[i].count).Num? && KeyOf(s[j].count).Num? && KeyOf(s[i].count).n >= KeyOf(s[j].count).n
    {
      assert s[i] in multiset(rows) && s[j] in multiset(rows);
      assert MoreHosts(s[i], s[j]);
    }
  }
}
