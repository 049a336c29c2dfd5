/** `flatten_dict` of the Sigma rule engine: a nested event becomes one flat
    dictionary whose keys are the dotted, lowercased paths of its leaves. */
module SigmaFlatten {
  import opened Common
  import opened Values

  /** The key of a child: the parent path, a dot, the child's own key; at the top
      (an empty parent path) the child's key alone. */
  function NewKey(parent: string, k: string): string {
    if parent == "" then k else parent + "." + k
  }

  /** What the flattened dictionary may hold: no dictionaries, lowercase keys. */
  predicate FlatEntry(e: Entry) {
    !e.val.Dict? && Lower(e.key) == e.key
  }

  /** `flatten_dict(d, parent)` for a dictionary `d`. */
  function Flatten(d: Value, parent: string): (r: seq<Entry>)
    requires d.Dict?
    ensures DistinctKeys(r)
    ensures forall e :: e in r ==> FlatEntry(e)
    decreases d, 1
  {
    PutAll([], Items(d, d.entries, parent))
  }

  /** The items list the loop of `flatten_dict` builds before `dict(items)`. */
  function Items(ghost root: Value, entries: seq<Entry>, parent: string): (r: seq<Entry>)
    requires forall e :: e in entries ==> e.val < root
    ensures forall e :: e in r ==> FlatEntry(e)
    decreases root, 0, |entries|
  {
    if entries == [] then []
    else
      var e := entries[0];
      assert e in entries && forall x :: x in entries[1..] ==> x in entries;
      var nk := NewKey(parent, e.key);
      var here := if e.val.Dict? then Flatten(e.val, nk)
                  else (LowerIdempotent(nk); [Entry(Lower(nk), e.val)]);
      here + Items(root, entries[1..], parent)
  }

  /** The event flattened at the top level. */
  function FlattenDict(entries: seq<Entry>): (r: seq<Entry>)
    ensures DistinctKeys(r)
    ensures forall e :: e in r ==> FlatEntry(e)
  {
    Flatten(Dict(entries), "")
  }

  // ---------------------------------------------------------------------------
  // Reference definition: the leaves of the event with their full paths

  /** Every non-dictionary value of the event with its dotted path (not
      lowercased), in depth-first order. Lists are leaves. */
  function Leaves(d: Value, parent: string): seq<Entry>
    requires d.Dict?
    decreases d, 1
  {
    LeavesOf(d, d.entries, parent)
  }

  function LeavesOf(ghost root: Value, entries: seq<Entry>, parent: string): seq<Entry>
    requires forall e :: e in entries ==> e.val < root
    decreases root, 0, |entries|
  {
    if entries == [] then []
    else
      var e := entries[0];
      assert e in entries && forall x :: x in entries[1..] ==> x in entries;
      var nk := NewKey(parent, e.key);
      var here := if e.val.Dict? then Leaves(e.val, nk) else [Entry(nk, e.val)];
      here + LeavesOf(root, entries[1..], parent)
  }

  /** The value of the last leaf whose lowercased path is `k`. */
  function LastLeaf(leaves: seq<Entry>, k: string): Option<Value> {
    if leaves == [] then None
    else if Lower(leaves[|leaves| - 1].key) == k then Some(leaves[|leaves| - 1].val)
    else LastLeaf(leaves[..|leaves| - 1], k)
  }

  lemma {:induction false} LastLeafAppend(a: seq<Entry>, b: seq<Entry>, k: string)
    ensures LastLeaf(a + b, k) == if LastLeaf(b, k).Some? then LastLeaf(b, k) else LastLeaf(a, k)
    decreases |b|
  {
    if b == [] {
      assert a + b == a;
    } else {
      assert (a + b)[..|a + b| - 1] == a + b[..|b| - 1];
      LastLeafAppend(a, b[..|b| - 1], k);
    }
  }

  /** The flattened dictionary maps each key to the value of the last leaf (in
      depth-first order) whose lowercased dotted path is that key, and holds no
      other key. */
  lemma {:induction false} FlattenGet(d: Value, parent: string, k: string)
    requires d.Dict?
    ensures Get(Flatten(d, parent), k) == LastLeaf(Leaves(d, parent), k)
    decreases d, 1
  {
    GetPutAll([], Items(d, d.entries, parent), k);
    ItemsLast(d, d.entries, parent, k);
  }

  lemma {:induction false} ItemsLast(root: Value, entries: seq<Entry>, parent: string, k: string)
    requires forall e :: e in entries ==> e.val < root
    ensures Last(Items(root, entries, parent), k) == LastLeaf(LeavesOf(root, entries, parent), k)
    decreases root, 0, |entries|
  {
    hide Flatten, Leaves, NewKey, Lower;
    if entries != [] {
      var e := entries[0];
      assert e in entries && forall x :: x in entries[1..] ==> x in entries;
      var nk := NewKey(parent, e.key);
      var tail := Items(root, entries[1..], parent);
      var ltail := LeavesOf(root, entries[1..], parent);
      ItemsLast(root, entries[1..], parent, k);
      if e.val.Dict? {
        var here := Flatten(e.val, nk);
        LastAppend(here, tail, k);
        LastLeafAppend(Leaves(e.val, nk), ltail, k);
        LastDistinct(here, k);
        FlattenGet(e.val, nk, k);
      } else {
        LowerIdempotent(nk);
        LastAppend([Entry(Lower(nk), e.val)], tail, k);
        LastLeafAppend([Entry(nk, e.val)], ltail, k);
        assert [Entry(Lower(nk), e.val)][..0] == [];
        assert [Entry(nk, e.val)][..0] == [];
      }
    }
  }

  /** Top-level form: `flatten_dict(event).get(k)` is the last leaf at a path whose
      lowercase is `k`; in particular a key is present exactly when such a leaf
      exists. */
  lemma FlattenDictGet(entries: seq<Entry>, k: string)
    ensures Get(FlattenDict(entries), k) == LastLeaf(Leaves(Dict(entries), ""), k)
  {
    FlattenGet(Dict(entries), "", k);
  }

  /** Flattening an already flat dictionary with lowercase keys returns it
      unchanged for lookups. */
  lemma {:induction false} FlattenFlat(entries: seq<Entry>, k: string)
    requires DistinctKeys(entries) && forall e :: e in entries ==> FlatEntry(e)
    ensures Get(FlattenDict(entries), k) == Get(entries, k)
  {
    FlattenDictGet(entries, k);
    LeavesOfFlat(Dict(entries), entries, k);
    LastDistinct(entries, k);
  }

  lemma {:induction false} LeavesOfFlat(root: Value, entries: seq<Entry>, k: string)
    requires forall e :: e in entries ==> e.val < root
    requires forall e :: e in entries ==> FlatEntry(e)
    ensures LastLeaf(LeavesOf(root, entries, ""), k) == Last(entries, k)
    decreases |entries|
  {
    if entries != [] {
      var e := entries[0];
      assert e in entries && forall x :: x in entries[1..] ==> x in entries;
      LeavesOfFlat(root, entries[1..], k);
      FlatLeafFirst(root, entries);
      LastLeafAppend([e], LeavesOf(root, entries[1..], ""), k);
      LastFirst(e, entries[1..], k);
      Common.ConsSlice(entries);
      hide LeavesOf, LastLeaf, Last;
      assert [e][..0] == [];
    }
  }

  /** A flat entry at the top level is its own leaf. */
  lemma FlatLeafFirst(root: Value, entries: seq<Entry>)
    requires entries != [] && FlatEntry(entries[0])
    requires forall e :: e in entries ==> e.val < root
    ensures LeavesOf(root, entries, "") == [entries[0]] + LeavesOf(root, entries[1..], "")
  {
    assert entries[0] in entries && forall x :: x in entries[1..] ==> x in entries;
  }
}
