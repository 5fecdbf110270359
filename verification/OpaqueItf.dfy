/** Checked snapshots of protocol values: structural limits and uniqueness. */
module OpaqueItf {
  import opened JsonText
  import opened Itf
  import opened ValueIdentity

  const MAX_DEPTH := 64
  const MAX_NODES := 10_000

  ghost predicate NoDuplicates(values: seq<Value>) {
    forall i, j :: 0 <= i < j < |values| ==> !Same(values[i], values[j])
  }

  function Keys(entries: seq<Entry>): (r: seq<Value>)
    ensures |r| == |entries| && forall i :: 0 <= i < |r| ==> r[i] == entries[i].key
  {
    seq(|entries|, i requires 0 <= i < |entries| => entries[i].key)
  }

  // ----- What a snapshot accepts -----

  function Size(v: Value): nat
    decreases v
  {
    1 + match v
      case Set(items) => SizeItems(items)
      case Seq(items) => SizeItems(items)
      case Tuple(items) => SizeItems(items)
      case Record(fields) => SizeFields(fields)
      case Map(entries) => SizeEntries(entries)
      case Variant(_, value) => Size(value)
      case _ => 0
  }

  function SizeItems(items: seq<Value>): nat
    decreases items
  {
    if items == [] then 0 else Size(items[0]) + SizeItems(items[1..])
  }

  function SizeFields(fields: seq<Field>): nat
    decreases fields
  {
    if fields == [] then 0 else Size(fields[0].value) + SizeFields(fields[1..])
  }

  function SizeEntries(entries: seq<Entry>): nat
    decreases entries
  {
    if entries == [] then 0 else SizeEntry(entries[0]) + SizeEntries(entries[1..])
  }

  function SizeEntry(e: Entry): nat
    decreases e
  {
    Size(e.key) + Size(e.value)
  }

  /** No chain of nested values is longer than `d + 1`. */
  predicate Shallow(v: Value, d: int)
    decreases v
  {
    d >= 0 && match v
      case Set(items) => forall i :: 0 <= i < |items| ==> Shallow(items[i], d - 1)
      case Seq(items) => forall i :: 0 <= i < |items| ==> Shallow(items[i], d - 1)
      case Tuple(items) => forall i :: 0 <= i < |items| ==> Shallow(items[i], d - 1)
      case Record(fields) => forall i :: 0 <= i < |fields| ==> Shallow(fields[i].value, d - 1)
      case Map(entries) => forall i :: 0 <= i < |entries| ==> Shallow(entries[i].key, d - 1) && Shallow(entries[i].value, d - 1)
      case Variant(_, value) => Shallow(value, d - 1)
      case _ => true
  }

  /** Sets have no equal elements and maps no equal keys, at any depth. */
  ghost predicate Unambiguous(v: Value)
    decreases v
  {
    match v
    case Set(items) => NoDuplicates(items) && forall i :: 0 <= i < |items| ==> Unambiguous(items[i])
    case Seq(items) => forall i :: 0 <= i < |items| ==> Unambiguous(items[i])
    case Tuple(items) => forall i :: 0 <= i < |items| ==> Unambiguous(items[i])
    case Record(fields) => forall i :: 0 <= i < |fields| ==> Unambiguous(fields[i].value)
    case Map(entries) =>
      NoDuplicates(Keys(entries))
      && forall i :: 0 <= i < |entries| ==> Unambiguous(entries[i].key) && Unambiguous(entries[i].value)
    case Variant(_, value) => Unambiguous(value)
    case _ => true
  }

  ghost predicate Acceptable(v: Value) {
    Shallow(v, MAX_DEPTH) && Size(v) <= MAX_NODES && Unambiguous(v)
  }

  ghost predicate AllFit(values: seq<Value>) {
    forall i :: 0 <= i < |values| ==> Acceptable(values[i])
  }

  /** Every element passes the snapshot limits and no two are equal. */
  ghost predicate UniqueValues(values: seq<Value>) {
    AllFit(values) && NoDuplicates(values)
  }

  // ----- The checks as they run -----

  ghost predicate DistinctTexts(texts: seq<Text>) {
    forall i, j :: 0 <= i < j < |texts| ==> texts[i] != texts[j]
  }

  function Identities(values: seq<Value>): (r: seq<Text>)
    ensures |r| == |values| && forall i :: 0 <= i < |r| ==> r[i] == Identity(values[i])
  {
    seq(|values|, i requires 0 <= i < |values| => Identity(values[i]))
  }

  lemma {:induction false} DistinctIdentities(values: seq<Value>)
    requires forall i :: 0 <= i < |values| ==> WellFormed(values[i])
    ensures DistinctTexts(Identities(values)) <==> NoDuplicates(values)
  {
    forall i, j | 0 <= i < j < |values| ensures Identities(values)[i] == Identities(values)[j] <==> Same(values[i], values[j]) {
      IdentityIsEquality(values[i], values[j]);
    }
  }

  /** One pass with the set of texts seen so far. */
  method AllDistinct(texts: seq<Text>) returns (ok: bool)
    ensures ok <==> DistinctTexts(texts)
  {
    var seen: set<Text> := {};
    for i := 0 to |texts|
      invariant forall t :: t in seen <==> exists k :: 0 <= k < i && texts[k] == t
      invariant DistinctTexts(texts[..i])
    {
      if texts[i] in seen { return false; }
      assert texts[..i + 1] == texts[..i] + [texts[i]];
      seen := seen + {texts[i]};
    }
    assert texts[..|texts|] == texts;
    return true;
  }

  /** The duplicate check rejects exactly the sequences with two elements that
      are equal up to order. */
  method Unique(values: seq<Value>) returns (ok: bool)
    requires forall i :: 0 <= i < |values| ==> WellFormed(values[i])
    ensures ok <==> NoDuplicates(values)
  {
    DistinctIdentities(values);
    ok := AllDistinct(Identities(values));
  }

  /** One traversal; `nodes` counts every value visited so far. */
  class Snapshot {
    var nodes: nat

    constructor ()
      ensures nodes == 0
    {
      nodes := 0;
    }

    /** Visiting succeeds exactly when the value fits in what is left of the limits. */
    method Visit(v: Value, depth: nat) returns (ok: bool)
      requires WellFormed(v) && nodes <= MAX_NODES
      modifies this
      ensures ok <==> Shallow(v, MAX_DEPTH - depth) && old(nodes) + Size(v) <= MAX_NODES && Unambiguous(v)
      ensures ok ==> nodes == old(nodes) + Size(v)
      decreases v, 1
    {
      if depth > MAX_DEPTH { return false; }
      nodes := nodes + 1;
      if nodes > MAX_NODES { return false; }
      match v {
        case Set(items) => ok := VisitSet(items, depth + 1);
        case Seq(items) => ok := VisitItems(items, depth + 1);
        case Tuple(items) => ok := VisitItems(items, depth + 1);
        case Record(fields) => ok := VisitFields(fields, depth + 1);
        case Map(entries) => ok := VisitMap(entries, depth + 1);
        case Variant(_, value) => ok := Visit(value, depth + 1);
        case _ => ok := true;
      }
    }

    method VisitSet(items: seq<Value>, depth: nat) returns (ok: bool)
      requires forall i :: 0 <= i < |items| ==> WellFormed(items[i])
      requires nodes <= MAX_NODES
      modifies this
      ensures ok <==> (forall i :: 0 <= i < |items| ==> Shallow(items[i], MAX_DEPTH - depth) && Unambiguous(items[i]))
                      && old(nodes) + SizeItems(items) <= MAX_NODES && NoDuplicates(items)
      ensures ok ==> nodes == old(nodes) + SizeItems(items)
      decreases items, 1
    {
      ok := VisitItems(items, depth);
      if ok { ok := Unique(items); }
    }

    method VisitMap(entries: seq<Entry>, depth: nat) returns (ok: bool)
      requires forall i :: 0 <= i < |entries| ==> WellFormed(entries[i].key) && WellFormed(entries[i].value)
      requires nodes <= MAX_NODES
      modifies this
      ensures ok <==> (forall i :: 0 <= i < |entries| ==> EntryFits(entries[i], depth))
                      && old(nodes) + SizeEntries(entries) <= MAX_NODES && NoDuplicates(Keys(entries))
      ensures ok ==> nodes == old(nodes) + SizeEntries(entries)
      decreases entries, 1
    {
      ok := VisitEntries(entries, depth);
      if ok { ok := Unique(Keys(entries)); }
    }

    method VisitItems(items: seq<Value>, depth: nat) returns (ok: bool)
      requires forall i :: 0 <= i < |items| ==> WellFormed(items[i])
      requires nodes <= MAX_NODES
      modifies this
      ensures ok <==> (forall i :: 0 <= i < |items| ==> Shallow(items[i], MAX_DEPTH - depth) && Unambiguous(items[i]))
                      && old(nodes) + SizeItems(items) <= MAX_NODES
      ensures ok ==> nodes == old(nodes) + SizeItems(items)
      decreases items, 0
    {
      ghost var start := nodes;
      assert items[0..] == items;
      for i := 0 to |items|
        invariant nodes <= MAX_NODES && nodes + SizeItems(items[i..]) == start + SizeItems(items)
        invariant forall k :: 0 <= k < i ==> Shallow(items[k], MAX_DEPTH - depth) && Unambiguous(items[k])
      {
        assert items[i..][1..] == items[i + 1..];
        var fits := Visit(items[i], depth);
        if !fits { return false; }
      }
      return true;
    }

    method VisitFields(fields: seq<Field>, depth: nat) returns (ok: bool)
      requires forall i :: 0 <= i < |fields| ==> WellFormed(fields[i].value)
      requires nodes <= MAX_NODES
      modifies this
      ensures ok <==> (forall i :: 0 <= i < |fields| ==> Shallow(fields[i].value, MAX_DEPTH - depth) && Unambiguous(fields[i].value))
                      && old(nodes) + SizeFields(fields) <= MAX_NODES
      ensures ok ==> nodes == old(nodes) + SizeFields(fields)
      decreases fields, 0
    {
      ghost var start := nodes;
      assert fields[0..] == fields;
      for i := 0 to |fields|
        invariant nodes <= MAX_NODES && nodes + SizeFields(fields[i..]) == start + SizeFields(fields)
        invariant forall k :: 0 <= k < i ==> Shallow(fields[k].value, MAX_DEPTH - depth) && Unambiguous(fields[k].value)
      {
        assert fields[i..][1..] == fields[i + 1..];
        var fits := Visit(fields[i].value, depth);
        if !fits { return false; }
      }
      return true;
    }

    method VisitEntries(entries: seq<Entry>, depth: nat) returns (ok: bool)
      requires forall i :: 0 <= i < |entries| ==> WellFormed(entries[i].key) && WellFormed(entries[i].value)
      requires nodes <= MAX_NODES
      modifies this
      ensures ok <==> (forall i :: 0 <= i < |entries| ==> EntryFits(entries[i], depth))
                      && old(nodes) + SizeEntries(entries) <= MAX_NODES
      ensures ok ==> nodes == old(nodes) + SizeEntries(entries)
      decreases entries, 0
    {
      ghost var start := nodes;
      assert entries[0..] == entries;
      for i := 0 to |entries|
        invariant nodes <= MAX_NODES && nodes + SizeEntries(entries[i..]) == start + SizeEntries(entries)
        invariant forall k :: 0 <= k < i ==> EntryFits(entries[k], depth)
      {
        assert entries[i..][1..] == entries[i + 1..];
        var fits := VisitEntry(entries[i], depth);
        if !fits { return false; }
      }
      return true;
    }

    method VisitEntry(e: Entry, depth: nat) returns (ok: bool)
      requires WellFormed(e.key) && WellFormed(e.value) && nodes <= MAX_NODES
      modifies this
      ensures ok <==> EntryFits(e, depth) && old(nodes) + SizeEntry(e) <= MAX_NODES
      ensures ok ==> nodes == old(nodes) + SizeEntry(e)
      decreases e, 0
    {
      ok := Visit(e.key, depth);
      if ok { ok := Visit(e.value, depth); }
    }
  }

  ghost predicate EntryFits(e: Entry, depth: nat) {
    && Shallow(e.key, MAX_DEPTH - depth) && Unambiguous(e.key)
    && Shallow(e.value, MAX_DEPTH - depth) && Unambiguous(e.value)
  }

  /** A checked snapshot: the value itself, or nothing. */
  method SnapshotValue(v: Value) returns (ok: bool)
    requires WellFormed(v)
    ensures ok <==> Acceptable(v)
  {
    var visitor := new Snapshot();
    ok := visitor.Visit(v, 0);
  }
}
