/** The weight of a tree: the length of its text by JSON.stringify. */
module RenderedWeight {
  import opened JsonText
  import opened RenderedLength
  import ValueOrder

  function Weight(j: Json): nat { Length(j, Stringify) }

  function Weights(items: seq<Json>): (r: seq<nat>)
    ensures |r| == |items| && forall i :: 0 <= i < |r| ==> r[i] == Weight(items[i]) + 1
  {
    Lengths(items, Stringify)
  }

  function Total(items: seq<Json>): nat { ValueOrder.Sum(Weights(items)) }

  lemma {:induction false} TotalCons(items: seq<Json>)
    requires items != []
    ensures Total(items) == Weight(items[0]) + 1 + Total(items[1..])
  {
    TotalLengthCons(items, Stringify);
  }

  lemma {:induction false} ArrayLength(items: seq<Json>)
    requires forall i :: 0 <= i < |items| ==> Integral(items[i])
    ensures Weight(Arr(items)) == 1 + if items == [] then 1 else Total(items)
  {
    ListLength(items, Stringify);
  }

  /** A list that is no heavier prints no longer. */
  lemma {:induction false} NoLonger(xs: seq<Json>, ys: seq<Json>)
    requires (forall i :: 0 <= i < |xs| ==> Integral(xs[i])) && forall i :: 0 <= i < |ys| ==> Integral(ys[i])
    requires Total(ys) <= Total(xs)
    ensures Weight(Arr(ys)) <= Weight(Arr(xs))
  {
    ArrayLength(xs);
    ArrayLength(ys);
    if ys == [] && xs != [] { assert Weights(xs)[0] >= 1; }
  }

  lemma {:induction false} SumMono(xs: seq<nat>, ys: seq<nat>)
    requires |xs| == |ys| && forall i :: 0 <= i < |xs| ==> ys[i] <= xs[i]
    ensures ValueOrder.Sum(ys) <= ValueOrder.Sum(xs)
  {
    if xs != [] { SumMono(xs[1..], ys[1..]); }
  }

  lemma {:induction false} TotalMono(xs: seq<Json>, ys: seq<Json>)
    requires |xs| == |ys| && forall i :: 0 <= i < |xs| ==> Weight(ys[i]) <= Weight(xs[i])
    ensures Total(ys) <= Total(xs)
  {
    SumMono(Weights(xs), Weights(ys));
  }
}

/** Equality of states is an equivalence as far as it is needed. */
module StateEquality {
  import opened Itf
  import opened ScheduleStates

  lemma {:induction false} EqualReflexive(v: Value)
    ensures Equal(v, v)
    decreases v
  {
    match v
    case Set(xs) =>
      forall i | 0 <= i < |xs| ensures In(xs[i], xs) && Holds(xs, xs[i]) { EqualReflexive(xs[i]); }
    case Seq(xs) => forall i | 0 <= i < |xs| ensures Equal(xs[i], xs[i]) { EqualReflexive(xs[i]); }
    case Tuple(xs) => forall i | 0 <= i < |xs| ensures Equal(xs[i], xs[i]) { EqualReflexive(xs[i]); }
    case Record(fs) =>
      forall i | 0 <= i < |fs| ensures EqualField(fs[i], fs[i]) { EqualReflexive(fs[i].value); }
      PointwiseFields(fs, fs);
    case Map(es) =>
      forall i | 0 <= i < |es| ensures EqualEntry(es[i], es[i]) {
        EqualReflexive(es[i].key);
        EqualReflexive(es[i].value);
      }
      PointwiseEntries(es, es);
    case Variant(_, value) => EqualReflexive(value);
    case _ =>
  }

  lemma {:induction false} PointwiseSets(xs: seq<Value>, ys: seq<Value>)
    requires |xs| == |ys| && forall i :: 0 <= i < |xs| ==> Equal(xs[i], ys[i])
    ensures EqualSets(xs, ys)
  {
    forall i | 0 <= i < |xs| ensures In(xs[i], ys) && Holds(xs, ys[i]) { assert Equal(xs[i], ys[i]); }
  }

  lemma {:induction false} PointwiseFields(fs: seq<Field>, gs: seq<Field>)
    requires |fs| == |gs| && forall i :: 0 <= i < |fs| ==> EqualField(fs[i], gs[i])
    ensures EqualFields(fs, gs)
  {
    forall i | 0 <= i < |fs| ensures FieldIn(fs[i], gs) && HoldsField(fs, gs[i]) { assert EqualField(fs[i], gs[i]); }
  }

  lemma {:induction false} PointwiseEntries(es: seq<Entry>, ds: seq<Entry>)
    requires |es| == |ds| && forall i :: 0 <= i < |es| ==> EqualEntry(es[i], ds[i])
    ensures EqualMaps(es, ds)
  {
    forall i | 0 <= i < |es| ensures EntryIn(es[i], ds) && HoldsEntry(es, ds[i]) { assert EqualEntry(es[i], ds[i]); }
  }

  lemma {:induction false} EqualTransitive(a: Value, b: Value, c: Value)
    requires Equal(a, b) && Equal(b, c)
    ensures Equal(a, c)
    decreases a, 1
  {
    match a
    case Set(xs) => SetsTransitive(xs, b.items, c.items);
    case Seq(xs) => forall i | 0 <= i < |xs| ensures Equal(xs[i], c.items[i]) { EqualTransitive(xs[i], b.items[i], c.items[i]); }
    case Tuple(xs) => forall i | 0 <= i < |xs| ensures Equal(xs[i], c.items[i]) { EqualTransitive(xs[i], b.items[i], c.items[i]); }
    case Record(fs) => FieldsTransitive(fs, b.fields, c.fields);
    case Map(es) => MapsTransitive(es, b.entries, c.entries);
    case Variant(_, value) => EqualTransitive(value, b.value, c.value);
    case _ =>
  }

  lemma {:induction false} SetsTransitive(xs: seq<Value>, ys: seq<Value>, zs: seq<Value>)
    requires EqualSets(xs, ys) && EqualSets(ys, zs)
    ensures EqualSets(xs, zs)
    decreases xs, 0
  {
    forall i | 0 <= i < |xs| ensures In(xs[i], zs) {
      assert In(xs[i], ys);
      var j :| 0 <= j < |ys| && Equal(xs[i], ys[j]);
      assert In(ys[j], zs);
      var k :| 0 <= k < |zs| && Equal(ys[j], zs[k]);
      EqualTransitive(xs[i], ys[j], zs[k]);
    }
    forall k | 0 <= k < |zs| ensures Holds(xs, zs[k]) {
      assert Holds(ys, zs[k]);
      var j :| 0 <= j < |ys| && Equal(ys[j], zs[k]);
      assert Holds(xs, ys[j]);
      var i :| 0 <= i < |xs| && Equal(xs[i], ys[j]);
      EqualTransitive(xs[i], ys[j], zs[k]);
    }
  }

  lemma {:induction false} FieldsTransitive(fs: seq<Field>, gs: seq<Field>, hs: seq<Field>)
    requires EqualFields(fs, gs) && EqualFields(gs, hs)
    ensures EqualFields(fs, hs)
    decreases fs, 0
  {
    forall i | 0 <= i < |fs| ensures FieldIn(fs[i], hs) {
      assert FieldIn(fs[i], gs);
      var j :| 0 <= j < |gs| && EqualField(fs[i], gs[j]);
      assert FieldIn(gs[j], hs);
      var k :| 0 <= k < |hs| && EqualField(gs[j], hs[k]);
      EqualTransitive(fs[i].value, gs[j].value, hs[k].value);
      assert EqualField(fs[i], hs[k]);
    }
    forall k | 0 <= k < |hs| ensures HoldsField(fs, hs[k]) {
      assert HoldsField(gs, hs[k]);
      var j :| 0 <= j < |gs| && EqualField(gs[j], hs[k]);
      assert HoldsField(fs, gs[j]);
      var i :| 0 <= i < |fs| && EqualField(fs[i], gs[j]);
      EqualTransitive(fs[i].value, gs[j].value, hs[k].value);
      assert EqualField(fs[i], hs[k]);
    }
  }

  lemma {:induction false} EntryTransitive(e: Entry, d: Entry, c: Entry)
    requires EqualEntry(e, d) && EqualEntry(d, c)
    ensures EqualEntry(e, c)
    decreases e, 2
  {
    EqualTransitive(e.key, d.key, c.key);
    EqualTransitive(e.value, d.value, c.value);
  }

  lemma {:induction false} MapsTransitive(es: seq<Entry>, ds: seq<Entry>, cs: seq<Entry>)
    requires EqualMaps(es, ds) && EqualMaps(ds, cs)
    ensures EqualMaps(es, cs)
    decreases es, 0
  {
    forall i | 0 <= i < |es| ensures EntryIn(es[i], cs) {
      assert EntryIn(es[i], ds);
      var j :| 0 <= j < |ds| && EqualEntry(es[i], ds[j]);
      assert EntryIn(ds[j], cs);
      var k :| 0 <= k < |cs| && EqualEntry(ds[j], cs[k]);
      EntryTransitive(es[i], ds[j], cs[k]);
    }
    forall k | 0 <= k < |cs| ensures HoldsEntry(es, cs[k]) {
      assert HoldsEntry(ds, cs[k]);
      var j :| 0 <= j < |ds| && EqualEntry(ds[j], cs[k]);
      assert HoldsEntry(es, ds[j]);
      var i :| 0 <= i < |es| && EqualEntry(es[i], ds[j]);
      EntryTransitive(es[i], ds[j], cs[k]);
    }
  }
}

/** When a state has one text: exactly when no record of it has fields whose names
    UTF-8 confuses. */
module ScheduleStateTexts {
  import opened Wrappers
  import opened JsonText
  import opened Sorting
  import opened Permutations
  import opened Itf
  import opened OpaqueItf
  import opened UnicodeOrder
  import opened RenderedWeight
  import opened ScheduleStates
  import opened StateEquality
  import StrictJson
  import V = ValueOrder

  /** An equal value that meets every limit the other meets. */
  ghost predicate NoLarger(v: Value, w: Value) {
    && Sound(w) && Equal(v, w) && Size(w) <= Size(v)
    && (forall d: int :: Shallow(v, d) ==> Shallow(w, d))
    && Weight(StateJson(w)) <= Weight(StateJson(v))
  }

  /** One that is also printed differently. */
  ghost predicate Varies(v: Value, w: Value) {
    NoLarger(v, w) && StateJson(w) != StateJson(v)
  }

  lemma {:induction false} NoLargerReflexive(v: Value)
    requires Sound(v)
    ensures NoLarger(v, v)
  {
    EqualReflexive(v);
  }

  // ----- Printed lengths -----

  lemma {:induction false} PairWeight(tag: Text, x: Json)
    requires Integral(x)
    ensures Weight(Arr([Json.Str(tag), x])) == Weight(Json.Str(tag)) + Weight(x) + 3
  {
    var items := [Json.Str(tag), x];
    ArrayLength(items);
    TotalCons(items);
    assert items[1..] == [x];
    TotalCons([x]);
    assert [x][1..] == [] && Total([]) == 0;
  }

  lemma {:induction false} TripleWeight(tag: Text, name: Text, x: Json)
    requires Integral(x)
    ensures Weight(Arr([Json.Str(tag), Json.Str(name), x])) == Weight(Json.Str(tag)) + Weight(Json.Str(name)) + Weight(x) + 4
  {
    var items := [Json.Str(tag), Json.Str(name), x];
    ArrayLength(items);
    TotalCons(items);
    assert items[1..] == [Json.Str(name), x];
    TotalCons([Json.Str(name), x]);
    assert [Json.Str(name), x][1..] == [x];
    TotalCons([x]);
    assert [x][1..] == [] && Total([]) == 0;
  }

  /** Of two tagged trees the heavier has the heavier content. */
  lemma {:induction false} PairLighter(tag: Text, x: Json, y: Json)
    requires Integral(x) && Integral(y)
    ensures Weight(Arr([Json.Str(tag), y])) <= Weight(Arr([Json.Str(tag), x])) <==> Weight(y) <= Weight(x)
  {
    PairWeight(tag, x);
    PairWeight(tag, y);
  }

  lemma {:induction false} TaggedLonger(tag: Text, x: Json, y: Json, a: Json, b: Json)
    requires a == Arr([Json.Str(tag), x]) && b == Arr([Json.Str(tag), y])
    requires Integral(x) && Integral(y) && Weight(y) <= Weight(x)
    ensures Weight(b) <= Weight(a)
  {
    PairLighter(tag, x, y);
  }

  lemma {:induction false} TaggedShows(tag: Text, x: Json, y: Json, a: Json, b: Json)
    requires a == Arr([Json.Str(tag), x]) && b == Arr([Json.Str(tag), y]) && x != y
    ensures a != b
  {
    PairTells(tag, x, y);
  }

  function KeyedTotal(ks: seq<Keyed>): nat { Total(Values(ks)) }

  lemma {:induction false} RearrangedTotal(ks: seq<Keyed>, ls: seq<Keyed>)
    requires multiset(ks) == multiset(ls)
    ensures KeyedTotal(ks) == KeyedTotal(ls)
  {
    var p := PairingOf(ks, ls);
    V.SumPaired(Weights(Values(ks)), Weights(Values(ls)), p);
  }

  lemma {:induction false} SortedTotal(ks: seq<Keyed>, key: Keyed -> seq<int>)
    ensures KeyedTotal(SortBy(ks, key)) == KeyedTotal(ks)
  {
    SortByMeaning(ks, key);
    RearrangedTotal(SortBy(ks, key), ks);
  }

  lemma {:induction false} WithoutTotal(ls: seq<Keyed>, q: nat)
    requires q < |ls|
    ensures KeyedTotal(ls) == Weight(ls[q].value) + 1 + KeyedTotal(Without(ls, q))
  {
    V.SumWithout(Weights(Values(ls)), q);
    WithoutWeights(ls, q);
  }

  lemma {:induction false} WithoutWeights(ls: seq<Keyed>, q: nat)
    requires q < |ls|
    ensures Weights(Values(Without(ls, q))) == Without(Weights(Values(ls)), q)
  {
    var less, w := Without(ls, q), Without(Weights(Values(ls)), q);
    forall i | 0 <= i < |less| ensures Weights(Values(less))[i] == w[i] {
      assert less[i] == ls[if i < q then i else i + 1];
    }
  }

  lemma {:induction false} RestWithin(ks: seq<Keyed>, ls: seq<Keyed>, q: nat)
    requires ks != [] && NoRepeats(ks) && (forall k :: k in ks ==> k in ls) && q < |ls| && ls[q] == ks[0]
    ensures NoRepeats(ks[1..]) && forall k :: k in ks[1..] ==> k in Without(ls, q)
  {
    var rest, less := ks[1..], Without(ls, q);
    forall i, j | 0 <= i < j < |rest| ensures rest[i] != rest[j] { assert ks[i + 1] != ks[j + 1]; }
    forall k | k in rest ensures k in less {
      var i := PlaceOf(rest, k);
      assert ks[i + 1] == k && ks[0] != ks[i + 1];
      var j := PlaceOf(ls, k);
      assert less[if j < q then j else j - 1] == k;
    }
  }

  /** A list without repeats is no heavier than one with all its items. */
  lemma {:induction false} SubTotal(ks: seq<Keyed>, ls: seq<Keyed>)
    requires NoRepeats(ks) && forall k :: k in ks ==> k in ls
    ensures KeyedTotal(ks) <= KeyedTotal(ls)
  {
    if ks != [] {
      var q := PlaceOf(ls, ks[0]);
      RestWithin(ks, ls, q);
      SubTotal(ks[1..], Without(ls, q));
      WithoutTotal(ls, q);
      WithoutTotal(ks, 0);
      assert Without(ks, 0) == ks[1..];
    }
  }

  // ----- Lists -----

  lemma {:induction false} ItemsNoLarger(xs: seq<Value>, ys: seq<Value>)
    requires |xs| == |ys| && forall i :: 0 <= i < |xs| ==> NoLarger(xs[i], ys[i])
    ensures SizeItems(ys) <= SizeItems(xs)
    ensures Weight(Arr(StateJsons(ys))) <= Weight(Arr(StateJsons(xs)))
  {
    V.ItemSizesSum(xs);
    V.ItemSizesSum(ys);
    SumMono(V.ItemSizes(xs), V.ItemSizes(ys));
    forall i | 0 <= i < |xs| ensures Integral(StateJsons(xs)[i]) && Integral(StateJsons(ys)[i]) {
      StateIntegral(xs[i]);
      StateIntegral(ys[i]);
    }
    TotalMono(StateJsons(xs), StateJsons(ys));
    NoLonger(StateJsons(xs), StateJsons(ys));
  }

  lemma {:induction false} ListNoLarger(v: Value, w: Value)
    requires (v.Seq? && w.Seq?) || (v.Tuple? && w.Tuple?)
    requires |v.items| == |w.items| && forall i :: 0 <= i < |v.items| ==> NoLarger(v.items[i], w.items[i])
    ensures NoLarger(v, w)
  {
    var xs, ys := v.items, w.items;
    ItemsNoLarger(xs, ys);
    ListIntegral(xs);
    ListIntegral(ys);
    PairLighter(StateTag(v), Arr(StateJsons(xs)), Arr(StateJsons(ys)));
    ListShallower(v, w);
  }

  lemma {:induction false} ListShallower(v: Value, w: Value)
    requires (v.Seq? && w.Seq?) || (v.Tuple? && w.Tuple?) || (v.Set? && w.Set?)
    requires |v.items| == |w.items|
    requires forall i :: 0 <= i < |v.items| ==> forall d: int :: Shallow(v, d) ==> Shallow(w.items[i], d - 1)
    ensures forall d: int :: Shallow(v, d) ==> Shallow(w, d)
  {
  }

  lemma {:induction false} ListIntegral(xs: seq<Value>)
    ensures Integral(Arr(StateJsons(xs)))
  {
    forall i | 0 <= i < |xs| ensures Integral(StateJsons(xs)[i]) { StateIntegral(xs[i]); }
  }

  lemma {:induction false} ListVaries(v: Value, i: nat, x: Value) returns (w: Value)
    requires Sound(v) && (v.Seq? || v.Tuple?) && i < |v.items| && Varies(v.items[i], x)
    ensures Varies(v, w)
  {
    var xs := v.items;
    var ys := xs[i := x];
    w := if v.Seq? then Seq(ys) else Tuple(ys);
    forall j | 0 <= j < |xs| ensures NoLarger(xs[j], ys[j]) {
      if j != i { NoLargerReflexive(xs[j]); }
    }
    ListNoLarger(v, w);
    assert StateJsons(xs)[i] != StateJsons(ys)[i];
    PairTells(StateTag(v), Arr(StateJsons(xs)), Arr(StateJsons(ys)));
  }

  lemma {:induction false} VariantVaries(v: Value, x: Value) returns (w: Value)
    requires Sound(v) && v.Variant? && Varies(v.value, x)
    ensures Varies(v, w)
  {
    w := Variant(v.tag, x);
    StateIntegral(v.value);
    StateIntegral(x);
    TripleWeight(StateTag(v), v.tag, StateJson(v.value));
    TripleWeight(StateTag(v), v.tag, StateJson(x));
    VariantTells(v, w);
    forall d: int | Shallow(v, d) ensures Shallow(w, d) { assert Shallow(v.value, d - 1); }
  }

  // ----- Records -----

  lemma {:induction false} FieldsIntegral(fs: seq<Field>)
    ensures forall i :: 0 <= i < |FieldsJson(fs)| ==> Integral(FieldsJson(fs)[i])
  {
    RecordIntegral(fs);
  }

  lemma {:induction false} FieldsTotal(fs: seq<Field>)
    ensures Total(FieldsJson(fs)) == KeyedTotal(FieldItems(fs))
  {
    SortedTotal(FieldItems(fs), Utf8Name);
  }

  lemma {:induction false} FieldsLonger(fs: seq<Field>, gs: seq<Field>)
    requires KeyedTotal(FieldItems(gs)) <= KeyedTotal(FieldItems(fs))
    ensures Weight(Arr(FieldsJson(gs))) <= Weight(Arr(FieldsJson(fs)))
  {
    FieldsTotal(fs);
    FieldsTotal(gs);
    FieldsIntegral(fs);
    FieldsIntegral(gs);
    NoLonger(FieldsJson(fs), FieldsJson(gs));
  }

  lemma {:induction false} RecordLonger(fs: seq<Field>, gs: seq<Field>)
    ensures Weight(StateJson(Record(gs))) <= Weight(StateJson(Record(fs))) <==> Weight(Arr(FieldsJson(gs))) <= Weight(Arr(FieldsJson(fs)))
  {
    RecordIntegral(fs);
    RecordIntegral(gs);
    PairLighter(StateTag(Record(fs)), Arr(FieldsJson(fs)), Arr(FieldsJson(gs)));
  }

  lemma {:induction false} FieldsWeigh(fs: seq<Field>, gs: seq<Field>)
    requires KeyedTotal(FieldItems(gs)) <= KeyedTotal(FieldItems(fs))
    ensures Weight(StateJson(Record(gs))) <= Weight(StateJson(Record(fs)))
  {
    FieldsLonger(fs, gs);
    RecordLonger(fs, gs);
  }

  /** Another value for one field. */
  lemma {:induction false} FieldVaries(fs: seq<Field>, i: nat, x: Value) returns (w: Value)
    requires Sound(Record(fs)) && i < |fs| && Varies(fs[i].value, x)
    ensures Varies(Record(fs), w)
  {
    var gs := fs[i := Field(fs[i].name, x)];
    w := Record(gs);
    forall j | 0 <= j < |fs| ensures gs[j].name == fs[j].name && NoLarger(fs[j].value, gs[j].value) {
      if j != i { NoLargerReflexive(fs[j].value); }
    }
    FieldsNoLarger(fs, gs);
    FieldShows(fs, gs, i);
    PairTells(StateTag(w), Arr(FieldsJson(fs)), Arr(FieldsJson(gs)));
  }

  ghost predicate FieldwiseNoLarger(fs: seq<Field>, gs: seq<Field>) {
    |fs| == |gs| && forall j :: 0 <= j < |fs| ==> gs[j].name == fs[j].name && NoLarger(fs[j].value, gs[j].value)
  }

  lemma {:induction false} FieldsNoLarger(fs: seq<Field>, gs: seq<Field>)
    requires Sound(Record(fs)) && FieldwiseNoLarger(fs, gs)
    ensures NoLarger(Record(fs), Record(gs))
  {
    FieldsSound(fs, gs);
    FieldsSmaller(fs, gs);
    FieldsLighter(fs, gs);
    FieldsWeigh(fs, gs);
    FieldsShallower(fs, gs);
  }

  lemma {:induction false} FieldsSound(fs: seq<Field>, gs: seq<Field>)
    requires Sound(Record(fs)) && FieldwiseNoLarger(fs, gs)
    ensures Sound(Record(gs)) && Equal(Record(fs), Record(gs))
  {
    PointwiseFields(fs, gs);
  }

  lemma {:induction false} FieldsSmaller(fs: seq<Field>, gs: seq<Field>)
    requires FieldwiseNoLarger(fs, gs)
    ensures Size(Record(gs)) <= Size(Record(fs))
  {
    V.FieldSizesSum(fs);
    V.FieldSizesSum(gs);
    SumMono(V.FieldSizes(fs), V.FieldSizes(gs));
  }

  lemma {:induction false} FieldsLighter(fs: seq<Field>, gs: seq<Field>)
    requires FieldwiseNoLarger(fs, gs)
    ensures KeyedTotal(FieldItems(gs)) <= KeyedTotal(FieldItems(fs))
  {
    var xs, ys := Values(FieldItems(fs)), Values(FieldItems(gs));
    forall j | 0 <= j < |fs| ensures Weight(ys[j]) <= Weight(xs[j]) {
      StateIntegral(fs[j].value);
      StateIntegral(gs[j].value);
      PairWeight(fs[j].name, StateJson(fs[j].value));
      PairWeight(fs[j].name, StateJson(gs[j].value));
    }
    TotalMono(xs, ys);
  }

  lemma {:induction false} FieldsShallower(fs: seq<Field>, gs: seq<Field>)
    requires FieldwiseNoLarger(fs, gs)
    ensures forall d: int :: Shallow(Record(fs), d) ==> Shallow(Record(gs), d)
  {
    forall d: int | Shallow(Record(fs), d) ensures Shallow(Record(gs), d) {
      forall j | 0 <= j < |gs| ensures Shallow(gs[j].value, d - 1) {
        assert Shallow(fs[j].value, d - 1) && NoLarger(fs[j].value, gs[j].value);
      }
    }
  }

  /** A field that is printed differently shows. */
  lemma {:induction false} FieldShows(fs: seq<Field>, gs: seq<Field>, i: nat)
    requires DistinctFields(fs) && DistinctFields(gs) && i < |fs| == |gs|
    requires forall j :: 0 <= j < |fs| ==> gs[j].name == fs[j].name
    requires StateJson(gs[i].value) != StateJson(fs[i].value)
    ensures FieldsJson(fs) != FieldsJson(gs)
  {
    var ks, ls := FieldItems(fs), FieldItems(gs);
    FieldItemsTell(fs, gs);
    FieldItemsApart(fs);
    FieldItemsApart(gs);
    SortedShows(ks, ls, Utf8Name);
    if ks[i] in ls {
      var j := PlaceOf(ls, ks[i]);
      FieldItemIs(fs[i], gs[j]);
    }
  }

  // ----- Confused names -----

  /** The first item with a key. */
  function FirstIn(ks: seq<Keyed>, key: seq<int>): Option<Keyed> {
    if ks == [] then None else if Utf8Name(ks[0]) == key then Some(ks[0]) else FirstIn(ks[1..], key)
  }

  lemma {:induction false} InsertFirst(k: Keyed, ks: seq<Keyed>, key: seq<int>)
    ensures FirstIn(Insert(k, ks, Utf8Name), key) == if Utf8Name(k) == key then Some(k) else FirstIn(ks, key)
  {
    var r := Insert(k, ks, Utf8Name);
    if ks == [] {
      assert r[1..] == [];
    } else if LexLeq(Utf8Name(k), Utf8Name(ks[0])) {
      assert r[1..] == ks;
    } else {
      LexReflexive(Utf8Name(k));
      InsertFirst(k, ks[1..], key);
      assert r[1..] == Insert(k, ks[1..], Utf8Name);
    }
  }

  /** Sorting is stable. */
  lemma {:induction false} SortKeepsFirst(ks: seq<Keyed>, key: seq<int>)
    ensures FirstIn(SortBy(ks, Utf8Name), key) == FirstIn(ks, key)
  {
    if ks != [] {
      SortKeepsFirst(ks[1..], key);
      InsertFirst(ks[0], SortBy(ks[1..], Utf8Name), key);
    }
  }

  lemma {:induction false} FirstBefore(ks: seq<Keyed>, i: nat)
    requires i < |ks|
    ensures exists p :: 0 <= p <= i && FirstIn(ks, Utf8Name(ks[i])) == Some(ks[p])
  {
    if Utf8Name(ks[0]) != Utf8Name(ks[i]) {
      FirstBefore(ks[1..], i - 1);
      var p :| 0 <= p <= i - 1 && FirstIn(ks[1..], Utf8Name(ks[1..][i - 1])) == Some(ks[1..][p]);
      assert ks[p + 1] == ks[1..][p];
    }
  }

  /** One field brought to the front. */
  function Fronted(fs: seq<Field>, j: nat): (r: seq<Field>)
    requires j < |fs|
    ensures |r| == |fs|
  {
    [fs[j]] + Without(fs, j)
  }

  lemma {:induction false} FrontedPairs(fs: seq<Field>, j: nat) returns (p: seq<nat>)
    requires j < |fs|
    ensures Pairs(fs, Fronted(fs, j), p)
  {
    WithoutMultiset(fs, j);
    p := PairingOf(fs, Fronted(fs, j));
  }

  lemma {:induction false} PairedFieldsNoLarger(fs: seq<Field>, gs: seq<Field>, p: seq<nat>)
    requires Sound(Record(fs)) && Pairs(fs, gs, p)
    ensures NoLarger(Record(fs), Record(gs))
  {
    PairedSound(fs, gs, p);
    PairedEqual(fs, gs, p);
    PairedSums(fs, gs, p);
    FieldsWeigh(fs, gs);
    PairedShallow(fs, gs, p);
  }

  lemma {:induction false} PairedSums(fs: seq<Field>, gs: seq<Field>, p: seq<nat>)
    requires Pairs(fs, gs, p)
    ensures Size(Record(gs)) == Size(Record(fs)) && KeyedTotal(FieldItems(gs)) == KeyedTotal(FieldItems(fs))
  {
    V.FieldSizesSum(fs);
    V.FieldSizesSum(gs);
    V.SumPaired(V.FieldSizes(fs), V.FieldSizes(gs), p);
    V.SumPaired(Weights(Values(FieldItems(fs))), Weights(Values(FieldItems(gs))), p);
  }

  lemma {:induction false} PairedShallow(fs: seq<Field>, gs: seq<Field>, p: seq<nat>)
    requires Pairs(fs, gs, p)
    ensures forall d: int :: Shallow(Record(fs), d) ==> Shallow(Record(gs), d)
  {
    forall d: int | Shallow(Record(fs), d) ensures Shallow(Record(gs), d) {
      forall j | 0 <= j < |gs| ensures Shallow(gs[j].value, d - 1) {
        var i := V.PermutationOnto(p, |fs|, j);
        assert Shallow(fs[i].value, d - 1);
      }
    }
  }

  lemma {:induction false} PairedSound(fs: seq<Field>, gs: seq<Field>, p: seq<nat>)
    requires Sound(Record(fs)) && Pairs(fs, gs, p)
    ensures Sound(Record(gs))
  {
    forall j | 0 <= j < |gs| ensures Sound(gs[j].value) {
      var i := V.PermutationOnto(p, |fs|, j);
      assert Sound(fs[i].value);
    }
    forall j, k | 0 <= j < k < |gs| ensures gs[j].name != gs[k].name {
      var a := V.PermutationOnto(p, |fs|, j);
      var b := V.PermutationOnto(p, |fs|, k);
      assert a < b || b < a;
    }
  }

  lemma {:induction false} PairedEqual(fs: seq<Field>, gs: seq<Field>, p: seq<nat>)
    requires Pairs(fs, gs, p)
    ensures EqualFields(fs, gs)
  {
    forall i | 0 <= i < |fs| ensures FieldIn(fs[i], gs) {
      EqualReflexive(fs[i].value);
      assert EqualField(fs[i], gs[p[i]]);
    }
    forall j | 0 <= j < |gs| ensures HoldsField(fs, gs[j]) {
      var i := V.PermutationOnto(p, |fs|, j);
      EqualReflexive(fs[i].value);
      assert EqualField(fs[i], gs[j]);
    }
  }

  /** Bringing the later of two confused fields to the front changes the text. */
  lemma {:induction false} ConfusedVaries(fs: seq<Field>, i: nat, j: nat) returns (w: Value)
    requires Sound(Record(fs)) && i < j < |fs| && Utf8Points(fs[i].name) == Utf8Points(fs[j].name)
    ensures Varies(Record(fs), w)
  {
    var gs := Fronted(fs, j);
    w := Record(gs);
    var p := FrontedPairs(fs, j);
    PairedFieldsNoLarger(fs, gs, p);
    ConfusedShows(fs, gs, i, j);
    PairTells(StateTag(w), Arr(FieldsJson(fs)), Arr(FieldsJson(gs)));
  }

  lemma {:induction false} ConfusedShows(fs: seq<Field>, gs: seq<Field>, i: nat, j: nat)
    requires DistinctFields(fs) && DistinctFields(gs) && i < j < |fs| == |gs| && gs[0] == fs[j]
    requires Utf8Points(fs[i].name) == Utf8Points(fs[j].name)
    ensures FieldsJson(fs) != FieldsJson(gs)
  {
    var ks, ls := FieldItems(fs), FieldItems(gs);
    var key := Utf8Name(ks[i]);
    FieldItemsTell(fs, gs);
    FieldItemsApart(fs);
    SortKeepsFirst(ks, key);
    SortKeepsFirst(ls, key);
    FirstBefore(ks, i);
    assert ls[0] == ks[j];
    if FieldsJson(fs) == FieldsJson(gs) {
      SortedMembersTell(ks, ls);
      ValuesDetermine(SortBy(ks, Utf8Name), SortBy(ls, Utf8Name));
    }
  }

  lemma {:induction false} SortedMembersTell(ks: seq<Keyed>, ls: seq<Keyed>)
    requires ValuesName(ks, ls)
    ensures ValuesName(SortBy(ks, Utf8Name), SortBy(ls, Utf8Name))
  {
    SortByMeaning(ks, Utf8Name);
    SortByMeaning(ls, Utf8Name);
    RearrangedSameItems(ks, SortBy(ks, Utf8Name));
    RearrangedSameItems(ls, SortBy(ls, Utf8Name));
  }

  // ----- Maps -----

  /** Another value for one entry. */
  lemma {:induction false} EntryVaries(es: seq<Entry>, i: nat, x: Value) returns (w: Value)
    requires Sound(Map(es)) && i < |es| && Varies(es[i].value, x)
    ensures Varies(Map(es), w)
  {
    var ds := es[i := Entry(es[i].key, x)];
    w := Map(ds);
    forall j | 0 <= j < |es| ensures ds[j].key == es[j].key && NoLarger(es[j].value, ds[j].value) {
      if j != i { NoLargerReflexive(es[j].value); }
    }
    EntriesSound(es, ds);
    EntriesEqual(es, ds);
    EntriesSmaller(es, ds);
    EntriesLonger(es, ds);
    EntriesShallower(es, ds);
    EntryShows(es, ds, i);
    PairTells(StateTag(w), Arr(Arranged(EntryItems(es))), Arr(Arranged(EntryItems(ds))));
  }

  ghost predicate EntrywiseNoLarger(es: seq<Entry>, ds: seq<Entry>) {
    |es| == |ds| && forall j :: 0 <= j < |es| ==> ds[j].key == es[j].key && NoLarger(es[j].value, ds[j].value)
  }

  lemma {:induction false} EntriesPlain(es: seq<Entry>, ds: seq<Entry>)
    requires PlainKeys(es) && |es| == |ds| && forall j :: 0 <= j < |es| ==> ds[j].key == es[j].key
    ensures PlainKeys(ds)
  {
  }

  lemma {:induction false} EntriesSound(es: seq<Entry>, ds: seq<Entry>)
    requires Sound(Map(es)) && EntrywiseNoLarger(es, ds)
    ensures Sound(Map(ds))
  {
    EntriesPlain(es, ds);
    forall j | 0 <= j < |ds| ensures Sound(ds[j].key) && Sound(ds[j].value) {
      assert Sound(es[j].key) && NoLarger(es[j].value, ds[j].value);
    }
  }

  lemma {:induction false} EntriesEqual(es: seq<Entry>, ds: seq<Entry>)
    requires EntrywiseNoLarger(es, ds)
    ensures EqualMaps(es, ds)
  {
    forall j | 0 <= j < |es| ensures EqualEntry(es[j], ds[j]) {
      EqualReflexive(es[j].key);
      assert NoLarger(es[j].value, ds[j].value);
    }
    PointwiseEntries(es, ds);
  }

  lemma {:induction false} EntriesSmaller(es: seq<Entry>, ds: seq<Entry>)
    requires EntrywiseNoLarger(es, ds)
    ensures Size(Map(ds)) <= Size(Map(es))
  {
    V.EntrySizesSum(es);
    V.EntrySizesSum(ds);
    SumMono(V.EntrySizes(es), V.EntrySizes(ds));
  }

  lemma {:induction false} KeyedLonger(ks: seq<Keyed>, ls: seq<Keyed>)
    requires (forall k :: k in ks ==> Integral(k.value)) && forall k :: k in ls ==> Integral(k.value)
    requires KeyedTotal(ls) <= KeyedTotal(ks)
    ensures Weight(Arr(Arranged(ls))) <= Weight(Arr(Arranged(ks)))
    ensures Integral(Arr(Arranged(ks))) && Integral(Arr(Arranged(ls)))
  {
    SortedTotal(ks, ByName);
    SortedTotal(ls, ByName);
    SortedIntegral(ks, ByName);
    SortedIntegral(ls, ByName);
    NoLonger(Arranged(ks), Arranged(ls));
  }

  lemma {:induction false} EntryItemsIntegral(es: seq<Entry>)
    ensures forall k :: k in EntryItems(es) ==> Integral(k.value)
  {
    forall k | k in EntryItems(es) ensures Integral(k.value) {
      var i := PlaceOf(EntryItems(es), k);
      StateIntegral(es[i].key);
      StateIntegral(es[i].value);
      PairIntegral(StateJson(es[i].key), StateJson(es[i].value));
    }
  }

  lemma {:induction false} ArrLighter(a: Json, x: Json, y: Json)
    requires Integral(a) && Integral(x) && Integral(y) && Weight(y) <= Weight(x)
    ensures Weight(Arr([a, y])) <= Weight(Arr([a, x]))
  {
    var xs, ys := [a, x], [a, y];
    TotalMono(xs, ys);
    NoLonger(xs, ys);
  }

  lemma {:induction false} EntriesLighter(es: seq<Entry>, ds: seq<Entry>)
    requires EntrywiseNoLarger(es, ds)
    ensures KeyedTotal(EntryItems(ds)) <= KeyedTotal(EntryItems(es))
  {
    var xs, ys := Values(EntryItems(es)), Values(EntryItems(ds));
    forall j | 0 <= j < |es| ensures Weight(ys[j]) <= Weight(xs[j]) {
      StateIntegral(es[j].key);
      StateIntegral(es[j].value);
      StateIntegral(ds[j].value);
      assert NoLarger(es[j].value, ds[j].value);
      ArrLighter(StateJson(es[j].key), StateJson(es[j].value), StateJson(ds[j].value));
    }
    TotalMono(xs, ys);
  }

  lemma {:induction false} MapLonger(es: seq<Entry>, ds: seq<Entry>)
    requires Weight(Arr(Arranged(EntryItems(ds)))) <= Weight(Arr(Arranged(EntryItems(es))))
    requires Integral(Arr(Arranged(EntryItems(es)))) && Integral(Arr(Arranged(EntryItems(ds))))
    ensures Weight(StateJson(Map(ds))) <= Weight(StateJson(Map(es)))
  {
    TaggedLonger(StateTag(Map(es)), Arr(Arranged(EntryItems(es))), Arr(Arranged(EntryItems(ds))), StateJson(Map(es)), StateJson(Map(ds)));
  }

  lemma {:induction false} EntriesLonger(es: seq<Entry>, ds: seq<Entry>)
    requires EntrywiseNoLarger(es, ds)
    ensures Weight(StateJson(Map(ds))) <= Weight(StateJson(Map(es)))
  {
    EntriesLighter(es, ds);
    EntryItemsIntegral(es);
    EntryItemsIntegral(ds);
    KeyedLonger(EntryItems(es), EntryItems(ds));
    MapLonger(es, ds);
  }

  lemma {:induction false} EntriesShallower(es: seq<Entry>, ds: seq<Entry>)
    requires EntrywiseNoLarger(es, ds)
    ensures forall d: int :: Shallow(Map(es), d) ==> Shallow(Map(ds), d)
  {
    forall d: int | Shallow(Map(es), d) ensures Shallow(Map(ds), d) {
      forall j | 0 <= j < |ds| ensures Shallow(ds[j].key, d - 1) && Shallow(ds[j].value, d - 1) {
        assert Shallow(es[j].value, d - 1) && NoLarger(es[j].value, ds[j].value);
      }
    }
  }

  lemma {:induction false} EntryShows(es: seq<Entry>, ds: seq<Entry>, i: nat)
    requires PlainKeys(es) && PlainKeys(ds) && i < |es| == |ds|
    requires forall j :: 0 <= j < |es| ==> ds[j].key == es[j].key
    requires StateJson(ds[i].value) != StateJson(es[i].value)
    ensures Arranged(EntryItems(es)) != Arranged(EntryItems(ds))
  {
    var ks, ls := EntryItems(es), EntryItems(ds);
    EntryItemsTell(es, ds);
    EntryItemsTell(ds, es);
    ArrangedShows(ks, ls);
    forall j | 0 <= j < |ds| ensures ls[j] != ks[i] {
      EntryItemIs(es[i], ds[j]);
      if j < i { PlainKeysTell(es, j, i); }
      if i < j { PlainKeysTell(es, i, j); }
    }
    assert ks[i] in ks && ks[i] !in ls;
  }

  // ----- Sets -----

  /** A least of the elements that are not legible. */
  lemma {:induction false} LeastIllegible(xs: seq<Value>) returns (i: nat)
    requires exists j :: 0 <= j < |xs| && !Legible(xs[j])
    ensures i < |xs| && !Legible(xs[i]) && forall j :: 0 <= j < |xs| && !Legible(xs[j]) ==> Size(xs[i]) <= Size(xs[j])
  {
    if |xs| > 1 && exists j :: 0 <= j < |xs[1..]| && !Legible(xs[1..][j]) {
      var rest := xs[1..];
      var k := LeastIllegible(rest);
      i := if !Legible(xs[0]) && Size(xs[0]) <= Size(rest[k]) then 0 else k + 1;
      forall j | 0 <= j < |xs| && !Legible(xs[j]) ensures Size(xs[i]) <= Size(xs[j]) {
        if j > 0 { assert rest[j - 1] == xs[j]; }
      }
    } else {
      i := 0;
      forall k | 0 < k < |xs| ensures Legible(xs[k]) { assert xs[1..][k - 1] == xs[k]; }
    }
  }

  /** Every element printed like one is replaced. */
  function Replaced(xs: seq<Value>, j: Json, w: Value): (r: seq<Value>)
    ensures |r| == |xs| && forall i :: 0 <= i < |xs| ==> r[i] == if StateJson(xs[i]) == j then w else xs[i]
  {
    seq(|xs|, i requires 0 <= i < |xs| => if StateJson(xs[i]) == j then w else xs[i])
  }

  /** Elements printed like an illegible one, that can be varied, are illegible too. */
  lemma {:induction false} PrintedAlike(x: Value, w: Value, z: Value)
    requires Sound(x) && Sound(z) && Varies(x, w) && StateJson(z) == StateJson(x)
    ensures Equal(z, w) && !Legible(z)
  {
    StateTold(z, x);
    EqualTransitive(z, x, w);
    StateTold(z, w);
  }

  lemma {:induction false} SetVaries(xs: seq<Value>, i: nat, w: Value) returns (v: Value)
    requires Sound(Set(xs)) && i < |xs| && Varies(xs[i], w)
    requires forall j :: 0 <= j < |xs| && !Legible(xs[j]) ==> Size(xs[i]) <= Size(xs[j])
    ensures Varies(Set(xs), v)
  {
    v := Set(Replaced(xs, StateJson(xs[i]), w));
    ReplacedEqual(xs, i, w);
    ReplacedShallow(xs, i, w);
    ReplacedShows(xs, i, w);
    ReplacedLonger(xs, i, w);
  }

  lemma {:induction false} ReplacedItem(xs: seq<Value>, i: nat, w: Value, j: nat)
    requires Sound(Set(xs)) && i < |xs| && Varies(xs[i], w) && j < |xs|
    requires !Legible(xs[j]) ==> Size(xs[i]) <= Size(xs[j])
    ensures var y := Replaced(xs, StateJson(xs[i]), w)[j]; Sound(y) && Equal(xs[j], y) && Size(y) <= Size(xs[j])
  {
    if StateJson(xs[j]) == StateJson(xs[i]) { PrintedAlike(xs[i], w, xs[j]); } else { EqualReflexive(xs[j]); }
  }

  lemma {:induction false} ReplacedEqual(xs: seq<Value>, i: nat, w: Value)
    requires Sound(Set(xs)) && i < |xs| && Varies(xs[i], w)
    requires forall j :: 0 <= j < |xs| && !Legible(xs[j]) ==> Size(xs[i]) <= Size(xs[j])
    ensures var v := Set(Replaced(xs, StateJson(xs[i]), w)); Sound(v) && Equal(Set(xs), v) && Size(v) <= Size(Set(xs))
  {
    var ys := Replaced(xs, StateJson(xs[i]), w);
    forall j | 0 <= j < |xs| ensures Sound(ys[j]) && Equal(xs[j], ys[j]) && Size(ys[j]) <= Size(xs[j]) {
      ReplacedItem(xs, i, w, j);
    }
    PointwiseSets(xs, ys);
    SetSmaller(xs, ys);
  }

  lemma {:induction false} SetSmaller(xs: seq<Value>, ys: seq<Value>)
    requires |xs| == |ys| && forall j :: 0 <= j < |xs| ==> Size(ys[j]) <= Size(xs[j])
    ensures Size(Set(ys)) <= Size(Set(xs))
  {
    V.ItemSizesSum(xs);
    V.ItemSizesSum(ys);
    SumMono(V.ItemSizes(xs), V.ItemSizes(ys));
  }

  lemma {:induction false} ReplacedShallow(xs: seq<Value>, i: nat, w: Value)
    requires i < |xs| && forall d: int :: Shallow(xs[i], d) ==> Shallow(w, d)
    ensures forall d: int :: Shallow(Set(xs), d) ==> Shallow(Set(Replaced(xs, StateJson(xs[i]), w)), d)
  {
    var ys := Replaced(xs, StateJson(xs[i]), w);
    forall d: int | Shallow(Set(xs), d) ensures Shallow(Set(ys), d) {
      assert Shallow(xs[i], d - 1);
      forall j | 0 <= j < |ys| ensures Shallow(ys[j], d - 1) { assert Shallow(xs[j], d - 1); }
    }
  }

  lemma {:induction false} ReplacedGone(xs: seq<Value>, i: nat, w: Value)
    requires i < |xs| && StateJson(w) != StateJson(xs[i])
    ensures var ks, ls := SetItems(xs), SetItems(Replaced(xs, StateJson(xs[i]), w));
      ks[i] in Once(ks) && ks[i] !in Once(ls)
  {
    var ys := Replaced(xs, StateJson(xs[i]), w);
    forall j | 0 <= j < |ys| ensures SetItems(ys)[j] != SetItems(xs)[i] {
      assert StateJson(ys[j]) != StateJson(xs[i]);
    }
  }

  lemma {:induction false} ReplacedShows(xs: seq<Value>, i: nat, w: Value)
    requires i < |xs| && StateJson(w) != StateJson(xs[i])
    ensures StateJson(Set(Replaced(xs, StateJson(xs[i]), w))) != StateJson(Set(xs))
  {
    var ys := Replaced(xs, StateJson(xs[i]), w);
    ReplacedGone(xs, i, w);
    SetItemsTell(xs, ys);
    OnceShows(SetItems(xs), SetItems(ys), SetItems(xs)[i]);
    SetShows(xs, ys);
  }

  lemma {:induction false} OnceShows(ks: seq<Keyed>, ls: seq<Keyed>, k: Keyed)
    requires ValuesName(ks, ls) && Unrepeated(ks) && k in Once(ks) && k !in Once(ls)
    ensures Arranged(Once(ks)) != Arranged(Once(ls))
  {
    ArrangedShows(Once(ks), Once(ls));
  }

  lemma {:induction false} SetJsonIs(xs: seq<Value>)
    ensures StateJson(Set(xs)) == Arr([Json.Str(StateTag(Set([]))), Arr(Arranged(Once(SetItems(xs))))])
  {
  }

  lemma {:induction false} SetShows(xs: seq<Value>, ys: seq<Value>)
    requires Arranged(Once(SetItems(xs))) != Arranged(Once(SetItems(ys)))
    ensures StateJson(Set(ys)) != StateJson(Set(xs))
  {
    SetJsonIs(xs);
    SetJsonIs(ys);
    TaggedShows(StateTag(Set([])), Arr(Arranged(Once(SetItems(xs)))), Arr(Arranged(Once(SetItems(ys)))),
      StateJson(Set(xs)), StateJson(Set(ys)));
  }

  lemma {:induction false} SetItemsIntegral(xs: seq<Value>)
    ensures forall k :: k in Once(SetItems(xs)) ==> Integral(k.value)
  {
    forall k | k in Once(SetItems(xs)) ensures Integral(k.value) {
      var i := PlaceOf(SetItems(xs), k);
      StateIntegral(xs[i]);
    }
  }

  lemma {:induction false} SetLonger(xs: seq<Value>, ys: seq<Value>)
    requires Weight(Arr(Arranged(Once(SetItems(ys))))) <= Weight(Arr(Arranged(Once(SetItems(xs)))))
    requires Integral(Arr(Arranged(Once(SetItems(xs))))) && Integral(Arr(Arranged(Once(SetItems(ys)))))
    ensures Weight(StateJson(Set(ys))) <= Weight(StateJson(Set(xs)))
  {
    SetJsonIs(xs);
    SetJsonIs(ys);
    TaggedLonger(StateTag(Set([])), Arr(Arranged(Once(SetItems(xs)))), Arr(Arranged(Once(SetItems(ys)))),
      StateJson(Set(xs)), StateJson(Set(ys)));
  }

  lemma {:induction false} ReplacedLonger(xs: seq<Value>, i: nat, w: Value)
    requires i < |xs| && Weight(StateJson(w)) <= Weight(StateJson(xs[i]))
    ensures Weight(StateJson(Set(Replaced(xs, StateJson(xs[i]), w)))) <= Weight(StateJson(Set(xs)))
  {
    var ys := Replaced(xs, StateJson(xs[i]), w);
    ReplacedTotal(xs, i, w);
    SetItemsIntegral(xs);
    SetItemsIntegral(ys);
    KeyedLonger(Once(SetItems(xs)), Once(SetItems(ys)));
    SetLonger(xs, ys);
  }

  /** Replacing one item by a lighter one, and dropping repeats, makes a list lighter. */
  lemma {:induction false} ReplacedTotal(xs: seq<Value>, i: nat, w: Value)
    requires i < |xs| && Weight(StateJson(w)) <= Weight(StateJson(xs[i]))
    ensures KeyedTotal(Once(SetItems(Replaced(xs, StateJson(xs[i]), w)))) <= KeyedTotal(Once(SetItems(xs)))
  {
    var ys := Replaced(xs, StateJson(xs[i]), w);
    var ks, ls := SetItems(xs), SetItems(ys);
    var once := Once(ks);
    var q := PlaceOf(once, ks[i]);
    var mid := once[q := Keyed(Render(StateJson(w), Stringify), StateJson(w))];
    forall l | l in Once(ls) ensures l in mid {
      var j := PlaceOf(ls, l);
      if StateJson(xs[j]) == StateJson(xs[i]) {
        assert mid[q] == l;
      } else {
        assert ls[j] == ks[j];
        var p := PlaceOf(once, ks[j]);
        assert mid[p] == l;
      }
    }
    SubTotal(Once(ls), mid);
    TotalMono(Values(once), Values(mid));
  }

  // ----- Every illegible state varies -----

  lemma {:induction false} Vary(v: Value) returns (w: Value)
    requires Sound(v) && !Legible(v)
    ensures Varies(v, w)
    decreases v, 1
  {
    match v
    case Set(xs) =>
      var i := LeastIllegible(xs);
      var x := Vary(xs[i]);
      w := SetVaries(xs, i, x);
    case Seq(xs) =>
      var i :| 0 <= i < |xs| && !Legible(xs[i]);
      var x := Vary(xs[i]);
      w := ListVaries(v, i, x);
    case Tuple(xs) =>
      var i :| 0 <= i < |xs| && !Legible(xs[i]);
      var x := Vary(xs[i]);
      w := ListVaries(v, i, x);
    case Record(fs) => w := VaryRecord(fs);
    case Map(es) => w := VaryMap(es);
    case Variant(_, value) =>
      var x := Vary(value);
      w := VariantVaries(v, x);
  }

  lemma {:induction false} VaryRecord(fs: seq<Field>) returns (w: Value)
    requires Sound(Record(fs)) && !Legible(Record(fs))
    ensures Varies(Record(fs), w)
    decreases fs, 0
  {
    if NamesTell(fs) {
      var i :| 0 <= i < |fs| && !Legible(fs[i].value);
      var x := Vary(fs[i].value);
      w := FieldVaries(fs, i, x);
    } else {
      var i, j :| 0 <= i < j < |fs| && Utf8Points(fs[i].name) == Utf8Points(fs[j].name);
      w := ConfusedVaries(fs, i, j);
    }
  }

  lemma {:induction false} VaryMap(es: seq<Entry>) returns (w: Value)
    requires Sound(Map(es)) && !Legible(Map(es))
    ensures Varies(Map(es), w)
    decreases es, 0
  {
    var i :| 0 <= i < |es| && !(Legible(es[i].key) && Legible(es[i].value));
    assert es[i].key.Str? || es[i].key.Int?;
    var x := Vary(es[i].value);
    w := EntryVaries(es, i, x);
  }

  lemma {:induction false} StateTextLonger(s: seq<Field>, t: seq<Field>)
    requires Weight(StateJson(Record(t))) <= Weight(StateJson(Record(s)))
    ensures StrictJson.Utf8Length(StateText(t)) <= StrictJson.Utf8Length(StateText(s))
  {
    RecordLonger(s, t);
    RecordIntegral(s);
    RecordIntegral(t);
    PairLighter(STATE_SCHEMA, Arr(FieldsJson(s)), Arr(FieldsJson(t)));
  }

  /** A state that meets the limits and is not legible is equal to one that meets them
      and has another text. */
  lemma {:induction false} AnotherText(s: seq<Field>) returns (t: seq<Field>)
    requires CanonicalScheduleState(s).Some? && !Legible(Record(s))
    ensures CanonicalScheduleState(t).Some? && EqualFields(s, t)
    ensures CanonicalScheduleState(t) != CanonicalScheduleState(s)
  {
    var w := Vary(Record(s));
    t := w.fields;
    assert w == Record(t);
    assert Shallow(Record(s), MAX_STATE_DEPTH + 1);
    assert Shallow(Record(t), MAX_STATE_DEPTH + 1);
    StateTextLonger(s, t);
    StateTextTells(s, t);
    PairTells(StateTag(w), Arr(FieldsJson(s)), Arr(FieldsJson(t)));
  }

  /** A state has one text, however its sets, maps and records are written down,
      exactly if no record in it has fields whose names UTF-8 confuses. */
  lemma {:induction false} OneTextIffLegible(s: seq<Field>)
    requires CanonicalScheduleState(s).Some?
    ensures Legible(Record(s)) <==>
      forall t :: CanonicalScheduleState(t).Some? && EqualFields(s, t) ==> CanonicalScheduleState(t) == CanonicalScheduleState(s)
  {
    if Legible(Record(s)) {
      forall t | CanonicalScheduleState(t).Some? && EqualFields(s, t) ensures CanonicalScheduleState(t) == CanonicalScheduleState(s) {
        StateTextMeaning(s, t);
      }
    } else {
      var t := AnotherText(s);
    }
  }
}

/** A state that two of its equal forms print differently. */
module ConfusedStates {
  import opened Wrappers
  import opened JsonText
  import opened Sorting
  import opened Itf
  import opened ScheduleStates
  import opened RenderedCost
  import OpaqueItf
  import StrictJson

  /** One variable, a record with two fields whose names are lone surrogates. */
  function Confused(first: CodeUnit, second: CodeUnit): seq<Field> { [Field([0x78], Record(Pair(first, second)))] }

  function Pair(first: CodeUnit, second: CodeUnit): seq<Field> {
    [Field([first], Value.Null), Field([second], Value.Null)]
  }

  lemma {:induction false} PairEqual(u: CodeUnit, w: CodeUnit)
    ensures EqualFields(Pair(u, w), Pair(w, u))
  {
    var fs, gs := Pair(u, w), Pair(w, u);
    assert EqualField(fs[0], gs[1]) && EqualField(fs[1], gs[0]);
  }

  lemma {:induction false} ConfusedEqual(u: CodeUnit, w: CodeUnit)
    ensures EqualFields(Confused(u, w), Confused(w, u))
  {
    PairEqual(u, w);
    assert Equal(Record(Pair(u, w)), Record(Pair(w, u)));
    assert EqualField(Confused(u, w)[0], Confused(w, u)[0]);
  }

  lemma {:induction false} PairJson(u: CodeUnit, w: CodeUnit)
    requires 0xD800 <= u <= 0xDFFF && 0xD800 <= w <= 0xDFFF
    ensures FieldsJson(Pair(u, w)) == [Named([u], Value.Null), Named([w], Value.Null)]
  {
    var ks := FieldItems(Pair(u, w));
    OnePoint(u);
    OnePoint(w);
    SortedTie(ks[0], ks[1]);
    assert ks == [ks[0], ks[1]];
  }

  function Named(name: Text, v: Value): Json { Arr([Json.Str(name), StateJson(v)]) }

  lemma {:induction false} OneField(f: Field)
    ensures FieldsJson([f]) == [Named(f.name, f.value)]
  {
    var ks := FieldItems([f]);
    assert ks == [ks[0]] && ks[1..] == [];
    assert SortBy(ks, Utf8Name) == [ks[0]];
  }

  lemma {:induction false} ConfusedShows(u: CodeUnit, w: CodeUnit)
    requires 0xD800 <= u <= 0xDFFF && 0xD800 <= w <= 0xDFFF && u != w
    ensures StateText(Confused(u, w)) != StateText(Confused(w, u))
  {
    PairJson(u, w);
    PairJson(w, u);
    assert [u][0] != [w][0];
    NamesTellPairs([u], [w], StateJson(Value.Null));
    assert FieldsJson(Pair(u, w))[0] != FieldsJson(Pair(w, u))[0];
    PairTells(StateTag(Record([])), Arr(FieldsJson(Pair(u, w))), Arr(FieldsJson(Pair(w, u))));
    PairTells([0x78], StateJson(Record(Pair(u, w))), StateJson(Record(Pair(w, u))));
    OneField(Confused(u, w)[0]);
    OneField(Confused(w, u)[0]);
    assert FieldsJson(Confused(u, w))[0] != FieldsJson(Confused(w, u))[0];
    StateTextTells(Confused(u, w), Confused(w, u));
  }

  lemma {:induction false} NamesTellPairs(a: Text, b: Text, j: Json)
    requires a != b
    ensures Arr([Json.Str(a), j]) != Arr([Json.Str(b), j])
  {
    assert [Json.Str(a), j][0] != [Json.Str(b), j][0];
  }

  lemma {:induction false} NamedCost(name: Text, v: Value)
    ensures Cost(Named(name, v)) == 6 + 6 * |name| + Cost(StateJson(v))
  {
    TwoItems(Json.Str(name), StateJson(v));
  }

  lemma {:induction false} ConfusedCost(u: CodeUnit, w: CodeUnit)
    requires 0xD800 <= u <= 0xDFFF && 0xD800 <= w <= 0xDFFF
    ensures Cost(StateJson(Record(Pair(u, w)))) <= 1_000
  {
    PairJson(u, w);
    assert |StateTag(Value.Null)| == 4 && |StateTag(Record([]))| == 6;
    OneItem(Json.Str(StateTag(Value.Null)));
    NamedCost([u], Value.Null);
    NamedCost([w], Value.Null);
    TwoItems(Named([u], Value.Null), Named([w], Value.Null));
    TwoItems(Json.Str(StateTag(Record([]))), Arr(FieldsJson(Pair(u, w))));
  }

  lemma {:induction false} ConfusedLength(u: CodeUnit, w: CodeUnit)
    requires 0xD800 <= u <= 0xDFFF && 0xD800 <= w <= 0xDFFF
    ensures StrictJson.Utf8Length(StateText(Confused(u, w))) <= MAX_STATE_BYTES
  {
    var s := Confused(u, w);
    assert |STATE_SCHEMA| <= 100;
    ConfusedCost(u, w);
    OneField(s[0]);
    NamedCost([0x78], Record(Pair(u, w)));
    OneItem(Named([0x78], Record(Pair(u, w))));
    TwoItems(Json.Str(STATE_SCHEMA), Arr(FieldsJson(s)));
    CostBounds(Arr([Json.Str(STATE_SCHEMA), Arr(FieldsJson(s))]), Stringify);
  }

  lemma {:induction false} ConfusedSound(u: CodeUnit, w: CodeUnit)
    requires u != w
    ensures Sound(Record(Confused(u, w)))
  {
    var fs := Pair(u, w);
    assert fs[0].name[0] != fs[1].name[0];
    assert Sound(Record(fs));
  }

  lemma {:induction false} ConfusedFits(u: CodeUnit, w: CodeUnit)
    ensures OpaqueItf.Shallow(Record(Pair(u, w)), MAX_STATE_DEPTH) && OpaqueItf.SizeFields(Confused(u, w)) == 3
  {
    var fs := Pair(u, w);
    assert OpaqueItf.Shallow(fs[0].value, MAX_STATE_DEPTH - 1) && OpaqueItf.Shallow(fs[1].value, MAX_STATE_DEPTH - 1);
    assert fs[1..] == [fs[1]] && [fs[1]][1..] == [] && Confused(u, w)[1..] == [];
    assert OpaqueItf.SizeFields([fs[1]]) == 1;
    assert OpaqueItf.SizeFields(fs) == 2 && OpaqueItf.Size(Record(fs)) == 3;
  }

  lemma {:induction false} ConfusedText(u: CodeUnit, w: CodeUnit)
    requires 0xD800 <= u <= 0xDFFF && 0xD800 <= w <= 0xDFFF && u != w
    ensures CanonicalScheduleState(Confused(u, w)) == Some(StateText(Confused(u, w)))
  {
    ConfusedLength(u, w);
    ConfusedSound(u, w);
    ConfusedFits(u, w);
  }

  /** Field names that differ only in a lone surrogate keep the order they are written
      in, so that one state has two texts. */
  lemma {:induction false} LoneSurrogatesShow()
    ensures var s, t := Confused(0xD800, 0xD801), Confused(0xD801, 0xD800);
      && EqualFields(s, t) && CanonicalScheduleState(s).Some? && CanonicalScheduleState(t).Some?
      && CanonicalScheduleState(s) != CanonicalScheduleState(t)
  {
    ConfusedEqual(0xD800, 0xD801);
    ConfusedShows(0xD800, 0xD801);
    ConfusedText(0xD800, 0xD801);
    ConfusedText(0xD801, 0xD800);
  }
}
