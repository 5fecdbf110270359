/** Protocol values, and equality up to the order in which sets, maps and
    records happen to be written down. */
module Itf {
  import opened JsonText
  import opened Permutations

  /** Record fields are in the object's enumeration order. */
  datatype Value =
    | Null
    | Int(n: int)
    | Bool(b: bool)
    | Str(s: Text)
    | Unserializable(s: Text)
    | Set(items: seq<Value>)
    | Seq(items: seq<Value>)
    | Tuple(items: seq<Value>)
    | Record(fields: seq<Field>)
    | Map(entries: seq<Entry>)
    | Variant(tag: Text, value: Value)

  datatype Field = Field(name: Text, value: Value)

  datatype Entry = Entry(key: Value, value: Value)

  ghost predicate DistinctFields(fields: seq<Field>) {
    forall i, j :: 0 <= i < j < |fields| ==> fields[i].name != fields[j].name
  }

  /** Objects have no repeated property, at any depth. */
  ghost predicate WellFormed(v: Value)
    decreases v
  {
    match v
    case Set(items) => forall i :: 0 <= i < |items| ==> WellFormed(items[i])
    case Seq(items) => forall i :: 0 <= i < |items| ==> WellFormed(items[i])
    case Tuple(items) => forall i :: 0 <= i < |items| ==> WellFormed(items[i])
    case Record(fields) => DistinctFields(fields) && forall i :: 0 <= i < |fields| ==> WellFormed(fields[i].value)
    case Map(entries) => forall i :: 0 <= i < |entries| ==> WellFormed(entries[i].key) && WellFormed(entries[i].value)
    case Variant(_, value) => WellFormed(value)
    case _ => true
  }

  /** Equality up to reordering of set elements, map entries and record fields. */
  ghost predicate Same(a: Value, b: Value)
    decreases a
  {
    match a
    case Set(xs) =>
      b.Set? && |xs| == |b.items|
      && exists p :: Permutation(p, |xs|) && forall i :: 0 <= i < |xs| ==> Same(xs[i], b.items[p[i]])
    case Seq(xs) => b.Seq? && |xs| == |b.items| && forall i :: 0 <= i < |xs| ==> Same(xs[i], b.items[i])
    case Tuple(xs) => b.Tuple? && |xs| == |b.items| && forall i :: 0 <= i < |xs| ==> Same(xs[i], b.items[i])
    case Record(fs) =>
      b.Record? && |fs| == |b.fields|
      && exists p :: Permutation(p, |fs|) && forall i :: 0 <= i < |fs| ==>
           fs[i].name == b.fields[p[i]].name && Same(fs[i].value, b.fields[p[i]].value)
    case Map(es) =>
      b.Map? && |es| == |b.entries|
      && exists p :: Permutation(p, |es|) && forall i :: 0 <= i < |es| ==>
           Same(es[i].key, b.entries[p[i]].key) && Same(es[i].value, b.entries[p[i]].value)
    case Variant(tag, value) => b.Variant? && b.tag == tag && Same(value, b.value)
    case _ => a == b
  }
}

/** The value identity: canonical nested arrays, sorted by their own rendering. */
module ValueIdentity {
  import opened JsonText
  import opened Sorting
  import opened Permutations
  import opened Itf

  const NULL_TAG: Text := [0x6E, 0x75, 0x6C, 0x6C]
  const INT_TAG: Text := [0x69, 0x6E, 0x74]
  const BOOL_TAG: Text := [0x62, 0x6F, 0x6F, 0x6C]
  const STR_TAG: Text := [0x73, 0x74, 0x72]
  const UNSERIALIZABLE_TAG: Text := [0x75, 0x6E, 0x73, 0x65, 0x72, 0x69, 0x61, 0x6C, 0x69, 0x7A, 0x61, 0x62, 0x6C, 0x65]
  const SET_TAG: Text := [0x73, 0x65, 0x74]
  const SEQ_TAG: Text := [0x73, 0x65, 0x71]
  const TUPLE_TAG: Text := [0x74, 0x75, 0x70, 0x6C, 0x65]
  const RECORD_TAG: Text := [0x72, 0x65, 0x63, 0x6F, 0x72, 0x64]
  const MAP_TAG: Text := [0x6D, 0x61, 0x70]
  const VARIANT_TAG: Text := [0x76, 0x61, 0x72, 0x69, 0x61, 0x6E, 0x74]

  /** The sort key of `sorted`: the rendered text, compared by code units. */
  function TextKey(v: Json): seq<int> {
    Render(v, Stringify)
  }

  function Sorted(values: seq<Json>): seq<Json> {
    SortBy(values, TextKey)
  }

  /** A record field with its canonical value, sorted by name. */
  datatype Named = Named(name: Text, value: Json)

  function NameOf(f: Named): seq<int> { f.name }

  function NamedPair(f: Named): Json {
    Arr([Json.Str(f.name), f.value])
  }

  function NamedPairs(fields: seq<Named>): seq<Json> {
    seq(|fields|, i requires 0 <= i < |fields| => NamedPair(fields[i]))
  }

  function Canonical(v: Value): Json
    decreases v
  {
    match v
    case Null => Arr([Json.Str(NULL_TAG)])
    case Int(n) => Arr([Json.Str(INT_TAG), Json.Str(Decimal(n))])
    case Bool(b) => Arr([Json.Str(BOOL_TAG), Json.Bool(b)])
    case Str(s) => Arr([Json.Str(STR_TAG), Json.Str(s)])
    case Unserializable(s) => Arr([Json.Str(UNSERIALIZABLE_TAG), Json.Str(s)])
    case Set(items) => Arr([Json.Str(SET_TAG), Arr(Sorted(Canonicals(items)))])
    case Seq(items) => Arr([Json.Str(SEQ_TAG), Arr(Canonicals(items))])
    case Tuple(items) => Arr([Json.Str(TUPLE_TAG), Arr(Canonicals(items))])
    case Record(fields) =>
      Arr([Json.Str(RECORD_TAG), Arr(NamedPairs(SortBy(CanonicalFields(fields), NameOf)))])
    case Map(entries) => Arr([Json.Str(MAP_TAG), Arr(Sorted(CanonicalEntries(entries)))])
    case Variant(tag, value) => Arr([Json.Str(VARIANT_TAG), Json.Str(tag), Canonical(value)])
  }

  function Canonicals(items: seq<Value>): (r: seq<Json>)
    ensures |r| == |items| && forall i :: 0 <= i < |items| ==> r[i] == Canonical(items[i])
    decreases items
  {
    seq(|items|, i requires 0 <= i < |items| => Canonical(items[i]))
  }

  function CanonicalFields(fields: seq<Field>): (r: seq<Named>)
    ensures |r| == |fields|
    ensures forall i :: 0 <= i < |fields| ==> r[i] == Named(fields[i].name, Canonical(fields[i].value))
    decreases fields
  {
    seq(|fields|, i requires 0 <= i < |fields| => Named(fields[i].name, Canonical(fields[i].value)))
  }

  function CanonicalEntry(e: Entry): Json
    decreases e
  {
    Arr([Canonical(e.key), Canonical(e.value)])
  }

  function CanonicalEntries(entries: seq<Entry>): (r: seq<Json>)
    ensures |r| == |entries| && forall i :: 0 <= i < |entries| ==> r[i] == CanonicalEntry(entries[i])
    decreases entries
  {
    seq(|entries|, i requires 0 <= i < |entries| => CanonicalEntry(entries[i]))
  }

  /** `itfValueIdentity` of a validated value. */
  function Identity(v: Value): Text {
    Render(Canonical(v), Stringify)
  }

  // ----- The canonical tree determines the value up to order -----

  lemma {:induction false} SortedIntegral(values: seq<Json>)
    requires forall i :: 0 <= i < |values| ==> Integral(values[i])
    ensures forall i :: 0 <= i < |Sorted(values)| ==> Integral(Sorted(values)[i])
  {
    SortByMeaning(values, TextKey);
    forall i | 0 <= i < |Sorted(values)| ensures Integral(Sorted(values)[i]) {
      assert Sorted(values)[i] in multiset(values);
    }
  }

  lemma {:induction false} CanonicalIntegral(v: Value)
    ensures Integral(Canonical(v))
    decreases v
  {
    match v
    case Set(items) =>
      forall i | 0 <= i < |items| ensures Integral(Canonicals(items)[i]) { CanonicalIntegral(items[i]); }
      SortedIntegral(Canonicals(items));
    case Seq(items) => forall i | 0 <= i < |items| ensures Integral(Canonicals(items)[i]) { CanonicalIntegral(items[i]); }
    case Tuple(items) => forall i | 0 <= i < |items| ensures Integral(Canonicals(items)[i]) { CanonicalIntegral(items[i]); }
    case Record(fields) =>
      forall i | 0 <= i < |fields| ensures Integral(CanonicalFields(fields)[i].value) { CanonicalIntegral(fields[i].value); }
      FieldsIntegral(CanonicalFields(fields));
    case Map(entries) =>
      forall i | 0 <= i < |entries| ensures Integral(CanonicalEntries(entries)[i]) {
        CanonicalIntegral(entries[i].key);
        CanonicalIntegral(entries[i].value);
      }
      SortedIntegral(CanonicalEntries(entries));
    case Variant(_, value) => CanonicalIntegral(value);
    case _ =>
  }

  lemma {:induction false} PairIntegral(f: Named)
    requires Integral(f.value)
    ensures Integral(NamedPair(f))
  {
    var pair := [Json.Str(f.name), f.value];
    assert pair[0] == Json.Str(f.name) && pair[1] == f.value;
  }

  lemma {:induction false} FieldsIntegral(fields: seq<Named>)
    requires forall i :: 0 <= i < |fields| ==> Integral(fields[i].value)
    ensures Integral(Arr(NamedPairs(SortBy(fields, NameOf))))
  {
    SortByMeaning(fields, NameOf);
    var sorted := SortBy(fields, NameOf);
    assert |sorted| == |fields|;
    forall i | 0 <= i < |sorted| ensures Integral(NamedPair(sorted[i])) {
      assert sorted[i] in multiset(fields);
      PairIntegral(sorted[i]);
    }
  }

  /** Rendering separates canonical trees, so sorting by it is canonical. */
  lemma {:induction false} TextSeparates(values: seq<Json>)
    requires forall i :: 0 <= i < |values| ==> Integral(values[i])
    ensures KeysSeparate(multiset(values), TextKey)
  {
    forall x, y | x in multiset(values) && y in multiset(values) && TextKey(x) == TextKey(y) ensures x == y {
      SameTextSameTree(x, y, Stringify);
    }
  }

  lemma {:induction false} SortedAlike(xs: seq<Json>, ys: seq<Json>)
    requires forall i :: 0 <= i < |xs| ==> Integral(xs[i])
    ensures Sorted(xs) == Sorted(ys) <==> exists p :: Pairs(xs, ys, p)
  {
    TextSeparates(xs);
    SortCanonical(xs, ys, TextKey);
    RearrangedIffPaired(xs, ys);
  }

  lemma {:induction false} NamesSeparate(fields: seq<Field>)
    requires DistinctFields(fields)
    ensures KeysSeparate(multiset(CanonicalFields(fields)), NameOf)
  {
    var named := CanonicalFields(fields);
    forall x, y | x in multiset(named) && y in multiset(named) && NameOf(x) == NameOf(y) ensures x == y {
      var i :| 0 <= i < |named| && named[i] == x;
      var j :| 0 <= j < |named| && named[j] == y;
    }
  }

  lemma {:induction false} NamedPairsInjective(xs: seq<Named>, ys: seq<Named>)
    ensures NamedPairs(xs) == NamedPairs(ys) <==> xs == ys
  {
    if NamedPairs(xs) == NamedPairs(ys) {
      assert |xs| == |NamedPairs(xs)| && |ys| == |NamedPairs(ys)|;
      forall i | 0 <= i < |xs| ensures xs[i] == ys[i] {
        var a, b := NamedPairs(xs)[i].items, NamedPairs(ys)[i].items;
        assert a[0] == b[0] && a[1] == b[1];
      }
    }
  }

  lemma {:induction false} FieldsAlike(fs: seq<Field>, gs: seq<Field>)
    requires DistinctFields(fs)
    ensures NamedPairs(SortBy(CanonicalFields(fs), NameOf)) == NamedPairs(SortBy(CanonicalFields(gs), NameOf))
       <==> exists p :: Pairs(CanonicalFields(fs), CanonicalFields(gs), p)
  {
    var xs, ys := CanonicalFields(fs), CanonicalFields(gs);
    NamesSeparate(fs);
    NamedPairsInjective(SortBy(xs, NameOf), SortBy(ys, NameOf));
    SortCanonical(xs, ys, NameOf);
    RearrangedIffPaired(xs, ys);
  }

  /** Which constructor a canonical tree came from. */
  function TagOf(v: Value): Text {
    match v
    case Null => NULL_TAG
    case Int(_) => INT_TAG
    case Bool(_) => BOOL_TAG
    case Str(_) => STR_TAG
    case Unserializable(_) => UNSERIALIZABLE_TAG
    case Set(_) => SET_TAG
    case Seq(_) => SEQ_TAG
    case Tuple(_) => TUPLE_TAG
    case Record(_) => RECORD_TAG
    case Map(_) => MAP_TAG
    case Variant(_, _) => VARIANT_TAG
  }

  lemma {:induction false} CanonicalTag(v: Value)
    ensures Canonical(v).Arr? && |Canonical(v).items| >= 1 && Canonical(v).items[0] == Json.Str(TagOf(v))
  {
  }

  lemma {:induction false} DecimalSeparates(n: int, m: int)
    ensures Decimal(n) == Decimal(m) <==> n == m
  {
    if Decimal(n) == Decimal(m) {
      DecimalInjective(n, m, [], []);
    }
  }

  lemma {:induction false} CanonicalSame(a: Value, b: Value)
    requires WellFormed(a) && WellFormed(b)
    ensures Canonical(a) == Canonical(b) <==> Same(a, b)
    decreases a, 1
  {
    CanonicalTag(a);
    CanonicalTag(b);
    if TagOf(a) == TagOf(b) {
      match a
      case Int(n) =>
        DecimalSeparates(n, b.n);
        assert Canonical(a).items[1] == Json.Str(Decimal(n)) && Canonical(b).items[1] == Json.Str(Decimal(b.n));
      case Bool(x) => assert Canonical(a).items[1] == Json.Bool(x) && Canonical(b).items[1] == Json.Bool(b.b);
      case Str(x) => assert Canonical(a).items[1] == Json.Str(x) && Canonical(b).items[1] == Json.Str(b.s);
      case Unserializable(x) => assert Canonical(a).items[1] == Json.Str(x) && Canonical(b).items[1] == Json.Str(b.s);
      case Set(xs) => SetsSame(a, b);
      case Seq(xs) => ListsSame(a, b, xs, b.items);
      case Tuple(xs) => ListsSame(a, b, xs, b.items);
      case Record(fs) => RecordsSame(a, b);
      case Map(es) => MapsSame(a, b);
      case Variant(tag, value) =>
        CanonicalSame(value, b.value);
        assert Canonical(a).items[1] == Json.Str(tag) && Canonical(b).items[1] == Json.Str(b.tag);
        assert Canonical(a).items[2] == Canonical(value) && Canonical(b).items[2] == Canonical(b.value);
      case Null =>
    }
  }

  lemma {:induction false} ListsSame(a: Value, b: Value, xs: seq<Value>, ys: seq<Value>)
    requires WellFormed(a) && WellFormed(b)
    requires (a == Seq(xs) && b == Seq(ys)) || (a == Tuple(xs) && b == Tuple(ys))
    ensures Canonical(a) == Canonical(b) <==> Same(a, b)
    decreases a, 0
  {
    assert Canonical(a).items[1] == Arr(Canonicals(xs)) && Canonical(b).items[1] == Arr(Canonicals(ys));
    if |xs| == |ys| {
      forall i | 0 <= i < |xs| ensures Canonicals(xs)[i] == Canonicals(ys)[i] <==> Same(xs[i], ys[i]) {
        CanonicalSame(xs[i], ys[i]);
      }
      if Same(a, b) {
        assert Canonicals(xs) == Canonicals(ys);
      }
      if Canonical(a) == Canonical(b) {
        assert Canonicals(xs) == Canonicals(ys);
      }
    } else {
      assert |Canonicals(xs)| != |Canonicals(ys)|;
    }
  }

  lemma {:induction false} SetsSame(a: Value, b: Value)
    requires WellFormed(a) && WellFormed(b) && a.Set? && b.Set?
    ensures Canonical(a) == Canonical(b) <==> Same(a, b)
    decreases a, 0
  {
    var xs, ys := Canonicals(a.items), Canonicals(b.items);
    assert Canonical(a).items[1] == Arr(Sorted(xs)) && Canonical(b).items[1] == Arr(Sorted(ys));
    forall i | 0 <= i < |xs| ensures Integral(xs[i]) { CanonicalIntegral(a.items[i]); }
    SortedAlike(xs, ys);
    forall i, j | 0 <= i < |xs| && 0 <= j < |ys| ensures xs[i] == ys[j] <==> SameItem(a.items[i], b.items[j]) {
      CanonicalSame(a.items[i], b.items[j]);
    }
    SetPairing(a, b, xs, ys);
  }

  ghost predicate SameItem(x: Value, y: Value) {
    Same(x, y)
  }

  lemma {:induction false} SetPairing(a: Value, b: Value, xs: seq<Json>, ys: seq<Json>)
    requires a.Set? && b.Set? && |xs| == |a.items| && |ys| == |b.items|
    requires forall i, j :: 0 <= i < |xs| && 0 <= j < |ys| ==> (xs[i] == ys[j] <==> SameItem(a.items[i], b.items[j]))
    ensures Same(a, b) <==> exists p :: Pairs(xs, ys, p)
  {
    if p :| Pairs(xs, ys, p) {
      assert forall i :: 0 <= i < |xs| ==> SameItem(a.items[i], b.items[p[i]]);
    }
    if Same(a, b) {
      var p :| Permutation(p, |a.items|) && forall i :: 0 <= i < |a.items| ==> Same(a.items[i], b.items[p[i]]);
      assert |xs| == |ys|;
      assert forall i :: 0 <= i < |a.items| ==> SameItem(a.items[i], b.items[p[i]]);
      assert Pairs(xs, ys, p);
    }
  }

  lemma {:induction false} RecordsSame(a: Value, b: Value)
    requires WellFormed(a) && WellFormed(b) && a.Record? && b.Record?
    ensures Canonical(a) == Canonical(b) <==> Same(a, b)
    decreases a, 0
  {
    var xs, ys := CanonicalFields(a.fields), CanonicalFields(b.fields);
    assert Canonical(a).items[1] == Arr(NamedPairs(SortBy(xs, NameOf)));
    assert Canonical(b).items[1] == Arr(NamedPairs(SortBy(ys, NameOf)));
    FieldsAlike(a.fields, b.fields);
    forall i, j | 0 <= i < |xs| && 0 <= j < |ys|
      ensures xs[i] == ys[j] <==> SameField(a.fields[i], b.fields[j])
    {
      CanonicalSame(a.fields[i].value, b.fields[j].value);
    }
    RecordPairing(a, b, xs, ys);
  }

  ghost predicate SameField(f: Field, g: Field) {
    f.name == g.name && Same(f.value, g.value)
  }

  lemma {:induction false} RecordPairing(a: Value, b: Value, xs: seq<Named>, ys: seq<Named>)
    requires a.Record? && b.Record? && |xs| == |a.fields| && |ys| == |b.fields|
    requires forall i, j :: 0 <= i < |xs| && 0 <= j < |ys| ==> (xs[i] == ys[j] <==> SameField(a.fields[i], b.fields[j]))
    ensures Same(a, b) <==> exists p :: Pairs(xs, ys, p)
  {
    var fs, gs := a.fields, b.fields;
    if p :| Pairs(xs, ys, p) {
      assert forall i :: 0 <= i < |xs| ==> SameField(fs[i], gs[p[i]]);
    }
    if Same(a, b) {
      var p :| Permutation(p, |fs|) && forall i :: 0 <= i < |fs| ==>
        fs[i].name == gs[p[i]].name && Same(fs[i].value, gs[p[i]].value);
      assert forall i :: 0 <= i < |fs| ==> SameField(fs[i], gs[p[i]]);
      assert Pairs(xs, ys, p);
    }
  }

  lemma {:induction false} MapsSame(a: Value, b: Value)
    requires WellFormed(a) && WellFormed(b) && a.Map? && b.Map?
    ensures Canonical(a) == Canonical(b) <==> Same(a, b)
    decreases a, 0
  {
    var xs, ys := CanonicalEntries(a.entries), CanonicalEntries(b.entries);
    assert Canonical(a).items[1] == Arr(Sorted(xs)) && Canonical(b).items[1] == Arr(Sorted(ys));
    forall i | 0 <= i < |xs| ensures Integral(xs[i]) {
      CanonicalIntegral(a.entries[i].key);
      CanonicalIntegral(a.entries[i].value);
    }
    SortedAlike(xs, ys);
    forall i, j | 0 <= i < |xs| && 0 <= j < |ys| ensures xs[i] == ys[j] <==> SameEntry(a.entries[i], b.entries[j]) {
      CanonicalSame(a.entries[i].key, b.entries[j].key);
      CanonicalSame(a.entries[i].value, b.entries[j].value);
      EntryAlike(a.entries[i], b.entries[j]);
    }
    MapPairing(a, b, xs, ys);
  }

  ghost predicate SameEntry(e: Entry, d: Entry) {
    Same(e.key, d.key) && Same(e.value, d.value)
  }

  lemma {:induction false} EntryAlike(e: Entry, d: Entry)
    ensures CanonicalEntry(e) == CanonicalEntry(d) <==> Canonical(e.key) == Canonical(d.key) && Canonical(e.value) == Canonical(d.value)
  {
    var x, y := CanonicalEntry(e).items, CanonicalEntry(d).items;
    assert x == [Canonical(e.key), Canonical(e.value)] && y == [Canonical(d.key), Canonical(d.value)];
    assert x[0] == Canonical(e.key) && x[1] == Canonical(e.value) && y[0] == Canonical(d.key) && y[1] == Canonical(d.value);
  }

  lemma {:induction false} MapPairing(a: Value, b: Value, xs: seq<Json>, ys: seq<Json>)
    requires a.Map? && b.Map? && |xs| == |a.entries| && |ys| == |b.entries|
    requires forall i, j :: 0 <= i < |xs| && 0 <= j < |ys| ==> (xs[i] == ys[j] <==> SameEntry(a.entries[i], b.entries[j]))
    ensures Same(a, b) <==> exists p :: Pairs(xs, ys, p)
  {
    var es, ds := a.entries, b.entries;
    if p :| Pairs(xs, ys, p) {
      assert forall i :: 0 <= i < |xs| ==> SameEntry(es[i], ds[p[i]]);
    }
    if Same(a, b) {
      var p :| Permutation(p, |es|) && forall i :: 0 <= i < |es| ==>
        Same(es[i].key, ds[p[i]].key) && Same(es[i].value, ds[p[i]].value);
      assert forall i :: 0 <= i < |es| ==> SameEntry(es[i], ds[p[i]]);
      assert Pairs(xs, ys, p);
    }
  }

  /** Two values have one identity exactly when they are equal up to the order
      of set elements, map entries and record fields. */
  lemma {:induction false} IdentityIsEquality(a: Value, b: Value)
    requires WellFormed(a) && WellFormed(b)
    ensures Identity(a) == Identity(b) <==> Same(a, b)
  {
    CanonicalIntegral(a);
    CanonicalIntegral(b);
    SameTextSameTree(Canonical(a), Canonical(b), Stringify);
    CanonicalSame(a, b);
  }

  /** Hence the relation is an equivalence. */
  lemma {:induction false} SameEquivalence(a: Value, b: Value, c: Value)
    requires WellFormed(a) && WellFormed(b) && WellFormed(c)
    ensures Same(a, a)
    ensures Same(a, b) ==> Same(b, a)
    ensures Same(a, b) && Same(b, c) ==> Same(a, c)
  {
    IdentityIsEquality(a, a);
    IdentityIsEquality(a, b);
    IdentityIsEquality(b, a);
    IdentityIsEquality(b, c);
    IdentityIsEquality(a, c);
  }
}
