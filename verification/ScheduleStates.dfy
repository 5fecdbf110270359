/** The texts by which explored states are told apart. */
module ScheduleStates {
  import opened JsonText
  import opened Sorting
  import opened Wrappers
  import opened Itf
  import opened UnicodeOrder
  import OpaqueItf
  import StrictJson

  const STATE_SCHEMA := Ascii("mirrors.canonical-state/v1")
  const MAX_STATE_DEPTH := 32
  const MAX_STATE_NODES := 65_536
  const MAX_STATE_BYTES := 1_048_576

  /** How UTF-8 bytes order a string: by code points, with the replacement character
      for a surrogate that has no partner. */
  function Utf8Points(t: Text): (r: seq<int>)
    ensures |r| == |Points(t)|
  {
    seq(|Points(t)|, i requires 0 <= i < |Points(t)| => if 0xD800 <= Points(t)[i] <= 0xDFFF then 0xFFFD else Points(t)[i])
  }

  function Utf8Name(k: Keyed): seq<int> { Utf8Points(k.name) }

  function StateTag(v: Value): Text {
    match v
    case Null => Ascii("null")
    case Int(_) => Ascii("integer")
    case Bool(_) => Ascii("boolean")
    case Str(_) => Ascii("string")
    case Unserializable(_) => Ascii("unserializable")
    case Set(_) => Ascii("set")
    case Seq(_) => Ascii("sequence")
    case Tuple(_) => Ascii("tuple")
    case Record(_) => Ascii("record")
    case Map(_) => Ascii("map")
    case Variant(_, _) => Ascii("variant")
  }

  /** Each item once, at its first place. */
  function Once(ks: seq<Keyed>): (r: seq<Keyed>)
    ensures forall k :: k in r <==> k in ks
    ensures forall i, j :: 0 <= i < j < |r| ==> r[i] != r[j]
  {
    if ks == [] then []
    else
      var front := Once(ks[..|ks| - 1]);
      assert ks == ks[..|ks| - 1] + [ks[|ks| - 1]];
      if ks[|ks| - 1] in front then front else front + [ks[|ks| - 1]]
  }

  /** `canonicalValue` without its limits. */
  function StateJson(v: Value): Json
    decreases v
  {
    match v
    case Null => Arr([Json.Str(StateTag(v))])
    case Int(n) => Arr([Json.Str(StateTag(v)), Json.Str(Decimal(n))])
    case Bool(b) => Arr([Json.Str(StateTag(v)), Json.Bool(b)])
    case Str(s) => Arr([Json.Str(StateTag(v)), Json.Str(s)])
    case Unserializable(s) => Arr([Json.Str(StateTag(v)), Json.Str(s)])
    case Set(items) => Arr([Json.Str(StateTag(v)), Arr(Arranged(Once(SetItems(items))))])
    case Seq(items) => Arr([Json.Str(StateTag(v)), Arr(StateJsons(items))])
    case Tuple(items) => Arr([Json.Str(StateTag(v)), Arr(StateJsons(items))])
    case Record(fields) => Arr([Json.Str(StateTag(v)), Arr(FieldsJson(fields))])
    case Map(entries) => Arr([Json.Str(StateTag(v)), Arr(Arranged(EntryItems(entries)))])
    case Variant(tag, value) => Arr([Json.Str(StateTag(v)), Json.Str(tag), StateJson(value)])
  }

  function StateJsons(items: seq<Value>): (r: seq<Json>)
    ensures |r| == |items| && forall i :: 0 <= i < |items| ==> r[i] == StateJson(items[i])
    decreases items
  {
    seq(|items|, i requires 0 <= i < |items| => StateJson(items[i]))
  }

  function SetItems(items: seq<Value>): (r: seq<Keyed>)
    ensures |r| == |items| && forall i :: 0 <= i < |items| ==> r[i] == Keyed(Render(StateJson(items[i]), Stringify), StateJson(items[i]))
    decreases items
  {
    seq(|items|, i requires 0 <= i < |items| => Keyed(Render(StateJson(items[i]), Stringify), StateJson(items[i])))
  }

  function FieldItems(fields: seq<Field>): (r: seq<Keyed>)
    ensures |r| == |fields|
    ensures forall i :: 0 <= i < |fields| ==> r[i] == Keyed(fields[i].name, Arr([Json.Str(fields[i].name), StateJson(fields[i].value)]))
    decreases fields, 0
  {
    seq(|fields|, i requires 0 <= i < |fields| => Keyed(fields[i].name, Arr([Json.Str(fields[i].name), StateJson(fields[i].value)])))
  }

  function FieldsJson(fields: seq<Field>): seq<Json>
    decreases fields, 1
  {
    Values(SortBy(FieldItems(fields), Utf8Name))
  }

  function EntryItem(e: Entry): Keyed
    decreases e
  {
    Keyed(Render(StateJson(e.key), Stringify), Arr([StateJson(e.key), StateJson(e.value)]))
  }

  function EntryItems(entries: seq<Entry>): (r: seq<Keyed>)
    ensures |r| == |entries| && forall i :: 0 <= i < |entries| ==> r[i] == EntryItem(entries[i])
    decreases entries
  {
    seq(|entries|, i requires 0 <= i < |entries| => EntryItem(entries[i]))
  }

  /** The text of a state, whatever its size. */
  function StateText(state: seq<Field>): Text {
    Render(Arr([Json.Str(STATE_SCHEMA), Arr(FieldsJson(state))]), Stringify)
  }

  // ----- Equality of states -----

  /** Equality as mathematical values: a set is its elements, however often they are
      written down. */
  ghost predicate Equal(a: Value, b: Value)
    decreases a, 2
  {
    match a
    case Set(xs) => b.Set? && EqualSets(xs, b.items)
    case Seq(xs) => b.Seq? && |xs| == |b.items| && forall i :: 0 <= i < |xs| ==> Equal(xs[i], b.items[i])
    case Tuple(xs) => b.Tuple? && |xs| == |b.items| && forall i :: 0 <= i < |xs| ==> Equal(xs[i], b.items[i])
    case Record(fs) => b.Record? && EqualFields(fs, b.fields)
    case Map(es) => b.Map? && EqualMaps(es, b.entries)
    case Variant(tag, value) => b.Variant? && b.tag == tag && Equal(value, b.value)
    case _ => a == b
  }

  ghost predicate EqualSets(xs: seq<Value>, ys: seq<Value>)
    decreases xs, 4
  {
    (forall i :: 0 <= i < |xs| ==> In(xs[i], ys)) && forall j :: 0 <= j < |ys| ==> Holds(xs, ys[j])
  }

  ghost predicate In(x: Value, ys: seq<Value>)
    decreases x, 3
  {
    exists j :: 0 <= j < |ys| && Equal(x, ys[j])
  }

  ghost predicate Holds(xs: seq<Value>, y: Value)
    decreases xs, 3
  {
    exists i :: 0 <= i < |xs| && Equal(xs[i], y)
  }

  ghost predicate EqualFields(fs: seq<Field>, gs: seq<Field>)
    decreases fs, 4
  {
    (forall i :: 0 <= i < |fs| ==> FieldIn(fs[i], gs)) && forall j :: 0 <= j < |gs| ==> HoldsField(fs, gs[j])
  }

  ghost predicate FieldIn(f: Field, gs: seq<Field>)
    decreases f, 3
  {
    exists j :: 0 <= j < |gs| && EqualField(f, gs[j])
  }

  ghost predicate HoldsField(fs: seq<Field>, g: Field)
    decreases fs, 3
  {
    exists i :: 0 <= i < |fs| && EqualField(fs[i], g)
  }

  ghost predicate EqualField(f: Field, g: Field)
    decreases f, 2
  {
    f.name == g.name && Equal(f.value, g.value)
  }

  ghost predicate EqualMaps(es: seq<Entry>, ds: seq<Entry>)
    decreases es, 4
  {
    (forall i :: 0 <= i < |es| ==> EntryIn(es[i], ds)) && forall j :: 0 <= j < |ds| ==> HoldsEntry(es, ds[j])
  }

  ghost predicate EntryIn(e: Entry, ds: seq<Entry>)
    decreases e, 3
  {
    exists j :: 0 <= j < |ds| && EqualEntry(e, ds[j])
  }

  ghost predicate HoldsEntry(es: seq<Entry>, d: Entry)
    decreases es, 3
  {
    exists i :: 0 <= i < |es| && EqualEntry(es[i], d)
  }

  ghost predicate EqualEntry(e: Entry, d: Entry)
    decreases e, 2
  {
    Equal(e.key, d.key) && Equal(e.value, d.value)
  }

  /** Map keys are distinct strings, or distinct integers. */
  ghost predicate PlainKeys(entries: seq<Entry>) {
    && ((forall i :: 0 <= i < |entries| ==> entries[i].key.Str?) || (forall i :: 0 <= i < |entries| ==> entries[i].key.Int?))
    && forall i, j :: 0 <= i < j < |entries| ==> entries[i].key != entries[j].key
  }

  /** What `canonicalValue` accepts: the object properties are distinct and the maps
      have plain keys. */
  ghost predicate Sound(v: Value)
    decreases v
  {
    match v
    case Set(items) => forall i :: 0 <= i < |items| ==> Sound(items[i])
    case Seq(items) => forall i :: 0 <= i < |items| ==> Sound(items[i])
    case Tuple(items) => forall i :: 0 <= i < |items| ==> Sound(items[i])
    case Record(fields) => DistinctFields(fields) && forall i :: 0 <= i < |fields| ==> Sound(fields[i].value)
    case Map(entries) => PlainKeys(entries) && forall i :: 0 <= i < |entries| ==> Sound(entries[i].key) && Sound(entries[i].value)
    case Variant(_, value) => Sound(value)
    case _ => true
  }

  ghost predicate NamesTell(fields: seq<Field>) {
    forall i, j :: 0 <= i < j < |fields| ==> Utf8Points(fields[i].name) != Utf8Points(fields[j].name)
  }

  /** No two fields of one record have names that only differ in lone surrogates. */
  ghost predicate Legible(v: Value)
    decreases v
  {
    match v
    case Set(items) => forall i :: 0 <= i < |items| ==> Legible(items[i])
    case Seq(items) => forall i :: 0 <= i < |items| ==> Legible(items[i])
    case Tuple(items) => forall i :: 0 <= i < |items| ==> Legible(items[i])
    case Record(fields) => NamesTell(fields) && forall i :: 0 <= i < |fields| ==> Legible(fields[i].value)
    case Map(entries) => forall i :: 0 <= i < |entries| ==> Legible(entries[i].key) && Legible(entries[i].value)
    case Variant(_, value) => Legible(value)
    case _ => true
  }

  // ----- Lists as sets of items -----

  ghost predicate NoRepeats(ks: seq<Keyed>) {
    forall i, j :: 0 <= i < j < |ks| ==> ks[i] != ks[j]
  }

  ghost predicate SameItems(ks: seq<Keyed>, ls: seq<Keyed>) {
    forall k :: k in ks <==> k in ls
  }

  lemma {:induction false} AtMostOnce(ks: seq<Keyed>, k: Keyed)
    requires NoRepeats(ks)
    ensures multiset(ks)[k] == if k in ks then 1 else 0
  {
    if ks != [] {
      var front := ks[..|ks| - 1];
      assert ks == front + [ks[|ks| - 1]];
      AtMostOnce(front, k);
    }
  }

  lemma {:induction false} SameItemsRearranged(ks: seq<Keyed>, ls: seq<Keyed>)
    requires NoRepeats(ks) && NoRepeats(ls) && SameItems(ks, ls)
    ensures multiset(ks) == multiset(ls)
  {
    forall k ensures multiset(ks)[k] == multiset(ls)[k] {
      AtMostOnce(ks, k);
      AtMostOnce(ls, k);
    }
  }

  lemma {:induction false} RearrangedSameItems(ks: seq<Keyed>, ls: seq<Keyed>)
    requires multiset(ks) == multiset(ls)
    ensures SameItems(ks, ls)
  {
    forall k ensures k in ks <==> k in ls {
      assert (k in ks <==> k in multiset(ks)) && (k in ls <==> k in multiset(ls));
    }
  }

  /** A sorted list determines the items it shows; and if the keys separate them, the
      items determine the list. */
  lemma {:induction false} SortedShows(ks: seq<Keyed>, ls: seq<Keyed>, key: Keyed -> seq<int>)
    requires ValuesName(ks, ls) && NoRepeats(ks) && NoRepeats(ls)
    ensures Values(SortBy(ks, key)) == Values(SortBy(ls, key)) ==> SameItems(ks, ls)
    ensures KeysSeparate(multiset(ks), key) && SameItems(ks, ls) ==> Values(SortBy(ks, key)) == Values(SortBy(ls, key))
  {
    SortByMeaning(ks, key);
    SortByMeaning(ls, key);
    if Values(SortBy(ks, key)) == Values(SortBy(ls, key)) {
      RearrangedSameItems(ks, SortBy(ks, key));
      RearrangedSameItems(ls, SortBy(ls, key));
      ValuesDetermine(SortBy(ks, key), SortBy(ls, key));
    }
    if KeysSeparate(multiset(ks), key) && SameItems(ks, ls) {
      SameItemsRearranged(ks, ls);
      SortCanonical(ks, ls, key);
    }
  }

  /** The same for lists arranged by name, once repeats are dropped. */
  lemma {:induction false} ArrangedShows(ks: seq<Keyed>, ls: seq<Keyed>)
    requires ValuesName(ks, ls) && Unrepeated(ks) && NoRepeats(ks) && NoRepeats(ls)
    ensures Arranged(ks) == Arranged(ls) <==> SameItems(ks, ls)
  {
    SortedShows(ks, ls, ByName);
    NamesSeparate(ks);
  }

  ghost predicate Place(ks: seq<Keyed>, k: Keyed, i: nat) {
    i < |ks| && ks[i] == k
  }

  lemma {:induction false} PlaceOf(ks: seq<Keyed>, k: Keyed) returns (i: nat)
    requires k in ks
    ensures Place(ks, k, i)
  {
    i :| 0 <= i < |ks| && ks[i] == k;
  }

  // ----- Canonical trees -----

  lemma {:induction false} SortedIntegral(ks: seq<Keyed>, key: Keyed -> seq<int>)
    requires forall k :: k in ks ==> Integral(k.value)
    ensures Integral(Arr(Values(SortBy(ks, key))))
  {
    SortByMeaning(ks, key);
    RearrangedSameItems(ks, SortBy(ks, key));
    var sorted := SortBy(ks, key);
    forall i | 0 <= i < |sorted| ensures Integral(Values(sorted)[i]) {
      assert sorted[i] in sorted;
    }
  }

  lemma {:induction false} PairIntegral(a: Json, b: Json)
    requires Integral(a) && Integral(b)
    ensures Integral(Arr([a, b]))
  {
    var pair := [a, b];
    assert pair[0] == a && pair[1] == b;
  }

  lemma {:induction false} StateIntegral(v: Value)
    ensures Integral(StateJson(v))
    decreases v
  {
    match v
    case Set(items) =>
      forall k | k in Once(SetItems(items)) ensures Integral(k.value) {
        var i :| 0 <= i < |items| && SetItems(items)[i] == k;
        StateIntegral(items[i]);
      }
      SortedIntegral(Once(SetItems(items)), ByName);
    case Seq(items) => forall i | 0 <= i < |items| ensures Integral(StateJsons(items)[i]) { StateIntegral(items[i]); }
    case Tuple(items) => forall i | 0 <= i < |items| ensures Integral(StateJsons(items)[i]) { StateIntegral(items[i]); }
    case Record(fields) =>
      forall k | k in FieldItems(fields) ensures Integral(k.value) {
        var i :| 0 <= i < |fields| && FieldItems(fields)[i] == k;
        StateIntegral(fields[i].value);
        PairIntegral(Json.Str(fields[i].name), StateJson(fields[i].value));
      }
      SortedIntegral(FieldItems(fields), Utf8Name);
    case Map(entries) =>
      forall k | k in EntryItems(entries) ensures Integral(k.value) {
        var i :| 0 <= i < |entries| && EntryItems(entries)[i] == k;
        StateIntegral(entries[i].key);
        StateIntegral(entries[i].value);
        PairIntegral(StateJson(entries[i].key), StateJson(entries[i].value));
      }
      SortedIntegral(EntryItems(entries), ByName);
    case Variant(_, value) => StateIntegral(value);
    case _ =>
  }

  lemma {:induction false} TextsTell(a: Value, b: Value)
    ensures Render(StateJson(a), Stringify) == Render(StateJson(b), Stringify) <==> StateJson(a) == StateJson(b)
  {
    StateIntegral(a);
    StateIntegral(b);
    if Render(StateJson(a), Stringify) == Render(StateJson(b), Stringify) {
      SameTextSameTree(StateJson(a), StateJson(b), Stringify);
    }
  }

  /** The lengths and first letters of the tags. */
  function Signature(t: Text): int { 0x1_0000 * |t| + if t == [] then 0 else t[0] }

  function Form(v: Value): int {
    match v
    case Null => 0x4_006E
    case Int(_) => 0x7_0069
    case Bool(_) => 0x7_0062
    case Str(_) => 0x6_0073
    case Unserializable(_) => 0xE_0075
    case Set(_) => 0x3_0073
    case Seq(_) => 0x8_0073
    case Tuple(_) => 0x5_0074
    case Record(_) => 0x6_0072
    case Map(_) => 0x3_006D
    case Variant(_, _) => 0x7_0076
  }

  lemma {:induction false} TagTells(v: Value)
    ensures Signature(StateTag(v)) == Form(v)
  {
  }

  lemma {:induction false} JsonTag(v: Value)
    ensures StateJson(v).Arr? && StateJson(v).items != [] && StateJson(v).items[0] == Json.Str(StateTag(v))
  {
  }

  lemma {:induction false} SameForm(a: Value, b: Value)
    requires StateJson(a) == StateJson(b)
    ensures Form(a) == Form(b)
  {
    JsonTag(a);
    JsonTag(b);
    TagTells(a);
    TagTells(b);
  }

  lemma {:induction false} EqualForm(a: Value, b: Value)
    requires Equal(a, b)
    ensures Form(a) == Form(b)
  {
  }

  /** What is to be shown of two values. */
  ghost predicate Told(a: Value, b: Value) {
    && (StateJson(a) == StateJson(b) ==> Equal(a, b))
    && (Legible(a) && Equal(a, b) ==> StateJson(a) == StateJson(b))
  }

  lemma {:induction false} FormsAgree(a: Value, b: Value)
    requires StateJson(a) == StateJson(b) || Equal(a, b)
    ensures Form(a) == Form(b)
  {
    if Equal(a, b) { EqualForm(a, b); } else { SameForm(a, b); }
  }

  lemma {:induction false} StateTold(a: Value, b: Value)
    requires Sound(a) && Sound(b)
    ensures Told(a, b)
    decreases a, 3
  {
    if StateJson(a) == StateJson(b) || Equal(a, b) {
      FormsAgree(a, b);
      SameFormTold(a, b);
    }
  }

  lemma {:induction false} SameFormTold(a: Value, b: Value)
    requires Sound(a) && Sound(b) && Form(a) == Form(b)
    ensures Told(a, b)
    decreases a, 2
  {
    match a
    case Set(_) => SetTold(a, b);
    case Seq(_) => ListTold(a, b);
    case Tuple(_) => ListTold(a, b);
    case Record(_) => RecordTold(a, b);
    case Map(_) => MapTold(a, b);
    case Variant(_, _) => VariantTold(a, b);
    case _ => ScalarTold(a, b);
  }

  lemma {:induction false} VariantTold(a: Value, b: Value)
    requires Sound(a) && Sound(b) && a.Variant? && b.Variant?
    ensures Told(a, b)
    decreases a, 0
  {
    StateTold(a.value, b.value);
    VariantTells(a, b);
  }

  lemma {:induction false} ScalarTold(a: Value, b: Value)
    requires Form(a) == Form(b) && (a.Null? || a.Int? || a.Bool? || a.Str? || a.Unserializable?)
    ensures Told(a, b)
  {
    match a
    case Int(n) =>
      if Decimal(n) == Decimal(b.n) { DecimalInjective(n, b.n, [], []); }
      PairTells(StateTag(a), Json.Str(Decimal(n)), Json.Str(Decimal(b.n)));
    case Bool(x) => PairTells(StateTag(a), Json.Bool(x), Json.Bool(b.b));
    case Str(s) => PairTells(StateTag(a), Json.Str(s), Json.Str(b.s));
    case Unserializable(s) => PairTells(StateTag(a), Json.Str(s), Json.Str(b.s));
    case Null =>
  }

  lemma {:induction false} SetTold(a: Value, b: Value)
    requires Sound(a) && Sound(b) && a.Set? && b.Set?
    ensures Told(a, b)
    decreases a, 0
  {
    var xs, ys := a.items, b.items;
    forall i, j | 0 <= i < |xs| && 0 <= j < |ys| ensures Told(xs[i], ys[j]) { StateTold(xs[i], ys[j]); }
    SetsTold(xs, ys);
    PairTells(StateTag(a), Arr(Arranged(Once(SetItems(xs)))), Arr(Arranged(Once(SetItems(ys)))));
  }

  lemma {:induction false} ListTold(a: Value, b: Value)
    requires Sound(a) && Sound(b) && ((a.Seq? && b.Seq?) || (a.Tuple? && b.Tuple?))
    ensures Told(a, b)
    decreases a, 0
  {
    var xs, ys := a.items, b.items;
    forall i | 0 <= i < |xs| && i < |ys| ensures Told(xs[i], ys[i]) { StateTold(xs[i], ys[i]); }
    ListsTold(xs, ys);
    PairTells(StateTag(a), Arr(StateJsons(xs)), Arr(StateJsons(ys)));
  }

  lemma {:induction false} RecordTold(a: Value, b: Value)
    requires Sound(a) && Sound(b) && a.Record? && b.Record?
    ensures Told(a, b)
    decreases a, 0
  {
    var fs, gs := a.fields, b.fields;
    forall i, j | 0 <= i < |fs| && 0 <= j < |gs| ensures Told(fs[i].value, gs[j].value) { StateTold(fs[i].value, gs[j].value); }
    FieldsTold(fs, gs);
    PairTells(StateTag(a), Arr(FieldsJson(fs)), Arr(FieldsJson(gs)));
  }

  lemma {:induction false} MapTold(a: Value, b: Value)
    requires Sound(a) && Sound(b) && a.Map? && b.Map?
    ensures Told(a, b)
    decreases a, 0
  {
    var es, ds := a.entries, b.entries;
    forall i, j | 0 <= i < |es| && 0 <= j < |ds| ensures Told(es[i].key, ds[j].key) && Told(es[i].value, ds[j].value) {
      StateTold(es[i].key, ds[j].key);
      StateTold(es[i].value, ds[j].value);
    }
    MapsTold(es, ds);
    PairTells(StateTag(a), Arr(Arranged(EntryItems(es))), Arr(Arranged(EntryItems(ds))));
  }

  lemma {:induction false} PairTells(tag: Text, x: Json, y: Json)
    ensures Arr([Json.Str(tag), x]) == Arr([Json.Str(tag), y]) <==> x == y
  {
    var a, b := [Json.Str(tag), x], [Json.Str(tag), y];
    assert a[1] == x && b[1] == y;
  }

  lemma {:induction false} VariantTells(a: Value, b: Value)
    requires a.Variant? && b.Variant?
    ensures StateJson(a) == StateJson(b) <==> a.tag == b.tag && StateJson(a.value) == StateJson(b.value)
  {
    var xs, ys := StateJson(a).items, StateJson(b).items;
    assert xs[1] == Json.Str(a.tag) && ys[1] == Json.Str(b.tag) && xs[2] == StateJson(a.value) && ys[2] == StateJson(b.value);
  }

  lemma {:induction false} ListsTold(xs: seq<Value>, ys: seq<Value>)
    requires forall i :: 0 <= i < |xs| && i < |ys| ==> Told(xs[i], ys[i])
    ensures StateJsons(xs) == StateJsons(ys) ==> |xs| == |ys| && forall i :: 0 <= i < |xs| ==> Equal(xs[i], ys[i])
    ensures |xs| == |ys| && (forall i :: 0 <= i < |xs| ==> Legible(xs[i]) && Equal(xs[i], ys[i])) ==> StateJsons(xs) == StateJsons(ys)
  {
    var js, ks := StateJsons(xs), StateJsons(ys);
    if js == ks {
      assert |xs| == |js| == |ks| == |ys|;
      forall i | 0 <= i < |xs| ensures Equal(xs[i], ys[i]) { assert js[i] == ks[i]; }
    }
  }

  lemma {:induction false} SetItemsTell(xs: seq<Value>, ys: seq<Value>)
    ensures ValuesName(SetItems(xs), SetItems(ys)) && Unrepeated(SetItems(xs))
  {
    var ks := SetItems(xs);
    forall k, l | k in ks && l in ks && k.name == l.name ensures k == l {
      var i :| 0 <= i < |xs| && ks[i] == k;
      var j :| 0 <= j < |xs| && ks[j] == l;
      TextsTell(xs[i], xs[j]);
    }
  }

  lemma {:induction false} SameSetItems(xs: seq<Value>, ys: seq<Value>)
    requires forall i, j :: 0 <= i < |xs| && 0 <= j < |ys| && SetItems(xs)[i] == SetItems(ys)[j] ==> Equal(xs[i], ys[j])
    requires SameItems(SetItems(xs), SetItems(ys))
    ensures EqualSets(xs, ys)
  {
    forall i | 0 <= i < |xs| ensures In(xs[i], ys) {
      assert SetItems(xs)[i] in SetItems(ys);
      var j := PlaceOf(SetItems(ys), SetItems(xs)[i]);
      assert Equal(xs[i], ys[j]);
    }
    forall j | 0 <= j < |ys| ensures Holds(xs, ys[j]) {
      assert SetItems(ys)[j] in SetItems(xs);
      var i := PlaceOf(SetItems(xs), SetItems(ys)[j]);
      assert Equal(xs[i], ys[j]);
    }
  }

  lemma {:induction false} SetItemsSame(xs: seq<Value>, ys: seq<Value>)
    requires forall i, j :: 0 <= i < |xs| && 0 <= j < |ys| && Equal(xs[i], ys[j]) ==> SetItems(xs)[i] == SetItems(ys)[j]
    requires EqualSets(xs, ys)
    ensures SameItems(SetItems(xs), SetItems(ys))
  {
    var ks, ls := SetItems(xs), SetItems(ys);
    forall k | k in ks ensures k in ls {
      var i := PlaceOf(ks, k);
      assert In(xs[i], ys);
      var j :| 0 <= j < |ys| && Equal(xs[i], ys[j]);
      assert ls[j] == k;
    }
    forall l | l in ls ensures l in ks {
      var j := PlaceOf(ls, l);
      assert Holds(xs, ys[j]);
      var i :| 0 <= i < |xs| && Equal(xs[i], ys[j]);
      assert ks[i] == l;
    }
  }

  lemma {:induction false} SetsTold(xs: seq<Value>, ys: seq<Value>)
    requires forall i, j :: 0 <= i < |xs| && 0 <= j < |ys| ==> Told(xs[i], ys[j])
    ensures Arranged(Once(SetItems(xs))) == Arranged(Once(SetItems(ys))) ==> EqualSets(xs, ys)
    ensures (forall i :: 0 <= i < |xs| ==> Legible(xs[i])) && EqualSets(xs, ys) ==>
      Arranged(Once(SetItems(xs))) == Arranged(Once(SetItems(ys)))
  {
    var ks, ls := SetItems(xs), SetItems(ys);
    SetItemsTell(xs, ys);
    ArrangedShows(Once(ks), Once(ls));
    forall i, j | 0 <= i < |xs| && 0 <= j < |ys|
      ensures ks[i] == ls[j] ==> Equal(xs[i], ys[j])
      ensures Legible(xs[i]) && Equal(xs[i], ys[j]) ==> ks[i] == ls[j]
    {
      assert Told(xs[i], ys[j]);
    }
    if SameItems(ks, ls) { SameSetItems(xs, ys); }
    if (forall i :: 0 <= i < |xs| ==> Legible(xs[i])) && EqualSets(xs, ys) { SetItemsSame(xs, ys); }
  }

  lemma {:induction false} FieldItemIs(f: Field, g: Field)
    ensures Arr([Json.Str(f.name), StateJson(f.value)]) == Arr([Json.Str(g.name), StateJson(g.value)])
       <==> f.name == g.name && StateJson(f.value) == StateJson(g.value)
  {
    var a, b := [Json.Str(f.name), StateJson(f.value)], [Json.Str(g.name), StateJson(g.value)];
    assert a[0] == Json.Str(f.name) && b[0] == Json.Str(g.name) && a[1] == StateJson(f.value) && b[1] == StateJson(g.value);
  }

  lemma {:induction false} FieldItemsTell(fs: seq<Field>, gs: seq<Field>)
    ensures ValuesName(FieldItems(fs), FieldItems(gs))
  {
    var ks, ls := FieldItems(fs), FieldItems(gs);
    forall k, l | k in ks && l in ls && k.value == l.value ensures k.name == l.name {
      var i := PlaceOf(ks, k);
      var j := PlaceOf(ls, l);
      FieldItemIs(fs[i], gs[j]);
    }
  }

  lemma {:induction false} FieldItemsApart(fs: seq<Field>)
    ensures DistinctFields(fs) ==> NoRepeats(FieldItems(fs))
    ensures NamesTell(fs) ==> KeysSeparate(multiset(FieldItems(fs)), Utf8Name)
  {
    var ks := FieldItems(fs);
    if NamesTell(fs) {
      forall k, l | k in multiset(ks) && l in multiset(ks) && Utf8Name(k) == Utf8Name(l) ensures k == l {
        var i := PlaceOf(ks, k);
        var j := PlaceOf(ks, l);
      }
    }
  }

  lemma {:induction false} SameFieldItems(fs: seq<Field>, gs: seq<Field>)
    requires forall i, j :: 0 <= i < |fs| && 0 <= j < |gs| && FieldItems(fs)[i] == FieldItems(gs)[j] ==> EqualField(fs[i], gs[j])
    requires SameItems(FieldItems(fs), FieldItems(gs))
    ensures EqualFields(fs, gs)
  {
    forall i | 0 <= i < |fs| ensures FieldIn(fs[i], gs) {
      assert FieldItems(fs)[i] in FieldItems(gs);
      var j := PlaceOf(FieldItems(gs), FieldItems(fs)[i]);
      assert EqualField(fs[i], gs[j]);
    }
    forall j | 0 <= j < |gs| ensures HoldsField(fs, gs[j]) {
      assert FieldItems(gs)[j] in FieldItems(fs);
      var i := PlaceOf(FieldItems(fs), FieldItems(gs)[j]);
      assert EqualField(fs[i], gs[j]);
    }
  }

  lemma {:induction false} FieldItemsSame(fs: seq<Field>, gs: seq<Field>)
    requires forall i, j :: 0 <= i < |fs| && 0 <= j < |gs| && EqualField(fs[i], gs[j]) ==> FieldItems(fs)[i] == FieldItems(gs)[j]
    requires EqualFields(fs, gs)
    ensures SameItems(FieldItems(fs), FieldItems(gs))
  {
    var ks, ls := FieldItems(fs), FieldItems(gs);
    forall k | k in ks ensures k in ls {
      var i := PlaceOf(ks, k);
      assert FieldIn(fs[i], gs);
      var j :| 0 <= j < |gs| && EqualField(fs[i], gs[j]);
      assert ls[j] == k;
    }
    forall l | l in ls ensures l in ks {
      var j := PlaceOf(ls, l);
      assert HoldsField(fs, gs[j]);
      var i :| 0 <= i < |fs| && EqualField(fs[i], gs[j]);
      assert ks[i] == l;
    }
  }

  lemma {:induction false} FieldsTold(fs: seq<Field>, gs: seq<Field>)
    requires DistinctFields(fs) && DistinctFields(gs)
    requires forall i, j :: 0 <= i < |fs| && 0 <= j < |gs| ==> Told(fs[i].value, gs[j].value)
    ensures FieldsJson(fs) == FieldsJson(gs) ==> EqualFields(fs, gs)
    ensures NamesTell(fs) && (forall i :: 0 <= i < |fs| ==> Legible(fs[i].value)) && EqualFields(fs, gs) ==> FieldsJson(fs) == FieldsJson(gs)
  {
    var ks, ls := FieldItems(fs), FieldItems(gs);
    FieldItemsTell(fs, gs);
    FieldItemsApart(fs);
    FieldItemsApart(gs);
    SortedShows(ks, ls, Utf8Name);
    forall i, j | 0 <= i < |fs| && 0 <= j < |gs|
      ensures ks[i] == ls[j] ==> EqualField(fs[i], gs[j])
      ensures Legible(fs[i].value) && EqualField(fs[i], gs[j]) ==> ks[i] == ls[j]
    {
      FieldItemIs(fs[i], gs[j]);
      assert Told(fs[i].value, gs[j].value);
    }
    if SameItems(ks, ls) { SameFieldItems(fs, gs); }
    if (forall i :: 0 <= i < |fs| ==> Legible(fs[i].value)) && EqualFields(fs, gs) { FieldItemsSame(fs, gs); }
  }

  lemma {:induction false} EntryItemIs(e: Entry, d: Entry)
    ensures EntryItem(e) == EntryItem(d) <==> StateJson(e.key) == StateJson(d.key) && StateJson(e.value) == StateJson(d.value)
    ensures EntryItem(e).value == EntryItem(d).value ==> EntryItem(e) == EntryItem(d)
    ensures EntryItem(e).name == EntryItem(d).name <==> StateJson(e.key) == StateJson(d.key)
  {
    var a, b := EntryItem(e).value.items, EntryItem(d).value.items;
    assert a[0] == StateJson(e.key) && b[0] == StateJson(d.key) && a[1] == StateJson(e.value) && b[1] == StateJson(d.value);
    TextsTell(e.key, d.key);
  }

  lemma {:induction false} PlainKeysTell(es: seq<Entry>, i: nat, j: nat)
    requires PlainKeys(es) && i < j < |es|
    ensures StateJson(es[i].key) != StateJson(es[j].key)
  {
    var a, b := es[i].key, es[j].key;
    assert StateJson(a).items[1] == Json.Str(if a.Str? then a.s else Decimal(a.n));
    assert StateJson(b).items[1] == Json.Str(if b.Str? then b.s else Decimal(b.n));
    if a.Int? && Decimal(a.n) == Decimal(b.n) { DecimalInjective(a.n, b.n, [], []); }
  }

  lemma {:induction false} EntryItemsTell(es: seq<Entry>, ds: seq<Entry>)
    requires PlainKeys(es)
    ensures ValuesName(EntryItems(es), EntryItems(ds)) && Unrepeated(EntryItems(es)) && NoRepeats(EntryItems(es))
  {
    var ks, ls := EntryItems(es), EntryItems(ds);
    forall k, l | k in ks && l in ls && k.value == l.value ensures k.name == l.name {
      var i :| 0 <= i < |es| && ks[i] == k;
      var j :| 0 <= j < |ds| && ls[j] == l;
      EntryItemIs(es[i], ds[j]);
    }
    forall i, j | 0 <= i < j < |es| ensures ks[i].name != ks[j].name {
      PlainKeysTell(es, i, j);
      EntryItemIs(es[i], es[j]);
    }
    forall k, l | k in ks && l in ks && k.name == l.name ensures k == l {
      var i :| 0 <= i < |es| && ks[i] == k;
      var j :| 0 <= j < |es| && ks[j] == l;
    }
  }

  lemma {:induction false} SameEntryItems(es: seq<Entry>, ds: seq<Entry>)
    requires forall i, j :: 0 <= i < |es| && 0 <= j < |ds| && EntryItems(es)[i] == EntryItems(ds)[j] ==> EqualEntry(es[i], ds[j])
    requires SameItems(EntryItems(es), EntryItems(ds))
    ensures EqualMaps(es, ds)
  {
    forall i | 0 <= i < |es| ensures EntryIn(es[i], ds) {
      assert EntryItems(es)[i] in EntryItems(ds);
      var j := PlaceOf(EntryItems(ds), EntryItems(es)[i]);
      assert EqualEntry(es[i], ds[j]);
    }
    forall j | 0 <= j < |ds| ensures HoldsEntry(es, ds[j]) {
      assert EntryItems(ds)[j] in EntryItems(es);
      var i := PlaceOf(EntryItems(es), EntryItems(ds)[j]);
      assert EqualEntry(es[i], ds[j]);
    }
  }

  lemma {:induction false} EntryItemsSame(es: seq<Entry>, ds: seq<Entry>)
    requires forall i, j :: 0 <= i < |es| && 0 <= j < |ds| && EqualEntry(es[i], ds[j]) ==> EntryItems(es)[i] == EntryItems(ds)[j]
    requires EqualMaps(es, ds)
    ensures SameItems(EntryItems(es), EntryItems(ds))
  {
    var ks, ls := EntryItems(es), EntryItems(ds);
    forall k | k in ks ensures k in ls {
      var i := PlaceOf(ks, k);
      assert EntryIn(es[i], ds);
      var j :| 0 <= j < |ds| && EqualEntry(es[i], ds[j]);
      assert ls[j] == k;
    }
    forall l | l in ls ensures l in ks {
      var j := PlaceOf(ls, l);
      assert HoldsEntry(es, ds[j]);
      var i :| 0 <= i < |es| && EqualEntry(es[i], ds[j]);
      assert ks[i] == l;
    }
  }

  lemma {:induction false} MapsTold(es: seq<Entry>, ds: seq<Entry>)
    requires PlainKeys(es) && PlainKeys(ds)
    requires forall i, j :: 0 <= i < |es| && 0 <= j < |ds| ==> Told(es[i].key, ds[j].key) && Told(es[i].value, ds[j].value)
    ensures Arranged(EntryItems(es)) == Arranged(EntryItems(ds)) ==> EqualMaps(es, ds)
    ensures (forall i :: 0 <= i < |es| ==> Legible(es[i].key) && Legible(es[i].value)) && EqualMaps(es, ds) ==>
      Arranged(EntryItems(es)) == Arranged(EntryItems(ds))
  {
    var ks, ls := EntryItems(es), EntryItems(ds);
    EntryItemsTell(es, ds);
    EntryItemsTell(ds, es);
    ArrangedShows(ks, ls);
    forall i, j | 0 <= i < |es| && 0 <= j < |ds|
      ensures ks[i] == ls[j] ==> EqualEntry(es[i], ds[j])
      ensures Legible(es[i].key) && Legible(es[i].value) && EqualEntry(es[i], ds[j]) ==> ks[i] == ls[j]
    {
      EntryItemIs(es[i], ds[j]);
      assert Told(es[i].key, ds[j].key) && Told(es[i].value, ds[j].value);
    }
    if SameItems(ks, ls) { SameEntryItems(es, ds); }
    if (forall i :: 0 <= i < |es| ==> Legible(es[i].key) && Legible(es[i].value)) && EqualMaps(es, ds) { EntryItemsSame(es, ds); }
  }

  lemma {:induction false} StateTextTells(s: seq<Field>, t: seq<Field>)
    ensures StateText(s) == StateText(t) <==> FieldsJson(s) == FieldsJson(t)
  {
    RecordIntegral(s);
    RecordIntegral(t);
    PairTells(STATE_SCHEMA, Arr(FieldsJson(s)), Arr(FieldsJson(t)));
    PairIntegral(Json.Str(STATE_SCHEMA), Arr(FieldsJson(s)));
    PairIntegral(Json.Str(STATE_SCHEMA), Arr(FieldsJson(t)));
    if StateText(s) == StateText(t) {
      SameTextSameTree(Arr([Json.Str(STATE_SCHEMA), Arr(FieldsJson(s))]), Arr([Json.Str(STATE_SCHEMA), Arr(FieldsJson(t))]), Stringify);
    }
  }

  lemma {:induction false} RecordIntegral(s: seq<Field>)
    ensures Integral(Arr(FieldsJson(s)))
  {
    StateIntegral(Record(s));
    assert StateJson(Record(s)).items[1] == Arr(FieldsJson(s));
  }

  /** `canonicalScheduleState`: nothing for a state with a repeated or unplain map key,
      or one beyond the limits on depth, nodes or bytes. */
  ghost function CanonicalScheduleState(state: seq<Field>): Option<Text> {
    if Sound(Record(state)) && (forall i :: 0 <= i < |state| ==> OpaqueItf.Shallow(state[i].value, MAX_STATE_DEPTH))
      && OpaqueItf.SizeFields(state) <= MAX_STATE_NODES && StrictJson.Utf8Length(StateText(state)) <= MAX_STATE_BYTES
    then Some(StateText(state))
    else None
  }

  /** Two states have one text only if they are equal as mathematical values, and
      always if the field names of one can be told apart in UTF-8. */
  lemma {:induction false} StateTextMeaning(s: seq<Field>, t: seq<Field>)
    requires CanonicalScheduleState(s).Some? && CanonicalScheduleState(t).Some?
    ensures CanonicalScheduleState(s) == CanonicalScheduleState(t) ==> EqualFields(s, t)
    ensures Legible(Record(s)) && EqualFields(s, t) ==> CanonicalScheduleState(s) == CanonicalScheduleState(t)
  {
    StateTold(Record(s), Record(t));
    PairTells(StateTag(Record(s)), Arr(FieldsJson(s)), Arr(FieldsJson(t)));
    StateTextTells(s, t);
  }

  lemma {:induction false} OnePoint(u: CodeUnit)
    requires 0xD800 <= u <= 0xDFFF
    ensures Utf8Points([u]) == [0xFFFD]
  {
    assert [u][1..] == [] && Points([]) == [];
    assert Points([u]) == [u as int];
  }

  /** Items whose names UTF-8 confuses stay in place. */
  lemma {:induction false} SortedTie(k: Keyed, l: Keyed)
    requires Utf8Name(k) == Utf8Name(l)
    ensures SortBy([k, l], Utf8Name) == [k, l]
  {
    assert [k, l][1..] == [l] && [l][1..] == [];
    LexReflexive(Utf8Name(k));
    assert SortBy([l], Utf8Name) == Insert(l, SortBy([], Utf8Name), Utf8Name);
  }
}
