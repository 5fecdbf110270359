/** The typed native codec of dynamic bindings. */
module NativeCodec {
  import opened Wrappers
  import opened JsonText
  import opened Sorting
  import opened Permutations
  import opened Itf
  import opened ValueIdentity
  import opened OpaqueItf
  import opened ValueOrder
  import opened ModelTypes

  const TAG: Text := [0x74, 0x61, 0x67]
  const VALUE: Text := [0x76, 0x61, 0x6C, 0x75, 0x65]

  /** What a handler sees or returns. `Other` is anything no declared type admits. */
  datatype Native =
    | NInt(n: int)
    | NBool(b: bool)
    | NStr(s: Text)
    | NNull
    | NArr(items: seq<Native>)
    | NObj(properties: seq<Property>)
    | NOpaque(wrapped: Value)
    | Other

  datatype Property = Property(name: Text, value: Native)

  // ----- Shared checks -----

  function Units(t: Text): seq<int> { t }

  /** Same keys, whatever their order: both lists are sorted and compared. */
  predicate ExactKeys(actual: seq<Text>, expected: seq<Text>) {
    SortBy(actual, Units) == SortBy(expected, Units)
  }

  lemma {:induction false} ExactKeysMeaning(actual: seq<Text>, expected: seq<Text>)
    ensures ExactKeys(actual, expected) <==> multiset(actual) == multiset(expected)
  {
    SortCanonical(actual, expected, Units);
  }

  lemma {:induction false} AllFitGrows(values: seq<Value>, i: nat)
    requires i < |values|
    ensures AllFit(values[..i + 1]) <==> AllFit(values[..i]) && Acceptable(values[i])
    ensures AllFit(values) ==> Acceptable(values[i])
  {
  }

  /** `assertUniqueValues`: identities are collected one by one. */
  method AssertUniqueValues(values: seq<Value>) returns (ok: bool)
    requires forall i :: 0 <= i < |values| ==> WellFormed(values[i])
    ensures ok <==> UniqueValues(values)
  {
    DistinctIdentities(values);
    ok := CollectIdentities(values, Identities(values));
  }

  lemma {:induction false} SeenGrows(ids: seq<Text>, i: nat)
    requires i < |ids|
    ensures DistinctTexts(ids[..i + 1]) <==> DistinctTexts(ids[..i]) && ids[i] !in ids[..i]
    ensures DistinctTexts(ids) ==> DistinctTexts(ids[..i + 1])
    ensures forall t :: t in ids[..i + 1] <==> t in ids[..i] || t == ids[i]
  {
    assert ids[..i + 1] == ids[..i] + [ids[i]];
  }

  method CollectIdentities(values: seq<Value>, ghost ids: seq<Text>) returns (ok: bool)
    requires forall i :: 0 <= i < |values| ==> WellFormed(values[i])
    requires ids == Identities(values)
    ensures ok <==> AllFit(values) && DistinctTexts(ids)
  {
    var seen: set<Text> := {};
    for i := 0 to |values|
      invariant AllFit(values[..i]) && DistinctTexts(ids[..i])
      invariant forall t :: t in seen <==> t in ids[..i]
    {
      AllFitGrows(values, i);
      SeenGrows(ids, i);
      var fits := SnapshotValue(values[i]);
      if !fits { return false; }
      var identity := IdentityOf(values[i]);
      if identity in seen { return false; }
      seen := seen + {identity};
    }
    assert values[..|values|] == values && ids[..|values|] == ids;
    return true;
  }

  method IdentityOf(v: Value) returns (identity: Text)
    ensures identity == Identity(v)
  {
    identity := Identity(v);
  }

  function Names(fields: seq<Field>): (r: seq<Text>)
    ensures |r| == |fields| && forall i :: 0 <= i < |r| ==> r[i] == fields[i].name
  {
    seq(|fields|, i requires 0 <= i < |fields| => fields[i].name)
  }

  function PropertyNames(ps: seq<Property>): (r: seq<Text>)
    ensures |r| == |ps| && forall i :: 0 <= i < |r| ==> r[i] == ps[i].name
  {
    seq(|ps|, i requires 0 <= i < |ps| => ps[i].name)
  }

  /** The position of the first occurrence of a name. */
  function IndexOf(names: seq<Text>, name: Text): (r: Option<nat>)
    ensures r.Some? ==> r.value < |names| && names[r.value] == name
    ensures r.None? ==> name !in names
  {
    if names == [] then None
    else if names[0] == name then Some(0)
    else
      var more := IndexOf(names[1..], name);
      if more.None? then None else Some(more.value + 1)
  }

  function AsArr(items: Option<seq<Native>>): Option<Native> {
    if items.None? then None else Some(NArr(items.value))
  }

  function AsObj(ps: Option<seq<Property>>): Option<Native> {
    if ps.None? then None else Some(NObj(ps.value))
  }

  function AsProperty(name: Text, v: Option<Native>): Option<Property> {
    if v.None? then None else Some(Property(name, v.value))
  }

  // ----- decodeNative -----

  ghost function Decode(v: Value, t: ModelType): Option<Native>
    decreases t, 2
  {
    match t
    case IntType => if v.Int? then Some(NInt(v.n)) else None
    case BoolType => if v.Bool? then Some(NBool(v.b)) else None
    case StrType => if v.Str? then Some(NStr(v.s)) else None
    case NullType => if v.Null? then Some(NNull) else None
    case SetType(e) => if v.Set? && UniqueValues(v.items) then AsArr(Collect(DecodeItems(v.items, e))) else None
    case SeqType(e) => if v.Seq? then AsArr(Collect(DecodeItems(v.items, e))) else None
    case TupleType(es) => if v.Tuple? && |v.items| == |es| then AsArr(Collect(DecodeEach(v.items, es))) else None
    case RecordType(fs) =>
      if v.Record? && ExactKeys(Names(v.fields), Labels(fs)) then AsObj(Collect(DecodeFields(v.fields, fs))) else None
    case MapType(_, _) =>
      if v.Map? && UniqueValues(Keys(v.entries)) then AsArr(Collect(DecodeEntries(v.entries, t))) else None
    case VariantType(cases) =>
      if !v.Variant? then None
      else
        var found := IndexOf(Labels(cases), v.tag);
        if found.None? then None
        else
          var payload := DecodeCase(v.value, cases[found.value]);
          if payload.None? then None
          else Some(NObj([Property(TAG, NStr(v.tag)), Property(VALUE, payload.value)]))
    case OpaqueType(_) => if Acceptable(v) then Some(NOpaque(v)) else None
  }

  ghost function DecodeItems(items: seq<Value>, e: ModelType): (r: seq<Option<Native>>)
    ensures |r| == |items| && forall i :: 0 <= i < |r| ==> r[i] == Decode(items[i], e)
    decreases e, 3
  {
    seq(|items|, i requires 0 <= i < |items| => Decode(items[i], e))
  }

  ghost function DecodeEach(items: seq<Value>, es: seq<ModelType>): (r: seq<Option<Native>>)
    requires |items| == |es|
    ensures |r| == |items| && forall i :: 0 <= i < |r| ==> r[i] == Decode(items[i], es[i])
    decreases es, 3
  {
    seq(|items|, i requires 0 <= i < |items| => Decode(items[i], es[i]))
  }

  /** Fields are read by name, in the declared order. */
  ghost function DecodeFields(vs: seq<Field>, fs: seq<Labelled>): (r: seq<Option<Property>>)
    ensures |r| == |fs| && forall i :: 0 <= i < |r| ==> r[i] == AsProperty(fs[i].name, DecodeField(vs, fs[i]))
    decreases fs, 3
  {
    seq(|fs|, i requires 0 <= i < |fs| => AsProperty(fs[i].name, DecodeField(vs, fs[i])))
  }

  ghost function DecodeField(vs: seq<Field>, f: Labelled): Option<Native>
    decreases f, 3
  {
    var k := IndexOf(Names(vs), f.name);
    if k.None? then None else Decode(vs[k.value].value, f.inner)
  }

  ghost function DecodeCase(v: Value, c: Labelled): Option<Native>
    decreases c, 3
  {
    Decode(v, c.inner)
  }

  ghost function DecodeEntries(entries: seq<Entry>, t: ModelType): (r: seq<Option<Native>>)
    requires t.MapType?
    ensures |r| == |entries| && forall i :: 0 <= i < |r| ==> r[i] == DecodeEntry(entries[i], t)
    decreases t, 1
  {
    seq(|entries|, i requires 0 <= i < |entries| => DecodeEntry(entries[i], t))
  }

  ghost function DecodeEntry(e: Entry, t: ModelType): Option<Native>
    requires t.MapType?
    decreases t, 0
  {
    var k, w := Decode(e.key, t.key), Decode(e.value, t.value);
    if k.None? || w.None? then None else Some(NArr([k.value, w.value]))
  }

  // ----- encodeNative -----

  function AsField(name: Text, v: Option<Value>): Option<Field> {
    if v.None? then None else Some(Field(name, v.value))
  }

  ghost function Encode(n: Native, t: ModelType): Option<Value>
    decreases t, 2
  {
    match t
    case IntType => if n.NInt? then Some(Int(n.n)) else None
    case BoolType => if n.NBool? then Some(Value.Bool(n.b)) else None
    case StrType => if n.NStr? then Some(Value.Str(n.s)) else None
    case NullType => if n.NNull? then Some(Value.Null) else None
    case SetType(e) =>
      if !n.NArr? then None
      else
        var items := Collect(EncodeItems(n.items, e));
        if items.None? || !UniqueValues(items.value) then None else Some(Set(items.value))
    case SeqType(e) =>
      if !n.NArr? then None
      else
        var items := Collect(EncodeItems(n.items, e));
        if items.None? then None else Some(Seq(items.value))
    case TupleType(es) =>
      if !n.NArr? || |n.items| != |es| then None
      else
        var items := Collect(EncodeEach(n.items, es));
        if items.None? then None else Some(Tuple(items.value))
    case RecordType(fs) =>
      if !n.NObj? || !ExactKeys(PropertyNames(n.properties), Labels(fs)) then None
      else
        var fields := Collect(EncodeFields(n.properties, fs));
        if fields.None? then None else Some(Record(fields.value))
    case MapType(_, _) =>
      if !n.NArr? then None
      else
        var entries := Collect(EncodeEntries(n.items, t));
        if entries.None? || !UniqueValues(Keys(entries.value)) then None else Some(Map(entries.value))
    case VariantType(cases) =>
      if !n.NObj? then None else EncodeVariant(n.properties, cases)
    case OpaqueType(_) => if n.NOpaque? && Acceptable(n.wrapped) then Some(n.wrapped) else None
  }

  ghost function EncodeVariant(ps: seq<Property>, cases: seq<Labelled>): Option<Value>
    decreases cases, 3
  {
    var tag := IndexOf(PropertyNames(ps), TAG);
    if tag.None? || !ps[tag.value].value.NStr? || !ExactKeys(PropertyNames(ps), [TAG, VALUE]) then None
    else
      var chosen := ps[tag.value].value.s;
      var found := IndexOf(Labels(cases), chosen);
      var value := IndexOf(PropertyNames(ps), VALUE);
      if found.None? || value.None? then None
      else
        var payload := EncodeCase(ps[value.value].value, cases[found.value]);
        if payload.None? then None else Some(Variant(chosen, payload.value))
  }

  ghost function EncodeItems(items: seq<Native>, e: ModelType): (r: seq<Option<Value>>)
    ensures |r| == |items| && forall i :: 0 <= i < |r| ==> r[i] == Encode(items[i], e)
    decreases e, 3
  {
    seq(|items|, i requires 0 <= i < |items| => Encode(items[i], e))
  }

  ghost function EncodeEach(items: seq<Native>, es: seq<ModelType>): (r: seq<Option<Value>>)
    requires |items| == |es|
    ensures |r| == |items| && forall i :: 0 <= i < |r| ==> r[i] == Encode(items[i], es[i])
    decreases es, 3
  {
    seq(|items|, i requires 0 <= i < |items| => Encode(items[i], es[i]))
  }

  ghost function EncodeFields(ps: seq<Property>, fs: seq<Labelled>): (r: seq<Option<Field>>)
    ensures |r| == |fs| && forall i :: 0 <= i < |r| ==> r[i] == AsField(fs[i].name, EncodeField(ps, fs[i]))
    decreases fs, 3
  {
    seq(|fs|, i requires 0 <= i < |fs| => AsField(fs[i].name, EncodeField(ps, fs[i])))
  }

  ghost function EncodeField(ps: seq<Property>, f: Labelled): Option<Value>
    decreases f, 3
  {
    var k := IndexOf(PropertyNames(ps), f.name);
    if k.None? then None else Encode(ps[k.value].value, f.inner)
  }

  ghost function EncodeCase(n: Native, c: Labelled): Option<Value>
    decreases c, 3
  {
    Encode(n, c.inner)
  }

  ghost function EncodeEntries(items: seq<Native>, t: ModelType): (r: seq<Option<Entry>>)
    requires t.MapType?
    ensures |r| == |items| && forall i :: 0 <= i < |r| ==> r[i] == EncodeEntry(items[i], t)
    decreases t, 1
  {
    seq(|items|, i requires 0 <= i < |items| => EncodeEntry(items[i], t))
  }

  ghost function EncodeEntry(n: Native, t: ModelType): Option<Entry>
    requires t.MapType?
    decreases t, 0
  {
    if !n.NArr? || |n.items| != 2 then None
    else
      var k, w := Encode(n.items[0], t.key), Encode(n.items[1], t.value);
      if k.None? || w.None? then None else Some(Entry(k.value, w.value))
  }

  // ----- Names -----

  ghost predicate DistinctNames(names: seq<Text>) {
    forall i, j :: 0 <= i < j < |names| ==> names[i] != names[j]
  }

  lemma {:induction false} IndexOfDistinct(names: seq<Text>, k: nat)
    requires k < |names| && DistinctNames(names)
    ensures IndexOf(names, names[k]) == Some(k)
  {
    if k > 0 {
      IndexOfDistinct(names[1..], k - 1);
    }
  }

  /** Exactly the declared names, so each is matched with one declared place. */
  lemma {:induction false} NamesMatched(actual: seq<Text>, wire: seq<Text>) returns (p: seq<nat>)
    requires ExactKeys(actual, wire) && DistinctNames(actual)
    ensures Pairs(actual, wire, p) && DistinctNames(wire)
  {
    ExactKeysMeaning(actual, wire);
    p := PairingOf(actual, wire);
    forall i, j | 0 <= i < j < |wire| ensures wire[i] != wire[j] {
      var x := PermutationOnto(p, |wire|, i);
      var y := PermutationOnto(p, |wire|, j);
      assert actual[x] == wire[i] && actual[y] == wire[j] && x != y;
    }
  }

  // ----- Decoding and encoding gives the value back -----

  lemma {:induction false} DecodeThenEncode(v: Value, t: ModelType)
    requires WellFormed(v) && Decode(v, t).Some?
    ensures var back := Encode(Decode(v, t).value, t); back.Some? && Alike(v, back.value)
    decreases t, 2
  {
    match t
    case SetType(e) => SetBack(v.items, e);
    case SeqType(e) => ItemsBack(v.items, e, Collect(DecodeItems(v.items, e)).value);
    case TupleType(es) => EachBack(v.items, es, Collect(DecodeEach(v.items, es)).value);
    case RecordType(fs) => RecordBack(v.fields, fs);
    case MapType(_, _) => MapBack(v.entries, t);
    case VariantType(cases) => VariantBack(v, cases);
    case OpaqueType(_) => AlikeReflexive(v);
    case _ =>
  }

  lemma {:induction false} ItemsBack(items: seq<Value>, e: ModelType, ns: seq<Native>)
    requires forall i :: 0 <= i < |items| ==> WellFormed(items[i])
    requires Collect(DecodeItems(items, e)) == Some(ns)
    ensures var back := Collect(EncodeItems(ns, e));
      back.Some? && |back.value| == |items| && forall i :: 0 <= i < |items| ==> Alike(items[i], back.value[i])
    decreases e, 3
  {
    forall i | 0 <= i < |items| ensures EncodeItems(ns, e)[i].Some? && Alike(items[i], EncodeItems(ns, e)[i].value) {
      assert DecodeItems(items, e)[i] == Some(ns[i]);
      DecodeThenEncode(items[i], e);
    }
  }

  lemma {:induction false} UniqueBack(items: seq<Value>, back: seq<Value>)
    requires UniqueValues(items) && |items| == |back|
    requires forall i :: 0 <= i < |items| ==> WellFormed(items[i]) && Alike(items[i], back[i])
    ensures UniqueValues(back)
  {
    var p := seq(|items|, i => i);
    forall i | 0 <= i < |items| ensures WellFormed(back[i]) && SameItem(items[i], back[p[i]]) {
      AlikeWellFormed(items[i], back[i]);
      AlikeSame(items[i], back[i]);
    }
    assert SamePaired(items, back, p);
    SameUnique(items, back, p);
  }

  lemma {:induction false} SetBack(items: seq<Value>, e: ModelType)
    requires WellFormed(Set(items)) && Decode(Set(items), SetType(e)).Some?
    ensures var back := Encode(Decode(Set(items), SetType(e)).value, SetType(e)); back.Some? && Alike(Set(items), back.value)
    decreases e, 4
  {
    var ns := Collect(DecodeItems(items, e)).value;
    ItemsBack(items, e, ns);
    UniqueBack(items, Collect(EncodeItems(ns, e)).value);
  }

  lemma {:induction false} EachBack(items: seq<Value>, es: seq<ModelType>, ns: seq<Native>)
    requires |items| == |es| && forall i :: 0 <= i < |items| ==> WellFormed(items[i])
    requires Collect(DecodeEach(items, es)) == Some(ns)
    ensures var back := Collect(EncodeEach(ns, es));
      back.Some? && |back.value| == |items| && forall i :: 0 <= i < |items| ==> Alike(items[i], back.value[i])
    decreases es, 3
  {
    forall i | 0 <= i < |items| ensures EncodeEach(ns, es)[i].Some? && Alike(items[i], EncodeEach(ns, es)[i].value) {
      assert DecodeEach(items, es)[i] == Some(ns[i]);
      DecodeThenEncode(items[i], es[i]);
    }
  }

  lemma {:induction false} FieldBack(vs: seq<Field>, f: Labelled, i: nat)
    requires DistinctFields(vs) && i < |vs| && vs[i].name == f.name && WellFormed(vs[i].value)
    requires DecodeField(vs, f).Some?
    ensures var back := EncodeAs(DecodeField(vs, f).value, f); back.Some? && Alike(vs[i].value, back.value)
    decreases f, 4
  {
    IndexOfDistinct(Names(vs), i);
    DecodeThenEncode(vs[i].value, f.inner);
  }

  ghost function EncodeAs(n: Native, f: Labelled): Option<Value> {
    Encode(n, f.inner)
  }

  /** One field, at the place `k` where the declaration has its name. */
  lemma {:induction false} PlacedBack(vs: seq<Field>, fs: seq<Labelled>, ps: seq<Property>, i: nat, k: nat)
    requires WellFormed(Record(vs)) && i < |vs| && k < |fs| && vs[i].name == fs[k].name
    requires Collect(DecodeFields(vs, fs)) == Some(ps) && PropertyNames(ps) == Labels(fs) && DistinctNames(Labels(fs))
    ensures var back := EncodeFields(ps, fs)[k]; back.Some? && AlikeField(vs[i], back.value)
    decreases fs, 3
  {
    assert DecodeFields(vs, fs)[k] == Some(ps[k]);
    IndexOfDistinct(PropertyNames(ps), k);
    FieldBack(vs, fs[k], i);
  }

  lemma {:induction false} RecordBack(vs: seq<Field>, fs: seq<Labelled>)
    requires WellFormed(Record(vs)) && Decode(Record(vs), RecordType(fs)).Some?
    ensures var back := Encode(Decode(Record(vs), RecordType(fs)).value, RecordType(fs));
      back.Some? && Alike(Record(vs), back.value)
    decreases fs, 4
  {
    var ps := Collect(DecodeFields(vs, fs)).value;
    var p := NamesMatched(Names(vs), Labels(fs));
    PropertiesNamed(vs, fs, ps);
    var back := EncodeFields(ps, fs);
    forall i | 0 <= i < |vs| ensures back[p[i]].Some? && AlikeField(vs[i], back[p[i]].value) {
      assert Names(vs)[i] == Labels(fs)[p[i]];
      PlacedBack(vs, fs, ps, i, p[i]);
    }
    forall k | 0 <= k < |fs| ensures back[k].Some? {
      var i := PermutationOnto(p, |fs|, k);
      assert back[p[i]].Some?;
    }
    var gs := Collect(back).value;
    assert FieldsPaired(vs, gs, p);
    RecordsAlike(vs, gs);
  }

  lemma {:induction false} PropertiesNamed(vs: seq<Field>, fs: seq<Labelled>, ps: seq<Property>)
    requires Collect(DecodeFields(vs, fs)) == Some(ps)
    ensures PropertyNames(ps) == Labels(fs)
  {
    assert forall k :: 0 <= k < |fs| ==> DecodeFields(vs, fs)[k] == Some(ps[k]);
  }

  lemma {:induction false} EntryBack(e: Entry, t: ModelType)
    requires t.MapType? && WellFormed(e.key) && WellFormed(e.value) && DecodeEntry(e, t).Some?
    ensures var back := EncodeEntry(DecodeEntry(e, t).value, t);
      back.Some? && Alike(e.key, back.value.key) && Alike(e.value, back.value.value)
    decreases t, 0
  {
    DecodeThenEncode(e.key, t.key);
    DecodeThenEncode(e.value, t.value);
  }

  lemma {:induction false} MapBack(entries: seq<Entry>, t: ModelType)
    requires t.MapType? && WellFormed(Map(entries)) && Decode(Map(entries), t).Some?
    ensures var back := Encode(Decode(Map(entries), t).value, t); back.Some? && Alike(Map(entries), back.value)
    decreases t, 1
  {
    var ns := Collect(DecodeEntries(entries, t)).value;
    var back := EncodeEntries(ns, t);
    forall i | 0 <= i < |entries|
      ensures back[i].Some? && Alike(entries[i].key, back[i].value.key) && Alike(entries[i].value, back[i].value.value)
    {
      assert DecodeEntries(entries, t)[i] == Some(ns[i]);
      EntryBack(entries[i], t);
    }
    UniqueBack(Keys(entries), Keys(Collect(back).value));
  }

  lemma {:induction false} CaseBack(v: Value, c: Labelled)
    requires WellFormed(v) && DecodeCase(v, c).Some?
    ensures var back := EncodeCase(DecodeCase(v, c).value, c); back.Some? && Alike(v, back.value)
    decreases c, 3
  {
    DecodeThenEncode(v, c.inner);
  }

  /** A tagged object is encoded by its tag and its value, in either order. */
  lemma {:induction false} TaggedObject(ps: seq<Property>, cases: seq<Labelled>, t: nat)
    requires |ps| == 2 && t < 2 && ps[t].name == TAG && ps[1 - t].name == VALUE && ps[t].value.NStr?
    ensures var found := IndexOf(Labels(cases), ps[t].value.s);
      EncodeVariant(ps, cases)
      == if found.None? then None
         else
           var payload := EncodeCase(ps[1 - t].value, cases[found.value]);
           if payload.None? then None else Some(Variant(ps[t].value.s, payload.value))
  {
    TagAndValue(ps, t);
  }

  lemma {:induction false} TagAndValue(ps: seq<Property>, t: nat)
    requires |ps| == 2 && t < 2 && ps[t].name == TAG && ps[1 - t].name == VALUE
    ensures var names := PropertyNames(ps);
      IndexOf(names, TAG) == Some(t) && IndexOf(names, VALUE) == Some(1 - t) && ExactKeys(names, [TAG, VALUE])
  {
    var names := PropertyNames(ps);
    assert |TAG| != |VALUE|;
    assert DistinctNames(names);
    IndexOfDistinct(names, t);
    IndexOfDistinct(names, 1 - t);
    ExactKeysMeaning(names, [TAG, VALUE]);
    assert names == [names[0], names[1]];
    assert multiset(names) == multiset{TAG, VALUE};
  }

  lemma {:induction false} VariantBack(v: Value, cases: seq<Labelled>)
    requires WellFormed(v) && Decode(v, VariantType(cases)).Some?
    ensures var back := Encode(Decode(v, VariantType(cases)).value, VariantType(cases)); back.Some? && Alike(v, back.value)
    decreases cases, 4
  {
    var c := cases[IndexOf(Labels(cases), v.tag).value];
    CaseBack(v.value, c);
    TaggedObject(Decode(v, VariantType(cases)).value.properties, cases, 0);
  }

  // ----- Encoding and decoding gives the native value back -----

  /** The same native value but for the order of properties. */
  ghost predicate NativeAlike(a: Native, b: Native)
    decreases a
  {
    match a
    case NArr(xs) => b.NArr? && |xs| == |b.items| && forall i :: 0 <= i < |xs| ==> NativeAlike(xs[i], b.items[i])
    case NObj(ps) =>
      b.NObj? && |ps| == |b.properties| && exists p :: Permutation(p, |ps|) && forall i :: 0 <= i < |ps| ==>
        ps[i].name == b.properties[p[i]].name && NativeAlike(ps[i].value, b.properties[p[i]].value)
    case _ => a == b
  }

  ghost predicate AlikeProperty(f: Property, g: Property) {
    f.name == g.name && NativeAlike(f.value, g.value)
  }

  ghost predicate PropertiesPaired(ps: seq<Property>, qs: seq<Property>, p: seq<nat>) {
    |ps| == |qs| && Permutation(p, |ps|) && forall i :: 0 <= i < |ps| ==> AlikeProperty(ps[i], qs[p[i]])
  }

  lemma {:induction false} ObjectsAlike(ps: seq<Property>, qs: seq<Property>, p: seq<nat>)
    requires PropertiesPaired(ps, qs, p)
    ensures NativeAlike(NObj(ps), NObj(qs))
  {
    forall i | 0 <= i < |ps| ensures ps[i].name == qs[p[i]].name && NativeAlike(ps[i].value, qs[p[i]].value) {
      assert AlikeProperty(ps[i], qs[p[i]]);
    }
  }

  /** Objects have no repeated property, at any depth. */
  ghost predicate WellFormedNative(n: Native)
    decreases n
  {
    match n
    case NArr(items) => forall i :: 0 <= i < |items| ==> WellFormedNative(items[i])
    case NObj(ps) =>
      DistinctNames(PropertyNames(ps)) && forall i :: 0 <= i < |ps| ==> WellFormedNative(ps[i].value)
    case _ => true
  }

  lemma {:induction false} EncodeThenDecode(n: Native, t: ModelType)
    requires WellFormedNative(n) && Encode(n, t).Some?
    ensures var back := Decode(Encode(n, t).value, t); back.Some? && NativeAlike(n, back.value)
    decreases t, 2
  {
    match t
    case SetType(e) => ItemsReturn(n.items, e, Collect(EncodeItems(n.items, e)).value);
    case SeqType(e) => ItemsReturn(n.items, e, Collect(EncodeItems(n.items, e)).value);
    case TupleType(es) => EachReturn(n.items, es, Collect(EncodeEach(n.items, es)).value);
    case RecordType(fs) => RecordReturn(n.properties, fs);
    case MapType(_, _) => MapReturn(n.items, t);
    case VariantType(cases) => VariantReturn(n.properties, cases);
    case _ =>
  }

  lemma {:induction false} ItemsReturn(ns: seq<Native>, e: ModelType, vs: seq<Value>)
    requires forall i :: 0 <= i < |ns| ==> WellFormedNative(ns[i])
    requires Collect(EncodeItems(ns, e)) == Some(vs)
    ensures var back := Collect(DecodeItems(vs, e));
      back.Some? && |back.value| == |ns| && forall i :: 0 <= i < |ns| ==> NativeAlike(ns[i], back.value[i])
    decreases e, 3
  {
    forall i | 0 <= i < |ns| ensures DecodeItems(vs, e)[i].Some? && NativeAlike(ns[i], DecodeItems(vs, e)[i].value) {
      assert EncodeItems(ns, e)[i] == Some(vs[i]);
      EncodeThenDecode(ns[i], e);
    }
  }

  lemma {:induction false} EachReturn(ns: seq<Native>, es: seq<ModelType>, vs: seq<Value>)
    requires |ns| == |es| && forall i :: 0 <= i < |ns| ==> WellFormedNative(ns[i])
    requires Collect(EncodeEach(ns, es)) == Some(vs)
    ensures var back := Collect(DecodeEach(vs, es));
      back.Some? && |back.value| == |ns| && forall i :: 0 <= i < |ns| ==> NativeAlike(ns[i], back.value[i])
    decreases es, 3
  {
    forall i | 0 <= i < |ns| ensures DecodeEach(vs, es)[i].Some? && NativeAlike(ns[i], DecodeEach(vs, es)[i].value) {
      assert EncodeEach(ns, es)[i] == Some(vs[i]);
      EncodeThenDecode(ns[i], es[i]);
    }
  }

  ghost function DecodeAs(v: Value, f: Labelled): Option<Native> {
    Decode(v, f.inner)
  }

  lemma {:induction false} FieldReturn(ps: seq<Property>, f: Labelled, i: nat)
    requires DistinctNames(PropertyNames(ps)) && i < |ps| && ps[i].name == f.name && WellFormedNative(ps[i].value)
    requires EncodeField(ps, f).Some?
    ensures var back := DecodeAs(EncodeField(ps, f).value, f); back.Some? && NativeAlike(ps[i].value, back.value)
    decreases f, 4
  {
    IndexOfDistinct(PropertyNames(ps), i);
    EncodeThenDecode(ps[i].value, f.inner);
  }

  lemma {:induction false} PlacedReturn(ps: seq<Property>, fs: seq<Labelled>, vs: seq<Field>, i: nat, k: nat)
    requires WellFormedNative(NObj(ps)) && i < |ps| && k < |fs| && ps[i].name == fs[k].name
    requires Collect(EncodeFields(ps, fs)) == Some(vs) && Names(vs) == Labels(fs) && DistinctNames(Labels(fs))
    ensures var back := DecodeFields(vs, fs)[k]; back.Some? && AlikeProperty(ps[i], back.value)
    decreases fs, 3, 0
  {
    assert EncodeFields(ps, fs)[k] == Some(vs[k]);
    IndexOfDistinct(Names(vs), k);
    FieldReturn(ps, fs[k], i);
  }

  lemma {:induction false} RecordReturn(ps: seq<Property>, fs: seq<Labelled>)
    requires WellFormedNative(NObj(ps)) && Encode(NObj(ps), RecordType(fs)).Some?
    ensures var back := Decode(Encode(NObj(ps), RecordType(fs)).value, RecordType(fs));
      back.Some? && NativeAlike(NObj(ps), back.value)
    decreases fs, 4
  {
    var vs := Collect(EncodeFields(ps, fs)).value;
    FieldsNamed(ps, fs, vs);
    assert Decode(Record(vs), RecordType(fs)) == AsObj(Collect(DecodeFields(vs, fs)));
    PlacesReturn(ps, fs, vs);
  }

  lemma {:induction false} PlacesReturn(ps: seq<Property>, fs: seq<Labelled>, vs: seq<Field>)
    requires WellFormedNative(NObj(ps)) && ExactKeys(PropertyNames(ps), Labels(fs))
    requires Collect(EncodeFields(ps, fs)) == Some(vs) && Names(vs) == Labels(fs)
    ensures var back := Collect(DecodeFields(vs, fs)); back.Some? && NativeAlike(NObj(ps), NObj(back.value))
    decreases fs, 3, 1
  {
    var p := NamesMatched(PropertyNames(ps), Labels(fs));
    var back := DecodeFields(vs, fs);
    forall i | 0 <= i < |ps| ensures back[p[i]].Some? && AlikeProperty(ps[i], back[p[i]].value) {
      assert PropertyNames(ps)[i] == Labels(fs)[p[i]];
      PlacedReturn(ps, fs, vs, i, p[i]);
    }
    forall k | 0 <= k < |fs| ensures back[k].Some? {
      var i := PermutationOnto(p, |fs|, k);
      assert back[p[i]].Some?;
    }
    assert PropertiesPaired(ps, Collect(back).value, p);
    ObjectsAlike(ps, Collect(back).value, p);
  }

  lemma {:induction false} FieldsNamed(ps: seq<Property>, fs: seq<Labelled>, vs: seq<Field>)
    requires Collect(EncodeFields(ps, fs)) == Some(vs)
    ensures Names(vs) == Labels(fs)
  {
    assert forall k :: 0 <= k < |fs| ==> EncodeFields(ps, fs)[k] == Some(vs[k]);
  }

  lemma {:induction false} EntryReturn(n: Native, t: ModelType)
    requires t.MapType? && WellFormedNative(n) && EncodeEntry(n, t).Some?
    ensures var back := DecodeEntry(EncodeEntry(n, t).value, t); back.Some? && NativeAlike(n, back.value)
    decreases t, 0
  {
    EncodeThenDecode(n.items[0], t.key);
    EncodeThenDecode(n.items[1], t.value);
  }

  lemma {:induction false} MapReturn(ns: seq<Native>, t: ModelType)
    requires t.MapType? && WellFormedNative(NArr(ns)) && Encode(NArr(ns), t).Some?
    ensures var back := Decode(Encode(NArr(ns), t).value, t); back.Some? && NativeAlike(NArr(ns), back.value)
    decreases t, 1
  {
    var es := Collect(EncodeEntries(ns, t)).value;
    forall i | 0 <= i < |ns|
      ensures DecodeEntries(es, t)[i].Some? && NativeAlike(ns[i], DecodeEntries(es, t)[i].value)
    {
      assert EncodeEntries(ns, t)[i] == Some(es[i]);
      EntryReturn(ns[i], t);
    }
  }

  lemma {:induction false} CaseReturn(n: Native, c: Labelled)
    requires WellFormedNative(n) && EncodeCase(n, c).Some?
    ensures var back := DecodeCase(EncodeCase(n, c).value, c); back.Some? && NativeAlike(n, back.value)
    decreases c, 3
  {
    EncodeThenDecode(n, c.inner);
  }

  /** What an encodable tagged object looks like. */
  lemma {:induction false} TaggedShape(ps: seq<Property>, cases: seq<Labelled>) returns (t: nat)
    requires DistinctNames(PropertyNames(ps)) && EncodeVariant(ps, cases).Some?
    ensures t < 2 && |ps| == 2 && ps[t].name == TAG && ps[1 - t].name == VALUE && ps[t].value.NStr?
  {
    var names := PropertyNames(ps);
    ExactKeysMeaning(names, [TAG, VALUE]);
    assert |multiset(names)| == |names|;
    t := IndexOf(names, TAG).value;
    assert names[1 - t] in multiset(names);
  }

  lemma {:induction false} VariantReturn(ps: seq<Property>, cases: seq<Labelled>)
    requires WellFormedNative(NObj(ps)) && Encode(NObj(ps), VariantType(cases)).Some?
    ensures var back := Decode(Encode(NObj(ps), VariantType(cases)).value, VariantType(cases));
      back.Some? && NativeAlike(NObj(ps), back.value)
    decreases cases, 4
  {
    var t := TaggedShape(ps, cases);
    TaggedObject(ps, cases, t);
    var c := cases[IndexOf(Labels(cases), ps[t].value.s).value];
    CaseReturn(ps[1 - t].value, c);
    TwoAlike(ps, Decode(Encode(NObj(ps), VariantType(cases)).value, VariantType(cases)).value.properties, t);
  }

  lemma {:induction false} TwoAlike(ps: seq<Property>, qs: seq<Property>, t: nat)
    requires |ps| == |qs| == 2 && t < 2 && AlikeProperty(ps[t], qs[0]) && AlikeProperty(ps[1 - t], qs[1])
    ensures NativeAlike(NObj(ps), NObj(qs))
  {
    var p: seq<nat> := if t == 0 then [0, 1] else [1, 0];
    assert Permutation(p, 2);
    assert AlikeProperty(ps[0], qs[p[0]]) && AlikeProperty(ps[1], qs[p[1]]);
    ObjectsAlike(ps, qs, p);
  }
}
