/** Reading types and literals back from JSON objects. */
module TypeDecoder {
  import opened Wrappers
  import opened JsonText
  import opened Sorting
  import opened ValueIdentity
  import opened UnicodeOrder
  import opened ModelTypes
  import opened DescriptorJson
  import WireCodec

  // ----- Objects with exactly the expected keys -----

  predicate Has(j: Json, key: Text) {
    j.Obj? && WireCodec.FindMember(j.members, key).Some?
  }

  function At(j: Json, key: Text): (r: Json)
    requires Has(j, key)
    ensures r < j
  {
    j.members[WireCodec.FindMember(j.members, key).value].value
  }

  function KeySet(members: seq<Member>): set<Text> {
    set m | m in members :: m.key
  }

  /** `exactObject` with every key required. */
  predicate Exact(j: Json, keys: set<Text>) {
    j.Obj? && KeySet(j.members) == keys
  }

  lemma {:induction false} ExactHas(j: Json, keys: set<Text>, key: Text)
    requires Exact(j, keys) && key in keys
    ensures Has(j, key)
  {
    var m :| m in j.members && m.key == key;
    var i :| 0 <= i < |j.members| && j.members[i] == m;
    assert WireCodec.HasMember(j.members, key);
  }

  /** A value found under a key the object is known to have. */
  function Got(j: Json, keys: set<Text>, key: Text): (r: Json)
    requires Exact(j, keys) && key in keys
    ensures r < j
  {
    ExactHas(j, keys, key);
    At(j, key)
  }

  ghost predicate DistinctMembers(ms: seq<Member>) {
    forall i, j :: 0 <= i < j < |ms| ==> ms[i].key != ms[j].key
  }

  lemma {:induction false} FindAt(ms: seq<Member>, i: nat)
    requires i < |ms| && DistinctMembers(ms)
    ensures WireCodec.FindMember(ms, ms[i].key) == Some(i)
  {
    if i > 0 {
      FindAt(ms[1..], i - 1);
    }
  }

  lemma {:induction false} ReadsOne(k: Text, v: Json)
    ensures var j := Obj([Member(k, v)]); Exact(j, {k}) && Has(j, k) && At(j, k) == v
  {
    FindAt([Member(k, v)], 0);
    assert KeySet([Member(k, v)]) == {k};
  }

  lemma {:induction false} ReadsTwo(k: Text, v: Json, l: Text, w: Json)
    requires k != l
    ensures var j := Obj([Member(k, v), Member(l, w)]);
      Exact(j, {k, l}) && Has(j, k) && Has(j, l) && At(j, k) == v && At(j, l) == w
  {
    var ms := [Member(k, v), Member(l, w)];
    assert ms[0] == Member(k, v) && ms[1] == Member(l, w);
    FindAt(ms, 0);
    FindAt(ms, 1);
    assert KeySet(ms) == {k, l} by { assert ms[0] in ms && ms[1] in ms; }
  }

  lemma {:induction false} ReadsThree(k: Text, v: Json, l: Text, w: Json, m: Text, x: Json)
    requires k != l && l != m && k != m
    ensures var j := Obj([Member(k, v), Member(l, w), Member(m, x)]);
      Exact(j, {k, l, m}) && Has(j, k) && Has(j, l) && Has(j, m) && At(j, k) == v && At(j, l) == w && At(j, m) == x
  {
    var ms := [Member(k, v), Member(l, w), Member(m, x)];
    assert ms[0] == Member(k, v) && ms[1] == Member(l, w) && ms[2] == Member(m, x);
    FindAt(ms, 0);
    FindAt(ms, 1);
    FindAt(ms, 2);
    assert KeySet(ms) == {k, l, m} by { assert ms[0] in ms && ms[1] in ms && ms[2] in ms; }
  }

  lemma {:induction false} KeysDiffer()
    ensures KIND !in {ELEMENT, ELEMENTS, FIELDS, KEY, VALUE, CASES, DESCRIPTION, VALUES, ENTRIES, PAYLOAD, TAG}
    ensures KEY != VALUE && TYPE != WIRE_NAME && PAYLOAD != TAG && NAME != VALUE
  {
    assert |KIND| == 4 && |ELEMENT| == 7 && |ELEMENTS| == 8 && |FIELDS| == 6 && |KEY| == 3 && |VALUE| == 5 && |CASES| == 5;
    assert |DESCRIPTION| == 11 && |VALUES| == 6 && |ENTRIES| == 7 && |PAYLOAD| == 7 && |TAG| == 3 && |TYPE| == 4 && |WIRE_NAME| == 8;
    assert |NAME| == 4;
  }

  // ----- Types -----

  /** Which constructor a kind names; eleven for none. */
  function FormOfTag(tag: Text): nat {
    if tag == INT_TAG then 0
    else if tag == BOOL_TAG then 1
    else if tag == STR_TAG then 2
    else if tag == NULL_TAG then 3
    else if tag == SET_TAG then 4
    else if tag == SEQ_TAG then 5
    else if tag == TUPLE_TAG then 6
    else if tag == RECORD_TAG then 7
    else if tag == MAP_TAG then 8
    else if tag == VARIANT_TAG then 9
    else if tag == OPAQUE_TAG then 10
    else 11
  }

  lemma {:induction false} FormOfTypeTag(t: ModelType)
    ensures FormOfTag(TypeTag(t)) == TypeForm(t)
  {
    assert |OPAQUE_TAG| == 9;
  }

  function FormAt(j: Json): nat {
    if Has(j, KIND) && At(j, KIND).Str? then FormOfTag(At(j, KIND).s) else 11
  }

  function AsType<T>(x: Option<T>, f: T -> ModelType): Option<ModelType> {
    if x.None? then None else Some(f(x.value))
  }

  /** `decodeModelType` without its limits. */
  function TypeFrom(j: Json): Option<ModelType>
    decreases j, 1
  {
    var form := FormAt(j);
    if form == 0 then (if Exact(j, {KIND}) then Some(IntType) else None)
    else if form == 1 then (if Exact(j, {KIND}) then Some(BoolType) else None)
    else if form == 2 then (if Exact(j, {KIND}) then Some(StrType) else None)
    else if form == 3 then (if Exact(j, {KIND}) then Some(NullType) else None)
    else if form == 4 then
      if !Exact(j, {ELEMENT, KIND}) then None else AsType(TypeFrom(Got(j, {ELEMENT, KIND}, ELEMENT)), e => SetType(e))
    else if form == 5 then
      if !Exact(j, {ELEMENT, KIND}) then None else AsType(TypeFrom(Got(j, {ELEMENT, KIND}, ELEMENT)), e => SeqType(e))
    else if form == 6 then
      if !Exact(j, {ELEMENTS, KIND}) || !Got(j, {ELEMENTS, KIND}, ELEMENTS).Arr? then None
      else AsType(Collect(TypesFrom(Got(j, {ELEMENTS, KIND}, ELEMENTS).items)), es => TupleType(es))
    else if form == 7 then
      if !Exact(j, {FIELDS, KIND}) || !Got(j, {FIELDS, KIND}, FIELDS).Arr? then None
      else AsType(Collect(LabelsFrom(Got(j, {FIELDS, KIND}, FIELDS).items, TYPE, WIRE_NAME)), fs => RecordType(fs))
    else if form == 8 then
      if !Exact(j, {KEY, KIND, VALUE}) then None
      else
        var k, v := TypeFrom(Got(j, {KEY, KIND, VALUE}, KEY)), TypeFrom(Got(j, {KEY, KIND, VALUE}, VALUE));
        if k.None? || v.None? then None else Some(MapType(k.value, v.value))
    else if form == 9 then
      if !Exact(j, {CASES, KIND}) || !Got(j, {CASES, KIND}, CASES).Arr? then None
      else AsType(Collect(LabelsFrom(Got(j, {CASES, KIND}, CASES).items, PAYLOAD, TAG)), cs => VariantType(cs))
    else if form == 10 then
      if !Exact(j, {DESCRIPTION, KIND}) || !Got(j, {DESCRIPTION, KIND}, DESCRIPTION).Str? then None
      else Some(OpaqueType(Got(j, {DESCRIPTION, KIND}, DESCRIPTION).s))
    else None
  }

  function TypesFrom(items: seq<Json>): (r: seq<Option<ModelType>>)
    ensures |r| == |items| && forall i :: 0 <= i < |r| ==> r[i] == TypeFrom(items[i])
    decreases items, 0
  {
    seq(|items|, i requires 0 <= i < |items| => TypeFrom(items[i]))
  }

  function LabelFrom(j: Json, inner: Text, name: Text): Option<Labelled>
    decreases j, 2
  {
    if !Exact(j, {inner, name}) || !Got(j, {inner, name}, name).Str? then None
    else
      var t := TypeFrom(Got(j, {inner, name}, inner));
      if t.None? then None else Some(Labelled(Got(j, {inner, name}, name).s, t.value))
  }

  function LabelsFrom(items: seq<Json>, inner: Text, name: Text): (r: seq<Option<Labelled>>)
    ensures |r| == |items| && forall i :: 0 <= i < |r| ==> r[i] == LabelFrom(items[i], inner, name)
    decreases items, 0
  {
    seq(|items|, i requires 0 <= i < |items| => LabelFrom(items[i], inner, name))
  }

  /** Reading the canonical JSON of a type gives a type with the same canonical JSON. */
  lemma {:induction false} TypeReturns(t: ModelType)
    ensures TypeFrom(TypeJson(t)).Some? && TypeJson(TypeFrom(TypeJson(t)).value) == TypeJson(t)
    decreases t, 1
  {
    KeysDiffer();
    FormOfTypeTag(t);
    var kind := Json.Str(TypeTag(t));
    match t
    case SetType(e) =>
      TypeReturns(e);
      ReadsTwo(ELEMENT, TypeJson(e), KIND, kind);
    case SeqType(e) =>
      TypeReturns(e);
      ReadsTwo(ELEMENT, TypeJson(e), KIND, kind);
    case TupleType(es) => TupleReturns(es);
    case RecordType(fs) => RecordTypeReturns(fs);
    case MapType(_, _) => MapTypeReturns(t);
    case VariantType(cs) => VariantTypeReturns(cs);
    case OpaqueType(d) => ReadsTwo(DESCRIPTION, Json.Str(d), KIND, kind);
    case _ => ReadsOne(KIND, kind);
  }

  lemma {:induction false} MapTypeRead(k: Json, v: Json)
    ensures var kt, vt := TypeFrom(k), TypeFrom(v);
      TypeFrom(Obj([Member(KEY, k), KindMember(MAP_TAG), Member(VALUE, v)]))
      == if kt.None? || vt.None? then None else Some(MapType(kt.value, vt.value))
  {
    KeysDiffer();
    FormOfTypeTag(MapType(IntType, IntType));
    ReadsThree(KEY, k, KIND, Json.Str(MAP_TAG), VALUE, v);
  }

  lemma {:induction false} MapTypeReturns(t: ModelType)
    requires t.MapType?
    ensures TypeFrom(TypeJson(t)).Some? && TypeJson(TypeFrom(TypeJson(t)).value) == TypeJson(t)
    decreases t, 0
  {
    TypeReturns(t.key);
    TypeReturns(t.value);
    MapTypeRead(TypeJson(t.key), TypeJson(t.value));
  }

  lemma {:induction false} TupleReturns(es: seq<ModelType>)
    ensures var j := TypeJson(TupleType(es)); TypeFrom(j).Some? && TypeJson(TypeFrom(j).value) == j
    decreases es, 0
  {
    KeysDiffer();
    FormOfTypeTag(TupleType(es));
    var items := TypeJsons(es);
    ReadsTwo(ELEMENTS, Arr(items), KIND, Json.Str(TUPLE_TAG));
    forall i | 0 <= i < |items| ensures TypesFrom(items)[i].Some? && TypeJson(TypesFrom(items)[i].value) == items[i] {
      TypeReturns(es[i]);
    }
    var back := Collect(TypesFrom(items)).value;
    assert TypeJsons(back) == items;
  }

  /** Where an arranged item came from. */
  lemma {:induction false} Source(ks: seq<Keyed>, k: nat) returns (i: nat)
    requires k < |ks|
    ensures i < |ks| && SortBy(ks, ByName)[k] == ks[i]
  {
    SortedMembers(ks);
    assert SortBy(ks, ByName)[k] in ks;
    i :| 0 <= i < |ks| && ks[i] == SortBy(ks, ByName)[k];
  }

  lemma {:induction false} LabelReturns(l: Labelled, inner: Text, name: Text)
    requires inner != name
    ensures var back := LabelFrom(LabelJson(l, inner, name), inner, name);
      back.Some? && back.value.name == l.name && LabelJson(back.value, inner, name) == LabelJson(l, inner, name)
    decreases l, 2
  {
    TypeReturns(l.inner);
    ReadsTwo(inner, TypeJson(l.inner), name, Json.Str(l.name));
  }

  lemma {:induction false} LabelListReturns(ls: seq<Labelled>, inner: Text, name: Text)
    requires inner != name
    ensures var back := Collect(LabelsFrom(Arranged(LabelItems(ls, inner, name)), inner, name));
      back.Some? && Arranged(LabelItems(back.value, inner, name)) == Arranged(LabelItems(ls, inner, name))
    decreases ls, 0
  {
    var ks := LabelItems(ls, inner, name);
    var items, sorted := Arranged(ks), SortBy(ks, ByName);
    forall k | 0 <= k < |items|
      ensures var b := LabelsFrom(items, inner, name)[k];
        b.Some? && Keyed(b.value.name, LabelJson(b.value, inner, name)) == sorted[k]
    {
      var i := Source(ks, k);
      LabelReturns(ls[i], inner, name);
    }
    var back := Collect(LabelsFrom(items, inner, name)).value;
    assert LabelItems(back, inner, name) == sorted;
    ArrangedAgain(ks);
  }

  /** The list of a record or a variant is read from its object. */
  lemma {:induction false} RecordTypeReads(fs: seq<Labelled>)
    ensures var j := TypeJson(RecordType(fs));
      TypeFrom(j) == AsType(Collect(LabelsFrom(Arranged(LabelItems(fs, TYPE, WIRE_NAME)), TYPE, WIRE_NAME)), ls => RecordType(ls))
  {
    var j, list := TypeJson(RecordType(fs)), Arr(Arranged(LabelItems(fs, TYPE, WIRE_NAME)));
    KeysDiffer();
    FormOfTypeTag(RecordType(fs));
    ReadsTwo(FIELDS, list, KIND, Json.Str(RECORD_TAG));
    assert FormAt(j) == 7 && Exact(j, {FIELDS, KIND}) && Got(j, {FIELDS, KIND}, FIELDS) == list;
  }

  lemma {:induction false} RecordTypeReturns(fs: seq<Labelled>)
    ensures var j := TypeJson(RecordType(fs)); TypeFrom(j).Some? && TypeJson(TypeFrom(j).value) == j
    decreases fs, 1
  {
    RecordTypeReads(fs);
    LabelListReturns(fs, TYPE, WIRE_NAME);
  }

  lemma {:induction false} VariantTypeReads(cs: seq<Labelled>)
    ensures var j := TypeJson(VariantType(cs));
      TypeFrom(j) == AsType(Collect(LabelsFrom(Arranged(LabelItems(cs, PAYLOAD, TAG)), PAYLOAD, TAG)), ls => VariantType(ls))
  {
    var j, list := TypeJson(VariantType(cs)), Arr(Arranged(LabelItems(cs, PAYLOAD, TAG)));
    KeysDiffer();
    FormOfTypeTag(VariantType(cs));
    ReadsTwo(CASES, list, KIND, Json.Str(VARIANT_TAG));
    assert FormAt(j) == 9 && Exact(j, {CASES, KIND}) && Got(j, {CASES, KIND}, CASES) == list;
  }

  lemma {:induction false} VariantTypeReturns(cs: seq<Labelled>)
    ensures var j := TypeJson(VariantType(cs)); TypeFrom(j).Some? && TypeJson(TypeFrom(j).value) == j
    decreases cs, 1
  {
    VariantTypeReads(cs);
    LabelListReturns(cs, PAYLOAD, TAG);
  }
}

/** Reading literals back. */
module LiteralDecoder {
  import opened Wrappers
  import opened JsonText
  import opened Sorting
  import opened ValueIdentity
  import opened UnicodeOrder
  import opened ModelTypes
  import opened DescriptorJson
  import opened LiteralJson
  import opened TypeDecoder

  lemma {:induction false} FormOfLiteralTag(l: Literal)
    ensures FormOfTag(LiteralTag(l)) == LiteralForm(l)
  {
  }

  function AsLiteral<T>(x: Option<T>, f: T -> Literal): Option<Literal> {
    if x.None? then None else Some(f(x.value))
  }

  /** `decodeLiteral` without its limits. */
  function LiteralFrom(j: Json): Option<Literal>
    decreases j, 1
  {
    var form := FormAt(j);
    if form == 3 then (if Exact(j, {KIND}) then Some(NullLit) else None)
    else if form < 3 then (if Exact(j, {KIND, VALUE}) then ScalarFrom(form, Got(j, {KIND, VALUE}, VALUE)) else None)
    else if form < 7 then
      if !Exact(j, {KIND, VALUES}) || !Got(j, {KIND, VALUES}, VALUES).Arr? then None
      else
        AsLiteral(Collect(LiteralsFrom(Got(j, {KIND, VALUES}, VALUES).items)),
                  vs => if form == 4 then SetLit(vs) else if form == 5 then SeqLit(vs) else TupleLit(vs))
    else if form == 7 then
      if !Exact(j, {FIELDS, KIND}) || !Got(j, {FIELDS, KIND}, FIELDS).Arr? then None
      else AsLiteral(Collect(FieldsFrom(Got(j, {FIELDS, KIND}, FIELDS).items)), fs => RecordLit(fs))
    else if form == 8 then
      if !Exact(j, {ENTRIES, KIND}) || !Got(j, {ENTRIES, KIND}, ENTRIES).Arr? then None
      else AsLiteral(Collect(EntriesFrom(Got(j, {ENTRIES, KIND}, ENTRIES).items)), es => MapLit(es))
    else if form == 9 then
      if !Exact(j, {KIND, PAYLOAD, TAG}) || !Got(j, {KIND, PAYLOAD, TAG}, TAG).Str? then None
      else AsLiteral(LiteralFrom(Got(j, {KIND, PAYLOAD, TAG}, PAYLOAD)), p => VariantLit(Got(j, {KIND, PAYLOAD, TAG}, TAG).s, p))
    else None
  }

  function ScalarFrom(form: nat, v: Json): Option<Literal> {
    if form == 0 && v.Str? then Some(IntLit(v.s))
    else if form == 1 && v.Bool? then Some(BoolLit(v.b))
    else if form == 2 && v.Str? then Some(StrLit(v.s))
    else None
  }

  function LiteralsFrom(items: seq<Json>): (r: seq<Option<Literal>>)
    ensures |r| == |items| && forall i :: 0 <= i < |r| ==> r[i] == LiteralFrom(items[i])
    decreases items, 0
  {
    seq(|items|, i requires 0 <= i < |items| => LiteralFrom(items[i]))
  }

  function FieldFrom(j: Json): Option<LiteralField>
    decreases j, 2
  {
    if !Exact(j, {NAME, VALUE}) || !Got(j, {NAME, VALUE}, NAME).Str? then None
    else
      var v := LiteralFrom(Got(j, {NAME, VALUE}, VALUE));
      if v.None? then None else Some(LiteralField(Got(j, {NAME, VALUE}, NAME).s, v.value))
  }

  function FieldsFrom(items: seq<Json>): (r: seq<Option<LiteralField>>)
    ensures |r| == |items| && forall i :: 0 <= i < |r| ==> r[i] == FieldFrom(items[i])
    decreases items, 0
  {
    seq(|items|, i requires 0 <= i < |items| => FieldFrom(items[i]))
  }

  function EntryFrom(j: Json): Option<LiteralEntry>
    decreases j, 2
  {
    if !Exact(j, {KEY, VALUE}) then None
    else
      var k, v := LiteralFrom(Got(j, {KEY, VALUE}, KEY)), LiteralFrom(Got(j, {KEY, VALUE}, VALUE));
      if k.None? || v.None? then None else Some(LiteralEntry(k.value, v.value))
  }

  function EntriesFrom(items: seq<Json>): (r: seq<Option<LiteralEntry>>)
    ensures |r| == |items| && forall i :: 0 <= i < |r| ==> r[i] == EntryFrom(items[i])
    decreases items, 0
  {
    seq(|items|, i requires 0 <= i < |items| => EntryFrom(items[i]))
  }

  /** Reading the canonical JSON of a literal gives a literal with the same canonical JSON. */
  lemma {:induction false} LiteralReturns(l: Literal)
    ensures LiteralFrom(Canonise(l)).Some? && Canonise(LiteralFrom(Canonise(l)).value) == Canonise(l)
    decreases l, 1
  {
    match l
    case SetLit(vs) => SetReturns(vs);
    case SeqLit(vs) => ListReturns(SEQ_TAG, vs);
    case TupleLit(vs) => ListReturns(TUPLE_TAG, vs);
    case RecordLit(fs) => RecordReturns(fs);
    case MapLit(es) => MapReturns(es);
    case VariantLit(_, _) => VariantReturns(l);
    case _ => ScalarReturns(l);
  }

  lemma {:induction false} ScalarReturns(l: Literal)
    requires l.IntLit? || l.BoolLit? || l.StrLit? || l.NullLit?
    ensures LiteralFrom(Canonise(l)) == Some(l)
  {
    KeysDiffer();
    FormOfLiteralTag(l);
    var kind := Json.Str(LiteralTag(l));
    if l.NullLit? {
      ReadsOne(KIND, kind);
    } else {
      ReadsTwo(KIND, kind, VALUE, Canonise(l).members[1].value);
    }
  }

  lemma {:induction false} VariantReturns(l: Literal)
    requires l.VariantLit?
    ensures LiteralFrom(Canonise(l)).Some? && Canonise(LiteralFrom(Canonise(l)).value) == Canonise(l)
    decreases l, 0
  {
    KeysDiffer();
    FormOfLiteralTag(l);
    LiteralReturns(l.payload);
    ReadsThree(KIND, Json.Str(VARIANT_TAG), PAYLOAD, Canonise(l.payload), TAG, Json.Str(l.tag));
  }

  lemma {:induction false} ListRead(tag: Text, items: seq<Json>)
    requires tag == SEQ_TAG || tag == TUPLE_TAG || tag == SET_TAG
    ensures var vs := Collect(LiteralsFrom(items));
      LiteralFrom(Obj([KindMember(tag), Member(VALUES, Arr(items))]))
      == if vs.None? then None else if tag == SET_TAG then Some(SetLit(vs.value)) else Some(ListLit(tag, vs.value))
  {
    KeysDiffer();
    FormOfLiteralTag(SetLit([]));
    FormOfLiteralTag(SeqLit([]));
    FormOfLiteralTag(TupleLit([]));
    ReadsTwo(KIND, Json.Str(tag), VALUES, Arr(items));
  }

  lemma {:induction false} ItemsReturn(vs: seq<Literal>)
    ensures var back := Collect(LiteralsFrom(Canonised(vs))); back.Some? && Canonised(back.value) == Canonised(vs)
    decreases vs, 0
  {
    var items := Canonised(vs);
    forall i | 0 <= i < |items| ensures LiteralsFrom(items)[i].Some? && Canonise(LiteralsFrom(items)[i].value) == items[i] {
      LiteralReturns(vs[i]);
    }
    var back := Collect(LiteralsFrom(items)).value;
    assert Canonised(back) == items;
  }

  lemma {:induction false} ListReturns(tag: Text, vs: seq<Literal>)
    requires tag == SEQ_TAG || tag == TUPLE_TAG
    ensures var j := Canonise(ListLit(tag, vs)); LiteralFrom(j).Some? && Canonise(LiteralFrom(j).value) == j
    decreases vs, 1
  {
    ItemsReturn(vs);
    ListRead(tag, Canonised(vs));
  }

  lemma {:induction false} SetListReturns(vs: seq<Literal>)
    ensures var back := Collect(LiteralsFrom(Arranged(SetItems(vs))));
      back.Some? && Arranged(SetItems(back.value)) == Arranged(SetItems(vs))
    decreases vs, 0
  {
    var ks := SetItems(vs);
    var items, sorted := Arranged(ks), SortBy(ks, ByName);
    forall k | 0 <= k < |items| ensures var b := LiteralsFrom(items)[k]; b.Some? && SetItem(Canonise(b.value)) == sorted[k] {
      var i := Source(ks, k);
      LiteralReturns(vs[i]);
    }
    var back := Collect(LiteralsFrom(items)).value;
    assert SetItems(back) == sorted;
    ArrangedAgain(ks);
  }

  lemma {:induction false} SetReturns(vs: seq<Literal>)
    ensures var j := Canonise(SetLit(vs)); LiteralFrom(j).Some? && Canonise(LiteralFrom(j).value) == j
    decreases vs, 1
  {
    SetListReturns(vs);
    ListRead(SET_TAG, Arranged(SetItems(vs)));
  }

  lemma {:induction false} FieldReturns(f: LiteralField)
    ensures var b := FieldFrom(FieldJson(f)); b.Some? && b.value.name == f.name && FieldJson(b.value) == FieldJson(f)
    decreases f, 2
  {
    KeysDiffer();
    LiteralReturns(f.value);
    ReadsTwo(NAME, Json.Str(f.name), VALUE, Canonise(f.value));
  }

  lemma {:induction false} FieldListReturns(fs: seq<LiteralField>)
    ensures var back := Collect(FieldsFrom(Arranged(FieldItems(fs))));
      back.Some? && Arranged(FieldItems(back.value)) == Arranged(FieldItems(fs))
    decreases fs, 0
  {
    var ks := FieldItems(fs);
    var items, sorted := Arranged(ks), SortBy(ks, ByName);
    forall k | 0 <= k < |items| ensures var b := FieldsFrom(items)[k]; b.Some? && Keyed(b.value.name, FieldJson(b.value)) == sorted[k] {
      var i := Source(ks, k);
      FieldReturns(fs[i]);
    }
    var back := Collect(FieldsFrom(items)).value;
    assert FieldItems(back) == sorted;
    ArrangedAgain(ks);
  }

  lemma {:induction false} RecordRead(items: seq<Json>)
    ensures var fs := Collect(FieldsFrom(items));
      LiteralFrom(Obj([Member(FIELDS, Arr(items)), KindMember(RECORD_TAG)])) == if fs.None? then None else Some(RecordLit(fs.value))
  {
    KeysDiffer();
    FormOfLiteralTag(RecordLit([]));
    ReadsTwo(FIELDS, Arr(items), KIND, Json.Str(RECORD_TAG));
  }

  lemma {:induction false} RecordReturns(fs: seq<LiteralField>)
    ensures var j := Canonise(RecordLit(fs)); LiteralFrom(j).Some? && Canonise(LiteralFrom(j).value) == j
    decreases fs, 1
  {
    FieldListReturns(fs);
    RecordRead(Arranged(FieldItems(fs)));
  }

  lemma {:induction false} EntryReturns(e: LiteralEntry)
    ensures var b := EntryFrom(EntryItem(e).value); b.Some? && EntryItem(b.value) == EntryItem(e)
    decreases e, 2
  {
    KeysDiffer();
    LiteralReturns(e.key);
    LiteralReturns(e.value);
    ReadsTwo(KEY, Canonise(e.key), VALUE, Canonise(e.value));
  }

  lemma {:induction false} EntryListReturns(es: seq<LiteralEntry>)
    ensures var back := Collect(EntriesFrom(Arranged(EntryItems(es))));
      back.Some? && Arranged(EntryItems(back.value)) == Arranged(EntryItems(es))
    decreases es, 0
  {
    var ks := EntryItems(es);
    var items, sorted := Arranged(ks), SortBy(ks, ByName);
    forall k | 0 <= k < |items| ensures var b := EntriesFrom(items)[k]; b.Some? && EntryItem(b.value) == sorted[k] {
      var i := Source(ks, k);
      EntryReturns(es[i]);
    }
    var back := Collect(EntriesFrom(items)).value;
    assert EntryItems(back) == sorted;
    ArrangedAgain(ks);
  }

  lemma {:induction false} MapRead(items: seq<Json>)
    ensures var es := Collect(EntriesFrom(items));
      LiteralFrom(Obj([Member(ENTRIES, Arr(items)), KindMember(MAP_TAG)])) == if es.None? then None else Some(MapLit(es.value))
  {
    KeysDiffer();
    FormOfLiteralTag(MapLit([]));
    ReadsTwo(ENTRIES, Arr(items), KIND, Json.Str(MAP_TAG));
  }

  lemma {:induction false} MapReturns(es: seq<LiteralEntry>)
    ensures var j := Canonise(MapLit(es)); LiteralFrom(j).Some? && Canonise(LiteralFrom(j).value) == j
    decreases es, 1
  {
    EntryListReturns(es);
    MapRead(Arranged(EntryItems(es)));
  }
}
