/** The canonical JSON of types, literals and descriptors, and exactly which of
    them share it. */
module DescriptorJson {
  import opened JsonText
  import opened Permutations
  import opened ValueIdentity
  import opened UnicodeOrder
  import opened ModelTypes

  const KIND := Ascii("kind")
  const ELEMENT := Ascii("element")
  const ELEMENTS := Ascii("elements")
  const FIELDS := Ascii("fields")
  const TYPE := Ascii("type")
  const WIRE_NAME := Ascii("wireName")
  const KEY := Ascii("key")
  const VALUE := Ascii("value")
  const CASES := Ascii("cases")
  const PAYLOAD := Ascii("payload")
  const TAG := Ascii("tag")
  const DESCRIPTION := Ascii("description")
  const VALUES := Ascii("values")
  const NAME := Ascii("name")
  const ENTRIES := Ascii("entries")
  const OPAQUE_TAG := Ascii("opaqueItf")

  // ----- Comparing objects -----

  lemma {:induction false} TwoMembers(a: Member, b: Member, c: Member, d: Member)
    ensures Obj([a, b]) == Obj([c, d]) <==> a == c && b == d
  {
    var x, y := [a, b], [c, d];
    assert x[0] == a && x[1] == b && y[0] == c && y[1] == d;
  }

  lemma {:induction false} ThreeMembers(a: Member, b: Member, c: Member, x: Member, y: Member, z: Member)
    ensures Obj([a, b, c]) == Obj([x, y, z]) <==> a == x && b == y && c == z
  {
    var l, r := [a, b, c], [x, y, z];
    assert l[0] == a && l[1] == b && l[2] == c && r[0] == x && r[1] == y && r[2] == z;
  }

  lemma {:induction false} OneMember(a: Member, b: Member)
    ensures Obj([a]) == Obj([b]) <==> a == b
  {
    assert [a][0] == a && [b][0] == b;
  }

  // ----- Types -----

  function TypeTag(t: ModelType): Text {
    match t
    case IntType => INT_TAG
    case BoolType => BOOL_TAG
    case StrType => STR_TAG
    case NullType => NULL_TAG
    case SetType(_) => SET_TAG
    case SeqType(_) => SEQ_TAG
    case TupleType(_) => TUPLE_TAG
    case RecordType(_) => RECORD_TAG
    case MapType(_, _) => MAP_TAG
    case VariantType(_) => VARIANT_TAG
    case OpaqueType(_) => OPAQUE_TAG
  }

  function KindMember(tag: Text): Member {
    Member(KIND, Json.Str(tag))
  }

  /** `canonicalModelTypeValue`. */
  function TypeJson(t: ModelType): Json
    decreases t, 1
  {
    var kind := KindMember(TypeTag(t));
    match t
    case IntType => Obj([kind])
    case BoolType => Obj([kind])
    case StrType => Obj([kind])
    case NullType => Obj([kind])
    case SetType(e) => Obj([Member(ELEMENT, TypeJson(e)), kind])
    case SeqType(e) => Obj([Member(ELEMENT, TypeJson(e)), kind])
    case TupleType(es) => Obj([Member(ELEMENTS, Arr(TypeJsons(es))), kind])
    case RecordType(fs) => Obj([Member(FIELDS, Arr(Arranged(LabelItems(fs, TYPE, WIRE_NAME)))), kind])
    case MapType(k, v) => Obj([Member(KEY, TypeJson(k)), kind, Member(VALUE, TypeJson(v))])
    case VariantType(cs) => Obj([Member(CASES, Arr(Arranged(LabelItems(cs, PAYLOAD, TAG)))), kind])
    case OpaqueType(d) => Obj([Member(DESCRIPTION, Json.Str(d)), kind])
  }

  function TypeJsons(es: seq<ModelType>): (r: seq<Json>)
    ensures |r| == |es| && forall i :: 0 <= i < |r| ==> r[i] == TypeJson(es[i])
    decreases es, 0
  {
    seq(|es|, i requires 0 <= i < |es| => TypeJson(es[i]))
  }

  /** A record field or a variant case, under the property names of each. */
  function LabelJson(l: Labelled, inner: Text, name: Text): Json
    decreases l, 2
  {
    Obj([Member(inner, TypeJson(l.inner)), Member(name, Json.Str(l.name))])
  }

  function LabelItems(ls: seq<Labelled>, inner: Text, name: Text): (r: seq<Keyed>)
    ensures |r| == |ls| && forall i :: 0 <= i < |r| ==> r[i] == Keyed(ls[i].name, LabelJson(ls[i], inner, name))
    decreases ls, 0
  {
    seq(|ls|, i requires 0 <= i < |ls| => Keyed(ls[i].name, LabelJson(ls[i], inner, name)))
  }

  /** The same type but for the order of fields and cases. */
  ghost predicate TypesAlike(a: ModelType, b: ModelType)
    decreases a
  {
    match a
    case SetType(e) => b.SetType? && TypesAlike(e, b.element)
    case SeqType(e) => b.SeqType? && TypesAlike(e, b.element)
    case TupleType(es) =>
      b.TupleType? && |es| == |b.elements| && forall i :: 0 <= i < |es| ==> TypesAlike(es[i], b.elements[i])
    case RecordType(fs) =>
      b.RecordType? && |fs| == |b.fields| && exists p :: Permutation(p, |fs|) && forall i :: 0 <= i < |fs| ==>
        fs[i].name == b.fields[p[i]].name && TypesAlike(fs[i].inner, b.fields[p[i]].inner)
    case MapType(k, v) => b.MapType? && TypesAlike(k, b.key) && TypesAlike(v, b.value)
    case VariantType(cs) =>
      b.VariantType? && |cs| == |b.cases| && exists p :: Permutation(p, |cs|) && forall i :: 0 <= i < |cs| ==>
        cs[i].name == b.cases[p[i]].name && TypesAlike(cs[i].inner, b.cases[p[i]].inner)
    case _ => a == b
  }

  ghost predicate AlikeLabel(l: Labelled, m: Labelled) {
    l.name == m.name && TypesAlike(l.inner, m.inner)
  }

  ghost predicate LabelsPaired(ls: seq<Labelled>, ms: seq<Labelled>, p: seq<nat>) {
    |ls| == |ms| && Permutation(p, |ls|) && forall i :: 0 <= i < |ls| ==> AlikeLabel(ls[i], ms[p[i]])
  }

  lemma {:induction false} LabelsAlike(ls: seq<Labelled>, ms: seq<Labelled>)
    ensures TypesAlike(RecordType(ls), RecordType(ms)) <==> exists p :: LabelsPaired(ls, ms, p)
    ensures TypesAlike(VariantType(ls), VariantType(ms)) <==> exists p :: LabelsPaired(ls, ms, p)
  {
    if TypesAlike(RecordType(ls), RecordType(ms)) {
      var p :| Permutation(p, |ls|) && forall i :: 0 <= i < |ls| ==>
        ls[i].name == ms[p[i]].name && TypesAlike(ls[i].inner, ms[p[i]].inner);
      assert LabelsPaired(ls, ms, p);
    }
    if TypesAlike(VariantType(ls), VariantType(ms)) {
      var p :| Permutation(p, |ls|) && forall i :: 0 <= i < |ls| ==>
        ls[i].name == ms[p[i]].name && TypesAlike(ls[i].inner, ms[p[i]].inner);
      assert LabelsPaired(ls, ms, p);
    }
    if p :| LabelsPaired(ls, ms, p) {
      forall i | 0 <= i < |ls| ensures ls[i].name == ms[p[i]].name && TypesAlike(ls[i].inner, ms[p[i]].inner) {
        assert AlikeLabel(ls[i], ms[p[i]]);
      }
    }
  }

  ghost predicate DistinctLabels(ls: seq<Labelled>) {
    forall i, j :: 0 <= i < j < |ls| ==> ls[i].name != ls[j].name
  }

  /** No record field or variant case is repeated. */
  ghost predicate DistinctType(t: ModelType)
    decreases t
  {
    match t
    case SetType(e) => DistinctType(e)
    case SeqType(e) => DistinctType(e)
    case TupleType(es) => forall i :: 0 <= i < |es| ==> DistinctType(es[i])
    case RecordType(fs) => DistinctLabels(fs) && forall i :: 0 <= i < |fs| ==> DistinctType(fs[i].inner)
    case MapType(k, v) => DistinctType(k) && DistinctType(v)
    case VariantType(cs) => DistinctLabels(cs) && forall i :: 0 <= i < |cs| ==> DistinctType(cs[i].inner)
    case _ => true
  }

  lemma {:induction false} TypeShape(t: ModelType)
    ensures TypeJson(t).Obj? && 0 < |TypeJson(t).members| <= 3
    ensures var ms := TypeJson(t).members; ms[if |ms| == 1 then 0 else 1] == KindMember(TypeTag(t))
  {
  }

  lemma {:induction false} SameConstructor(a: ModelType, b: ModelType)
    requires TypeTag(a) == TypeTag(b)
    ensures a.IntType? == b.IntType? && a.BoolType? == b.BoolType? && a.StrType? == b.StrType? && a.NullType? == b.NullType?
    ensures a.SetType? == b.SetType? && a.SeqType? == b.SeqType? && a.TupleType? == b.TupleType?
    ensures a.RecordType? == b.RecordType? && a.MapType? == b.MapType? && a.VariantType? == b.VariantType?
    ensures a.OpaqueType? == b.OpaqueType?
  {
    assert |OPAQUE_TAG| == 9;
  }

  function TypeForm(t: ModelType): nat {
    match t
    case IntType => 0
    case BoolType => 1
    case StrType => 2
    case NullType => 3
    case SetType(_) => 4
    case SeqType(_) => 5
    case TupleType(_) => 6
    case RecordType(_) => 7
    case MapType(_, _) => 8
    case VariantType(_) => 9
    case OpaqueType(_) => 10
  }

  lemma {:induction false} SameForm(a: ModelType, b: ModelType)
    requires TypeJson(a) == TypeJson(b) || TypesAlike(a, b)
    ensures TypeForm(a) == TypeForm(b)
  {
    SameTag(a, b);
    SameConstructor(a, b);
  }

  lemma {:induction false} SameTag(a: ModelType, b: ModelType)
    requires TypeJson(a) == TypeJson(b) || TypesAlike(a, b)
    ensures TypeTag(a) == TypeTag(b)
  {
    TypeShape(a);
    TypeShape(b);
  }

  /** Types share canonical JSON only if they are the same up to order; and if they
      are, provided no label is repeated. */
  lemma {:induction false} TypeCanonical(a: ModelType, b: ModelType)
    ensures TypeJson(a) == TypeJson(b) ==> TypesAlike(a, b)
    ensures DistinctType(a) && TypesAlike(a, b) ==> TypeJson(a) == TypeJson(b)
    decreases a, 1
  {
    if TypeForm(a) != TypeForm(b) {
      if TypeJson(a) == TypeJson(b) || TypesAlike(a, b) { SameForm(a, b); }
    } else {
      match a
      case SetType(e) =>
        TypeCanonical(e, b.element);
        ElementJsonIs(SET_TAG, e, b.element);
      case SeqType(e) =>
        TypeCanonical(e, b.element);
        ElementJsonIs(SEQ_TAG, e, b.element);
      case TupleType(es) =>
        TupleCanonical(es, b.elements);
        TupleTypeIs(es, b.elements);
      case RecordType(fs) => RecordTypeCanonical(fs, b.fields);
      case MapType(k, v) =>
        TypeCanonical(k, b.key);
        TypeCanonical(v, b.value);
        MapTypeIs(a, b);
      case VariantType(cs) => VariantTypeCanonical(cs, b.cases);
      case OpaqueType(d) => OpaqueTypeIs(d, b.description);
      case _ =>
    }
  }

  lemma {:induction false} ElementJsonIs(tag: Text, e: ModelType, f: ModelType)
    ensures Obj([Member(ELEMENT, TypeJson(e)), KindMember(tag)]) == Obj([Member(ELEMENT, TypeJson(f)), KindMember(tag)])
       <==> TypeJson(e) == TypeJson(f)
  {
    TwoMembers(Member(ELEMENT, TypeJson(e)), KindMember(tag), Member(ELEMENT, TypeJson(f)), KindMember(tag));
  }

  lemma {:induction false} MapTypeIs(a: ModelType, b: ModelType)
    requires a.MapType? && b.MapType?
    ensures TypeJson(a) == TypeJson(b) <==> TypeJson(a.key) == TypeJson(b.key) && TypeJson(a.value) == TypeJson(b.value)
  {
    var kind := KindMember(MAP_TAG);
    ThreeMembers(Member(KEY, TypeJson(a.key)), kind, Member(VALUE, TypeJson(a.value)),
                 Member(KEY, TypeJson(b.key)), kind, Member(VALUE, TypeJson(b.value)));
  }

  lemma {:induction false} OpaqueTypeIs(d: Text, e: Text)
    ensures TypeJson(OpaqueType(d)) == TypeJson(OpaqueType(e)) <==> d == e
  {
    var kind := KindMember(OPAQUE_TAG);
    TwoMembers(Member(DESCRIPTION, Json.Str(d)), kind, Member(DESCRIPTION, Json.Str(e)), kind);
  }

  ghost predicate AllAlike(es: seq<ModelType>, gs: seq<ModelType>) {
    |es| == |gs| && forall i :: 0 <= i < |es| ==> TypesAlike(es[i], gs[i])
  }

  lemma {:induction false} TupleCanonical(es: seq<ModelType>, gs: seq<ModelType>)
    ensures TypeJsons(es) == TypeJsons(gs) ==> AllAlike(es, gs)
    ensures DistinctType(TupleType(es)) && AllAlike(es, gs) ==> TypeJsons(es) == TypeJsons(gs)
    decreases es, 0
  {
    if |es| == |gs| {
      forall i | 0 <= i < |es|
        ensures TypeJsons(es)[i] == TypeJsons(gs)[i] ==> TypesAlike(es[i], gs[i])
        ensures DistinctType(es[i]) && TypesAlike(es[i], gs[i]) ==> TypeJsons(es)[i] == TypeJsons(gs)[i]
      {
        TypeCanonical(es[i], gs[i]);
      }
    } else {
      assert |TypeJsons(es)| != |TypeJsons(gs)|;
    }
  }

  lemma {:induction false} TupleTypeIs(es: seq<ModelType>, gs: seq<ModelType>)
    ensures TypeJson(TupleType(es)) == TypeJson(TupleType(gs)) <==> TypeJsons(es) == TypeJsons(gs)
    ensures TypesAlike(TupleType(es), TupleType(gs)) <==> AllAlike(es, gs)
  {
    var kind := KindMember(TUPLE_TAG);
    TwoMembers(Member(ELEMENTS, Arr(TypeJsons(es))), kind, Member(ELEMENTS, Arr(TypeJsons(gs))), kind);
  }

  lemma {:induction false} LabelJsonIs(l: Labelled, m: Labelled, inner: Text, name: Text)
    ensures LabelJson(l, inner, name) == LabelJson(m, inner, name) <==> l.name == m.name && TypeJson(l.inner) == TypeJson(m.inner)
  {
    TwoMembers(Member(inner, TypeJson(l.inner)), Member(name, Json.Str(l.name)),
               Member(inner, TypeJson(m.inner)), Member(name, Json.Str(m.name)));
  }

  lemma {:induction false} LabelCanonical(l: Labelled, m: Labelled, inner: Text, name: Text)
    ensures LabelJson(l, inner, name) == LabelJson(m, inner, name) ==> AlikeLabel(l, m)
    ensures DistinctType(l.inner) && AlikeLabel(l, m) ==> LabelJson(l, inner, name) == LabelJson(m, inner, name)
    decreases l, 2
  {
    LabelJsonIs(l, m, inner, name);
    TypeCanonical(l.inner, m.inner);
  }

  lemma {:induction false} LabelsName(ls: seq<Labelled>, ms: seq<Labelled>, inner: Text, name: Text)
    ensures ValuesName(LabelItems(ls, inner, name), LabelItems(ms, inner, name))
    ensures DistinctLabels(ls) ==> Unrepeated(LabelItems(ls, inner, name))
  {
    var xs, ys := LabelItems(ls, inner, name), LabelItems(ms, inner, name);
    forall x, y | x in xs && y in ys && x.value == y.value ensures x.name == y.name {
      var i :| 0 <= i < |xs| && xs[i] == x;
      var j :| 0 <= j < |ys| && ys[j] == y;
      LabelJsonIs(ls[i], ms[j], inner, name);
    }
    if DistinctLabels(ls) {
      forall x, y | x in xs && y in xs && x.name == y.name ensures x == y {
        var i :| 0 <= i < |xs| && xs[i] == x;
        var j :| 0 <= j < |xs| && xs[j] == y;
      }
    }
  }

  lemma {:induction false} PairedLabels(ls: seq<Labelled>, ms: seq<Labelled>, xs: seq<Keyed>, ys: seq<Keyed>)
    requires |xs| == |ls| && |ys| == |ms|
    requires forall i, j :: 0 <= i < |ls| && 0 <= j < |ms| && xs[i] == ys[j] ==> AlikeLabel(ls[i], ms[j])
    ensures (exists p :: Pairs(xs, ys, p)) ==> exists p :: LabelsPaired(ls, ms, p)
  {
    if p :| Pairs(xs, ys, p) { assert LabelsPaired(ls, ms, p); }
  }

  lemma {:induction false} PairedItems(ls: seq<Labelled>, ms: seq<Labelled>, xs: seq<Keyed>, ys: seq<Keyed>)
    requires |xs| == |ls| && |ys| == |ms|
    requires forall i, j :: 0 <= i < |ls| && 0 <= j < |ms| && AlikeLabel(ls[i], ms[j]) ==> xs[i] == ys[j]
    ensures (exists p :: LabelsPaired(ls, ms, p)) ==> exists p :: Pairs(xs, ys, p)
  {
    if p :| LabelsPaired(ls, ms, p) { assert Pairs(xs, ys, p); }
  }

  lemma {:induction false} LabelListCanonical(ls: seq<Labelled>, ms: seq<Labelled>, inner: Text, name: Text)
    ensures Arranged(LabelItems(ls, inner, name)) == Arranged(LabelItems(ms, inner, name)) ==> exists p :: LabelsPaired(ls, ms, p)
    ensures DistinctLabels(ls) && DistinctInner(ls) && (exists p :: LabelsPaired(ls, ms, p))
            ==> Arranged(LabelItems(ls, inner, name)) == Arranged(LabelItems(ms, inner, name))
    decreases ls, 0
  {
    var xs, ys := LabelItems(ls, inner, name), LabelItems(ms, inner, name);
    LabelsName(ls, ms, inner, name);
    ArrangedAlike(xs, ys);
    forall i, j | 0 <= i < |ls| && 0 <= j < |ms|
      ensures xs[i] == ys[j] ==> AlikeLabel(ls[i], ms[j])
      ensures DistinctInner(ls) && AlikeLabel(ls[i], ms[j]) ==> xs[i] == ys[j]
    {
      LabelCanonical(ls[i], ms[j], inner, name);
    }
    PairedLabels(ls, ms, xs, ys);
    if DistinctInner(ls) { PairedItems(ls, ms, xs, ys); }
  }

  ghost predicate DistinctInner(ls: seq<Labelled>) {
    forall i :: 0 <= i < |ls| ==> DistinctType(ls[i].inner)
  }

  lemma {:induction false} RecordTypeCanonical(fs: seq<Labelled>, gs: seq<Labelled>)
    ensures TypeJson(RecordType(fs)) == TypeJson(RecordType(gs)) ==> TypesAlike(RecordType(fs), RecordType(gs))
    ensures DistinctType(RecordType(fs)) && TypesAlike(RecordType(fs), RecordType(gs))
            ==> TypeJson(RecordType(fs)) == TypeJson(RecordType(gs))
    decreases fs, 1
  {
    LabelListCanonical(fs, gs, TYPE, WIRE_NAME);
    LabelsAlike(fs, gs);
    var kind := KindMember(RECORD_TAG);
    TwoMembers(Member(FIELDS, Arr(Arranged(LabelItems(fs, TYPE, WIRE_NAME)))), kind,
               Member(FIELDS, Arr(Arranged(LabelItems(gs, TYPE, WIRE_NAME)))), kind);
  }

  lemma {:induction false} VariantTypeCanonical(fs: seq<Labelled>, gs: seq<Labelled>)
    ensures TypeJson(VariantType(fs)) == TypeJson(VariantType(gs)) ==> TypesAlike(VariantType(fs), VariantType(gs))
    ensures DistinctType(VariantType(fs)) && TypesAlike(VariantType(fs), VariantType(gs))
            ==> TypeJson(VariantType(fs)) == TypeJson(VariantType(gs))
    decreases fs, 1
  {
    LabelListCanonical(fs, gs, PAYLOAD, TAG);
    LabelsAlike(fs, gs);
    var kind := KindMember(VARIANT_TAG);
    TwoMembers(Member(CASES, Arr(Arranged(LabelItems(fs, PAYLOAD, TAG)))), kind,
               Member(CASES, Arr(Arranged(LabelItems(gs, PAYLOAD, TAG)))), kind);
  }
}
