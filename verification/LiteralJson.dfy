/** The canonical JSON of literals, and exactly which of them share it. */
module LiteralJson {
  import opened JsonText
  import opened Sorting
  import opened Permutations
  import opened ValueIdentity
  import opened UnicodeOrder
  import opened ModelTypes
  import opened DescriptorJson

  function LiteralTag(l: Literal): Text {
    match l
    case IntLit(_) => INT_TAG
    case BoolLit(_) => BOOL_TAG
    case StrLit(_) => STR_TAG
    case NullLit => NULL_TAG
    case SetLit(_) => SET_TAG
    case SeqLit(_) => SEQ_TAG
    case TupleLit(_) => TUPLE_TAG
    case RecordLit(_) => RECORD_TAG
    case MapLit(_) => MAP_TAG
    case VariantLit(_, _) => VARIANT_TAG
  }

  /** `canonicalLiteralValue`: sets are sorted by their items' text, records by
      field name, maps by the text of the key. */
  function Canonise(l: Literal): Json
    decreases l, 1
  {
    var kind := KindMember(LiteralTag(l));
    match l
    case IntLit(t) => Obj([kind, Member(VALUE, Json.Str(t))])
    case BoolLit(b) => Obj([kind, Member(VALUE, Json.Bool(b))])
    case StrLit(s) => Obj([kind, Member(VALUE, Json.Str(s))])
    case NullLit => Obj([kind])
    case SetLit(vs) => Obj([kind, Member(VALUES, Arr(Arranged(SetItems(vs))))])
    case SeqLit(vs) => Obj([kind, Member(VALUES, Arr(Canonised(vs)))])
    case TupleLit(vs) => Obj([kind, Member(VALUES, Arr(Canonised(vs)))])
    case RecordLit(fs) => Obj([Member(FIELDS, Arr(Arranged(FieldItems(fs)))), kind])
    case MapLit(es) => Obj([Member(ENTRIES, Arr(Arranged(EntryItems(es)))), kind])
    case VariantLit(tag, p) => Obj([kind, Member(PAYLOAD, Canonise(p)), Member(TAG, Json.Str(tag))])
  }

  function Canonised(vs: seq<Literal>): (r: seq<Json>)
    ensures |r| == |vs| && forall i :: 0 <= i < |r| ==> r[i] == Canonise(vs[i])
    decreases vs, 0
  {
    seq(|vs|, i requires 0 <= i < |vs| => Canonise(vs[i]))
  }

  function SetItem(j: Json): Keyed {
    Keyed(Render(j, Compress), j)
  }

  function SetItems(vs: seq<Literal>): (r: seq<Keyed>)
    ensures |r| == |vs| && forall i :: 0 <= i < |r| ==> r[i] == SetItem(Canonise(vs[i]))
    decreases vs, 0
  {
    seq(|vs|, i requires 0 <= i < |vs| => SetItem(Canonise(vs[i])))
  }

  function FieldJson(f: LiteralField): Json
    decreases f, 2
  {
    Obj([Member(NAME, Json.Str(f.name)), Member(VALUE, Canonise(f.value))])
  }

  function FieldItems(fs: seq<LiteralField>): (r: seq<Keyed>)
    ensures |r| == |fs| && forall i :: 0 <= i < |r| ==> r[i] == Keyed(fs[i].name, FieldJson(fs[i]))
    decreases fs, 0
  {
    seq(|fs|, i requires 0 <= i < |fs| => Keyed(fs[i].name, FieldJson(fs[i])))
  }

  function EntryItem(e: LiteralEntry): Keyed
    decreases e, 2
  {
    Keyed(Render(Canonise(e.key), Compress), Obj([Member(KEY, Canonise(e.key)), Member(VALUE, Canonise(e.value))]))
  }

  function EntryItems(es: seq<LiteralEntry>): (r: seq<Keyed>)
    ensures |r| == |es| && forall i :: 0 <= i < |r| ==> r[i] == EntryItem(es[i])
    decreases es, 0
  {
    seq(|es|, i requires 0 <= i < |es| => EntryItem(es[i]))
  }

  /** The same literal but for the order of set items, fields and entries. */
  ghost predicate LiteralsAlike(a: Literal, b: Literal)
    decreases a
  {
    match a
    case SetLit(xs) =>
      b.SetLit? && |xs| == |b.values|
      && exists p :: Permutation(p, |xs|) && forall i :: 0 <= i < |xs| ==> LiteralsAlike(xs[i], b.values[p[i]])
    case SeqLit(xs) => b.SeqLit? && |xs| == |b.values| && forall i :: 0 <= i < |xs| ==> LiteralsAlike(xs[i], b.values[i])
    case TupleLit(xs) => b.TupleLit? && |xs| == |b.values| && forall i :: 0 <= i < |xs| ==> LiteralsAlike(xs[i], b.values[i])
    case RecordLit(fs) =>
      b.RecordLit? && |fs| == |b.fields|
      && exists p :: Permutation(p, |fs|) && forall i :: 0 <= i < |fs| ==>
           fs[i].name == b.fields[p[i]].name && LiteralsAlike(fs[i].value, b.fields[p[i]].value)
    case MapLit(es) =>
      b.MapLit? && |es| == |b.entries|
      && exists p :: Permutation(p, |es|) && forall i :: 0 <= i < |es| ==>
           LiteralsAlike(es[i].key, b.entries[p[i]].key) && LiteralsAlike(es[i].value, b.entries[p[i]].value)
    case VariantLit(tag, p) => b.VariantLit? && b.tag == tag && LiteralsAlike(p, b.payload)
    case _ => a == b
  }

  ghost predicate AlikeItem(a: Literal, b: Literal) { LiteralsAlike(a, b) }

  ghost predicate AlikeField(f: LiteralField, g: LiteralField) {
    f.name == g.name && LiteralsAlike(f.value, g.value)
  }

  ghost predicate AlikeEntry(e: LiteralEntry, d: LiteralEntry) {
    LiteralsAlike(e.key, d.key) && LiteralsAlike(e.value, d.value)
  }

  /** Fields of one name, and entries of one key, have one canonical value, at any depth. */
  ghost predicate Settled(l: Literal)
    decreases l
  {
    match l
    case SetLit(vs) => forall i :: 0 <= i < |vs| ==> Settled(vs[i])
    case SeqLit(vs) => forall i :: 0 <= i < |vs| ==> Settled(vs[i])
    case TupleLit(vs) => forall i :: 0 <= i < |vs| ==> Settled(vs[i])
    case RecordLit(fs) => Unrepeated(FieldItems(fs)) && forall i :: 0 <= i < |fs| ==> Settled(fs[i].value)
    case MapLit(es) =>
      Unrepeated(EntryItems(es)) && forall i :: 0 <= i < |es| ==> Settled(es[i].key) && Settled(es[i].value)
    case VariantLit(_, p) => Settled(p)
    case _ => true
  }

  // ----- Literal JSON holds no numbers -----

  lemma {:induction false} CanoniseIntegral(l: Literal)
    ensures Integral(Canonise(l))
    decreases l, 1
  {
    match l
    case SetLit(vs) =>
      forall i | 0 <= i < |vs| ensures Integral(SetItems(vs)[i].value) { CanoniseIntegral(vs[i]); }
      ArrangedIntegral(SetItems(vs));
    case SeqLit(vs) => forall i | 0 <= i < |vs| ensures Integral(Canonised(vs)[i]) { CanoniseIntegral(vs[i]); }
    case TupleLit(vs) => forall i | 0 <= i < |vs| ensures Integral(Canonised(vs)[i]) { CanoniseIntegral(vs[i]); }
    case RecordLit(fs) =>
      forall i | 0 <= i < |fs| ensures Integral(FieldItems(fs)[i].value) { FieldIntegral(fs[i]); }
      ArrangedIntegral(FieldItems(fs));
    case MapLit(es) =>
      forall i | 0 <= i < |es| ensures Integral(EntryItems(es)[i].value) { EntryIntegral(es[i]); }
      ArrangedIntegral(EntryItems(es));
    case VariantLit(_, p) => CanoniseIntegral(p);
    case _ =>
  }

  lemma {:induction false} ArrangedIntegral(ks: seq<Keyed>)
    requires forall i :: 0 <= i < |ks| ==> Integral(ks[i].value)
    ensures forall i :: 0 <= i < |Arranged(ks)| ==> Integral(Arranged(ks)[i])
  {
    var s := SortBy(ks, ByName);
    forall i | 0 <= i < |s| ensures Integral(Arranged(ks)[i]) {
      SortedMembers(ks);
      assert s[i] in ks;
    }
  }

  lemma {:induction false} FieldIntegral(f: LiteralField)
    ensures Integral(FieldJson(f))
    decreases f, 2
  {
    CanoniseIntegral(f.value);
  }

  lemma {:induction false} EntryIntegral(e: LiteralEntry)
    ensures Integral(EntryItem(e).value)
    decreases e, 2
  {
    CanoniseIntegral(e.key);
    CanoniseIntegral(e.value);
  }

  // ----- Which literals share their JSON -----

  lemma {:induction false} LiteralShape(l: Literal)
    ensures Canonise(l).Obj? && 0 < |Canonise(l).members| <= 3
    ensures var ms := Canonise(l).members;
      if l.RecordLit? then |ms| == 2 && ms[0].key == FIELDS && ms[1] == KindMember(RECORD_TAG)
      else if l.MapLit? then |ms| == 2 && ms[0].key == ENTRIES && ms[1] == KindMember(MAP_TAG)
      else ms[0] == KindMember(LiteralTag(l))
  {
  }

  lemma {:induction false} SameLiteralConstructor(a: Literal, b: Literal)
    requires LiteralTag(a) == LiteralTag(b)
    ensures a.IntLit? == b.IntLit? && a.BoolLit? == b.BoolLit? && a.StrLit? == b.StrLit? && a.NullLit? == b.NullLit?
    ensures a.SetLit? == b.SetLit? && a.SeqLit? == b.SeqLit? && a.TupleLit? == b.TupleLit?
    ensures a.RecordLit? == b.RecordLit? && a.MapLit? == b.MapLit? && a.VariantLit? == b.VariantLit?
  {
  }

  lemma {:induction false} SameTag(a: Literal, b: Literal)
    requires Canonise(a) == Canonise(b) || LiteralsAlike(a, b)
    ensures LiteralTag(a) == LiteralTag(b)
  {
    LiteralShape(a);
    LiteralShape(b);
    assert |KIND| == 4 && |FIELDS| == 6 && |ENTRIES| == 7;
  }

  function LiteralForm(l: Literal): nat {
    match l
    case IntLit(_) => 0
    case BoolLit(_) => 1
    case StrLit(_) => 2
    case NullLit => 3
    case SetLit(_) => 4
    case SeqLit(_) => 5
    case TupleLit(_) => 6
    case RecordLit(_) => 7
    case MapLit(_) => 8
    case VariantLit(_, _) => 9
  }

  lemma {:induction false} SameForm(a: Literal, b: Literal)
    requires Canonise(a) == Canonise(b) || LiteralsAlike(a, b)
    ensures LiteralForm(a) == LiteralForm(b)
  {
    SameTag(a, b);
    SameLiteralConstructor(a, b);
  }

  /** Literals share canonical JSON only if they are the same up to order; and if
      they are, provided one of them is settled. */
  lemma {:induction false} LiteralCanonical(a: Literal, b: Literal)
    ensures Canonise(a) == Canonise(b) ==> LiteralsAlike(a, b)
    ensures Settled(a) && LiteralsAlike(a, b) ==> Canonise(a) == Canonise(b)
    decreases a, 1
  {
    if LiteralForm(a) != LiteralForm(b) {
      if Canonise(a) == Canonise(b) || LiteralsAlike(a, b) { SameForm(a, b); }
    } else {
      match a
      case SetLit(xs) => SetLitCanonical(xs, b.values);
      case SeqLit(xs) => ListLitCanonical(SEQ_TAG, xs, b.values);
      case TupleLit(xs) => ListLitCanonical(TUPLE_TAG, xs, b.values);
      case RecordLit(fs) => RecordLitCanonical(fs, b.fields);
      case MapLit(es) => MapLitCanonical(es, b.entries);
      case VariantLit(tag, p) =>
        LiteralCanonical(p, b.payload);
        VariantLitIs(a, b);
      case _ => ScalarCanonical(a, b);
    }
  }

  lemma {:induction false} ScalarCanonical(a: Literal, b: Literal)
    requires (a.IntLit? && b.IntLit?) || (a.BoolLit? && b.BoolLit?) || (a.StrLit? && b.StrLit?) || (a.NullLit? && b.NullLit?)
    ensures Canonise(a) == Canonise(b) <==> a == b
  {
    if !a.NullLit? {
      TwoMembers(Canonise(a).members[0], Canonise(a).members[1], Canonise(b).members[0], Canonise(b).members[1]);
    }
  }

  lemma {:induction false} VariantLitIs(a: Literal, b: Literal)
    requires a.VariantLit? && b.VariantLit?
    ensures Canonise(a) == Canonise(b) <==> a.tag == b.tag && Canonise(a.payload) == Canonise(b.payload)
  {
    var kind := KindMember(VARIANT_TAG);
    ThreeMembers(kind, Member(PAYLOAD, Canonise(a.payload)), Member(TAG, Json.Str(a.tag)),
                 kind, Member(PAYLOAD, Canonise(b.payload)), Member(TAG, Json.Str(b.tag)));
  }

  function ListLit(tag: Text, xs: seq<Literal>): Literal {
    if tag == SEQ_TAG then SeqLit(xs) else TupleLit(xs)
  }

  lemma {:induction false} ListLitCanonical(tag: Text, xs: seq<Literal>, ys: seq<Literal>)
    requires tag == SEQ_TAG || tag == TUPLE_TAG
    ensures Canonise(ListLit(tag, xs)) == Canonise(ListLit(tag, ys)) ==> AllAlike(xs, ys)
    ensures AllSettled(xs) && AllAlike(xs, ys) ==> Canonise(ListLit(tag, xs)) == Canonise(ListLit(tag, ys))
    decreases xs, 1
  {
    var kind := KindMember(tag);
    ListCanonical(xs, ys);
    TwoMembers(kind, Member(VALUES, Arr(Canonised(xs))), kind, Member(VALUES, Arr(Canonised(ys))));
  }

  ghost predicate AllAlike(xs: seq<Literal>, ys: seq<Literal>) {
    |xs| == |ys| && forall i :: 0 <= i < |xs| ==> AlikeItem(xs[i], ys[i])
  }

  ghost predicate AllSettled(xs: seq<Literal>) {
    forall i :: 0 <= i < |xs| ==> Settled(xs[i])
  }

  lemma {:induction false} ListCanonical(xs: seq<Literal>, ys: seq<Literal>)
    ensures Canonised(xs) == Canonised(ys) ==> AllAlike(xs, ys)
    ensures AllSettled(xs) && AllAlike(xs, ys) ==> Canonised(xs) == Canonised(ys)
    decreases xs, 0
  {
    if |xs| == |ys| {
      forall i | 0 <= i < |xs|
        ensures Canonised(xs)[i] == Canonised(ys)[i] ==> AlikeItem(xs[i], ys[i])
        ensures Settled(xs[i]) && AlikeItem(xs[i], ys[i]) ==> Canonised(xs)[i] == Canonised(ys)[i]
      {
        LiteralCanonical(xs[i], ys[i]);
      }
    } else {
      assert |Canonised(xs)| != |Canonised(ys)|;
    }
  }

  lemma {:induction false} SetItemsName(xs: seq<Literal>, ys: seq<Literal>)
    ensures ValuesName(SetItems(xs), SetItems(ys)) && Unrepeated(SetItems(xs))
  {
    var ks := SetItems(xs);
    forall x, y | x in ks && y in ks && x.name == y.name ensures x == y {
      var i :| 0 <= i < |ks| && ks[i] == x;
      var j :| 0 <= j < |ks| && ks[j] == y;
      CanoniseIntegral(xs[i]);
      CanoniseIntegral(xs[j]);
      SameTextSameTree(Canonise(xs[i]), Canonise(xs[j]), Compress);
    }
  }

  /** `p` pairs alike literals. */
  ghost predicate ItemsPaired(xs: seq<Literal>, ys: seq<Literal>, p: seq<nat>) {
    |xs| == |ys| && Permutation(p, |xs|) && forall i :: 0 <= i < |xs| ==> AlikeItem(xs[i], ys[p[i]])
  }

  lemma {:induction false} SetsAlike(xs: seq<Literal>, ys: seq<Literal>)
    ensures LiteralsAlike(SetLit(xs), SetLit(ys)) <==> exists p :: ItemsPaired(xs, ys, p)
  {
    if LiteralsAlike(SetLit(xs), SetLit(ys)) {
      var p :| Permutation(p, |xs|) && forall i :: 0 <= i < |xs| ==> LiteralsAlike(xs[i], ys[p[i]]);
      assert ItemsPaired(xs, ys, p);
    }
    if p :| ItemsPaired(xs, ys, p) {
      forall i | 0 <= i < |xs| ensures LiteralsAlike(xs[i], ys[p[i]]) { assert AlikeItem(xs[i], ys[p[i]]); }
    }
  }

  lemma {:induction false} SetListCanonical(xs: seq<Literal>, ys: seq<Literal>)
    ensures Arranged(SetItems(xs)) == Arranged(SetItems(ys)) ==> exists p :: ItemsPaired(xs, ys, p)
    ensures AllSettled(xs) && (exists p :: ItemsPaired(xs, ys, p)) ==> Arranged(SetItems(xs)) == Arranged(SetItems(ys))
    decreases xs, 0
  {
    var ks, ls := SetItems(xs), SetItems(ys);
    SetItemsName(xs, ys);
    ArrangedAlike(ks, ls);
    forall i, j | 0 <= i < |xs| && 0 <= j < |ys|
      ensures ks[i] == ls[j] ==> AlikeItem(xs[i], ys[j])
      ensures AllSettled(xs) && AlikeItem(xs[i], ys[j]) ==> ks[i] == ls[j]
    {
      LiteralCanonical(xs[i], ys[j]);
    }
    PairsToItems(xs, ys, ks, ls);
    if AllSettled(xs) { ItemsToPairs(xs, ys, ks, ls); }
  }

  lemma {:induction false} SetLitCanonical(xs: seq<Literal>, ys: seq<Literal>)
    ensures Canonise(SetLit(xs)) == Canonise(SetLit(ys)) ==> LiteralsAlike(SetLit(xs), SetLit(ys))
    ensures AllSettled(xs) && LiteralsAlike(SetLit(xs), SetLit(ys)) ==> Canonise(SetLit(xs)) == Canonise(SetLit(ys))
    decreases xs, 1
  {
    var kind := KindMember(SET_TAG);
    TwoMembers(kind, Member(VALUES, Arr(Arranged(SetItems(xs)))), kind, Member(VALUES, Arr(Arranged(SetItems(ys)))));
    SetListCanonical(xs, ys);
    SetsAlike(xs, ys);
  }

  lemma {:induction false} PairsToItems(xs: seq<Literal>, ys: seq<Literal>, ks: seq<Keyed>, ls: seq<Keyed>)
    requires |ks| == |xs| && |ls| == |ys|
    requires forall i, j :: 0 <= i < |xs| && 0 <= j < |ys| && ks[i] == ls[j] ==> AlikeItem(xs[i], ys[j])
    ensures (exists p :: Pairs(ks, ls, p)) ==> exists p :: ItemsPaired(xs, ys, p)
  {
    if p :| Pairs(ks, ls, p) { assert ItemsPaired(xs, ys, p); }
  }

  lemma {:induction false} ItemsToPairs(xs: seq<Literal>, ys: seq<Literal>, ks: seq<Keyed>, ls: seq<Keyed>)
    requires |ks| == |xs| && |ls| == |ys|
    requires forall i, j :: 0 <= i < |xs| && 0 <= j < |ys| && AlikeItem(xs[i], ys[j]) ==> ks[i] == ls[j]
    ensures (exists p :: ItemsPaired(xs, ys, p)) ==> exists p :: Pairs(ks, ls, p)
  {
    if p :| ItemsPaired(xs, ys, p) { assert Pairs(ks, ls, p); }
  }

  // ----- Records -----

  lemma {:induction false} FieldJsonIs(f: LiteralField, g: LiteralField)
    ensures FieldJson(f) == FieldJson(g) <==> f.name == g.name && Canonise(f.value) == Canonise(g.value)
  {
    TwoMembers(Member(NAME, Json.Str(f.name)), Member(VALUE, Canonise(f.value)),
               Member(NAME, Json.Str(g.name)), Member(VALUE, Canonise(g.value)));
  }

  lemma {:induction false} FieldCanonical(f: LiteralField, g: LiteralField)
    ensures FieldJson(f) == FieldJson(g) ==> AlikeField(f, g)
    ensures Settled(f.value) && AlikeField(f, g) ==> FieldJson(f) == FieldJson(g)
    decreases f, 2
  {
    FieldJsonIs(f, g);
    LiteralCanonical(f.value, g.value);
  }

  lemma {:induction false} FieldItemsName(fs: seq<LiteralField>, gs: seq<LiteralField>)
    ensures ValuesName(FieldItems(fs), FieldItems(gs))
  {
    var xs, ys := FieldItems(fs), FieldItems(gs);
    forall x, y | x in xs && y in ys && x.value == y.value ensures x.name == y.name {
      var i :| 0 <= i < |xs| && xs[i] == x;
      var j :| 0 <= j < |ys| && ys[j] == y;
      FieldJsonIs(fs[i], gs[j]);
    }
  }

  ghost predicate FieldsPaired(fs: seq<LiteralField>, gs: seq<LiteralField>, p: seq<nat>) {
    |fs| == |gs| && Permutation(p, |fs|) && forall i :: 0 <= i < |fs| ==> AlikeField(fs[i], gs[p[i]])
  }

  lemma {:induction false} RecordsAlike(fs: seq<LiteralField>, gs: seq<LiteralField>)
    ensures LiteralsAlike(RecordLit(fs), RecordLit(gs)) <==> exists p :: FieldsPaired(fs, gs, p)
  {
    if LiteralsAlike(RecordLit(fs), RecordLit(gs)) {
      var p :| Permutation(p, |fs|) && forall i :: 0 <= i < |fs| ==>
        fs[i].name == gs[p[i]].name && LiteralsAlike(fs[i].value, gs[p[i]].value);
      assert FieldsPaired(fs, gs, p);
    }
    if p :| FieldsPaired(fs, gs, p) {
      forall i | 0 <= i < |fs| ensures fs[i].name == gs[p[i]].name && LiteralsAlike(fs[i].value, gs[p[i]].value) {
        assert AlikeField(fs[i], gs[p[i]]);
      }
    }
  }

  ghost predicate SettledFields(fs: seq<LiteralField>) {
    forall i :: 0 <= i < |fs| ==> Settled(fs[i].value)
  }

  lemma {:induction false} FieldListCanonical(fs: seq<LiteralField>, gs: seq<LiteralField>)
    ensures Arranged(FieldItems(fs)) == Arranged(FieldItems(gs)) ==> exists p :: FieldsPaired(fs, gs, p)
    ensures Unrepeated(FieldItems(fs)) && SettledFields(fs) && (exists p :: FieldsPaired(fs, gs, p))
            ==> Arranged(FieldItems(fs)) == Arranged(FieldItems(gs))
    decreases fs, 0
  {
    var ks, ls := FieldItems(fs), FieldItems(gs);
    FieldItemsName(fs, gs);
    ArrangedAlike(ks, ls);
    forall i, j | 0 <= i < |fs| && 0 <= j < |gs|
      ensures ks[i] == ls[j] ==> AlikeField(fs[i], gs[j])
      ensures SettledFields(fs) && AlikeField(fs[i], gs[j]) ==> ks[i] == ls[j]
    {
      FieldCanonical(fs[i], gs[j]);
    }
    PairsToFields(fs, gs, ks, ls);
    if SettledFields(fs) { FieldsToPairs(fs, gs, ks, ls); }
  }

  lemma {:induction false} RecordLitCanonical(fs: seq<LiteralField>, gs: seq<LiteralField>)
    ensures Canonise(RecordLit(fs)) == Canonise(RecordLit(gs)) ==> LiteralsAlike(RecordLit(fs), RecordLit(gs))
    ensures Unrepeated(FieldItems(fs)) && SettledFields(fs) && LiteralsAlike(RecordLit(fs), RecordLit(gs))
            ==> Canonise(RecordLit(fs)) == Canonise(RecordLit(gs))
    decreases fs, 1
  {
    var kind := KindMember(RECORD_TAG);
    TwoMembers(Member(FIELDS, Arr(Arranged(FieldItems(fs)))), kind, Member(FIELDS, Arr(Arranged(FieldItems(gs)))), kind);
    FieldListCanonical(fs, gs);
    RecordsAlike(fs, gs);
  }

  lemma {:induction false} PairsToFields(fs: seq<LiteralField>, gs: seq<LiteralField>, ks: seq<Keyed>, ls: seq<Keyed>)
    requires |ks| == |fs| && |ls| == |gs|
    requires forall i, j :: 0 <= i < |fs| && 0 <= j < |gs| && ks[i] == ls[j] ==> AlikeField(fs[i], gs[j])
    ensures (exists p :: Pairs(ks, ls, p)) ==> exists p :: FieldsPaired(fs, gs, p)
  {
    if p :| Pairs(ks, ls, p) { assert FieldsPaired(fs, gs, p); }
  }

  lemma {:induction false} FieldsToPairs(fs: seq<LiteralField>, gs: seq<LiteralField>, ks: seq<Keyed>, ls: seq<Keyed>)
    requires |ks| == |fs| && |ls| == |gs|
    requires forall i, j :: 0 <= i < |fs| && 0 <= j < |gs| && AlikeField(fs[i], gs[j]) ==> ks[i] == ls[j]
    ensures (exists p :: FieldsPaired(fs, gs, p)) ==> exists p :: Pairs(ks, ls, p)
  {
    if p :| FieldsPaired(fs, gs, p) { assert Pairs(ks, ls, p); }
  }

  // ----- Maps -----

  lemma {:induction false} EntryItemIs(e: LiteralEntry, d: LiteralEntry)
    ensures EntryItem(e).value == EntryItem(d).value <==> Canonise(e.key) == Canonise(d.key) && Canonise(e.value) == Canonise(d.value)
    ensures EntryItem(e).value == EntryItem(d).value ==> EntryItem(e) == EntryItem(d)
    ensures EntryItem(e).name == EntryItem(d).name <==> Canonise(e.key) == Canonise(d.key)
  {
    TwoMembers(Member(KEY, Canonise(e.key)), Member(VALUE, Canonise(e.value)),
               Member(KEY, Canonise(d.key)), Member(VALUE, Canonise(d.value)));
    CanoniseIntegral(e.key);
    CanoniseIntegral(d.key);
    SameTextSameTree(Canonise(e.key), Canonise(d.key), Compress);
  }

  lemma {:induction false} EntryCanonical(e: LiteralEntry, d: LiteralEntry)
    ensures EntryItem(e) == EntryItem(d) ==> AlikeEntry(e, d)
    ensures SettledEntry(e) && AlikeEntry(e, d) ==> EntryItem(e) == EntryItem(d)
    decreases e, 2
  {
    EntryItemIs(e, d);
    LiteralCanonical(e.key, d.key);
    LiteralCanonical(e.value, d.value);
  }

  ghost predicate SettledEntry(e: LiteralEntry) {
    Settled(e.key) && Settled(e.value)
  }

  ghost predicate SettledEntries(es: seq<LiteralEntry>) {
    forall i :: 0 <= i < |es| ==> SettledEntry(es[i])
  }

  ghost predicate EntriesPaired(es: seq<LiteralEntry>, ds: seq<LiteralEntry>, p: seq<nat>) {
    |es| == |ds| && Permutation(p, |es|) && forall i :: 0 <= i < |es| ==> AlikeEntry(es[i], ds[p[i]])
  }

  lemma {:induction false} MapsAlike(es: seq<LiteralEntry>, ds: seq<LiteralEntry>)
    ensures LiteralsAlike(MapLit(es), MapLit(ds)) <==> exists p :: EntriesPaired(es, ds, p)
  {
    if LiteralsAlike(MapLit(es), MapLit(ds)) {
      var p :| Permutation(p, |es|) && forall i :: 0 <= i < |es| ==>
        LiteralsAlike(es[i].key, ds[p[i]].key) && LiteralsAlike(es[i].value, ds[p[i]].value);
      assert EntriesPaired(es, ds, p);
    }
    if p :| EntriesPaired(es, ds, p) {
      forall i | 0 <= i < |es| ensures LiteralsAlike(es[i].key, ds[p[i]].key) && LiteralsAlike(es[i].value, ds[p[i]].value) {
        assert AlikeEntry(es[i], ds[p[i]]);
      }
    }
  }

  lemma {:induction false} EntryItemsName(es: seq<LiteralEntry>, ds: seq<LiteralEntry>)
    ensures ValuesName(EntryItems(es), EntryItems(ds))
  {
    var xs, ys := EntryItems(es), EntryItems(ds);
    forall x, y | x in xs && y in ys && x.value == y.value ensures x.name == y.name {
      var i :| 0 <= i < |xs| && xs[i] == x;
      var j :| 0 <= j < |ys| && ys[j] == y;
      EntryItemIs(es[i], ds[j]);
    }
  }

  lemma {:induction false} EntryListCanonical(es: seq<LiteralEntry>, ds: seq<LiteralEntry>)
    ensures Arranged(EntryItems(es)) == Arranged(EntryItems(ds)) ==> exists p :: EntriesPaired(es, ds, p)
    ensures Unrepeated(EntryItems(es)) && SettledEntries(es) && (exists p :: EntriesPaired(es, ds, p))
            ==> Arranged(EntryItems(es)) == Arranged(EntryItems(ds))
    decreases es, 1
  {
    var ks, ls := EntryItems(es), EntryItems(ds);
    EntryItemsName(es, ds);
    ArrangedAlike(ks, ls);
    forall i, j | 0 <= i < |es| && 0 <= j < |ds|
      ensures ks[i] == ls[j] ==> AlikeEntry(es[i], ds[j])
      ensures SettledEntries(es) && AlikeEntry(es[i], ds[j]) ==> ks[i] == ls[j]
    {
      EntryCanonical(es[i], ds[j]);
    }
    PairsToEntries(es, ds, ks, ls);
    if SettledEntries(es) { EntriesToPairs(es, ds, ks, ls); }
  }

  lemma {:induction false} MapLitCanonical(es: seq<LiteralEntry>, ds: seq<LiteralEntry>)
    ensures Canonise(MapLit(es)) == Canonise(MapLit(ds)) ==> LiteralsAlike(MapLit(es), MapLit(ds))
    ensures Unrepeated(EntryItems(es)) && SettledEntries(es) && LiteralsAlike(MapLit(es), MapLit(ds))
            ==> Canonise(MapLit(es)) == Canonise(MapLit(ds))
    decreases es, 2
  {
    var kind := KindMember(MAP_TAG);
    TwoMembers(Member(ENTRIES, Arr(Arranged(EntryItems(es)))), kind, Member(ENTRIES, Arr(Arranged(EntryItems(ds)))), kind);
    EntryListCanonical(es, ds);
    MapsAlike(es, ds);
  }

  lemma {:induction false} PairsToEntries(es: seq<LiteralEntry>, ds: seq<LiteralEntry>, ks: seq<Keyed>, ls: seq<Keyed>)
    requires |ks| == |es| && |ls| == |ds|
    requires forall i, j :: 0 <= i < |es| && 0 <= j < |ds| && ks[i] == ls[j] ==> AlikeEntry(es[i], ds[j])
    ensures (exists p :: Pairs(ks, ls, p)) ==> exists p :: EntriesPaired(es, ds, p)
  {
    if p :| Pairs(ks, ls, p) { assert EntriesPaired(es, ds, p); }
  }

  lemma {:induction false} EntriesToPairs(es: seq<LiteralEntry>, ds: seq<LiteralEntry>, ks: seq<Keyed>, ls: seq<Keyed>)
    requires |ks| == |es| && |ls| == |ds|
    requires forall i, j :: 0 <= i < |es| && 0 <= j < |ds| && AlikeEntry(es[i], ds[j]) ==> ks[i] == ls[j]
    ensures (exists p :: EntriesPaired(es, ds, p)) ==> exists p :: Pairs(ks, ls, p)
  {
    if p :| EntriesPaired(es, ds, p) { assert Pairs(ks, ls, p); }
  }
}
