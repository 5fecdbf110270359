/** Canonical texts of things equal up to order have one length. */
module CanonicalLength {
  import opened JsonText
  import opened Sorting
  import opened Permutations
  import opened UnicodeOrder
  import opened ModelTypes
  import opened Descriptors
  import opened CanonicalDescriptor
  import opened RenderedLength
  import D = DescriptorJson
  import L = LiteralJson

  function Size(j: Json): nat { Length(j, Compress) }

  // ----- Lists -----

  ghost predicate AllIntegral(ks: seq<Keyed>) { forall i :: 0 <= i < |ks| ==> Integral(ks[i].value) }

  lemma {:induction false} SortedSize(ks: seq<Keyed>)
    requires AllIntegral(ks)
    ensures Size(Arr(Arranged(ks))) == Size(Arr(Values(ks)))
  {
    var sorted := SortBy(ks, ByName);
    SortByMeaning(ks, ByName);
    var p := PairingOf(sorted, ks);
    L.ArrangedIntegral(ks);
    SameLists(Arranged(ks), Values(ks), Compress, p);
  }

  lemma {:induction false} ArrangedSize(ks: seq<Keyed>, ls: seq<Keyed>, p: seq<nat>)
    requires AllIntegral(ks) && AllIntegral(ls) && |ks| == |ls| && Permutation(p, |ks|)
    requires forall i :: 0 <= i < |ks| ==> Size(ks[i].value) == Size(ls[p[i]].value)
    ensures Size(Arr(Arranged(ks))) == Size(Arr(Arranged(ls)))
  {
    SortedSize(ks);
    SortedSize(ls);
    SameLists(Values(ks), Values(ls), Compress, p);
  }

  lemma {:induction false} PlacesSize(xs: seq<Json>, ys: seq<Json>)
    requires |xs| == |ys| && forall i :: 0 <= i < |xs| ==> Integral(xs[i]) && Integral(ys[i]) && Size(xs[i]) == Size(ys[i])
    ensures Size(Arr(xs)) == Size(Arr(ys))
  {
    SameLists(xs, ys, Compress, InPlace(|xs|));
  }

  lemma {:induction false} TwoSize(a: Member, b: Member, c: Member, d: Member)
    requires a.key == c.key && b.key == d.key && Size(a.value) == Size(c.value) && Size(b.value) == Size(d.value)
    requires Integral(a.value) && Integral(b.value) && Integral(c.value) && Integral(d.value)
    ensures Size(Obj([a, b])) == Size(Obj([c, d]))
  {
    SameObjects([a, b], [c, d], Compress);
  }

  // ----- Literals -----

  /** One property beside the kind. */
  lemma {:induction false} KindSize(tag: Text, key: Text, x: Json, y: Json)
    requires Integral(x) && Integral(y) && Size(x) == Size(y)
    ensures var kind := D.KindMember(tag);
      Size(Obj([kind, Member(key, x)])) == Size(Obj([kind, Member(key, y)]))
      && Size(Obj([Member(key, x), kind])) == Size(Obj([Member(key, y), kind]))
  {
    var kind := D.KindMember(tag);
    TwoSize(kind, Member(key, x), kind, Member(key, y));
    TwoSize(Member(key, x), kind, Member(key, y), kind);
  }

  /** Literals equal up to order have canonical texts of one length, even if not one text. */
  lemma {:induction false} LiteralSize(a: Literal, b: Literal)
    requires L.LiteralsAlike(a, b)
    ensures Size(L.Canonise(a)) == Size(L.Canonise(b))
    decreases a, 2
  {
    if a.SetLit? {
      SetSize(a, b);
    } else if a.SeqLit? || a.TupleLit? {
      ListSize(a, b);
    } else if a.RecordLit? {
      RecordSize(a, b);
    } else if a.MapLit? {
      MapSize(a, b);
    } else if a.VariantLit? {
      VariantSize(a, b);
    }
  }

  lemma {:induction false} SetSize(a: Literal, b: Literal)
    requires a.SetLit? && L.LiteralsAlike(a, b)
    ensures Size(L.Canonise(a)) == Size(L.Canonise(b))
    decreases a, 1
  {
    var xs, ys := a.values, b.values;
    var ks, ls := L.SetItems(xs), L.SetItems(ys);
    L.SetsAlike(xs, ys);
    var p :| L.ItemsPaired(xs, ys, p);
    forall i | 0 <= i < |xs| ensures Size(ks[i].value) == Size(ls[p[i]].value) {
      assert L.AlikeItem(xs[i], ys[p[i]]);
      LiteralSize(xs[i], ys[p[i]]);
    }
    forall i | 0 <= i < |xs| ensures Integral(ks[i].value) && Integral(ls[i].value) {
      L.CanoniseIntegral(xs[i]);
      L.CanoniseIntegral(ys[i]);
    }
    ListedSize(L.LiteralTag(a), D.VALUES, ks, ls, p);
  }

  /** Sorted lists beside the kind. */
  lemma {:induction false} ListedSize(tag: Text, key: Text, ks: seq<Keyed>, ls: seq<Keyed>, p: seq<nat>)
    requires AllIntegral(ks) && AllIntegral(ls) && |ks| == |ls| && Permutation(p, |ks|)
    requires forall i :: 0 <= i < |ks| ==> Size(ks[i].value) == Size(ls[p[i]].value)
    ensures var kind := D.KindMember(tag);
      Size(Obj([kind, Member(key, Arr(Arranged(ks)))])) == Size(Obj([kind, Member(key, Arr(Arranged(ls)))]))
      && Size(Obj([Member(key, Arr(Arranged(ks))), kind])) == Size(Obj([Member(key, Arr(Arranged(ls))), kind]))
  {
    ArrangedSize(ks, ls, p);
    L.ArrangedIntegral(ks);
    L.ArrangedIntegral(ls);
    KindSize(tag, key, Arr(Arranged(ks)), Arr(Arranged(ls)));
  }

  lemma {:induction false} ListSize(a: Literal, b: Literal)
    requires (a.SeqLit? || a.TupleLit?) && L.LiteralsAlike(a, b)
    ensures Size(L.Canonise(a)) == Size(L.Canonise(b))
    decreases a, 1
  {
    var xs, ys := L.Canonised(a.values), L.Canonised(b.values);
    forall i | 0 <= i < |xs| ensures Integral(xs[i]) && Integral(ys[i]) && Size(xs[i]) == Size(ys[i]) {
      LiteralSize(a.values[i], b.values[i]);
      L.CanoniseIntegral(a.values[i]);
      L.CanoniseIntegral(b.values[i]);
    }
    PlacesSize(xs, ys);
    KindSize(L.LiteralTag(a), D.VALUES, Arr(xs), Arr(ys));
  }

  lemma {:induction false} FieldSize(f: LiteralField, g: LiteralField)
    requires L.AlikeField(f, g)
    ensures Size(L.FieldJson(f)) == Size(L.FieldJson(g)) && Integral(L.FieldJson(f)) && Integral(L.FieldJson(g))
    decreases f, 3
  {
    LiteralSize(f.value, g.value);
    L.CanoniseIntegral(f.value);
    L.CanoniseIntegral(g.value);
    TwoSize(Member(D.NAME, Json.Str(f.name)), Member(D.VALUE, L.Canonise(f.value)),
      Member(D.NAME, Json.Str(g.name)), Member(D.VALUE, L.Canonise(g.value)));
    L.FieldIntegral(f);
    L.FieldIntegral(g);
  }

  lemma {:induction false} RecordSize(a: Literal, b: Literal)
    requires a.RecordLit? && L.LiteralsAlike(a, b)
    ensures Size(L.Canonise(a)) == Size(L.Canonise(b))
    decreases a, 1
  {
    var fs, gs := a.fields, b.fields;
    var ks, ls := L.FieldItems(fs), L.FieldItems(gs);
    L.RecordsAlike(fs, gs);
    var p :| L.FieldsPaired(fs, gs, p);
    forall i | 0 <= i < |fs| ensures Size(ks[i].value) == Size(ls[p[i]].value) {
      assert L.AlikeField(fs[i], gs[p[i]]);
      FieldSize(fs[i], gs[p[i]]);
    }
    forall i | 0 <= i < |fs| ensures Integral(ks[i].value) && Integral(ls[i].value) {
      L.FieldIntegral(fs[i]);
      L.FieldIntegral(gs[i]);
    }
    ListedSize(L.LiteralTag(a), D.FIELDS, ks, ls, p);
  }

  lemma {:induction false} EntrySize(e: LiteralEntry, d: LiteralEntry)
    requires L.AlikeEntry(e, d)
    ensures Size(L.EntryItem(e).value) == Size(L.EntryItem(d).value)
    decreases e, 3
  {
    LiteralSize(e.key, d.key);
    LiteralSize(e.value, d.value);
    L.CanoniseIntegral(e.key);
    L.CanoniseIntegral(e.value);
    L.CanoniseIntegral(d.key);
    L.CanoniseIntegral(d.value);
    TwoSize(Member(D.KEY, L.Canonise(e.key)), Member(D.VALUE, L.Canonise(e.value)),
      Member(D.KEY, L.Canonise(d.key)), Member(D.VALUE, L.Canonise(d.value)));
  }

  lemma {:induction false} MapSize(a: Literal, b: Literal)
    requires a.MapLit? && L.LiteralsAlike(a, b)
    ensures Size(L.Canonise(a)) == Size(L.Canonise(b))
    decreases a, 1
  {
    var es, ds := a.entries, b.entries;
    var ks, ls := L.EntryItems(es), L.EntryItems(ds);
    L.MapsAlike(es, ds);
    var p :| L.EntriesPaired(es, ds, p);
    forall i | 0 <= i < |es| ensures Size(ks[i].value) == Size(ls[p[i]].value) {
      assert L.AlikeEntry(es[i], ds[p[i]]);
      EntrySize(es[i], ds[p[i]]);
    }
    forall i | 0 <= i < |es| ensures Integral(ks[i].value) && Integral(ls[i].value) {
      L.EntryIntegral(es[i]);
      L.EntryIntegral(ds[i]);
    }
    ListedSize(L.LiteralTag(a), D.ENTRIES, ks, ls, p);
  }

  lemma {:induction false} VariantSize(a: Literal, b: Literal)
    requires a.VariantLit? && L.LiteralsAlike(a, b)
    ensures Size(L.Canonise(a)) == Size(L.Canonise(b))
    decreases a, 1
  {
    LiteralSize(a.payload, b.payload);
    L.CanoniseIntegral(a.payload);
    L.CanoniseIntegral(b.payload);
    var kind, tag := D.KindMember(L.LiteralTag(a)), Member(D.TAG, Json.Str(a.tag));
    SameObjects([kind, Member(D.PAYLOAD, L.Canonise(a.payload)), tag], [kind, Member(D.PAYLOAD, L.Canonise(b.payload)), tag], Compress);
  }

  // ----- Descriptors -----

  lemma {:induction false} OneSize(key: Text, x: Json, y: Json)
    requires Integral(x) && Integral(y) && Size(x) == Size(y)
    ensures Size(Obj([Member(key, x)])) == Size(Obj([Member(key, y)])) && Integral(Obj([Member(key, x)])) && Integral(Obj([Member(key, y)]))
  {
    SameObjects([Member(key, x)], [Member(key, y)], Compress);
  }

  lemma {:induction false} KeySize(a: Literal, b: Literal)
    requires L.LiteralsAlike(a, b)
    ensures var s, t := SegmentJson(KeySegment(a)), SegmentJson(KeySegment(b)); Size(s) == Size(t) && Integral(s) && Integral(t)
  {
    LiteralSize(a, b);
    L.CanoniseIntegral(a);
    L.CanoniseIntegral(b);
    OneSize(MAP_KEY, L.Canonise(a), L.Canonise(b));
  }

  lemma {:induction false} SegmentSize(s: Segment, t: Segment)
    requires SegmentAlike(s, t)
    ensures Size(SegmentJson(s)) == Size(SegmentJson(t)) && Integral(SegmentJson(s)) && Integral(SegmentJson(t))
  {
    if s.KeySegment? { KeySize(s.key, t.key); }
  }

  /** The types are equal up to order and repeat no label, so that they have one text. */
  ghost predicate InputShapes(i: Input, j: Input) { D.DistinctType(i.shape) && InputAlike(i, j) }

  lemma {:induction false} PathSize(p: seq<Segment>, q: seq<Segment>)
    requires PathAlike(p, q)
    ensures Size(Arr(PathJson(p))) == Size(Arr(PathJson(q))) && Integral(Arr(PathJson(p))) && Integral(Arr(PathJson(q)))
  {
    var xs, ys := PathJson(p), PathJson(q);
    forall k | 0 <= k < |xs| ensures Integral(xs[k]) && Integral(ys[k]) && Size(xs[k]) == Size(ys[k]) {
      assert SegmentAlike(p[k], q[k]);
      SegmentSize(p[k], q[k]);
    }
    PlacesSize(xs, ys);
  }

  lemma {:induction false} FromSize(i: Input, j: Input)
    requires InputAlike(i, j)
    ensures Size(FromJson(i)) == Size(FromJson(j)) && Integral(FromJson(i)) && Integral(FromJson(j))
  {
    PathSize(i.path, j.path);
    var root := Member(ROOT, Json.Str(RootText(i.root)));
    TwoSize(Member(PATH, Arr(PathJson(i.path))), root, Member(PATH, Arr(PathJson(j.path))), root);
  }

  lemma {:induction false} InputSize(i: Input, j: Input)
    requires InputShapes(i, j)
    ensures Size(InputJson(i)) == Size(InputJson(j))
  {
    FromSize(i, j);
    D.TypeCanonical(i.shape, j.shape);
    TypePrintable(i.shape);
    SameObjects([Member(FROM, FromJson(i)), Member(ID, Json.Str(i.id)), Member(TYPE, D.TypeJson(i.shape))],
      [Member(FROM, FromJson(j)), Member(ID, Json.Str(j.id)), Member(TYPE, D.TypeJson(j.shape))], Compress);
  }

  lemma {:induction false} InputsSize(xs: seq<Input>, ys: seq<Input>)
    requires Rearranged(xs, ys, InputAlike) && forall i :: 0 <= i < |xs| ==> D.DistinctType(xs[i].shape)
    ensures Size(Arr(Arranged(InputItems(xs)))) == Size(Arr(Arranged(InputItems(ys))))
  {
    var ks, ls := InputItems(xs), InputItems(ys);
    var p :| PairedBy(xs, ys, InputAlike, p);
    forall i | 0 <= i < |xs| ensures Size(ks[i].value) == Size(ls[p[i]].value) {
      assert InputAlike(xs[i], ys[p[i]]);
      InputSize(xs[i], ys[p[i]]);
    }
    forall i | 0 <= i < |xs| ensures Integral(ks[i].value) && Integral(ls[i].value) {
      InputPrintable(xs[i]);
      InputPrintable(ys[i]);
    }
    ArrangedSize(ks, ls, p);
  }

  ghost predicate ActionShapes(a: Action) { forall i :: 0 <= i < |a.inputs| ==> D.DistinctType(a.inputs[i].shape) }

  lemma {:induction false} ActionSize(a: Action, b: Action)
    requires ActionAlike(a, b) && ActionShapes(a)
    ensures Size(ActionJson(a)) == Size(ActionJson(b))
  {
    InputsSize(a.inputs, b.inputs);
    TextsArranged(a.aliases, b.aliases);
    SameObjects(ActionMembers(a), ActionMembers(b), Compress);
  }

  lemma {:induction false} ActionsSize(xs: seq<Action>, ys: seq<Action>)
    requires Rearranged(xs, ys, ActionAlike) && forall i :: 0 <= i < |xs| ==> ActionShapes(xs[i])
    ensures Size(Arr(Arranged(ActionItems(xs)))) == Size(Arr(Arranged(ActionItems(ys))))
  {
    var ks, ls := ActionItems(xs), ActionItems(ys);
    var p :| PairedBy(xs, ys, ActionAlike, p);
    forall i | 0 <= i < |xs| ensures Size(ks[i].value) == Size(ls[p[i]].value) {
      assert ActionAlike(xs[i], ys[p[i]]);
      ActionSize(xs[i], ys[p[i]]);
    }
    forall i | 0 <= i < |xs| ensures Integral(ks[i].value) && Integral(ls[i].value) {
      ActionPrintable(xs[i]);
      ActionPrintable(ys[i]);
    }
    ArrangedSize(ks, ls, p);
  }

  ghost predicate Whole(ms: seq<Member>) { forall i :: 0 <= i < |ms| ==> !ms[i].value.Frac? }

  /** One value is replaced by another of the same length. */
  lemma {:induction false} ReplacedSize(ms: seq<Member>, i: nat, m: Member)
    requires Whole(ms) && i < |ms| && m.key == ms[i].key && Size(m.value) == Size(ms[i].value) && !m.value.Frac?
    ensures Size(Obj(ms)) == Size(Obj(ms[i := m])) && Whole(ms[i := m])
  {
    SameObjects(ms, ms[i := m], Compress);
  }

  lemma {:induction false} MembersWhole(d: Descriptor)
    ensures Whole(DescriptorMembers(d)) && |DescriptorMembers(d)| == 9
  {
  }

  /** Apart from its actions and initializers a descriptor's members do not see order. */
  lemma {:induction false} RestSame(d: Descriptor, e: Descriptor)
    requires d.version == e.version && d.model == e.model && Obj(ProfileMembers(d.profile)) == Obj(ProfileMembers(e.profile))
    requires Arranged(ObservationItems(d.observations)) == Arranged(ObservationItems(e.observations))
    ensures DescriptorMembers(e) == DescriptorMembers(d)[0 := ActionsMember(e)][2 := InitializersMember(e)]
  {
    Parts(d);
    Parts(e);
  }

  function ActionsMember(d: Descriptor): Member { Member(ACTIONS, Arr(Arranged(ActionItems(d.actions)))) }

  function InitializersMember(d: Descriptor): Member { Member(INITIALIZERS, Arr(Arranged(ActionItems(d.initializers)))) }

  lemma {:induction false} FirstAndThird(d: Descriptor)
    ensures DescriptorMembers(d)[0] == ActionsMember(d) && DescriptorMembers(d)[2] == InitializersMember(d)
  {
  }

  lemma {:induction false} MembersSize(d: Descriptor, e: Descriptor)
    requires Size(ActionsMember(d).value) == Size(ActionsMember(e).value)
    requires Size(InitializersMember(d).value) == Size(InitializersMember(e).value)
    requires |DescriptorMembers(d)| == 9
    ensures Size(Obj(DescriptorMembers(d))) == Size(Obj(DescriptorMembers(d)[0 := ActionsMember(e)][2 := InitializersMember(e)]))
  {
    var ms := DescriptorMembers(d);
    MembersWhole(d);
    FirstAndThird(d);
    ReplacedSize(ms, 0, ActionsMember(e));
    ReplacedSize(ms[0 := ActionsMember(e)], 2, InitializersMember(e));
  }

  /** Descriptors equal up to order whose types repeat no label and whose observations
      repeat no id have canonical texts of one length. */
  lemma {:induction false} DescriptorSize(d: Descriptor, e: Descriptor)
    requires Alike(d, e) && DistinctObservations(d.observations)
    requires forall i :: 0 <= i < |d.initializers| ==> ActionShapes(d.initializers[i])
    requires forall i :: 0 <= i < |d.actions| ==> ActionShapes(d.actions[i])
    ensures Size(Canonical(d)) == Size(Canonical(e))
  {
    ActionsSize(d.initializers, e.initializers);
    ActionsSize(d.actions, e.actions);
    ObservationsCanonical(d.observations, e.observations);
    ProfileCanonical(d.profile, e.profile);
    RestSame(d, e);
    MembersWhole(d);
    MembersSize(d, e);
  }
}
