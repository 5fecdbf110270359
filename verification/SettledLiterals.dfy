/** Exactly which literals have one canonical JSON in every order. */
module SettledLiterals {
  import opened JsonText
  import opened Permutations
  import opened UnicodeOrder
  import opened ModelTypes
  import opened DescriptorJson
  import opened LiteralJson
  import opened ValueIdentity

  /** Another item in one place shows in the sorted list. */
  lemma {:induction false} OneItemShows(ks: seq<Keyed>, i: nat, l: Keyed)
    requires i < |ks| && ks[i] != l && ValuesName(ks, ks[i := l])
    ensures Arranged(ks) != Arranged(ks[i := l])
  {
    var ls := ks[i := l];
    ArrangedAlike(ks, ls);
    RearrangedIffPaired(ks, ls);
    assert multiset(ls) == multiset(ks) - multiset{ks[i]} + multiset{l};
    assert multiset(ls)[l] == multiset(ks)[l] + 1;
  }

  lemma {:induction false} AlikeSelf(l: Literal)
    ensures AlikeItem(l, l)
  {
    LiteralCanonical(l, l);
  }

  /** A literal that is not settled, with another order that shows. */
  lemma {:induction false} Unsettled(a: Literal) returns (b: Literal)
    requires !Settled(a)
    ensures LiteralsAlike(a, b) && Canonise(a) != Canonise(b)
    decreases a, 1
  {
    match a
    case SetLit(vs) => b := UnsettledSet(vs);
    case SeqLit(vs) => b := UnsettledList(SEQ_TAG, vs);
    case TupleLit(vs) => b := UnsettledList(TUPLE_TAG, vs);
    case RecordLit(fs) => b := UnsettledRecord(fs);
    case MapLit(es) => b := UnsettledMap(es);
    case VariantLit(tag, p) =>
      var w := Unsettled(p);
      b := VariantLit(tag, w);
      VariantLitIs(a, b);
  }

  lemma {:induction false} SetReplaced(vs: seq<Literal>, i: nat, w: Literal)
    requires i < |vs| && AlikeItem(vs[i], w)
    ensures LiteralsAlike(SetLit(vs), SetLit(vs[i := w]))
  {
    var ws := vs[i := w];
    forall k | 0 <= k < |vs| ensures AlikeItem(vs[k], ws[k]) { AlikeSelf(vs[k]); }
    assert ItemsPaired(vs, ws, InPlace(|vs|));
    SetsAlike(vs, ws);
  }

  lemma {:induction false} SetItemShows(vs: seq<Literal>, i: nat, w: Literal)
    requires i < |vs| && Canonise(vs[i]) != Canonise(w)
    ensures Arranged(SetItems(vs)) != Arranged(SetItems(vs[i := w]))
  {
    var l := SetItem(Canonise(w));
    assert SetItems(vs[i := w]) == SetItems(vs)[i := l];
    SetItemsName(vs, vs[i := w]);
    OneItemShows(SetItems(vs), i, l);
  }

  lemma {:induction false} SetShows(vs: seq<Literal>, ws: seq<Literal>)
    requires Arranged(SetItems(vs)) != Arranged(SetItems(ws))
    ensures Canonise(SetLit(vs)) != Canonise(SetLit(ws))
  {
    var kind := KindMember(SET_TAG);
    TwoMembers(kind, Member(VALUES, Arr(Arranged(SetItems(vs)))), kind, Member(VALUES, Arr(Arranged(SetItems(ws)))));
  }

  lemma {:induction false} UnsettledSet(vs: seq<Literal>) returns (b: Literal)
    requires !Settled(SetLit(vs))
    ensures LiteralsAlike(SetLit(vs), b) && Canonise(SetLit(vs)) != Canonise(b)
    decreases vs, 0
  {
    var i :| 0 <= i < |vs| && !Settled(vs[i]);
    var w := Unsettled(vs[i]);
    b := SetLit(vs[i := w]);
    SetReplaced(vs, i, w);
    SetItemShows(vs, i, w);
    SetShows(vs, vs[i := w]);
  }

  lemma {:induction false} UnsettledList(tag: Text, vs: seq<Literal>) returns (b: Literal)
    requires (tag == SEQ_TAG || tag == TUPLE_TAG) && !AllSettled(vs)
    ensures LiteralsAlike(ListLit(tag, vs), b) && Canonise(ListLit(tag, vs)) != Canonise(b)
    decreases vs, 0
  {
    var i :| 0 <= i < |vs| && !Settled(vs[i]);
    var w := Unsettled(vs[i]);
    var ws := vs[i := w];
    b := ListLit(tag, ws);
    forall k | 0 <= k < |vs| ensures LiteralsAlike(vs[k], ws[k]) {
      AlikeSelf(vs[k]);
      assert AlikeItem(vs[k], vs[k]);
    }
    assert Canonised(vs)[i] != Canonised(ws)[i];
    var kind := KindMember(tag);
    TwoMembers(kind, Member(VALUES, Arr(Canonised(vs))), kind, Member(VALUES, Arr(Canonised(ws))));
  }

  // ----- Records -----

  lemma {:induction false} FieldSelf(f: LiteralField)
    ensures AlikeField(f, f)
  {
    AlikeSelf(f.value);
    assert AlikeItem(f.value, f.value);
  }

  lemma {:induction false} RecordShows(fs: seq<LiteralField>, gs: seq<LiteralField>)
    requires Arranged(FieldItems(fs)) != Arranged(FieldItems(gs))
    ensures Canonise(RecordLit(fs)) != Canonise(RecordLit(gs))
  {
    var kind := KindMember(RECORD_TAG);
    TwoMembers(Member(FIELDS, Arr(Arranged(FieldItems(fs)))), kind, Member(FIELDS, Arr(Arranged(FieldItems(gs)))), kind);
  }

  lemma {:induction false} FieldReplaced(fs: seq<LiteralField>, i: nat, g: LiteralField)
    requires i < |fs| && AlikeField(fs[i], g)
    ensures LiteralsAlike(RecordLit(fs), RecordLit(fs[i := g]))
  {
    var gs := fs[i := g];
    forall k | 0 <= k < |fs| ensures AlikeField(fs[k], gs[k]) { FieldSelf(fs[k]); }
    assert FieldsPaired(fs, gs, InPlace(|fs|));
    RecordsAlike(fs, gs);
  }

  lemma {:induction false} FieldShows(fs: seq<LiteralField>, i: nat, g: LiteralField)
    requires i < |fs| && FieldJson(fs[i]) != FieldJson(g)
    ensures Arranged(FieldItems(fs)) != Arranged(FieldItems(fs[i := g]))
  {
    var l := Keyed(g.name, FieldJson(g));
    assert FieldItems(fs[i := g]) == FieldItems(fs)[i := l];
    FieldItemsName(fs, fs[i := g]);
    OneItemShows(FieldItems(fs), i, l);
  }

  lemma {:induction false} UnsettledRecord(fs: seq<LiteralField>) returns (b: Literal)
    requires !Settled(RecordLit(fs))
    ensures LiteralsAlike(RecordLit(fs), b) && Canonise(RecordLit(fs)) != Canonise(b)
    decreases fs, 0
  {
    if Unrepeated(FieldItems(fs)) {
      var i :| 0 <= i < |fs| && !Settled(fs[i].value);
      var w := Unsettled(fs[i].value);
      var g := LiteralField(fs[i].name, w);
      b := RecordLit(fs[i := g]);
      FieldReplaced(fs, i, g);
      FieldJsonIs(fs[i], g);
      FieldShows(fs, i, g);
      RecordShows(fs, fs[i := g]);
    } else {
      b := ReorderedRecord(fs);
    }
  }

  /** Two fields of one name with different values change places. */
  lemma {:induction false} ReorderedRecord(fs: seq<LiteralField>) returns (b: Literal)
    requires !Unrepeated(FieldItems(fs))
    ensures LiteralsAlike(RecordLit(fs), b) && Canonise(RecordLit(fs)) != Canonise(b)
  {
    var items := FieldItems(fs);
    FieldItemsName(fs, fs);
    var ks := OrderShows(items);
    var p := PairingOf(ks, items);
    var gs := seq(|fs|, i requires 0 <= i < |fs| && |p| == |fs| && Permutation(p, |fs|) => fs[p[i]]);
    b := RecordLit(gs);
    assert FieldItems(gs) == ks;
    var q := PairingOf(items, ks);
    forall i | 0 <= i < |fs| ensures AlikeField(fs[i], gs[q[i]]) {
      assert items[i] == ks[q[i]];
      FieldCanonical(fs[i], gs[q[i]]);
    }
    assert FieldsPaired(fs, gs, q);
    RecordsAlike(fs, gs);
    RecordShows(fs, gs);
  }

  // ----- Maps -----

  lemma {:induction false} EntrySelf(e: LiteralEntry)
    ensures AlikeEntry(e, e)
  {
    AlikeSelf(e.key);
    AlikeSelf(e.value);
    assert AlikeItem(e.key, e.key) && AlikeItem(e.value, e.value);
  }

  lemma {:induction false} MapShows(es: seq<LiteralEntry>, ds: seq<LiteralEntry>)
    requires Arranged(EntryItems(es)) != Arranged(EntryItems(ds))
    ensures Canonise(MapLit(es)) != Canonise(MapLit(ds))
  {
    var kind := KindMember(MAP_TAG);
    TwoMembers(Member(ENTRIES, Arr(Arranged(EntryItems(es)))), kind, Member(ENTRIES, Arr(Arranged(EntryItems(ds)))), kind);
  }

  lemma {:induction false} UnsettledEntry(e: LiteralEntry) returns (d: LiteralEntry)
    requires !SettledEntry(e)
    ensures AlikeEntry(e, d) && EntryItem(e) != EntryItem(d)
    decreases e, 2
  {
    EntrySelf(e);
    if !Settled(e.key) {
      var w := Unsettled(e.key);
      d := LiteralEntry(w, e.value);
    } else {
      var w := Unsettled(e.value);
      d := LiteralEntry(e.key, w);
    }
    EntryItemIs(e, d);
  }

  lemma {:induction false} EntryReplaced(es: seq<LiteralEntry>, i: nat, d: LiteralEntry)
    requires i < |es| && AlikeEntry(es[i], d)
    ensures LiteralsAlike(MapLit(es), MapLit(es[i := d]))
  {
    var ds := es[i := d];
    forall k | 0 <= k < |es| ensures AlikeEntry(es[k], ds[k]) { EntrySelf(es[k]); }
    assert EntriesPaired(es, ds, InPlace(|es|));
    MapsAlike(es, ds);
  }

  lemma {:induction false} EntryShows(es: seq<LiteralEntry>, i: nat, d: LiteralEntry)
    requires i < |es| && EntryItem(es[i]) != EntryItem(d)
    ensures Arranged(EntryItems(es)) != Arranged(EntryItems(es[i := d]))
  {
    assert EntryItems(es[i := d]) == EntryItems(es)[i := EntryItem(d)];
    EntryItemsName(es, es[i := d]);
    OneItemShows(EntryItems(es), i, EntryItem(d));
  }

  lemma {:induction false} UnsettledMap(es: seq<LiteralEntry>) returns (b: Literal)
    requires !Settled(MapLit(es))
    ensures LiteralsAlike(MapLit(es), b) && Canonise(MapLit(es)) != Canonise(b)
    decreases es, 0
  {
    if Unrepeated(EntryItems(es)) {
      var i :| 0 <= i < |es| && !SettledEntry(es[i]);
      var d := UnsettledEntry(es[i]);
      b := MapLit(es[i := d]);
      EntryReplaced(es, i, d);
      EntryShows(es, i, d);
      MapShows(es, es[i := d]);
    } else {
      b := ReorderedMap(es);
    }
  }

  /** Two entries of one key with different values change places. */
  lemma {:induction false} ReorderedMap(es: seq<LiteralEntry>) returns (b: Literal)
    requires !Unrepeated(EntryItems(es))
    ensures LiteralsAlike(MapLit(es), b) && Canonise(MapLit(es)) != Canonise(b)
  {
    var items := EntryItems(es);
    EntryItemsName(es, es);
    var ks := OrderShows(items);
    var p := PairingOf(ks, items);
    var ds := seq(|es|, i requires 0 <= i < |es| && |p| == |es| && Permutation(p, |es|) => es[p[i]]);
    b := MapLit(ds);
    assert EntryItems(ds) == ks;
    var q := PairingOf(items, ks);
    forall i | 0 <= i < |es| ensures AlikeEntry(es[i], ds[q[i]]) {
      assert items[i] == ks[q[i]];
      EntryCanonical(es[i], ds[q[i]]);
    }
    assert EntriesPaired(es, ds, q);
    MapsAlike(es, ds);
    MapShows(es, ds);
  }

  /** A literal has one canonical JSON in all its orders exactly if it is settled. */
  lemma {:induction false} OneJsonIffSettled(a: Literal)
    ensures Settled(a) <==> forall b :: LiteralsAlike(a, b) ==> Canonise(a) == Canonise(b)
  {
    if Settled(a) {
      forall b | LiteralsAlike(a, b) ensures Canonise(a) == Canonise(b) { LiteralCanonical(a, b); }
    } else {
      var b := Unsettled(a);
    }
  }
}
