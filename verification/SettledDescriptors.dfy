/** Exactly which descriptors have one canonical text in every order. */
module SettledDescriptors {
  import opened JsonText
  import opened Permutations
  import opened UnicodeOrder
  import opened ModelTypes
  import opened Descriptors
  import opened CanonicalDescriptor
  import opened DescriptorLimits
  import opened KeyDescriptors
  import opened RenderedCost
  import opened Sorting
  import D = DescriptorJson
  import L = LiteralJson
  import SettledLiterals

  /** One element is replaced by a related one. */
  lemma {:induction false} Replaced<T(!new)>(xs: seq<T>, i: nat, y: T, r: (T, T) -> bool)
    requires i < |xs| && r(xs[i], y) && forall k :: 0 <= k < |xs| ==> r(xs[k], xs[k])
    ensures Rearranged(xs, xs[i := y], r)
  {
    var p := InPlace(|xs|);
    assert PairedBy(xs, xs[i := y], r, p);
  }

  lemma {:induction false} Unchanged<T(!new)>(xs: seq<T>, r: (T, T) -> bool)
    requires forall k :: 0 <= k < |xs| ==> r(xs[k], xs[k])
    ensures Rearranged(xs, xs, r)
  {
    var p := InPlace(|xs|);
    assert PairedBy(xs, xs, r, p);
  }

  // ----- Everything is like itself -----

  lemma {:induction false} InputSelf(i: Input)
    ensures InputAlike(i, i)
  {
    InputCanonical(i, i);
  }

  lemma {:induction false} ActionSelf(a: Action)
    ensures ActionAlike(a, a)
  {
    ActionCanonical(a, a);
  }

  lemma {:induction false} ActionsSelf(actions: seq<Action>)
    ensures Rearranged(actions, actions, ActionAlike)
  {
    forall k | 0 <= k < |actions| ensures ActionAlike(actions[k], actions[k]) { ActionSelf(actions[k]); }
    Unchanged(actions, ActionAlike);
  }

  lemma {:induction false} ObservationsSelf(os: seq<Observation>)
    ensures Rearranged(os, os, ObservationAlike)
  {
    forall k | 0 <= k < |os| ensures ObservationAlike(os[k], os[k]) { ObservationCanonical(os[k], os[k]); }
    Unchanged(os, ObservationAlike);
  }

  // ----- A key that is not settled shows -----

  function WithKey(i: Input, k: nat, key: Literal): Input
    requires k < |i.path|
  {
    i.(path := i.path[k := KeySegment(key)])
  }

  lemma {:induction false} KeyShows(a: Literal, b: Literal)
    requires L.Canonise(a) != L.Canonise(b)
    ensures SegmentJson(KeySegment(a)) != SegmentJson(KeySegment(b))
  {
    D.OneMember(Member(MAP_KEY, L.Canonise(a)), Member(MAP_KEY, L.Canonise(b)));
  }

  lemma {:induction false} InputShows(i: Input, k: nat, key: Literal)
    requires k < |i.path| && i.path[k].KeySegment?
    requires L.LiteralsAlike(i.path[k].key, key) && L.Canonise(i.path[k].key) != L.Canonise(key)
    ensures InputAlike(i, WithKey(i, k, key)) && InputJson(i) != InputJson(WithKey(i, k, key))
  {
    var j := WithKey(i, k, key);
    KeyShows(i.path[k].key, key);
    assert PathJson(i.path)[k] != PathJson(j.path)[k];
    InputJsonIs(i, j);
    InputSelf(i);
    forall m | 0 <= m < |i.path| ensures SegmentAlike(i.path[m], j.path[m]) {
      assert SegmentAlike(i.path[m], i.path[m]);
    }
  }

  lemma {:induction false} UnsettledInput(i: Input) returns (j: Input)
    requires !SettledPath(i.path)
    ensures InputAlike(i, j) && InputJson(i) != InputJson(j)
  {
    var k :| 0 <= k < |i.path| && i.path[k].KeySegment? && !L.Settled(i.path[k].key);
    var key := SettledLiterals.Unsettled(i.path[k].key);
    j := WithKey(i, k, key);
    InputShows(i, k, key);
  }

  lemma {:induction false} InputsShow(xs: seq<Input>, k: nat, j: Input)
    requires k < |xs| && InputJson(xs[k]) != InputJson(j)
    ensures Arranged(InputItems(xs)) != Arranged(InputItems(xs[k := j]))
  {
    var l := Keyed(j.id, InputJson(j));
    assert InputItems(xs[k := j]) == InputItems(xs)[k := l];
    InputsName(xs, xs[k := j]);
    SettledLiterals.OneItemShows(InputItems(xs), k, l);
  }

  lemma {:induction false} InputsReplaced(xs: seq<Input>, k: nat, j: Input)
    requires k < |xs| && InputAlike(xs[k], j)
    ensures Rearranged(xs, xs[k := j], InputAlike)
  {
    forall m | 0 <= m < |xs| ensures InputAlike(xs[m], xs[m]) { InputSelf(xs[m]); }
    Replaced(xs, k, j, InputAlike);
  }

  lemma {:induction false} UnsettledAction(a: Action) returns (b: Action)
    requires exists k :: 0 <= k < |a.inputs| && !SettledPath(a.inputs[k].path)
    ensures ActionAlike(a, b) && ActionJson(a) != ActionJson(b)
  {
    var k :| 0 <= k < |a.inputs| && !SettledPath(a.inputs[k].path);
    var j := UnsettledInput(a.inputs[k]);
    b := a.(inputs := a.inputs[k := j]);
    InputsReplaced(a.inputs, k, j);
    InputsShow(a.inputs, k, j);
    ActionJsonIs(a, b);
  }

  lemma {:induction false} ActionsShow(xs: seq<Action>, i: nat, b: Action)
    requires i < |xs| && ActionJson(xs[i]) != ActionJson(b)
    ensures Arranged(ActionItems(xs)) != Arranged(ActionItems(xs[i := b]))
  {
    var l := Keyed(b.id, ActionJson(b));
    assert ActionItems(xs[i := b]) == ActionItems(xs)[i := l];
    ActionsName(xs, xs[i := b]);
    SettledLiterals.OneItemShows(ActionItems(xs), i, l);
  }

  lemma {:induction false} ActionsReplaced(xs: seq<Action>, i: nat, b: Action)
    requires i < |xs| && ActionAlike(xs[i], b)
    ensures Rearranged(xs, xs[i := b], ActionAlike)
  {
    forall m | 0 <= m < |xs| ensures ActionAlike(xs[m], xs[m]) { ActionSelf(xs[m]); }
    Replaced(xs, i, b, ActionAlike);
  }

  lemma {:induction false} UnsettledActions(xs: seq<Action>) returns (ys: seq<Action>)
    requires !KeysSettled(xs)
    ensures Rearranged(xs, ys, ActionAlike) && Arranged(ActionItems(xs)) != Arranged(ActionItems(ys))
  {
    var i, k :| 0 <= i < |xs| && 0 <= k < |xs[i].inputs| && !SettledPath(xs[i].inputs[k].path);
    var b := UnsettledAction(xs[i]);
    ys := xs[i := b];
    ActionsReplaced(xs, i, b);
    ActionsShow(xs, i, b);
  }

  lemma {:induction false} TextsTell(d: Descriptor, e: Descriptor)
    ensures CanonicalText(d) == CanonicalText(e) <==> Canonical(d) == Canonical(e)
  {
    DescriptorPrintable(d);
    DescriptorPrintable(e);
    SameTextSameTree(Canonical(d), Canonical(e), Compress);
  }

  /** A valid descriptor with a key that is not settled, and another with the same parts
      and another text. */
  lemma {:induction false} Unsettled(d: Descriptor) returns (e: Descriptor)
    requires Valid(d) && !SettledKeys(d)
    ensures Valid(e) && Alike(d, e) && CanonicalText(d) != CanonicalText(e)
  {
    if !KeysSettled(d.initializers) {
      var ys := UnsettledActions(d.initializers);
      e := d.(initializers := ys);
      ActionsSelf(d.actions);
    } else {
      var ys := UnsettledActions(d.actions);
      e := d.(actions := ys);
      ActionsSelf(d.initializers);
    }
    ActionsMove(d, e);
    ValidMoved(d, e);
  }

  lemma {:induction false} ActionsMove(d: Descriptor, e: Descriptor)
    requires e == d.(initializers := e.initializers, actions := e.actions)
    requires Rearranged(d.initializers, e.initializers, ActionAlike) && Rearranged(d.actions, e.actions, ActionAlike)
    requires Arranged(ActionItems(d.initializers)) != Arranged(ActionItems(e.initializers))
          || Arranged(ActionItems(d.actions)) != Arranged(ActionItems(e.actions))
    ensures Alike(d, e) && CanonicalText(d) != CanonicalText(e)
  {
    ObservationsSelf(d.observations);
    CanonicalIs(d, e);
    TextsTell(d, e);
  }

  /** A valid descriptor has one canonical text in all its orders, and so one digest,
      exactly if the literals that are map keys in its paths are settled. */
  lemma {:induction false} OneTextIffSettled(d: Descriptor)
    requires Valid(d)
    ensures SettledKeys(d) <==> forall e :: Alike(d, e) ==> CanonicalText(d) == CanonicalText(e)
    ensures SettledKeys(d) <==> forall e :: Valid(e) && Alike(d, e) ==> CanonicalText(d) == CanonicalText(e)
  {
    if SettledKeys(d) {
      forall e | Alike(d, e) ensures CanonicalText(d) == CanonicalText(e) { ValidTextIffAlike(d, e); }
    } else {
      var e := Unsettled(d);
    }
  }

  // ----- A valid descriptor with two texts -----

  /** A map with one key twice. */
  function Twice(first: bool): Literal {
    MapLit([LiteralEntry(NullLit, BoolLit(first)), LiteralEntry(NullLit, BoolLit(!first))])
  }

  lemma {:induction false} TwiceAlike(first: bool)
    ensures L.LiteralsAlike(Twice(first), Twice(!first))
  {
    var es, ds := Twice(first).entries, Twice(!first).entries;
    var p: seq<nat> := [1, 0];
    assert L.EntriesPaired(es, ds, p);
    L.MapsAlike(es, ds);
  }

  lemma {:induction false} TwoStay(a: Keyed, b: Keyed)
    requires a.name == b.name
    ensures Arranged([a, b]) == [a.value, b.value]
  {
    LexReflexive(ByName(a));
    assert [a, b][1..] == [b] && [b][1..] == [];
    assert SortBy([b], ByName) == [b];
    assert SortBy([a, b], ByName) == [a] + [b];
  }

  lemma {:induction false} TwiceList(first: bool)
    ensures var es := Twice(first).entries;
      Arranged(L.EntryItems(es)) == [L.EntryItem(es[0]).value, L.EntryItem(es[1]).value]
  {
    var es := Twice(first).entries;
    L.EntryItemIs(es[0], es[1]);
    assert L.EntryItems(es) == [L.EntryItem(es[0]), L.EntryItem(es[1])];
    TwoStay(L.EntryItem(es[0]), L.EntryItem(es[1]));
  }

  lemma {:induction false} TwiceShows()
    ensures L.Canonise(Twice(true)) != L.Canonise(Twice(false))
  {
    var es, ds := Twice(true).entries, Twice(false).entries;
    TwiceList(true);
    TwiceList(false);
    L.EntryItemIs(es[0], ds[0]);
    L.ScalarCanonical(BoolLit(true), BoolLit(false));
    assert Arranged(L.EntryItems(es))[0] != Arranged(L.EntryItems(ds))[0];
    SettledLiterals.MapShows(es, ds);
  }

  lemma {:induction false} TruthCost(b: bool)
    ensures Cost(Json.Bool(b)) <= 5
  {
    AsciiLength(if b then TRUE else FALSE);
  }

  lemma {:induction false} NullCost()
    ensures Cost(L.Canonise(NullLit)) <= 100
  {
    assert |D.KIND| == 4;
    ObjectCost([D.KindMember(L.LiteralTag(NullLit))], -1, 60, 0);
  }

  lemma {:induction false} BoolCost(first: bool)
    ensures Cost(L.Canonise(BoolLit(first))) <= 200
  {
    assert |D.KIND| == 4 && |D.VALUE| == 5;
    TruthCost(first);
    TwoCost(D.KindMember(L.LiteralTag(BoolLit(first))), Member(D.VALUE, Json.Bool(first)), 90);
  }

  lemma {:induction false} EntryCost(first: bool)
    ensures Cost(L.EntryItem(LiteralEntry(NullLit, BoolLit(first))).value) <= 600
  {
    assert |D.KEY| == 3 && |D.VALUE| == 5;
    NullCost();
    BoolCost(first);
    TwoCost(Member(D.KEY, L.Canonise(NullLit)), Member(D.VALUE, L.Canonise(BoolLit(first))), 290);
  }

  lemma {:induction false} BesideKindCost(key: Text, list: Json, tag: Text)
    requires |key| <= 10 && |tag| <= 10 && Cost(list) <= 1_300
    ensures Cost(Obj([Member(key, list), D.KindMember(tag)])) <= KEY_COST
  {
    assert |D.KIND| == 4;
    ObjectCost([Member(key, list), D.KindMember(tag)], 0, 100, 1_400);
  }

  lemma {:induction false} TwiceListCost(first: bool)
    ensures Cost(Arr(Arranged(L.EntryItems(Twice(first).entries)))) <= 1_300
  {
    EntryCost(first);
    EntryCost(!first);
    TwiceList(first);
    TwoItems(L.EntryItem(LiteralEntry(NullLit, BoolLit(first))).value, L.EntryItem(LiteralEntry(NullLit, BoolLit(!first))).value);
  }

  lemma {:induction false} MapJsonIs(es: seq<LiteralEntry>)
    ensures L.Canonise(MapLit(es)) == Obj([Member(D.ENTRIES, Arr(Arranged(L.EntryItems(es)))), D.KindMember(L.LiteralTag(MapLit(es)))])
    ensures |D.ENTRIES| == 7 && |L.LiteralTag(MapLit(es))| == 3
  {
  }

  lemma {:induction false} TwiceCost(first: bool)
    ensures Cost(L.Canonise(Twice(first))) <= KEY_COST
  {
    TwiceListCost(first);
    MapJsonIs(Twice(first).entries);
    BesideKindCost(D.ENTRIES, Arr(Arranged(L.EntryItems(Twice(first).entries))), L.LiteralTag(Twice(first)));
  }

  lemma {:induction false} TwiceValid(first: bool)
    ensures ValidLiteral(Twice(first), MAX_LITERAL_DEPTH)
  {
    var es := Twice(first).entries;
    assert ValidLiteral(es[0].key, 127) && ValidLiteral(es[1].key, 127);
    assert ValidLiteral(es[0].value, 127) && ValidLiteral(es[1].value, 127);
  }

  lemma {:induction false} TwiceDescriptor(first: bool)
    ensures Valid(KeyDescriptor(Twice(first)))
  {
    TwiceCost(first);
    TwiceValid(first);
    KeyDescriptorValid(Twice(first));
  }

  /** Another key in the one place for it shows. */
  lemma {:induction false} KeyDescriptorShows(a: Literal, b: Literal)
    requires L.LiteralsAlike(a, b) && L.Canonise(a) != L.Canonise(b)
    ensures ActionAlike(KeyAction(a), KeyAction(b)) && ActionJson(KeyAction(a)) != ActionJson(KeyAction(b))
  {
    var i, j := KeyInput(a), KeyInput(b);
    InputShows(i, 0, b);
    assert WithKey(i, 0, b) == j;
    InputsReplaced([i], 0, j);
    InputsShow([i], 0, j);
    assert [i][0 := j] == [j];
    ActionJsonIs(KeyAction(a), KeyAction(b));
  }

  lemma {:induction false} KeyActionsShow(a: Literal, b: Literal)
    requires L.LiteralsAlike(a, b) && L.Canonise(a) != L.Canonise(b)
    ensures Rearranged([KeyAction(a)], [KeyAction(b)], ActionAlike)
    ensures Arranged(ActionItems([KeyAction(a)])) != Arranged(ActionItems([KeyAction(b)]))
  {
    KeyDescriptorShows(a, b);
    ActionsReplaced([KeyAction(a)], 0, KeyAction(b));
    ActionsShow([KeyAction(a)], 0, KeyAction(b));
    assert [KeyAction(a)][0 := KeyAction(b)] == [KeyAction(b)];
  }

  lemma {:induction false} KeyTextsDiffer(a: Literal, b: Literal)
    requires L.LiteralsAlike(a, b) && L.Canonise(a) != L.Canonise(b)
    ensures Alike(KeyDescriptor(a), KeyDescriptor(b)) && CanonicalText(KeyDescriptor(a)) != CanonicalText(KeyDescriptor(b))
  {
    var d, e := KeyDescriptor(a), KeyDescriptor(b);
    KeyActionsShow(a, b);
    ActionsSelf(d.actions);
    ActionsMove(d, e);
  }

  /** Two valid descriptors that differ only in the order of two entries of one key,
      and have different texts. */
  lemma {:induction false} TwoTexts()
    ensures var d, e := KeyDescriptor(Twice(true)), KeyDescriptor(Twice(false));
      Valid(d) && Valid(e) && Alike(d, e) && CanonicalText(d) != CanonicalText(e)
  {
    TwiceDescriptor(true);
    TwiceDescriptor(false);
    TwiceAlike(true);
    TwiceShows();
    KeyTextsDiffer(Twice(true), Twice(false));
  }
}
