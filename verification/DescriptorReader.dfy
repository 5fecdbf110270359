/** The limits a decoded descriptor is held to, and why they see no order. */
module DescriptorLimits {
  import opened Wrappers
  import opened JsonText
  import opened Sorting
  import opened Permutations
  import opened UnicodeOrder
  import opened ModelTypes
  import opened Descriptors
  import opened CanonicalDescriptor
  import CanonicalLength
  import D = DescriptorJson
  import L = LiteralJson
  import V = ValueOrder
  import StrictJson
  import P = StrictJsonRoundTrip

  const MAX_TYPE_DEPTH := 32
  const MAX_TYPE_NODES := 8_192
  const MAX_LITERAL_DEPTH := 128
  const MAX_DESCRIPTOR_BYTES := 32_768

  predicate ShortText(s: Text) { P.Paired(s) && StrictJson.Utf8Length(s) <= 256 }

  predicate Upper(u: CodeUnit) { 0x41 <= u <= 0x5A }

  predicate Letter(u: CodeUnit) { Upper(u) || 0x61 <= u <= 0x7A }

  /** An upper-case ASCII letter, then letters and digits. */
  predicate StableId(s: Text) {
    s != [] && Upper(s[0]) && forall i :: 1 <= i < |s| ==> Letter(s[i]) || Digit(s[i])
  }

  predicate ModuleName(s: Text) {
    s != [] && (Letter(s[0]) || s[0] == 0x5F) && forall i :: 1 <= i < |s| ==> Letter(s[i]) || Digit(s[i]) || s[i] == 0x5F
  }

  /** Digits, a point, digits, a point, digits. */
  predicate InterfaceVersion(s: Text) {
    var a := DigitSpan(s);
    a > 0 && a < |s| && s[a] == 0x2E
    && var r := s[a + 1..];
    var b := DigitSpan(r);
    b > 0 && b < |r| && r[b] == 0x2E && var q := r[b + 1..]; q != [] && DigitSpan(q) == |q|
  }

  /** A decimal integer without needless zeros; minus zero is allowed. */
  predicate DecimalText(s: Text) {
    var d := if s != [] && s[0] == MINUS then s[1..] else s;
    d != [] && DigitSpan(d) == |d| && (d[0] == 0x30 ==> |d| == 1)
  }

  // ----- Types -----

  ghost predicate ValidLabels(ls: seq<Labelled>) {
    D.DistinctLabels(ls) && forall i :: 0 <= i < |ls| ==> ValidName(ls[i])
  }

  ghost predicate ValidName(l: Labelled) { l.name != [] && ShortText(l.name) }

  ghost predicate ValidType(t: ModelType, room: int)
    decreases t
  {
    room > 0 && match t
      case SetType(e) => ValidType(e, room - 1)
      case SeqType(e) => ValidType(e, room - 1)
      case TupleType(es) => forall i :: 0 <= i < |es| ==> ValidType(es[i], room - 1)
      case RecordType(fs) => ValidLabels(fs) && forall i :: 0 <= i < |fs| ==> ValidType(fs[i].inner, room - 1)
      case MapType(k, v) => ValidType(k, room - 1) && ValidType(v, room - 1)
      case VariantType(cs) => ValidLabels(cs) && forall i :: 0 <= i < |cs| ==> ValidType(cs[i].inner, room - 1)
      case OpaqueType(d) => d != [] && ShortText(d)
      case _ => true
  }

  function TypeNodes(t: ModelType): nat
    decreases t, 1
  {
    match t
    case SetType(e) => 1 + TypeNodes(e)
    case SeqType(e) => 1 + TypeNodes(e)
    case TupleType(es) => 1 + V.Sum(NodesEach(es))
    case RecordType(fs) => 1 + V.Sum(LabelNodes(fs))
    case MapType(k, v) => 1 + TypeNodes(k) + TypeNodes(v)
    case VariantType(cs) => 1 + V.Sum(LabelNodes(cs))
    case _ => 1
  }

  function NodesEach(es: seq<ModelType>): (r: seq<nat>)
    ensures |r| == |es| && forall i :: 0 <= i < |r| ==> r[i] == TypeNodes(es[i])
    decreases es, 0
  {
    seq(|es|, i requires 0 <= i < |es| => TypeNodes(es[i]))
  }

  function NodesIn(l: Labelled): nat
    decreases l, 2
  {
    TypeNodes(l.inner)
  }

  function LabelNodes(ls: seq<Labelled>): (r: seq<nat>)
    ensures |r| == |ls| && forall i :: 0 <= i < |r| ==> r[i] == NodesIn(ls[i])
    decreases ls, 0
  {
    seq(|ls|, i requires 0 <= i < |ls| => NodesIn(ls[i]))
  }

  lemma {:induction false} LabelsMoved(ls: seq<Labelled>, ms: seq<Labelled>, p: seq<nat>)
    requires D.LabelsPaired(ls, ms, p) && ValidLabels(ls)
    ensures ValidLabels(ms)
  {
    forall j | 0 <= j < |ms| ensures ValidName(ms[j]) {
      var i := V.PermutationOnto(p, |ls|, j);
      assert D.AlikeLabel(ls[i], ms[p[i]]) && ValidName(ls[i]);
    }
    forall i, j | 0 <= i < j < |ms| ensures ms[i].name != ms[j].name {
      var x := V.PermutationOnto(p, |ls|, i);
      var y := V.PermutationOnto(p, |ls|, j);
      assert D.AlikeLabel(ls[x], ms[p[x]]) && D.AlikeLabel(ls[y], ms[p[y]]) && x != y;
    }
  }

  lemma {:induction false} TypeMoved(a: ModelType, b: ModelType, room: int)
    requires D.TypesAlike(a, b) && ValidType(a, room)
    ensures ValidType(b, room)
    decreases a, 1
  {
    match a
    case SetType(e) => TypeMoved(e, b.element, room - 1);
    case SeqType(e) => TypeMoved(e, b.element, room - 1);
    case TupleType(es) =>
      forall i | 0 <= i < |es| ensures ValidType(b.elements[i], room - 1) { TypeMoved(es[i], b.elements[i], room - 1); }
    case RecordType(fs) =>
      D.LabelsAlike(fs, b.fields);
      LabelTypesMoved(fs, b.fields, room - 1);
    case MapType(k, v) =>
      TypeMoved(k, b.key, room - 1);
      TypeMoved(v, b.value, room - 1);
    case VariantType(cs) =>
      D.LabelsAlike(cs, b.cases);
      LabelTypesMoved(cs, b.cases, room - 1);
    case _ =>
  }

  lemma {:induction false} LabelTypesMoved(ls: seq<Labelled>, ms: seq<Labelled>, room: int)
    requires (exists p :: D.LabelsPaired(ls, ms, p)) && ValidLabels(ls)
    requires forall i :: 0 <= i < |ls| ==> ValidType(ls[i].inner, room)
    ensures ValidLabels(ms) && forall i :: 0 <= i < |ms| ==> ValidType(ms[i].inner, room)
    decreases ls, 0
  {
    var p :| D.LabelsPaired(ls, ms, p);
    LabelsMoved(ls, ms, p);
    forall j | 0 <= j < |ms| ensures ValidType(ms[j].inner, room) {
      var i := V.PermutationOnto(p, |ls|, j);
      assert D.AlikeLabel(ls[i], ms[p[i]]);
      LabelMoved(ls[i], ms[j], room);
    }
  }

  lemma {:induction false} LabelMoved(l: Labelled, m: Labelled, room: int)
    requires D.AlikeLabel(l, m) && ValidType(l.inner, room)
    ensures ValidType(m.inner, room)
    decreases l, 2
  {
    TypeMoved(l.inner, m.inner, room);
  }

  lemma {:induction false} NodesMoved(a: ModelType, b: ModelType)
    requires D.TypesAlike(a, b)
    ensures TypeNodes(a) == TypeNodes(b)
    decreases a, 1
  {
    match a
    case SetType(e) => NodesMoved(e, b.element);
    case SeqType(e) => NodesMoved(e, b.element);
    case TupleType(es) => TupleNodesMoved(es, b.elements);
    case RecordType(_) => RecordNodesMoved(a, b);
    case MapType(k, v) =>
      NodesMoved(k, b.key);
      NodesMoved(v, b.value);
    case VariantType(_) => VariantNodesMoved(a, b);
    case _ =>
  }

  lemma {:induction false} RecordNodesMoved(a: ModelType, b: ModelType)
    requires a.RecordType? && D.TypesAlike(a, b)
    ensures TypeNodes(a) == TypeNodes(b)
    decreases a, 0
  {
    D.LabelsAlike(a.fields, b.fields);
    LabelNodesMoved(a.fields, b.fields);
  }

  lemma {:induction false} VariantNodesMoved(a: ModelType, b: ModelType)
    requires a.VariantType? && D.TypesAlike(a, b)
    ensures TypeNodes(a) == TypeNodes(b)
    decreases a, 0
  {
    D.LabelsAlike(a.cases, b.cases);
    LabelNodesMoved(a.cases, b.cases);
  }

  lemma {:induction false} TupleNodesMoved(es: seq<ModelType>, gs: seq<ModelType>)
    requires D.AllAlike(es, gs)
    ensures NodesEach(es) == NodesEach(gs)
    decreases es, 0
  {
    forall i | 0 <= i < |es| ensures NodesEach(es)[i] == NodesEach(gs)[i] { NodesMoved(es[i], gs[i]); }
  }

  lemma {:induction false} LabelNodesMoved(ls: seq<Labelled>, ms: seq<Labelled>)
    requires exists p :: D.LabelsPaired(ls, ms, p)
    ensures V.Sum(LabelNodes(ls)) == V.Sum(LabelNodes(ms))
    decreases ls, 0
  {
    var p :| D.LabelsPaired(ls, ms, p);
    forall i | 0 <= i < |ls| ensures LabelNodes(ls)[i] == LabelNodes(ms)[p[i]] {
      NodesInMoved(ls[i], ms[p[i]]);
    }
    V.SumPaired(LabelNodes(ls), LabelNodes(ms), p);
  }

  lemma {:induction false} NodesInMoved(l: Labelled, m: Labelled)
    requires D.AlikeLabel(l, m)
    ensures NodesIn(l) == NodesIn(m)
    decreases l, 2
  {
    NodesMoved(l.inner, m.inner);
  }

  lemma {:induction false} ValidTypeDistinct(t: ModelType, room: int)
    requires ValidType(t, room)
    ensures D.DistinctType(t)
    decreases t
  {
    match t
    case SetType(e) => ValidTypeDistinct(e, room - 1);
    case SeqType(e) => ValidTypeDistinct(e, room - 1);
    case TupleType(es) => forall i | 0 <= i < |es| ensures D.DistinctType(es[i]) { ValidTypeDistinct(es[i], room - 1); }
    case RecordType(fs) => forall i | 0 <= i < |fs| ensures D.DistinctType(fs[i].inner) { ValidTypeDistinct(fs[i].inner, room - 1); }
    case MapType(k, v) =>
      ValidTypeDistinct(k, room - 1);
      ValidTypeDistinct(v, room - 1);
    case VariantType(cs) => forall i | 0 <= i < |cs| ensures D.DistinctType(cs[i].inner) { ValidTypeDistinct(cs[i].inner, room - 1); }
    case _ =>
  }

  // ----- Literals -----

  predicate ValidLiteral(l: Literal, room: int)
    decreases l
  {
    room > 0 && match l
      case IntLit(t) => DecimalText(t)
      case StrLit(s) => P.Paired(s)
      case SetLit(vs) => forall i :: 0 <= i < |vs| ==> ValidLiteral(vs[i], room - 1)
      case SeqLit(vs) => forall i :: 0 <= i < |vs| ==> ValidLiteral(vs[i], room - 1)
      case TupleLit(vs) => forall i :: 0 <= i < |vs| ==> ValidLiteral(vs[i], room - 1)
      case RecordLit(fs) => forall i :: 0 <= i < |fs| ==> P.Paired(fs[i].name) && ValidLiteral(fs[i].value, room - 1)
      case MapLit(es) => forall i :: 0 <= i < |es| ==> ValidLiteral(es[i].key, room - 1) && ValidLiteral(es[i].value, room - 1)
      case VariantLit(tag, p) => P.Paired(tag) && ValidLiteral(p, room - 1)
      case _ => true
  }

  lemma {:induction false} LiteralMoved(a: Literal, b: Literal, room: int)
    requires L.LiteralsAlike(a, b) && ValidLiteral(a, room)
    ensures ValidLiteral(b, room)
    decreases a
  {
    match a
    case SetLit(xs) =>
      L.SetsAlike(xs, b.values);
      var p :| L.ItemsPaired(xs, b.values, p);
      forall j | 0 <= j < |xs| ensures ValidLiteral(b.values[j], room - 1) {
        var i := V.PermutationOnto(p, |xs|, j);
        assert L.AlikeItem(xs[i], b.values[p[i]]);
        LiteralMoved(xs[i], b.values[j], room - 1);
      }
    case SeqLit(xs) => forall i | 0 <= i < |xs| ensures ValidLiteral(b.values[i], room - 1) { LiteralMoved(xs[i], b.values[i], room - 1); }
    case TupleLit(xs) => forall i | 0 <= i < |xs| ensures ValidLiteral(b.values[i], room - 1) { LiteralMoved(xs[i], b.values[i], room - 1); }
    case RecordLit(fs) =>
      L.RecordsAlike(fs, b.fields);
      var p :| L.FieldsPaired(fs, b.fields, p);
      forall j | 0 <= j < |fs| ensures P.Paired(b.fields[j].name) && ValidLiteral(b.fields[j].value, room - 1) {
        var i := V.PermutationOnto(p, |fs|, j);
        assert L.AlikeField(fs[i], b.fields[p[i]]);
        LiteralMoved(fs[i].value, b.fields[j].value, room - 1);
      }
    case MapLit(es) =>
      L.MapsAlike(es, b.entries);
      var p :| L.EntriesPaired(es, b.entries, p);
      forall j | 0 <= j < |es| ensures ValidLiteral(b.entries[j].key, room - 1) && ValidLiteral(b.entries[j].value, room - 1) {
        var i := V.PermutationOnto(p, |es|, j);
        assert L.AlikeEntry(es[i], b.entries[p[i]]);
        LiteralMoved(es[i].key, b.entries[j].key, room - 1);
        LiteralMoved(es[i].value, b.entries[j].value, room - 1);
      }
    case VariantLit(_, p) => LiteralMoved(p, b.payload, room - 1);
    case _ =>
  }

  // ----- Inputs -----

  predicate ValidSegment(s: Segment) {
    match s
    case FieldSegment(name) => ShortText(name)
    case IndexSegment(index) => index <= StrictJson.MAX_SAFE_INTEGER
    case KeySegment(key) => ValidLiteral(key, MAX_LITERAL_DEPTH)
    case CaseSegment(tag) => ShortText(tag)
  }

  ghost predicate ValidInput(i: Input, phase: Phase) {
    && StableId(i.id) && ShortText(i.id) && i.root == phase && |i.path| <= 32
    && (forall k :: 0 <= k < |i.path| ==> ValidSegment(i.path[k])) && ValidType(i.shape, MAX_TYPE_DEPTH)
  }

  lemma {:induction false} InputMoved(i: Input, j: Input, phase: Phase)
    requires InputAlike(i, j) && ValidInput(i, phase)
    ensures ValidInput(j, phase) && TypeNodes(i.shape) == TypeNodes(j.shape)
  {
    forall k | 0 <= k < |j.path| ensures ValidSegment(j.path[k]) {
      assert SegmentAlike(i.path[k], j.path[k]) && ValidSegment(i.path[k]);
      if i.path[k].KeySegment? { LiteralMoved(i.path[k].key, j.path[k].key, MAX_LITERAL_DEPTH); }
    }
    TypeMoved(i.shape, j.shape, MAX_TYPE_DEPTH);
    NodesMoved(i.shape, j.shape);
  }

  /** Distinct ids survive rearrangement, for any kind of element. */
  lemma {:induction false} IdsMoved<T(!new)>(xs: seq<T>, ys: seq<T>, r: (T, T) -> bool, id: T -> Text, p: seq<nat>)
    requires PairedBy(xs, ys, r, p)
    requires forall i, j :: 0 <= i < |xs| && 0 <= j < |ys| && r(xs[i], ys[j]) ==> id(xs[i]) == id(ys[j])
    requires forall i, j :: 0 <= i < j < |xs| ==> id(xs[i]) != id(xs[j])
    ensures forall i, j :: 0 <= i < j < |ys| ==> id(ys[i]) != id(ys[j])
  {
    forall i, j | 0 <= i < j < |ys| ensures id(ys[i]) != id(ys[j]) {
      var x := V.PermutationOnto(p, |xs|, i);
      var y := V.PermutationOnto(p, |xs|, j);
      assert r(xs[x], ys[p[x]]) && r(xs[y], ys[p[y]]) && x != y;
    }
  }

  // ----- Actions -----

  ghost predicate DistinctTexts(ts: seq<Text>) {
    forall i, j :: 0 <= i < j < |ts| ==> ts[i] != ts[j]
  }

  ghost predicate InputIds(inputs: seq<Input>) {
    forall i, j :: 0 <= i < j < |inputs| ==> inputs[i].id != inputs[j].id
  }

  ghost predicate ValidAction(a: Action, phase: Phase) {
    && a.phase == phase && StableId(a.id) && ShortText(a.id) && a.wireAction != [] && ShortText(a.wireAction)
    && |a.aliases| <= 16 && (forall i :: 0 <= i < |a.aliases| ==> ShortText(a.aliases[i]))
    && DistinctTexts(a.aliases) && a.wireAction !in a.aliases
    && |a.inputs| <= 128 && (forall i :: 0 <= i < |a.inputs| ==> ValidInput(a.inputs[i], phase)) && InputIds(a.inputs)
  }

  function InputNodes(inputs: seq<Input>): (r: seq<nat>)
    ensures |r| == |inputs| && forall i :: 0 <= i < |r| ==> r[i] == TypeNodes(inputs[i].shape)
  {
    seq(|inputs|, i requires 0 <= i < |inputs| => TypeNodes(inputs[i].shape))
  }

  function ActionNodes(a: Action): nat { V.Sum(InputNodes(a.inputs)) }

  lemma {:induction false} TextsMoved(xs: seq<Text>, ys: seq<Text>)
    requires multiset(xs) == multiset(ys)
    ensures |xs| == |ys| && (forall t :: t in xs <==> t in ys)
    ensures DistinctTexts(xs) ==> DistinctTexts(ys)
  {
    forall t ensures t in xs <==> t in ys {
      assert t in xs <==> t in multiset(xs);
      assert t in ys <==> t in multiset(ys);
    }
    assert |multiset(xs)| == |xs| && |multiset(ys)| == |ys|;
    if DistinctTexts(xs) {
      var p := PairingOf(xs, ys);
      forall i, j | 0 <= i < j < |ys| ensures ys[i] != ys[j] {
        var x := V.PermutationOnto(p, |xs|, i);
        var y := V.PermutationOnto(p, |xs|, j);
        assert xs[x] == ys[i] && xs[y] == ys[j] && x != y;
      }
    }
  }

  lemma {:induction false} InputsMoved(xs: seq<Input>, ys: seq<Input>, phase: Phase)
    requires Rearranged(xs, ys, InputAlike) && InputIds(xs) && forall i :: 0 <= i < |xs| ==> ValidInput(xs[i], phase)
    ensures |xs| == |ys| && InputIds(ys) && forall i :: 0 <= i < |ys| ==> ValidInput(ys[i], phase)
    ensures V.Sum(InputNodes(xs)) == V.Sum(InputNodes(ys))
  {
    var p :| PairedBy(xs, ys, InputAlike, p);
    forall j | 0 <= j < |ys| ensures ValidInput(ys[j], phase) {
      var i := V.PermutationOnto(p, |xs|, j);
      assert InputAlike(xs[i], ys[p[i]]);
      InputMoved(xs[i], ys[j], phase);
    }
    IdsMoved(xs, ys, InputAlike, (i: Input) => i.id, p);
    forall i | 0 <= i < |xs| ensures InputNodes(xs)[i] == InputNodes(ys)[p[i]] {
      assert InputAlike(xs[i], ys[p[i]]);
      InputMoved(xs[i], ys[p[i]], phase);
    }
    V.SumPaired(InputNodes(xs), InputNodes(ys), p);
  }

  lemma {:induction false} ActionMoved(a: Action, b: Action, phase: Phase)
    requires ActionAlike(a, b) && ValidAction(a, phase)
    ensures ValidAction(b, phase) && ActionNodes(a) == ActionNodes(b)
  {
    TextsMoved(a.aliases, b.aliases);
    InputsMoved(a.inputs, b.inputs, phase);
    forall i | 0 <= i < |b.aliases| ensures ShortText(b.aliases[i]) {
      assert b.aliases[i] in a.aliases;
    }
  }

  ghost predicate Labels(a: Action, t: Text) { t == a.wireAction || t in a.aliases }

  /** No id and no wire label is shared. */
  ghost predicate Apart(a: Action, b: Action) {
    a.id != b.id && forall t :: Labels(a, t) ==> !Labels(b, t)
  }

  ghost predicate AllApart(actions: seq<Action>) {
    forall i, j :: 0 <= i < j < |actions| ==> Apart(actions[i], actions[j])
  }

  ghost predicate ApartFrom(xs: seq<Action>, ys: seq<Action>) {
    forall i, j :: 0 <= i < |xs| && 0 <= j < |ys| ==> Apart(xs[i], ys[j])
  }

  ghost predicate ValidActions(actions: seq<Action>, phase: Phase) {
    AllApart(actions) && forall i :: 0 <= i < |actions| ==> ValidAction(actions[i], phase)
  }

  function NodesOf(actions: seq<Action>): (r: seq<nat>)
    ensures |r| == |actions| && forall i :: 0 <= i < |r| ==> r[i] == ActionNodes(actions[i])
  {
    seq(|actions|, i requires 0 <= i < |actions| => ActionNodes(actions[i]))
  }

  lemma {:induction false} ApartMoved(a: Action, b: Action, c: Action, d: Action)
    requires ActionAlike(a, c) && ActionAlike(b, d) && Apart(a, b)
    ensures Apart(c, d) && Apart(d, c)
  {
    TextsMoved(a.aliases, c.aliases);
    TextsMoved(b.aliases, d.aliases);
    forall t | Labels(c, t) ensures !Labels(d, t) {
      assert Labels(a, t);
      assert !Labels(b, t);
    }
    forall t | Labels(d, t) ensures !Labels(c, t) {
      assert Labels(b, t);
      assert !Labels(a, t);
    }
  }

  lemma {:induction false} ActionsMoved(xs: seq<Action>, ys: seq<Action>, phase: Phase)
    requires Rearranged(xs, ys, ActionAlike) && ValidActions(xs, phase)
    ensures |xs| == |ys| && ValidActions(ys, phase) && V.Sum(NodesOf(xs)) == V.Sum(NodesOf(ys))
  {
    var p :| PairedBy(xs, ys, ActionAlike, p);
    forall j | 0 <= j < |ys| ensures ValidAction(ys[j], phase) {
      var i := V.PermutationOnto(p, |xs|, j);
      assert ActionAlike(xs[i], ys[p[i]]);
      ActionMoved(xs[i], ys[j], phase);
    }
    forall i, j | 0 <= i < j < |ys| ensures Apart(ys[i], ys[j]) {
      var x := V.PermutationOnto(p, |xs|, i);
      var y := V.PermutationOnto(p, |xs|, j);
      assert ActionAlike(xs[x], ys[p[x]]) && ActionAlike(xs[y], ys[p[y]]);
      if x < y { ApartMoved(xs[x], xs[y], ys[i], ys[j]); } else { ApartMoved(xs[y], xs[x], ys[j], ys[i]); }
    }
    forall i | 0 <= i < |xs| ensures NodesOf(xs)[i] == NodesOf(ys)[p[i]] {
      assert ActionAlike(xs[i], ys[p[i]]);
      ActionMoved(xs[i], ys[p[i]], phase);
    }
    V.SumPaired(NodesOf(xs), NodesOf(ys), p);
  }

  lemma {:induction false} ApartFromMoved(xs: seq<Action>, ys: seq<Action>, us: seq<Action>, ws: seq<Action>)
    requires Rearranged(xs, us, ActionAlike) && Rearranged(ys, ws, ActionAlike) && ApartFrom(xs, ys)
    ensures ApartFrom(us, ws)
  {
    var p :| PairedBy(xs, us, ActionAlike, p);
    var q :| PairedBy(ys, ws, ActionAlike, q);
    forall i, j | 0 <= i < |us| && 0 <= j < |ws| ensures Apart(us[i], ws[j]) {
      var x := V.PermutationOnto(p, |xs|, i);
      var y := V.PermutationOnto(q, |ys|, j);
      assert ActionAlike(xs[x], us[p[x]]) && ActionAlike(ys[y], ws[q[y]]);
      ApartMoved(xs[x], ys[y], us[i], ws[j]);
    }
  }

  // ----- Observations -----

  ghost predicate ValidObservation(o: Observation) {
    && StableId(o.id) && ShortText(o.id) && o.wireName != [] && ShortText(o.wireName) && ValidType(o.shape, MAX_TYPE_DEPTH)
  }

  ghost predicate ValidObservations(os: seq<Observation>) {
    && (forall i :: 0 <= i < |os| ==> ValidObservation(os[i]))
    && (forall i, j :: 0 <= i < j < |os| ==> os[i].id != os[j].id)
    && (forall i, j :: 0 <= i < j < |os| ==> os[i].wireName != os[j].wireName)
  }

  function ObservationNodes(os: seq<Observation>): (r: seq<nat>)
    ensures |r| == |os| && forall i :: 0 <= i < |r| ==> r[i] == TypeNodes(os[i].shape)
  {
    seq(|os|, i requires 0 <= i < |os| => TypeNodes(os[i].shape))
  }

  lemma {:induction false} ObservationsMoved(xs: seq<Observation>, ys: seq<Observation>)
    requires Rearranged(xs, ys, ObservationAlike) && ValidObservations(xs)
    ensures |xs| == |ys| && ValidObservations(ys) && V.Sum(ObservationNodes(xs)) == V.Sum(ObservationNodes(ys))
  {
    var p :| PairedBy(xs, ys, ObservationAlike, p);
    forall j | 0 <= j < |ys| ensures ValidObservation(ys[j]) {
      var i := V.PermutationOnto(p, |xs|, j);
      assert ObservationAlike(xs[i], ys[p[i]]);
      TypeMoved(xs[i].shape, ys[j].shape, MAX_TYPE_DEPTH);
    }
    IdsMoved(xs, ys, ObservationAlike, (o: Observation) => o.id, p);
    IdsMoved(xs, ys, ObservationAlike, (o: Observation) => o.wireName, p);
    forall i | 0 <= i < |xs| ensures ObservationNodes(xs)[i] == ObservationNodes(ys)[p[i]] {
      assert ObservationAlike(xs[i], ys[p[i]]);
      NodesMoved(xs[i].shape, ys[p[i]].shape);
    }
    V.SumPaired(ObservationNodes(xs), ObservationNodes(ys), p);
  }

  // ----- Profiles and descriptors -----

  /** Strictly ascending by code points. */
  ghost predicate Ascending(ts: seq<Text>) {
    forall i, j :: 0 <= i < j < |ts| ==> LexLess(Points(ts[i]), Points(ts[j]))
  }

  ghost predicate Effective(p: Profile) {
    Ascending(p.effectiveVars)
    && forall t :: t in p.effectiveVars <==> t in p.itfVars || p.configured == Some(t)
  }

  ghost predicate ValidProfile(p: Profile) {
    && (p.configured.Some? ==> P.Paired(p.configured.value))
    && (forall i :: 0 <= i < |p.itfVars| ==> P.Paired(p.itfVars[i])) && DistinctTexts(p.itfVars) && Effective(p)
  }

  lemma {:induction false} ProfileMoved(p: Profile, q: Profile)
    requires ProfileAlike(p, q) && ValidProfile(p) && q.effectiveVars == p.effectiveVars
    ensures ValidProfile(q)
  {
    TextsMoved(p.itfVars, q.itfVars);
    forall i | 0 <= i < |q.itfVars| ensures P.Paired(q.itfVars[i]) { assert q.itfVars[i] in p.itfVars; }
  }

  function TotalNodes(d: Descriptor): nat {
    V.Sum(NodesOf(d.initializers)) + V.Sum(NodesOf(d.actions)) + V.Sum(ObservationNodes(d.observations))
  }

  ghost predicate ValidHeader(d: Descriptor) {
    && ShortText(d.version) && InterfaceVersion(d.version) && ShortText(d.model) && ModuleName(d.model)
    && 1 <= |d.initializers| <= 32 && |d.actions| <= 256 && |d.observations| <= 1_024
  }

  ghost predicate ValidBehaviour(initializers: seq<Action>, actions: seq<Action>) {
    ValidActions(initializers, Initialize) && ValidActions(actions, Transition) && ApartFrom(initializers, actions)
  }

  /** Everything the decoder checks of a descriptor. */
  ghost predicate Valid(d: Descriptor) {
    && ValidHeader(d) && ValidProfile(d.profile) && ValidBehaviour(d.initializers, d.actions) && ValidObservations(d.observations)
    && WithinLimits(d)
  }

  lemma {:induction false} BehaviourMoved(d: Descriptor, e: Descriptor)
    requires ValidBehaviour(d.initializers, d.actions) && ValidObservations(d.observations) && Alike(d, e)
    ensures ValidBehaviour(e.initializers, e.actions) && ValidObservations(e.observations) && TotalNodes(d) == TotalNodes(e)
    ensures |d.initializers| == |e.initializers| && |d.actions| == |e.actions| && |d.observations| == |e.observations|
  {
    ActionsMoved(d.initializers, e.initializers, Initialize);
    ActionsMoved(d.actions, e.actions, Transition);
    ApartFromMoved(d.initializers, d.actions, e.initializers, e.actions);
    ObservationsMoved(d.observations, e.observations);
  }

  lemma {:induction false} HeaderMoved(d: Descriptor, e: Descriptor)
    requires ValidHeader(d) && d.version == e.version && d.model == e.model
    requires |d.initializers| == |e.initializers| && |d.actions| == |e.actions| && |d.observations| == |e.observations|
    ensures ValidHeader(e)
  {
  }

  ghost predicate WithinLimits(d: Descriptor) {
    TotalNodes(d) <= MAX_TYPE_NODES && StrictJson.Utf8Length(CanonicalText(d)) <= MAX_DESCRIPTOR_BYTES
  }

  lemma {:induction false} ShapesDistinct(actions: seq<Action>, phase: Phase)
    requires ValidActions(actions, phase)
    ensures forall i :: 0 <= i < |actions| ==> CanonicalLength.ActionShapes(actions[i])
  {
    forall i | 0 <= i < |actions| ensures CanonicalLength.ActionShapes(actions[i]) {
      var inputs := actions[i].inputs;
      assert ValidAction(actions[i], phase);
      forall k | 0 <= k < |inputs| ensures D.DistinctType(inputs[k].shape) { ValidTypeDistinct(inputs[k].shape, MAX_TYPE_DEPTH); }
    }
  }

  /** The text of a valid descriptor is as long as that of any other order of its parts. */
  lemma {:induction false} LengthMoved(d: Descriptor, e: Descriptor)
    requires ValidBehaviour(d.initializers, d.actions) && ValidObservations(d.observations) && Alike(d, e)
    ensures StrictJson.Utf8Length(CanonicalText(d)) == StrictJson.Utf8Length(CanonicalText(e))
  {
    ShapesDistinct(d.initializers, Initialize);
    ShapesDistinct(d.actions, Transition);
    ObservationsDistinct(d.observations);
    CanonicalLength.DescriptorSize(d, e);
  }

  /** Descriptors equal up to order are valid together, if the effective variables, whose
      order is checked, are in the same order. */
  lemma {:induction false} ValidMoved(d: Descriptor, e: Descriptor)
    requires Valid(d) && Alike(d, e) && e.profile.effectiveVars == d.profile.effectiveVars
    ensures Valid(e)
  {
    ProfileMoved(d.profile, e.profile);
    BehaviourMoved(d, e);
    HeaderMoved(d, e);
    LengthMoved(d, e);
  }

  ghost predicate KeysSettled(actions: seq<Action>) {
    forall i, k :: 0 <= i < |actions| && 0 <= k < |actions[i].inputs| ==> SettledPath(actions[i].inputs[k].path)
  }

  /** Every literal that is a map key in a path is settled. */
  ghost predicate SettledKeys(d: Descriptor) { KeysSettled(d.initializers) && KeysSettled(d.actions) }

  lemma {:induction false} ActionsSettled(actions: seq<Action>, phase: Phase)
    requires ValidActions(actions, phase)
    requires KeysSettled(actions)
    ensures SettledActions(actions)
  {
    forall i, j | 0 <= i < j < |actions| ensures actions[i].id != actions[j].id { assert Apart(actions[i], actions[j]); }
    forall i | 0 <= i < |actions| ensures SettledAction(actions[i]) {
      assert ValidAction(actions[i], phase);
      var inputs := actions[i].inputs;
      forall k | 0 <= k < |inputs| ensures SettledInput(inputs[k]) {
        ValidTypeDistinct(inputs[k].shape, MAX_TYPE_DEPTH);
      }
    }
  }

  lemma {:induction false} ObservationsDistinct(os: seq<Observation>)
    requires ValidObservations(os)
    ensures DistinctObservations(os)
  {
    forall i | 0 <= i < |os| ensures D.DistinctType(os[i].shape) {
      assert ValidObservation(os[i]);
      ValidTypeDistinct(os[i].shape, MAX_TYPE_DEPTH);
    }
  }

  /** The canonical text of a valid descriptor whose map-key literals are settled is
      that of exactly the descriptors equal to it up to order. */
  lemma {:induction false} ValidTextIffAlike(d: Descriptor, e: Descriptor)
    requires Valid(d) && SettledKeys(d)
    ensures CanonicalText(d) == CanonicalText(e) <==> Alike(d, e)
  {
    ActionsSettled(d.initializers, Initialize);
    ActionsSettled(d.actions, Transition);
    ObservationsDistinct(d.observations);
    assert Settled(d);
    CanonicalTextIffAlike(d, e);
  }
}

/** Reading whole descriptors; the canonical form is a normal form. */
module DescriptorReader {
  import opened Wrappers
  import opened JsonText
  import opened Sorting
  import opened UnicodeOrder
  import opened ModelTypes
  import opened Descriptors
  import opened CanonicalDescriptor
  import opened DescriptorLimits
  import opened TypeDecoder
  import D = DescriptorJson
  import LiteralDecoder
  import StrictJson

  const FROM_KEYS: set<Text> := {PATH, ROOT}
  const INPUT_KEYS: set<Text> := {FROM, ID, TYPE}
  const ACTION_KEYS: set<Text> := {ID, INPUTS, PHASE, WIRE_ACTION, WIRE_ALIASES}
  const OBSERVATION_KEYS: set<Text> := {ID, PROVENANCE, TYPE, WIRE_NAME}
  const PROFILE_KEYS: set<Text> := {ACTION_VARIABLE, CONFIGURED, EFFECTIVE, ITF}

  /** The properties of a descriptor, by their place in canonical order. */
  const DESCRIPTOR_ORDER: seq<Text> :=
    [ACTIONS, COMPARISON, INITIALIZERS, INTERFACE_VERSION, MODEL, OBSERVATIONS, RESOLVER, RUN_PROFILE, SCHEMA]

  function KeysOf(order: seq<Text>): set<Text> {
    set k | k in order
  }

  /** The property at a place of such an order. */
  function Property(j: Json, order: seq<Text>, i: nat): Json
    requires Exact(j, KeysOf(order)) && i < |order|
  {
    Got(j, KeysOf(order), order[i])
  }

  predicate ExactDescriptor(j: Json) { Exact(j, KeysOf(DESCRIPTOR_ORDER)) }

  function TopProperty(j: Json, i: nat): Json
    requires ExactDescriptor(j) && i < 9
  {
    Property(j, DESCRIPTOR_ORDER, i)
  }

  // ----- Decoding, without the limits -----

  /** `decodePathSegment`. */
  function SegmentFrom(j: Json): Option<Segment> {
    if !j.Obj? || |j.members| != 1 then None
    else
      var key, v := j.members[0].key, j.members[0].value;
      if key == FIELD && v.Str? then Some(FieldSegment(v.s))
      else if key == INDEX && v.Num? && v.n >= 0 then Some(IndexSegment(v.n))
      else if key == MAP_KEY then
        var l := LiteralDecoder.LiteralFrom(v);
        if l.None? then None else Some(KeySegment(l.value))
      else if key == VARIANT_VALUE && v.Str? then Some(CaseSegment(v.s))
      else None
  }

  function PathFrom(items: seq<Json>): (r: seq<Option<Segment>>)
    ensures |r| == |items| && forall i :: 0 <= i < |r| ==> r[i] == SegmentFrom(items[i])
  {
    seq(|items|, i requires 0 <= i < |items| => SegmentFrom(items[i]))
  }

  /** The path under `from`, whose root must be the one of the phase. */
  function RootedPath(j: Json, phase: Phase): Option<seq<Segment>> {
    if !Exact(j, FROM_KEYS) || Got(j, FROM_KEYS, ROOT) != Json.Str(RootText(phase)) || !Got(j, FROM_KEYS, PATH).Arr? then None
    else Collect(PathFrom(Got(j, FROM_KEYS, PATH).items))
  }

  /** `decodeResolvedInput`. */
  function InputFrom(j: Json, phase: Phase): Option<Input> {
    if !Exact(j, INPUT_KEYS) || !Got(j, INPUT_KEYS, ID).Str? then None
    else
      var path, shape := RootedPath(Got(j, INPUT_KEYS, FROM), phase), TypeFrom(Got(j, INPUT_KEYS, TYPE));
      if path.None? || shape.None? then None else Some(Input(Got(j, INPUT_KEYS, ID).s, phase, path.value, shape.value))
  }

  function InputsFrom(items: seq<Json>, phase: Phase): (r: seq<Option<Input>>)
    ensures |r| == |items| && forall i :: 0 <= i < |r| ==> r[i] == InputFrom(items[i], phase)
  {
    seq(|items|, i requires 0 <= i < |items| => InputFrom(items[i], phase))
  }

  function TextFrom(j: Json): Option<Text> { if j.Str? then Some(j.s) else None }

  function TextsFrom(items: seq<Json>): (r: seq<Option<Text>>)
    ensures |r| == |items| && forall i :: 0 <= i < |r| ==> r[i] == TextFrom(items[i])
  {
    seq(|items|, i requires 0 <= i < |items| => TextFrom(items[i]))
  }

  function TextList(j: Json): Option<seq<Text>> {
    if j.Arr? then Collect(TextsFrom(j.items)) else None
  }

  function InputList(j: Json, phase: Phase): Option<seq<Input>> {
    if j.Arr? then Collect(InputsFrom(j.items, phase)) else None
  }

  /** `decodeResolvedAction`. */
  function ActionFrom(j: Json, phase: Phase): Option<Action> {
    if !Exact(j, ACTION_KEYS) || Got(j, ACTION_KEYS, PHASE) != Json.Str(PhaseText(phase)) || !Got(j, ACTION_KEYS, ID).Str?
       || !Got(j, ACTION_KEYS, WIRE_ACTION).Str? then None
    else
      var aliases, inputs := TextList(Got(j, ACTION_KEYS, WIRE_ALIASES)), InputList(Got(j, ACTION_KEYS, INPUTS), phase);
      if aliases.None? || inputs.None? then None
      else Some(Action(Got(j, ACTION_KEYS, ID).s, phase, Got(j, ACTION_KEYS, WIRE_ACTION).s, aliases.value, inputs.value))
  }

  function ActionsFrom(items: seq<Json>, phase: Phase): (r: seq<Option<Action>>)
    ensures |r| == |items| && forall i :: 0 <= i < |r| ==> r[i] == ActionFrom(items[i], phase)
  {
    seq(|items|, i requires 0 <= i < |items| => ActionFrom(items[i], phase))
  }

  function ActionList(j: Json, phase: Phase): Option<seq<Action>> {
    if j.Arr? then Collect(ActionsFrom(j.items, phase)) else None
  }

  /** `decodeResolvedObservation`. */
  function ObservationFrom(j: Json): Option<Observation> {
    if !Exact(j, OBSERVATION_KEYS) || Got(j, OBSERVATION_KEYS, PROVENANCE) != Json.Str(IMPLEMENTATION)
       || !Got(j, OBSERVATION_KEYS, ID).Str? || !Got(j, OBSERVATION_KEYS, WIRE_NAME).Str? then None
    else
      var shape := TypeFrom(Got(j, OBSERVATION_KEYS, TYPE));
      if shape.None? then None
      else Some(Observation(Got(j, OBSERVATION_KEYS, ID).s, Got(j, OBSERVATION_KEYS, WIRE_NAME).s, shape.value))
  }

  function ObservationsFrom(items: seq<Json>): (r: seq<Option<Observation>>)
    ensures |r| == |items| && forall i :: 0 <= i < |r| ==> r[i] == ObservationFrom(items[i])
  {
    seq(|items|, i requires 0 <= i < |items| => ObservationFrom(items[i]))
  }

  function ObservationList(j: Json): Option<seq<Observation>> {
    if j.Arr? then Collect(ObservationsFrom(j.items)) else None
  }

  function ProfileFrom(j: Json): Option<Profile> {
    if !Exact(j, PROFILE_KEYS) || Got(j, PROFILE_KEYS, ACTION_VARIABLE) != Json.Str(ACTION_TAKEN) then None
    else
      var c := Got(j, PROFILE_KEYS, CONFIGURED);
      var itf, effective := TextList(Got(j, PROFILE_KEYS, ITF)), TextList(Got(j, PROFILE_KEYS, EFFECTIVE));
      if !(c.Null? || c.Str?) || itf.None? || effective.None? then None
      else Some(Profile(if c.Null? then None else Some(c.s), itf.value, effective.value))
  }

  function ModuleFrom(j: Json): Option<Text> {
    if Exact(j, {MODULE}) then TextFrom(Got(j, {MODULE}, MODULE)) else None
  }

  /** The fixed version strings, and a version of the interface. */
  predicate Stamped(j: Json)
    requires ExactDescriptor(j)
  {
    && TopProperty(j, 1) == Json.Str(COMPARISON_VERSION) && TopProperty(j, 3).Str?
    && TopProperty(j, 6) == Json.Str(RESOLVER_VERSION) && TopProperty(j, 8) == Json.Str(DESCRIPTOR_SCHEMA)
  }

  function Assemble(version: Text, model: Option<Text>, profile: Option<Profile>, inits: Option<seq<Action>>,
                    actions: Option<seq<Action>>, observations: Option<seq<Observation>>): Option<Descriptor> {
    if model.None? || profile.None? || inits.None? || actions.None? || observations.None? then None
    else Some(Descriptor(version, model.value, profile.value, inits.value, actions.value, observations.value))
  }

  function Shape(j: Json): Option<Descriptor> {
    if !ExactDescriptor(j) || !Stamped(j) then None
    else
      Assemble(TopProperty(j, 3).s, ModuleFrom(TopProperty(j, 4)), ProfileFrom(TopProperty(j, 7)),
               ActionList(TopProperty(j, 2), Initialize), ActionList(TopProperty(j, 0), Transition),
               ObservationList(TopProperty(j, 5)))
  }

  /** `decodeSemanticDescriptorValue`: every failed check rejects. */
  ghost function Decode(j: Json): Option<Descriptor> {
    var d := Shape(j);
    if d.Some? && Valid(d.value) then d else None
  }

  // ----- Keys -----

  /** Enough of a key to tell it from the others of its object. */
  function Signature(t: Text): int { 0x1_0000 * |t| + if t == [] then 0 else t[0] }

  ghost predicate Told(order: seq<Text>) {
    forall i, j :: 0 <= i < j < |order| ==> Signature(order[i]) != Signature(order[j])
  }

  /** An object with these keys in this order is read by each key. */
  lemma {:induction false} ReadsAll(ms: seq<Member>, order: seq<Text>, keys: set<Text>)
    requires |ms| == |order| && (forall i :: 0 <= i < |ms| ==> ms[i].key == order[i]) && Told(order)
    requires forall k :: k in keys <==> k in order
    ensures Exact(Obj(ms), keys) && forall i :: 0 <= i < |ms| ==> order[i] in keys && Got(Obj(ms), keys, order[i]) == ms[i].value
  {
    forall i, j | 0 <= i < j < |ms| ensures ms[i].key != ms[j].key { assert Signature(order[i]) != Signature(order[j]); }
    forall i | 0 <= i < |ms| ensures ms[i].key in KeySet(ms) { assert ms[i] in ms; }
    forall k ensures k in KeySet(ms) <==> k in order {
      if k in order {
        var i :| 0 <= i < |order| && order[i] == k;
        assert ms[i].key == k;
      }
    }
    assert KeySet(ms) == keys;
    forall i | 0 <= i < |ms| ensures order[i] in keys && Got(Obj(ms), keys, order[i]) == ms[i].value { FindAt(ms, i); }
  }

  const ACTION_ORDER: seq<Text> := [ID, INPUTS, PHASE, WIRE_ACTION, WIRE_ALIASES]
  const OBSERVATION_ORDER: seq<Text> := [ID, PROVENANCE, TYPE, WIRE_NAME]
  const PROFILE_ORDER: seq<Text> := [ACTION_VARIABLE, CONFIGURED, EFFECTIVE, ITF]

  lemma {:induction false} KeysTold()
    ensures Told(ACTION_ORDER) && Told(OBSERVATION_ORDER) && Told(PROFILE_ORDER)
  {
    assert |ID| == 2 && |INPUTS| == 6 && |PHASE| == 5 && |WIRE_ACTION| == 10 && |WIRE_ALIASES| == 11;
    assert |PROVENANCE| == 10 && |TYPE| == 4 && |WIRE_NAME| == 8;
    assert |ACTION_VARIABLE| == 14 && |CONFIGURED| == 18 && |EFFECTIVE| == 18 && |ITF| == 12;
    assert CONFIGURED[0] == 'c' as int && EFFECTIVE[0] == 'e' as int;
  }

  lemma {:induction false} DescriptorKeysTold()
    ensures Told(DESCRIPTOR_ORDER)
  {
    assert |ACTIONS| == 7 && |COMPARISON| == 23 && |INITIALIZERS| == 12 && |INTERFACE_VERSION| == 16 && |MODEL| == 5;
    assert |OBSERVATIONS| == 12 && |RESOLVER| == 24 && |RUN_PROFILE| == 10 && |SCHEMA| == 6;
    assert INITIALIZERS[0] == 'i' as int && OBSERVATIONS[0] == 'o' as int;
  }

  lemma {:induction false} ActionReads(a: Action)
    ensures Exact(ActionJson(a), ACTION_KEYS)
    ensures Got(ActionJson(a), ACTION_KEYS, ID) == Json.Str(a.id)
    ensures Got(ActionJson(a), ACTION_KEYS, INPUTS) == Arr(Arranged(InputItems(a.inputs)))
    ensures Got(ActionJson(a), ACTION_KEYS, PHASE) == Json.Str(PhaseText(a.phase))
    ensures Got(ActionJson(a), ACTION_KEYS, WIRE_ACTION) == Json.Str(a.wireAction)
    ensures Got(ActionJson(a), ACTION_KEYS, WIRE_ALIASES) == Arr(Arranged(TextItems(a.aliases)))
  {
    KeysTold();
    var ms, o := ActionMembers(a), ACTION_ORDER;
    ReadsAll(ms, o, ACTION_KEYS);
    assert o[0] == ID && o[1] == INPUTS && o[2] == PHASE && o[3] == WIRE_ACTION && o[4] == WIRE_ALIASES;
  }

  lemma {:induction false} ObservationReads(o: Observation)
    ensures Exact(ObservationJson(o), OBSERVATION_KEYS)
    ensures Got(ObservationJson(o), OBSERVATION_KEYS, ID) == Json.Str(o.id)
    ensures Got(ObservationJson(o), OBSERVATION_KEYS, PROVENANCE) == Json.Str(IMPLEMENTATION)
    ensures Got(ObservationJson(o), OBSERVATION_KEYS, TYPE) == D.TypeJson(o.shape)
    ensures Got(ObservationJson(o), OBSERVATION_KEYS, WIRE_NAME) == Json.Str(o.wireName)
  {
    KeysTold();
    var ms, u := ObservationMembers(o), OBSERVATION_ORDER;
    ReadsAll(ms, u, OBSERVATION_KEYS);
    assert u[0] == ID && u[1] == PROVENANCE && u[2] == TYPE && u[3] == WIRE_NAME;
  }

  lemma {:induction false} ProfileReads(p: Profile)
    ensures Exact(Obj(ProfileMembers(p)), PROFILE_KEYS)
    ensures Got(Obj(ProfileMembers(p)), PROFILE_KEYS, ACTION_VARIABLE) == Json.Str(ACTION_TAKEN)
    ensures Got(Obj(ProfileMembers(p)), PROFILE_KEYS, CONFIGURED) == ConfiguredJson(p.configured)
    ensures Got(Obj(ProfileMembers(p)), PROFILE_KEYS, EFFECTIVE) == Arr(Arranged(TextItems(p.effectiveVars)))
    ensures Got(Obj(ProfileMembers(p)), PROFILE_KEYS, ITF) == Arr(Arranged(TextItems(p.itfVars)))
  {
    KeysTold();
    var ms, o := ProfileMembers(p), PROFILE_ORDER;
    ReadsAll(ms, o, PROFILE_KEYS);
    assert o[0] == ACTION_VARIABLE && o[1] == CONFIGURED && o[2] == EFFECTIVE && o[3] == ITF;
  }

  lemma {:induction false} DescriptorOrder(d: Descriptor)
    ensures var ms := DescriptorMembers(d); |ms| == |DESCRIPTOR_ORDER| && forall i :: 0 <= i < |ms| ==> ms[i].key == DESCRIPTOR_ORDER[i]
  {
  }

  lemma {:induction false} DescriptorReads(d: Descriptor, i: nat)
    requires i < 9
    ensures ExactDescriptor(Canonical(d)) && TopProperty(Canonical(d), i) == DescriptorMembers(d)[i].value
  {
    DescriptorKeysTold();
    DescriptorOrder(d);
    ReadsAll(DescriptorMembers(d), DESCRIPTOR_ORDER, KeysOf(DESCRIPTOR_ORDER));
  }

  lemma {:induction false} DescriptorStamped(d: Descriptor)
    ensures ExactDescriptor(Canonical(d)) && Stamped(Canonical(d))
  {
    DescriptorReads(d, 1);
    DescriptorReads(d, 3);
    DescriptorReads(d, 6);
    DescriptorReads(d, 8);
  }

  lemma {:induction false} ShapeIs(d: Descriptor)
    ensures Shape(Canonical(d))
         == Assemble(d.version, ModuleFrom(Obj([Member(MODULE, Json.Str(d.model))])), ProfileFrom(Obj(ProfileMembers(d.profile))),
                     ActionList(Arr(Arranged(ActionItems(d.initializers))), Initialize),
                     ActionList(Arr(Arranged(ActionItems(d.actions))), Transition),
                     ObservationList(Arr(Arranged(ObservationItems(d.observations)))))
  {
    DescriptorStamped(d);
    DescriptorReads(d, 0);
    DescriptorReads(d, 2);
    DescriptorReads(d, 3);
    DescriptorReads(d, 4);
    DescriptorReads(d, 5);
    DescriptorReads(d, 7);
  }

  // ----- Reading the canonical JSON gives it back -----

  lemma {:induction false} SegmentReturns(s: Segment)
    ensures var b := SegmentFrom(SegmentJson(s)); b.Some? && SegmentJson(b.value) == SegmentJson(s)
  {
    SegmentKey(s);
    assert |FIELD| == 5 && |INDEX| == 5 && |MAP_KEY| == 6 && |VARIANT_VALUE| == 12;
    assert FIELD[0] == 'f' as int && INDEX[0] == 'i' as int;
    if s.KeySegment? { LiteralDecoder.LiteralReturns(s.key); }
  }

  lemma {:induction false} PathReturns(path: seq<Segment>)
    ensures var b := Collect(PathFrom(PathJson(path))); b.Some? && PathJson(b.value) == PathJson(path)
  {
    var items := PathJson(path);
    forall i | 0 <= i < |items| ensures PathFrom(items)[i].Some? && SegmentJson(PathFrom(items)[i].value) == items[i] {
      SegmentReturns(path[i]);
    }
    assert PathJson(Collect(PathFrom(items)).value) == items;
  }

  lemma {:induction false} FromReturns(i: Input)
    ensures var b := RootedPath(FromJson(i), i.root); b.Some? && PathJson(b.value) == PathJson(i.path)
  {
    assert PATH[0] == 'p' as int && ROOT[0] == 'r' as int;
    ReadsTwo(PATH, Arr(PathJson(i.path)), ROOT, Json.Str(RootText(i.root)));
    PathReturns(i.path);
  }

  lemma {:induction false} InputReturns(i: Input)
    ensures var b := InputFrom(InputJson(i), i.root);
      b.Some? && b.value.id == i.id && b.value.root == i.root && InputJson(b.value) == InputJson(i)
  {
    assert |FROM| == 4 && |ID| == 2 && |TYPE| == 4 && FROM[0] == 'f' as int && TYPE[0] == 't' as int;
    ReadsThree(FROM, FromJson(i), ID, Json.Str(i.id), TYPE, D.TypeJson(i.shape));
    FromReturns(i);
    TypeReturns(i.shape);
    InputJsonIs(InputFrom(InputJson(i), i.root).value, i);
  }

  ghost predicate Rooted(inputs: seq<Input>, phase: Phase) {
    forall i :: 0 <= i < |inputs| ==> inputs[i].root == phase
  }

  lemma {:induction false} InputsReturn(inputs: seq<Input>, phase: Phase)
    requires Rooted(inputs, phase)
    ensures var b := InputList(Arr(Arranged(InputItems(inputs))), phase);
      b.Some? && Arranged(InputItems(b.value)) == Arranged(InputItems(inputs))
  {
    var ks := InputItems(inputs);
    var items, sorted := Arranged(ks), SortBy(ks, ByName);
    forall k | 0 <= k < |items|
      ensures var b := InputsFrom(items, phase)[k]; b.Some? && Keyed(b.value.id, InputJson(b.value)) == sorted[k]
    {
      var i := Source(ks, k);
      InputReturns(inputs[i]);
    }
    var back := Collect(InputsFrom(items, phase)).value;
    assert InputItems(back) == sorted;
    ArrangedAgain(ks);
  }

  lemma {:induction false} TextsReturn(ts: seq<Text>)
    ensures var b := TextList(Arr(Arranged(TextItems(ts))));
      b.Some? && TextItems(b.value) == SortBy(TextItems(ts), ByName) && Arranged(TextItems(b.value)) == Arranged(TextItems(ts))
  {
    var ks := TextItems(ts);
    var items, sorted := Arranged(ks), SortBy(ks, ByName);
    forall k | 0 <= k < |items|
      ensures var b := TextsFrom(items)[k]; b.Some? && Keyed(b.value, Json.Str(b.value)) == sorted[k]
    {
      var i := Source(ks, k);
    }
    var back := Collect(TextsFrom(items)).value;
    assert TextItems(back) == sorted;
    ArrangedAgain(ks);
  }

  lemma {:induction false} AscendingReturns(ts: seq<Text>)
    requires Ascending(ts)
    ensures TextList(Arr(Arranged(TextItems(ts)))) == Some(ts)
  {
    TextsReturn(ts);
    var ks := TextItems(ts);
    forall i, j | 0 <= i < j < |ks| ensures LexLeq(ByName(ks[i]), ByName(ks[j])) {
      assert LexLess(Points(ts[i]), Points(ts[j]));
    }
    SortedStays(ks, ByName);
    var us := TextList(Arr(Arranged(ks))).value;
    assert TextItems(us) == ks;
    assert |us| == |TextItems(us)| == |ts|;
    forall i | 0 <= i < |ts| ensures us[i] == ts[i] { assert TextItems(us)[i] == ks[i]; }
    assert us == ts;
  }

  lemma {:induction false} ActionReturns(a: Action, phase: Phase)
    requires a.phase == phase && Rooted(a.inputs, phase)
    ensures var b := ActionFrom(ActionJson(a), phase); b.Some? && b.value.id == a.id && ActionJson(b.value) == ActionJson(a)
  {
    ActionReads(a);
    InputsReturn(a.inputs, phase);
    TextsReturn(a.aliases);
    var b := ActionFrom(ActionJson(a), phase).value;
    TextsArranged(b.aliases, a.aliases);
    ActionJsonIs(b, a);
  }

  ghost predicate InPhase(actions: seq<Action>, phase: Phase) {
    forall i :: 0 <= i < |actions| ==> actions[i].phase == phase && Rooted(actions[i].inputs, phase)
  }

  lemma {:induction false} ActionsReturn(actions: seq<Action>, phase: Phase)
    requires InPhase(actions, phase)
    ensures var b := ActionList(Arr(Arranged(ActionItems(actions))), phase);
      b.Some? && Arranged(ActionItems(b.value)) == Arranged(ActionItems(actions))
  {
    var ks := ActionItems(actions);
    var items, sorted := Arranged(ks), SortBy(ks, ByName);
    forall k | 0 <= k < |items|
      ensures var b := ActionsFrom(items, phase)[k]; b.Some? && Keyed(b.value.id, ActionJson(b.value)) == sorted[k]
    {
      var i := Source(ks, k);
      ActionReturns(actions[i], phase);
    }
    var back := Collect(ActionsFrom(items, phase)).value;
    assert ActionItems(back) == sorted;
    ArrangedAgain(ks);
  }

  lemma {:induction false} ObservationReturns(o: Observation)
    ensures var b := ObservationFrom(ObservationJson(o)); b.Some? && b.value.id == o.id && ObservationJson(b.value) == ObservationJson(o)
  {
    ObservationReads(o);
    TypeReturns(o.shape);
    ObservationJsonIs(ObservationFrom(ObservationJson(o)).value, o);
  }

  lemma {:induction false} ObservationsReturn(os: seq<Observation>)
    ensures var b := ObservationList(Arr(Arranged(ObservationItems(os))));
      b.Some? && Arranged(ObservationItems(b.value)) == Arranged(ObservationItems(os))
  {
    var ks := ObservationItems(os);
    var items, sorted := Arranged(ks), SortBy(ks, ByName);
    forall k | 0 <= k < |items|
      ensures var b := ObservationsFrom(items)[k]; b.Some? && Keyed(b.value.id, ObservationJson(b.value)) == sorted[k]
    {
      var i := Source(ks, k);
      ObservationReturns(os[i]);
    }
    var back := Collect(ObservationsFrom(items)).value;
    assert ObservationItems(back) == sorted;
    ArrangedAgain(ks);
  }

  lemma {:induction false} ProfileReturns(p: Profile)
    requires Ascending(p.effectiveVars)
    ensures var b := ProfileFrom(Obj(ProfileMembers(p)));
      b.Some? && b.value.effectiveVars == p.effectiveVars && ProfileAlike(b.value, p)
  {
    ProfileReads(p);
    AscendingReturns(p.effectiveVars);
    TextsReturn(p.itfVars);
    var b := ProfileFrom(Obj(ProfileMembers(p))).value;
    TextsArranged(b.itfVars, p.itfVars);
  }

  lemma {:induction false} ValidPhases(actions: seq<Action>, phase: Phase)
    requires ValidActions(actions, phase)
    ensures InPhase(actions, phase)
  {
    forall i | 0 <= i < |actions| ensures actions[i].phase == phase && Rooted(actions[i].inputs, phase) {
      assert ValidAction(actions[i], phase);
    }
  }

  lemma {:induction false} ShapeReturns(d: Descriptor)
    requires InPhase(d.initializers, Initialize) && InPhase(d.actions, Transition) && Ascending(d.profile.effectiveVars)
    ensures var b := Shape(Canonical(d));
      b.Some? && Canonical(b.value) == Canonical(d) && b.value.profile.effectiveVars == d.profile.effectiveVars
  {
    ShapeIs(d);
    ReadsOne(MODULE, Json.Str(d.model));
    ProfileReturns(d.profile);
    ActionsReturn(d.initializers, Initialize);
    ActionsReturn(d.actions, Transition);
    ObservationsReturn(d.observations);
    var profile := ProfileFrom(Obj(ProfileMembers(d.profile))).value;
    var inits := ActionList(Arr(Arranged(ActionItems(d.initializers))), Initialize).value;
    var actions := ActionList(Arr(Arranged(ActionItems(d.actions))), Transition).value;
    var observations := ObservationList(Arr(Arranged(ObservationItems(d.observations)))).value;
    var b := Descriptor(d.version, d.model, profile, inits, actions, observations);
    CanonicalIs(b, d);
  }

  /** Decoding the canonical JSON of a valid descriptor succeeds, and the result has
      that same canonical JSON. */
  lemma {:induction false} CanonicalIsNormal(d: Descriptor)
    requires Valid(d)
    ensures var b := Decode(Canonical(d));
      b.Some? && Canonical(b.value) == Canonical(d) && CanonicalText(b.value) == CanonicalText(d) && Alike(d, b.value)
  {
    ValidPhases(d.initializers, Initialize);
    ValidPhases(d.actions, Transition);
    ShapeReturns(d);
    var b := Shape(Canonical(d)).value;
    CanonicalIffAlike(d, b);
    ValidMoved(d, b);
  }

  /** `parseSemanticDescriptor`. */
  ghost function ParseDescriptor(t: Text): Option<Descriptor> {
    var j := StrictJson.ParseText(t);
    if j.None? then None else Decode(j.value)
  }
}
