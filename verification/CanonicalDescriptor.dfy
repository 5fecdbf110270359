/** The canonical JSON of whole descriptors, and exactly which of them share it. */
module CanonicalDescriptor {
  import opened Wrappers
  import opened JsonText
  import opened UnicodeOrder
  import opened ModelTypes
  import opened Descriptors
  import D = DescriptorJson
  import L = LiteralJson

  const FIELD := Ascii("field")
  const INDEX := Ascii("index")
  const MAP_KEY := Ascii("mapKey")
  const VARIANT_VALUE := Ascii("variantValue")
  const FROM := Ascii("from")
  const PATH := Ascii("path")
  const ROOT := Ascii("root")
  const ID := Ascii("id")
  const TYPE := D.TYPE
  const INPUTS := Ascii("inputs")
  const PHASE := Ascii("phase")
  const WIRE_ACTION := Ascii("wireAction")
  const WIRE_ALIASES := Ascii("wireAliases")
  const PROVENANCE := Ascii("provenance")
  const WIRE_NAME := D.WIRE_NAME
  const ACTIONS := Ascii("actions")
  const COMPARISON := Ascii("comparisonPolicyVersion")
  const INITIALIZERS := Ascii("initializers")
  const INTERFACE_VERSION := Ascii("interfaceVersion")
  const MODEL := Ascii("model")
  const MODULE := Ascii("module")
  const OBSERVATIONS := Ascii("observations")
  const RESOLVER := Ascii("resolverSemanticsVersion")
  const RUN_PROFILE := Ascii("runProfile")
  const SCHEMA := Ascii("schema")
  const ACTION_VARIABLE := Ascii("actionVariable")
  const CONFIGURED := Ascii("configuredParamVar")
  const EFFECTIVE := Ascii("effectiveParamVars")
  const ITF := Ascii("itfParamVars")

  const INITIAL_STATE := Ascii("initialState")
  const STEP_PARAMETERS := Ascii("stepParameters")
  const INITIALIZE := Ascii("initialize")
  const TRANSITION := Ascii("transition")
  const IMPLEMENTATION := Ascii("implementation")
  const ACTION_TAKEN := Ascii("action_taken")
  const DESCRIPTOR_SCHEMA := Ascii("mirrors.model-interface-descriptor/v1")
  const RESOLVER_VERSION := Ascii("mirrors-model-interface-resolver/v1")
  const COMPARISON_VERSION := Ascii("mirrors-applyParamVars-filterMeta/v1")

  // ----- The canonical JSON -----

  function SegmentJson(s: Segment): Json {
    match s
    case FieldSegment(name) => Obj([Member(FIELD, Json.Str(name))])
    case IndexSegment(index) => Obj([Member(INDEX, Num(index))])
    case KeySegment(key) => Obj([Member(MAP_KEY, L.Canonise(key))])
    case CaseSegment(tag) => Obj([Member(VARIANT_VALUE, Json.Str(tag))])
  }

  function PathJson(path: seq<Segment>): (r: seq<Json>)
    ensures |r| == |path| && forall i :: 0 <= i < |r| ==> r[i] == SegmentJson(path[i])
  {
    seq(|path|, i requires 0 <= i < |path| => SegmentJson(path[i]))
  }

  function RootText(p: Phase): Text { if p.Initialize? then INITIAL_STATE else STEP_PARAMETERS }

  function PhaseText(p: Phase): Text { if p.Initialize? then INITIALIZE else TRANSITION }

  function FromJson(i: Input): Json {
    Obj([Member(PATH, Arr(PathJson(i.path))), Member(ROOT, Json.Str(RootText(i.root)))])
  }

  function InputJson(i: Input): Json {
    Obj([Member(FROM, FromJson(i)), Member(ID, Json.Str(i.id)), Member(TYPE, D.TypeJson(i.shape))])
  }

  function InputItems(inputs: seq<Input>): (r: seq<Keyed>)
    ensures |r| == |inputs| && forall i :: 0 <= i < |r| ==> r[i] == Keyed(inputs[i].id, InputJson(inputs[i]))
  {
    seq(|inputs|, i requires 0 <= i < |inputs| => Keyed(inputs[i].id, InputJson(inputs[i])))
  }

  function ActionMembers(a: Action): seq<Member> {
    [Member(ID, Json.Str(a.id)), Member(INPUTS, Arr(Arranged(InputItems(a.inputs)))),
     Member(PHASE, Json.Str(PhaseText(a.phase))), Member(WIRE_ACTION, Json.Str(a.wireAction)),
     Member(WIRE_ALIASES, Arr(Arranged(TextItems(a.aliases))))]
  }

  function ActionJson(a: Action): Json { Obj(ActionMembers(a)) }

  function ActionItems(actions: seq<Action>): (r: seq<Keyed>)
    ensures |r| == |actions| && forall i :: 0 <= i < |r| ==> r[i] == Keyed(actions[i].id, ActionJson(actions[i]))
  {
    seq(|actions|, i requires 0 <= i < |actions| => Keyed(actions[i].id, ActionJson(actions[i])))
  }

  function ObservationMembers(o: Observation): seq<Member> {
    [Member(ID, Json.Str(o.id)), Member(PROVENANCE, Json.Str(IMPLEMENTATION)), Member(TYPE, D.TypeJson(o.shape)),
     Member(WIRE_NAME, Json.Str(o.wireName))]
  }

  function ObservationJson(o: Observation): Json { Obj(ObservationMembers(o)) }

  function ObservationItems(os: seq<Observation>): (r: seq<Keyed>)
    ensures |r| == |os| && forall i :: 0 <= i < |r| ==> r[i] == Keyed(os[i].id, ObservationJson(os[i]))
  {
    seq(|os|, i requires 0 <= i < |os| => Keyed(os[i].id, ObservationJson(os[i])))
  }

  function ConfiguredJson(c: Option<Text>): Json {
    if c.None? then Json.Null else Json.Str(c.value)
  }

  function ProfileMembers(p: Profile): seq<Member> {
    [Member(ACTION_VARIABLE, Json.Str(ACTION_TAKEN)), Member(CONFIGURED, ConfiguredJson(p.configured)),
     Member(EFFECTIVE, Arr(Arranged(TextItems(p.effectiveVars)))), Member(ITF, Arr(Arranged(TextItems(p.itfVars))))]
  }

  function DescriptorMembers(d: Descriptor): seq<Member> {
    [Member(ACTIONS, Arr(Arranged(ActionItems(d.actions)))), Member(COMPARISON, Json.Str(COMPARISON_VERSION)),
     Member(INITIALIZERS, Arr(Arranged(ActionItems(d.initializers)))), Member(INTERFACE_VERSION, Json.Str(d.version)),
     Member(MODEL, Obj([Member(MODULE, Json.Str(d.model))])),
     Member(OBSERVATIONS, Arr(Arranged(ObservationItems(d.observations)))), Member(RESOLVER, Json.Str(RESOLVER_VERSION)),
     Member(RUN_PROFILE, Obj(ProfileMembers(d.profile))), Member(SCHEMA, Json.Str(DESCRIPTOR_SCHEMA))]
  }

  /** `canonicalDescriptorValue`. */
  function Canonical(d: Descriptor): Json { Obj(DescriptorMembers(d)) }

  /** The members after the actions, a stamp and the initializers. */
  function Remaining(d: Descriptor): seq<Member> {
    [Member(INTERFACE_VERSION, Json.Str(d.version)), Member(MODEL, Obj([Member(MODULE, Json.Str(d.model))])),
     Member(OBSERVATIONS, Arr(Arranged(ObservationItems(d.observations)))), Member(RESOLVER, Json.Str(RESOLVER_VERSION)),
     Member(RUN_PROFILE, Obj(ProfileMembers(d.profile))), Member(SCHEMA, Json.Str(DESCRIPTOR_SCHEMA))]
  }

  lemma {:induction false} Parts(d: Descriptor)
    ensures DescriptorMembers(d)
         == [Member(ACTIONS, Arr(Arranged(ActionItems(d.actions)))), Member(COMPARISON, Json.Str(COMPARISON_VERSION)),
             Member(INITIALIZERS, Arr(Arranged(ActionItems(d.initializers))))] + Remaining(d)
  {
  }

  // ----- Descriptors that differ only by order -----

  ghost predicate SegmentAlike(s: Segment, t: Segment) {
    if s.KeySegment? then t.KeySegment? && L.LiteralsAlike(s.key, t.key) else s == t
  }

  ghost predicate PathAlike(p: seq<Segment>, q: seq<Segment>) {
    |p| == |q| && forall i :: 0 <= i < |p| ==> SegmentAlike(p[i], q[i])
  }

  ghost predicate InputAlike(i: Input, j: Input) {
    i.id == j.id && i.root == j.root && PathAlike(i.path, j.path) && D.TypesAlike(i.shape, j.shape)
  }

  ghost predicate ActionAlike(a: Action, b: Action) {
    && a.id == b.id && a.phase == b.phase && a.wireAction == b.wireAction
    && multiset(a.aliases) == multiset(b.aliases) && Rearranged(a.inputs, b.inputs, InputAlike)
  }

  ghost predicate ObservationAlike(o: Observation, u: Observation) {
    o.id == u.id && o.wireName == u.wireName && D.TypesAlike(o.shape, u.shape)
  }

  ghost predicate ProfileAlike(p: Profile, q: Profile) {
    && p.configured == q.configured && multiset(p.itfVars) == multiset(q.itfVars)
    && multiset(p.effectiveVars) == multiset(q.effectiveVars)
  }

  ghost predicate Alike(d: Descriptor, e: Descriptor) {
    && d.version == e.version && d.model == e.model && ProfileAlike(d.profile, e.profile)
    && Rearranged(d.initializers, e.initializers, ActionAlike) && Rearranged(d.actions, e.actions, ActionAlike)
    && Rearranged(d.observations, e.observations, ObservationAlike)
  }

  // ----- Nothing is repeated -----

  ghost predicate SettledPath(path: seq<Segment>) {
    forall i :: 0 <= i < |path| && path[i].KeySegment? ==> L.Settled(path[i].key)
  }

  ghost predicate SettledInput(i: Input) { SettledPath(i.path) && D.DistinctType(i.shape) }

  ghost predicate SettledInputs(inputs: seq<Input>) {
    && (forall i, j :: 0 <= i < j < |inputs| ==> inputs[i].id != inputs[j].id)
    && forall i :: 0 <= i < |inputs| ==> SettledInput(inputs[i])
  }

  ghost predicate SettledAction(a: Action) { SettledInputs(a.inputs) }

  ghost predicate SettledActions(actions: seq<Action>) {
    && (forall i, j :: 0 <= i < j < |actions| ==> actions[i].id != actions[j].id)
    && forall i :: 0 <= i < |actions| ==> SettledAction(actions[i])
  }

  ghost predicate DistinctObservations(os: seq<Observation>) {
    && (forall i, j :: 0 <= i < j < |os| ==> os[i].id != os[j].id)
    && forall i :: 0 <= i < |os| ==> D.DistinctType(os[i].shape)
  }

  ghost predicate Settled(d: Descriptor) {
    SettledActions(d.initializers) && SettledActions(d.actions) && DistinctObservations(d.observations)
  }

  // ----- Inputs -----

  lemma {:induction false} SegmentCanonical(s: Segment, t: Segment)
    ensures SegmentJson(s) == SegmentJson(t) ==> SegmentAlike(s, t)
    ensures (s.KeySegment? ==> L.Settled(s.key)) && SegmentAlike(s, t) ==> SegmentJson(s) == SegmentJson(t)
  {
    SegmentKey(s);
    SegmentKey(t);
    assert |FIELD| == 5 && |INDEX| == 5 && |MAP_KEY| == 6 && |VARIANT_VALUE| == 12;
    assert FIELD[0] == 'f' as int && INDEX[0] == 'i' as int;
    D.OneMember(SegmentJson(s).members[0], SegmentJson(t).members[0]);
    if s.KeySegment? && t.KeySegment? { L.LiteralCanonical(s.key, t.key); }
  }

  lemma {:induction false} SegmentKey(s: Segment)
    ensures SegmentJson(s).Obj? && |SegmentJson(s).members| == 1 && SegmentJson(s) == Obj([SegmentJson(s).members[0]])
    ensures SegmentJson(s).members[0] == match s
      case FieldSegment(name) => Member(FIELD, Json.Str(name))
      case IndexSegment(index) => Member(INDEX, Num(index))
      case KeySegment(key) => Member(MAP_KEY, L.Canonise(key))
      case CaseSegment(tag) => Member(VARIANT_VALUE, Json.Str(tag))
  {
  }

  lemma {:induction false} PathCanonical(p: seq<Segment>, q: seq<Segment>)
    ensures PathJson(p) == PathJson(q) ==> PathAlike(p, q)
    ensures SettledPath(p) && PathAlike(p, q) ==> PathJson(p) == PathJson(q)
  {
    if |p| == |q| {
      forall i | 0 <= i < |p|
        ensures PathJson(p)[i] == PathJson(q)[i] ==> SegmentAlike(p[i], q[i])
        ensures (p[i].KeySegment? ==> L.Settled(p[i].key)) && SegmentAlike(p[i], q[i]) ==> PathJson(p)[i] == PathJson(q)[i]
      {
        SegmentCanonical(p[i], q[i]);
      }
    } else {
      assert |PathJson(p)| != |PathJson(q)|;
    }
  }

  lemma {:induction false} TextsDiffer()
    ensures INITIAL_STATE != STEP_PARAMETERS && INITIALIZE != TRANSITION
  {
    assert |INITIAL_STATE| == 12 && |STEP_PARAMETERS| == 14;
    assert INITIALIZE[0] == 'i' as int && TRANSITION[0] == 't' as int;
  }

  lemma {:induction false} InputJsonIs(i: Input, j: Input)
    ensures InputJson(i) == InputJson(j)
       <==> i.id == j.id && i.root == j.root && PathJson(i.path) == PathJson(j.path) && D.TypeJson(i.shape) == D.TypeJson(j.shape)
  {
    TextsDiffer();
    D.ThreeMembers(Member(FROM, FromJson(i)), Member(ID, Json.Str(i.id)), Member(TYPE, D.TypeJson(i.shape)),
                   Member(FROM, FromJson(j)), Member(ID, Json.Str(j.id)), Member(TYPE, D.TypeJson(j.shape)));
    D.TwoMembers(Member(PATH, Arr(PathJson(i.path))), Member(ROOT, Json.Str(RootText(i.root))),
                 Member(PATH, Arr(PathJson(j.path))), Member(ROOT, Json.Str(RootText(j.root))));
  }

  lemma {:induction false} InputCanonical(i: Input, j: Input)
    ensures InputJson(i) == InputJson(j) ==> InputAlike(i, j)
    ensures SettledInput(i) && InputAlike(i, j) ==> InputJson(i) == InputJson(j)
  {
    InputJsonIs(i, j);
    PathCanonical(i.path, j.path);
    D.TypeCanonical(i.shape, j.shape);
  }

  lemma {:induction false} InputsName(xs: seq<Input>, ys: seq<Input>)
    ensures ValuesName(InputItems(xs), InputItems(ys))
  {
    var ks, ls := InputItems(xs), InputItems(ys);
    forall k, l | k in ks && l in ls && k.value == l.value ensures k.name == l.name {
      var i :| 0 <= i < |ks| && ks[i] == k;
      var j :| 0 <= j < |ls| && ls[j] == l;
      InputJsonIs(xs[i], ys[j]);
    }
  }

  lemma {:induction false} InputsCanonical(xs: seq<Input>, ys: seq<Input>)
    ensures Arranged(InputItems(xs)) == Arranged(InputItems(ys)) ==> Rearranged(xs, ys, InputAlike)
    ensures SettledInputs(xs) && Rearranged(xs, ys, InputAlike) ==> Arranged(InputItems(xs)) == Arranged(InputItems(ys))
  {
    var ks, ls := InputItems(xs), InputItems(ys);
    InputsName(xs, ys);
    InputsReflect(xs, ys);
    ArrangedBy(xs, ys, ks, ls, InputAlike);
  }

  lemma {:induction false} InputsReflect(xs: seq<Input>, ys: seq<Input>)
    ensures ItemsReflect(xs, ys, InputItems(xs), InputItems(ys), InputAlike)
    ensures SettledInputs(xs) ==> ItemsPreserve(xs, ys, InputItems(xs), InputItems(ys), InputAlike)
  {
    var ks, ls := InputItems(xs), InputItems(ys);
    forall i, j | 0 <= i < |xs| && 0 <= j < |ys|
      ensures ks[i] == ls[j] ==> InputAlike(xs[i], ys[j])
      ensures SettledInput(xs[i]) && InputAlike(xs[i], ys[j]) ==> ks[i] == ls[j]
    {
      InputCanonical(xs[i], ys[j]);
    }
  }

  // ----- Actions -----

  lemma {:induction false} ActionJsonIs(a: Action, b: Action)
    ensures ActionJson(a) == ActionJson(b)
       <==> a.id == b.id && a.phase == b.phase && a.wireAction == b.wireAction && multiset(a.aliases) == multiset(b.aliases)
            && Arranged(InputItems(a.inputs)) == Arranged(InputItems(b.inputs))
  {
    TextsDiffer();
    TextsArranged(a.aliases, b.aliases);
    var x, y := ActionMembers(a), ActionMembers(b);
    if ActionJson(a) == ActionJson(b) {
      assert x[0] == y[0] && x[1] == y[1] && x[2] == y[2] && x[3] == y[3] && x[4] == y[4];
    }
  }

  lemma {:induction false} ActionCanonical(a: Action, b: Action)
    ensures ActionJson(a) == ActionJson(b) ==> ActionAlike(a, b)
    ensures SettledAction(a) && ActionAlike(a, b) ==> ActionJson(a) == ActionJson(b)
  {
    ActionJsonIs(a, b);
    InputsCanonical(a.inputs, b.inputs);
  }

  lemma {:induction false} ActionsName(xs: seq<Action>, ys: seq<Action>)
    ensures ValuesName(ActionItems(xs), ActionItems(ys))
  {
    var ks, ls := ActionItems(xs), ActionItems(ys);
    forall k, l | k in ks && l in ls && k.value == l.value ensures k.name == l.name {
      var i :| 0 <= i < |ks| && ks[i] == k;
      var j :| 0 <= j < |ls| && ls[j] == l;
      ActionJsonIs(xs[i], ys[j]);
    }
  }

  lemma {:induction false} ActionsUnrepeated(xs: seq<Action>)
    requires SettledActions(xs)
    ensures Unrepeated(ActionItems(xs))
  {
    var ks := ActionItems(xs);
    forall k, l | k in ks && l in ks && k.name == l.name ensures k == l {
      var i :| 0 <= i < |ks| && ks[i] == k;
      var j :| 0 <= j < |ks| && ks[j] == l;
      assert i == j;
    }
  }

  lemma {:induction false} ActionsCanonical(xs: seq<Action>, ys: seq<Action>)
    ensures Arranged(ActionItems(xs)) == Arranged(ActionItems(ys)) ==> Rearranged(xs, ys, ActionAlike)
    ensures SettledActions(xs) && Rearranged(xs, ys, ActionAlike) ==> Arranged(ActionItems(xs)) == Arranged(ActionItems(ys))
  {
    var ks, ls := ActionItems(xs), ActionItems(ys);
    ActionsName(xs, ys);
    forall i, j | 0 <= i < |xs| && 0 <= j < |ys|
      ensures ks[i] == ls[j] ==> ActionAlike(xs[i], ys[j])
      ensures SettledAction(xs[i]) && ActionAlike(xs[i], ys[j]) ==> ks[i] == ls[j]
    {
      ActionCanonical(xs[i], ys[j]);
    }
    assert ItemsReflect(xs, ys, ks, ls, ActionAlike);
    ArrangedBy(xs, ys, ks, ls, ActionAlike);
    if SettledActions(xs) {
      ActionsUnrepeated(xs);
      assert ItemsPreserve(xs, ys, ks, ls, ActionAlike);
    }
  }

  // ----- Observations -----

  lemma {:induction false} ObservationJsonIs(o: Observation, u: Observation)
    ensures ObservationJson(o) == ObservationJson(u)
       <==> o.id == u.id && o.wireName == u.wireName && D.TypeJson(o.shape) == D.TypeJson(u.shape)
  {
    var x, y := ObservationMembers(o), ObservationMembers(u);
    if ObservationJson(o) == ObservationJson(u) {
      assert x[0] == y[0] && x[2] == y[2] && x[3] == y[3];
    }
  }

  lemma {:induction false} ObservationCanonical(o: Observation, u: Observation)
    ensures ObservationJson(o) == ObservationJson(u) ==> ObservationAlike(o, u)
    ensures D.DistinctType(o.shape) && ObservationAlike(o, u) ==> ObservationJson(o) == ObservationJson(u)
  {
    ObservationJsonIs(o, u);
    D.TypeCanonical(o.shape, u.shape);
  }

  lemma {:induction false} ObservationsName(xs: seq<Observation>, ys: seq<Observation>)
    ensures ValuesName(ObservationItems(xs), ObservationItems(ys))
  {
    var ks, ls := ObservationItems(xs), ObservationItems(ys);
    forall k, l | k in ks && l in ls && k.value == l.value ensures k.name == l.name {
      var i :| 0 <= i < |ks| && ks[i] == k;
      var j :| 0 <= j < |ls| && ls[j] == l;
      ObservationJsonIs(xs[i], ys[j]);
    }
  }

  lemma {:induction false} ObservationsUnrepeated(xs: seq<Observation>)
    requires DistinctObservations(xs)
    ensures Unrepeated(ObservationItems(xs))
  {
    var ks := ObservationItems(xs);
    forall k, l | k in ks && l in ks && k.name == l.name ensures k == l {
      var i :| 0 <= i < |ks| && ks[i] == k;
      var j :| 0 <= j < |ks| && ks[j] == l;
      assert i == j;
    }
  }

  lemma {:induction false} ObservationsCanonical(xs: seq<Observation>, ys: seq<Observation>)
    ensures Arranged(ObservationItems(xs)) == Arranged(ObservationItems(ys)) ==> Rearranged(xs, ys, ObservationAlike)
    ensures DistinctObservations(xs) && Rearranged(xs, ys, ObservationAlike)
            ==> Arranged(ObservationItems(xs)) == Arranged(ObservationItems(ys))
  {
    var ks, ls := ObservationItems(xs), ObservationItems(ys);
    ObservationsName(xs, ys);
    forall i, j | 0 <= i < |xs| && 0 <= j < |ys|
      ensures ks[i] == ls[j] ==> ObservationAlike(xs[i], ys[j])
      ensures D.DistinctType(xs[i].shape) && ObservationAlike(xs[i], ys[j]) ==> ks[i] == ls[j]
    {
      ObservationCanonical(xs[i], ys[j]);
    }
    assert ItemsReflect(xs, ys, ks, ls, ObservationAlike);
    ArrangedBy(xs, ys, ks, ls, ObservationAlike);
    if DistinctObservations(xs) {
      ObservationsUnrepeated(xs);
      assert ItemsPreserve(xs, ys, ks, ls, ObservationAlike);
    }
  }

  // ----- Descriptors -----

  lemma {:induction false} ProfileCanonical(p: Profile, q: Profile)
    ensures Obj(ProfileMembers(p)) == Obj(ProfileMembers(q)) <==> ProfileAlike(p, q)
  {
    TextsArranged(p.effectiveVars, q.effectiveVars);
    TextsArranged(p.itfVars, q.itfVars);
    var x, y := ProfileMembers(p), ProfileMembers(q);
    if Obj(x) == Obj(y) {
      assert x[1] == y[1] && x[2] == y[2] && x[3] == y[3];
    }
  }

  lemma {:induction false} CanonicalIs(d: Descriptor, e: Descriptor)
    ensures Canonical(d) == Canonical(e)
       <==> d.version == e.version && d.model == e.model && ProfileAlike(d.profile, e.profile)
            && Arranged(ActionItems(d.initializers)) == Arranged(ActionItems(e.initializers))
            && Arranged(ActionItems(d.actions)) == Arranged(ActionItems(e.actions))
            && Arranged(ObservationItems(d.observations)) == Arranged(ObservationItems(e.observations))
  {
    ProfileCanonical(d.profile, e.profile);
    D.OneMember(Member(MODULE, Json.Str(d.model)), Member(MODULE, Json.Str(e.model)));
    var x, y := DescriptorMembers(d), DescriptorMembers(e);
    if Canonical(d) == Canonical(e) {
      assert x[0] == y[0] && x[2] == y[2] && x[3] == y[3] && x[4] == y[4] && x[5] == y[5] && x[7] == y[7];
    }
  }

  /** Two descriptors share their canonical JSON only if they differ by nothing but
      order; and if they do so differ, provided one of them is settled. */
  lemma {:induction false} CanonicalIffAlike(d: Descriptor, e: Descriptor)
    ensures Canonical(d) == Canonical(e) ==> Alike(d, e)
    ensures Settled(d) && Alike(d, e) ==> Canonical(d) == Canonical(e)
  {
    CanonicalIs(d, e);
    ActionsCanonical(d.initializers, e.initializers);
    ActionsCanonical(d.actions, e.actions);
    ObservationsCanonical(d.observations, e.observations);
  }

  // ----- The canonical text -----

  lemma {:induction false} TypePrintable(t: ModelType)
    ensures Integral(D.TypeJson(t))
    decreases t, 1
  {
    match t
    case SetType(e) => TypePrintable(e);
    case SeqType(e) => TypePrintable(e);
    case TupleType(es) => forall i | 0 <= i < |es| ensures Integral(D.TypeJsons(es)[i]) { TypePrintable(es[i]); }
    case RecordType(fs) => LabelsPrintable(fs, D.TYPE, D.WIRE_NAME);
    case MapType(k, v) =>
      TypePrintable(k);
      TypePrintable(v);
    case VariantType(cs) => LabelsPrintable(cs, D.PAYLOAD, D.TAG);
    case _ =>
  }

  lemma {:induction false} LabelsPrintable(ls: seq<Labelled>, inner: Text, name: Text)
    ensures forall i :: 0 <= i < |ls| ==> Integral(Arranged(D.LabelItems(ls, inner, name))[i])
    decreases ls, 0
  {
    var ks := D.LabelItems(ls, inner, name);
    forall i | 0 <= i < |ls| ensures Integral(ks[i].value) { LabelPrintable(ls[i], inner, name); }
    L.ArrangedIntegral(ks);
  }

  lemma {:induction false} LabelPrintable(l: Labelled, inner: Text, name: Text)
    ensures Integral(D.LabelJson(l, inner, name))
    decreases l, 2
  {
    TypePrintable(l.inner);
  }

  lemma {:induction false} InputPrintable(i: Input)
    ensures Integral(InputJson(i))
  {
    forall k | 0 <= k < |i.path| ensures Integral(PathJson(i.path)[k]) {
      SegmentKey(i.path[k]);
      if i.path[k].KeySegment? { L.CanoniseIntegral(i.path[k].key); }
    }
    assert Integral(Arr(PathJson(i.path)));
    assert Integral(FromJson(i));
    TypePrintable(i.shape);
  }

  lemma {:induction false} TextsPrintable(ts: seq<Text>)
    ensures Integral(Arr(Arranged(TextItems(ts))))
  {
    L.ArrangedIntegral(TextItems(ts));
  }

  lemma {:induction false} ActionPrintable(a: Action)
    ensures Integral(ActionJson(a))
  {
    forall i | 0 <= i < |a.inputs| ensures Integral(InputItems(a.inputs)[i].value) { InputPrintable(a.inputs[i]); }
    L.ArrangedIntegral(InputItems(a.inputs));
    assert Integral(Arr(Arranged(InputItems(a.inputs))));
    TextsPrintable(a.aliases);
  }

  lemma {:induction false} ActionsPrintable(actions: seq<Action>)
    ensures Integral(Arr(Arranged(ActionItems(actions))))
  {
    forall i | 0 <= i < |actions| ensures Integral(ActionItems(actions)[i].value) { ActionPrintable(actions[i]); }
    L.ArrangedIntegral(ActionItems(actions));
  }

  lemma {:induction false} ObservationsPrintable(os: seq<Observation>)
    ensures Integral(Arr(Arranged(ObservationItems(os))))
  {
    forall i | 0 <= i < |os| ensures Integral(ObservationItems(os)[i].value) {
      TypePrintable(os[i].shape);
      var ms := ObservationMembers(os[i]);
      assert forall k :: 0 <= k < |ms| ==> Integral(ms[k].value);
    }
    L.ArrangedIntegral(ObservationItems(os));
  }

  lemma {:induction false} DescriptorPrintable(d: Descriptor)
    ensures Integral(Canonical(d))
  {
    ActionsPrintable(d.initializers);
    ActionsPrintable(d.actions);
    ObservationsPrintable(d.observations);
    TextsPrintable(d.profile.effectiveVars);
    TextsPrintable(d.profile.itfVars);
    assert Integral(Obj(ProfileMembers(d.profile)));
    var ms := DescriptorMembers(d);
    assert forall k :: 0 <= k < |ms| ==> Integral(ms[k].value);
  }

  /** The text that is hashed into the semantic digest. */
  function CanonicalText(d: Descriptor): Text {
    Render(Canonical(d), Compress)
  }

  /** Canonical texts are equal exactly for descriptors equal up to order. */
  lemma {:induction false} CanonicalTextIffAlike(d: Descriptor, e: Descriptor)
    ensures CanonicalText(d) == CanonicalText(e) ==> Alike(d, e)
    ensures Settled(d) ==> (CanonicalText(d) == CanonicalText(e) <==> Alike(d, e))
  {
    DescriptorPrintable(d);
    DescriptorPrintable(e);
    SameTextSameTree(Canonical(d), Canonical(e), Compress);
    CanonicalIffAlike(d, e);
  }
}
