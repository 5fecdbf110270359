/** Small valid descriptors around one map key. */
module KeyDescriptors {
  import opened Wrappers
  import opened JsonText
  import opened UnicodeOrder
  import opened ModelTypes
  import opened Descriptors
  import opened CanonicalDescriptor
  import opened DescriptorLimits
  import opened RenderedCost
  import D = DescriptorJson
  import L = LiteralJson
  import DescriptorNesting
  import Sorting

  const KEY_COST := 20_000

  /** One initializer, with one input, found under this key. */
  function KeyInput(key: Literal): Input { Input([0x49], Initialize, [KeySegment(key)], NullType) }

  function KeyAction(key: Literal): Action { Action([0x41], Initialize, [0x77], [], [KeyInput(key)]) }

  function KeyDescriptor(key: Literal): Descriptor {
    Descriptor([0x30, 0x2E, 0x30, 0x2E, 0x30], [0x4D], Profile(None, [], []), [KeyAction(key)], [], [])
  }

  lemma {:induction false} ShortAscii(t: Text)
    requires |t| <= 256 && forall i :: 0 <= i < |t| ==> t[i] < 0x80
    ensures ShortText(t)
  {
    AsciiLength(t);
    DescriptorNesting.WordPaired(t);
  }

  lemma {:induction false} VersionText()
    ensures InterfaceVersion([0x30, 0x2E, 0x30, 0x2E, 0x30])
  {
    var s: Text := [0x30, 0x2E, 0x30, 0x2E, 0x30];
    assert DigitSpan(s) == 1;
    assert s[2..] == [0x30, 0x2E, 0x30];
    assert DigitSpan(s[2..]) == 1;
    assert s[2..][2..] == [0x30];
    assert DigitSpan([0x30]) == 1;
  }

  lemma {:induction false} KeyActionValid(key: Literal)
    requires ValidLiteral(key, MAX_LITERAL_DEPTH)
    ensures ValidAction(KeyAction(key), Initialize)
  {
    ShortAscii([0x49]);
    ShortAscii([0x41]);
    ShortAscii([0x77]);
  }

  lemma {:induction false} HeaderTexts()
    ensures ShortText([0x30, 0x2E, 0x30, 0x2E, 0x30]) && ShortText([0x4D]) && ModuleName([0x4D])
  {
    ShortAscii([0x30, 0x2E, 0x30, 0x2E, 0x30]);
    ShortAscii([0x4D]);
  }

  lemma {:induction false} KeyHeaderValid(key: Literal)
    ensures ValidHeader(KeyDescriptor(key))
  {
    VersionText();
    HeaderTexts();
  }

  lemma {:induction false} KeyNodes(key: Literal)
    ensures TotalNodes(KeyDescriptor(key)) == 1
  {
    var a := KeyAction(key);
    assert NodesOf([a])[1..] == [] && InputNodes([KeyInput(key)])[1..] == [];
    assert NodesOf([]) == [] && ObservationNodes([]) == [];
  }

  lemma {:induction false} ArrangedOne(k: Keyed)
    ensures Arranged([k]) == [k.value] && Arranged([]) == []
  {
    assert [k][1..] == [] && Sorting.SortBy([k], ByName) == [k];
    assert Sorting.SortBy([], ByName) == [];
  }

  // ----- What it weighs -----

  lemma {:induction false} ObjectCost(ms: seq<Member>, k: int, light: nat, heavy: nat)
    requires forall i :: 0 <= i < |ms| && i != k ==> MemberCost(ms[i]) < light
    requires 0 <= k < |ms| ==> MemberCost(ms[k]) < heavy
    ensures Cost(Obj(ms)) <= 2 + |ms| * light + if 0 <= k < |ms| then heavy else 0
  {
    OneHeavy(ms, k, light, heavy);
  }

  lemma {:induction false} SegmentCost(key: Literal)
    ensures Cost(SegmentJson(KeySegment(key))) <= Cost(L.Canonise(key)) + 50
  {
    assert |MAP_KEY| == 6;
    ObjectCost([Member(MAP_KEY, L.Canonise(key))], 0, 0, Cost(L.Canonise(key)) + 40);
  }

  lemma {:induction false} FromCost(key: Literal)
    ensures Cost(FromJson(KeyInput(key))) <= Cost(L.Canonise(key)) + 350
  {
    assert |PATH| == 4 && |ROOT| == 4 && |INITIAL_STATE| == 12;
    SegmentCost(key);
    var path := SegmentJson(KeySegment(key));
    assert PathJson(KeyInput(key).path) == [path];
    OneItem(path);
    ObjectCost([Member(PATH, Arr([path])), Member(ROOT, Json.Str(INITIAL_STATE))], 0, 102, Cost(L.Canonise(key)) + 90);
  }

  lemma {:induction false} NullTypeCost()
    ensures Cost(D.TypeJson(NullType)) <= 60
  {
    assert |D.KIND| == 4;
    ObjectCost([D.KindMember(D.TypeTag(NullType))], 0, 0, 55);
  }

  lemma {:induction false} InputCost(key: Literal)
    ensures Cost(InputJson(KeyInput(key))) <= Cost(L.Canonise(key)) + 700
  {
    assert |FROM| == 4 && |ID| == 2 && |TYPE| == 4;
    FromCost(key);
    NullTypeCost();
    var i := KeyInput(key);
    ObjectCost([Member(FROM, FromJson(i)), Member(ID, Json.Str(i.id)), Member(TYPE, D.TypeJson(NullType))], 0, 90, Cost(L.Canonise(key)) + 390);
  }

  lemma {:induction false} FiveCost(a: Member, b: Member, c: Member, d: Member, e: Member, heavy: nat)
    requires MemberCost(a) < 100 && MemberCost(b) < heavy && MemberCost(c) < 100 && MemberCost(d) < 100 && MemberCost(e) < 100
    ensures Cost(Obj([a, b, c, d, e])) <= 502 + heavy
  {
    ObjectCost([a, b, c, d, e], 1, 100, heavy);
  }

  lemma {:induction false} TwoCost(a: Member, b: Member, light: nat)
    requires MemberCost(a) < light && MemberCost(b) < light
    ensures Cost(Obj([a, b])) <= 2 + 2 * light
  {
    ObjectCost([a, b], -1, light, 0);
  }

  lemma {:induction false} ActionMembersCost(inputs: Json, bound: nat)
    requires Cost(inputs) <= bound
    ensures Cost(Obj([Member(ID, Json.Str([0x41])), Member(INPUTS, inputs), Member(PHASE, Json.Str(INITIALIZE)),
                      Member(WIRE_ACTION, Json.Str([0x77])), Member(WIRE_ALIASES, Arr([]))])) <= bound + 600
  {
    assert |ID| == 2 && |INPUTS| == 6 && |PHASE| == 5 && |WIRE_ACTION| == 10 && |WIRE_ALIASES| == 11 && |INITIALIZE| == 10;
    FiveCost(Member(ID, Json.Str([0x41])), Member(INPUTS, inputs), Member(PHASE, Json.Str(INITIALIZE)),
      Member(WIRE_ACTION, Json.Str([0x77])), Member(WIRE_ALIASES, Arr([])), bound + 50);
  }

  lemma {:induction false} ActionCost(key: Literal)
    ensures Cost(ActionJson(KeyAction(key))) <= Cost(L.Canonise(key)) + 1_350
  {
    InputCost(key);
    var item := Keyed([0x49], InputJson(KeyInput(key)));
    assert InputItems([KeyInput(key)]) == [item] && TextItems([]) == [];
    ArrangedOne(item);
    OneItem(item.value);
    ActionMembersCost(Arr([item.value]), Cost(L.Canonise(key)) + 703);
  }

  lemma {:induction false} ProfileCost()
    ensures Cost(Obj(ProfileMembers(Profile(None, [], [])))) <= 800
  {
    assert |ACTION_VARIABLE| == 14 && |CONFIGURED| == 18 && |EFFECTIVE| == 18 && |ITF| == 12 && |ACTION_TAKEN| == 12;
    ArrangedOne(Keyed([], Json.Null));
    assert TextItems([]) == [];
    AsciiLength(NULL);
    OneItem(Json.Null);
    ObjectCost(ProfileMembers(Profile(None, [], [])), -1, 180, 0);
  }

  lemma {:induction false} LongWords()
    ensures |ACTIONS| <= 40 && |COMPARISON| <= 40 && |INITIALIZERS| == 12 && |INTERFACE_VERSION| <= 40 && |MODEL| <= 40 && |MODULE| == 6
    ensures |OBSERVATIONS| <= 40 && |RESOLVER| <= 40 && |RUN_PROFILE| == 10 && |SCHEMA| <= 40
    ensures |COMPARISON_VERSION| <= 40 && |RESOLVER_VERSION| <= 40 && |DESCRIPTOR_SCHEMA| <= 40
  {
  }

  lemma {:induction false} TextMember(key: Text, t: Text)
    requires |key| <= 40 && |t| <= 40
    ensures MemberCost(Member(key, Json.Str(t))) < 900
  {
  }

  lemma {:induction false} NineCost(a: Member, b: Member, c: Member, d: Member, e: Member, f: Member, g: Member, h: Member, i: Member, heavy: nat)
    requires MemberCost(a) < 900 && MemberCost(b) < 900 && MemberCost(d) < 900 && MemberCost(e) < 900 && MemberCost(f) < 900
    requires MemberCost(g) < 900 && MemberCost(h) < 900 && MemberCost(i) < 900 && MemberCost(c) < heavy
    ensures Cost(Obj([a, b, c, d, e, f, g, h, i])) <= 8_102 + heavy
  {
    ObjectCost([a, b, c, d, e, f, g, h, i], 2, 900, heavy);
  }

  lemma {:induction false} DescriptorMembersCost(inits: Json, profile: Json, none: Json, bound: nat)
    requires Cost(inits) <= bound && Cost(profile) <= 800 && Cost(none) == 2
    ensures Cost(Obj([Member(ACTIONS, none), Member(COMPARISON, Json.Str(COMPARISON_VERSION)), Member(INITIALIZERS, inits),
                      Member(INTERFACE_VERSION, Json.Str([0x30, 0x2E, 0x30, 0x2E, 0x30])), Member(MODEL, Obj([Member(MODULE, Json.Str([0x4D]))])),
                      Member(OBSERVATIONS, none), Member(RESOLVER, Json.Str(RESOLVER_VERSION)), Member(RUN_PROFILE, profile),
                      Member(SCHEMA, Json.Str(DESCRIPTOR_SCHEMA))])) <= bound + 9_000
  {
    LongWords();
    TextMember(COMPARISON, COMPARISON_VERSION);
    TextMember(INTERFACE_VERSION, [0x30, 0x2E, 0x30, 0x2E, 0x30]);
    TextMember(RESOLVER, RESOLVER_VERSION);
    TextMember(SCHEMA, DESCRIPTOR_SCHEMA);
    ObjectCost([Member(MODULE, Json.Str([0x4D]))], 0, 0, 60);
    NineCost(Member(ACTIONS, none), Member(COMPARISON, Json.Str(COMPARISON_VERSION)), Member(INITIALIZERS, inits),
      Member(INTERFACE_VERSION, Json.Str([0x30, 0x2E, 0x30, 0x2E, 0x30])), Member(MODEL, Obj([Member(MODULE, Json.Str([0x4D]))])),
      Member(OBSERVATIONS, none), Member(RESOLVER, Json.Str(RESOLVER_VERSION)), Member(RUN_PROFILE, profile),
      Member(SCHEMA, Json.Str(DESCRIPTOR_SCHEMA)), bound + 100);
  }

  lemma {:induction false} KeyDescriptorCost(key: Literal)
    ensures Cost(Canonical(KeyDescriptor(key))) <= Cost(L.Canonise(key)) + 10_353
  {
    ActionCost(key);
    ProfileCost();
    var item := Keyed([0x41], ActionJson(KeyAction(key)));
    assert ActionItems([KeyAction(key)]) == [item] && ActionItems([]) == [] && ObservationItems([]) == [];
    ArrangedOne(item);
    OneItem(item.value);
    DescriptorMembersCost(Arr([item.value]), Obj(ProfileMembers(Profile(None, [], []))), Arr([]), Cost(L.Canonise(key)) + 1_353);
  }

  lemma {:induction false} KeyLimits(key: Literal)
    requires Cost(L.Canonise(key)) <= KEY_COST
    ensures WithinLimits(KeyDescriptor(key))
  {
    KeyNodes(key);
    KeyDescriptorCost(key);
    CostBounds(Canonical(KeyDescriptor(key)), Compress);
  }

  lemma {:induction false} KeyBehaviourValid(key: Literal)
    requires ValidLiteral(key, MAX_LITERAL_DEPTH)
    ensures ValidBehaviour([KeyAction(key)], []) && ValidObservations([]) && ValidProfile(Profile(None, [], []))
  {
    KeyActionValid(key);
    assert ValidActions([KeyAction(key)], Initialize) && ValidActions([], Transition);
  }

  lemma {:induction false} KeyDescriptorValid(key: Literal)
    requires Cost(L.Canonise(key)) <= KEY_COST
    requires ValidLiteral(key, MAX_LITERAL_DEPTH)
    ensures Valid(KeyDescriptor(key))
  {
    KeyHeaderValid(key);
    KeyBehaviourValid(key);
    KeyLimits(key);
  }
}

/** Exactly which valid descriptors come back from their own canonical text. */
module DescriptorParsing {
  import opened Wrappers
  import opened JsonText
  import opened ModelTypes
  import opened Descriptors
  import opened CanonicalDescriptor
  import opened DescriptorLimits
  import opened KeyDescriptors
  import opened RenderedCost
  import D = DescriptorJson
  import L = LiteralJson
  import DescriptorNesting
  import DescriptorReader
  import StrictJson
  import P = StrictJsonRoundTrip

  lemma {:induction false} ParsesIfKeysNest(d: Descriptor)
    requires Valid(d)
    ensures StrictJson.ParseText(CanonicalText(d)) == if DescriptorNesting.KeysNest(d) then Some(Canonical(d)) else None
  {
    DescriptorNesting.DescriptorFit(d);
    DescriptorNesting.ProperPrintable(Canonical(d));
    DescriptorNesting.AcceptableIfNests(Canonical(d), StrictJson.MAX_JSON_DEPTH);
    P.ParserUndoesPrinter(Canonical(d));
  }

  /** Parsing the canonical text of a valid descriptor gives a descriptor with the same
      canonical text if the map keys in its paths are shallow enough for the strict
      parser, and is rejected otherwise. */
  lemma {:induction false} CanonicalTextParses(d: Descriptor)
    requires Valid(d)
    ensures var b := DescriptorReader.ParseDescriptor(CanonicalText(d));
      if DescriptorNesting.KeysNest(d) then b.Some? && CanonicalText(b.value) == CanonicalText(d) && Alike(d, b.value) else b.None?
  {
    ParsesIfKeysNest(d);
    DescriptorReader.CanonicalIsNormal(d);
  }

  // ----- Valid descriptors that do not come back -----

  /** Lists inside each other. */
  function Deep(n: nat): Literal { if n == 0 then NullLit else SeqLit([Deep(n - 1)]) }

  lemma {:induction false} DeepNests(n: nat, room: int)
    ensures DescriptorNesting.LiteralNests(Deep(n), room) <==> room > 2 * n
  {
    if n > 0 {
      DeepNests(n - 1, room - 2);
      assert Deep(n).values[0] == Deep(n - 1);
    }
  }

  lemma {:induction false} DeepValid(n: nat, room: int)
    requires room > n
    ensures ValidLiteral(Deep(n), room)
  {
    if n > 0 { DeepValid(n - 1, room - 1); }
  }

  lemma {:induction false} DeepCost(n: nat)
    ensures Cost(L.Canonise(Deep(n))) <= 150 * n + 100
  {
    assert |D.KIND| == 4 && |D.VALUES| == 6;
    var kind := D.KindMember(L.LiteralTag(Deep(n)));
    if n == 0 {
      ObjectCost([kind], -1, 60, 0);
    } else {
      DeepCost(n - 1);
      var inner := L.Canonise(Deep(n - 1));
      assert L.Canonised([Deep(n - 1)]) == [inner];
      OneItem(inner);
      ObjectCost([kind, Member(D.VALUES, Arr([inner]))], 1, 49, 42 + Cost(inner) + 1);
    }
  }

  lemma {:induction false} KeyActionNests(n: nat, room: int)
    ensures DescriptorNesting.ActionNests(KeyAction(Deep(n)), room) <==> room > 2 * n
  {
    DeepNests(n, room);
    var i := KeyInput(Deep(n));
    assert DescriptorNesting.InputNests(i, room) <==> DescriptorNesting.SegmentNests(i.path[0], room);
    assert DescriptorNesting.ActionNests(KeyAction(Deep(n)), room) <==> DescriptorNesting.InputNests(KeyAction(Deep(n)).inputs[0], room);
  }

  lemma {:induction false} KeyDescriptorNests(n: nat)
    ensures DescriptorNesting.KeysNest(KeyDescriptor(Deep(n))) <==> n < 60
  {
    KeyActionNests(n, 120);
    var d := KeyDescriptor(Deep(n));
    assert DescriptorNesting.ActionsNest(d.initializers, 120) <==> DescriptorNesting.ActionNests(d.initializers[0], 120);
  }

  /** Literals may nest 128 deep in a valid descriptor, but a key that is sixty lists
      deep makes its canonical text unreadable. */
  lemma {:induction false} DeepKeysRejected(n: nat)
    requires n < MAX_LITERAL_DEPTH
    ensures Valid(KeyDescriptor(Deep(n)))
    ensures DescriptorReader.ParseDescriptor(CanonicalText(KeyDescriptor(Deep(n)))).Some? <==> n < 60
  {
    DeepValid(n, MAX_LITERAL_DEPTH);
    DeepCost(n);
    KeyDescriptorValid(Deep(n));
    CanonicalTextParses(KeyDescriptor(Deep(n)));
    KeyDescriptorNests(n);
  }
}
