/** How deep canonical descriptors nest, and that nothing else in them can trouble
    the strict parser. */
module DescriptorNesting {
  import opened JsonText
  import opened UnicodeOrder
  import opened ModelTypes
  import opened Descriptors
  import opened CanonicalDescriptor
  import opened DescriptorLimits
  import D = DescriptorJson
  import L = LiteralJson
  import DescriptorReader
  import Sorting
  import StrictJson
  import TypeDecoder
  import P = StrictJsonRoundTrip

  /** Well-formed strings, distinct keys and safe integers, at any depth. */
  ghost predicate Proper(j: Json)
    decreases j
  {
    && !j.Frac?
    && (j.Num? ==> -StrictJson.MAX_SAFE_INTEGER <= j.n <= StrictJson.MAX_SAFE_INTEGER)
    && (j.Str? ==> P.Paired(j.s))
    && (j.Arr? ==> forall i :: 0 <= i < |j.items| ==> Proper(j.items[i]))
    && (j.Obj? ==> P.DistinctKeys(j.members))
    && (j.Obj? ==> forall i :: 0 <= i < |j.members| ==> P.Paired(j.members[i].key) && Proper(j.members[i].value))
  }

  /** At most `room` containers inside each other. */
  ghost predicate Nests(j: Json, room: int)
    decreases j
  {
    && (j.Arr? || j.Obj? ==> room > 0)
    && (j.Arr? ==> forall i :: 0 <= i < |j.items| ==> Nests(j.items[i], room - 1))
    && (j.Obj? ==> forall i :: 0 <= i < |j.members| ==> Nests(j.members[i].value, room - 1))
  }

  lemma {:induction false} ProperPrintable(j: Json)
    requires Proper(j)
    ensures P.Printable(j)
    decreases j
  {
    if j.Arr? { forall i | 0 <= i < |j.items| ensures P.Printable(j.items[i]) { ProperPrintable(j.items[i]); } }
    if j.Obj? { forall i | 0 <= i < |j.members| ensures P.Printable(j.members[i].value) { ProperPrintable(j.members[i].value); } }
  }

  /** Of a proper tree the parser minds only the nesting. */
  lemma {:induction false} AcceptableIfNests(j: Json, room: int)
    requires Proper(j)
    ensures P.Acceptable(j, room) <==> Nests(j, room)
    decreases j
  {
    if j.Arr? {
      forall i | 0 <= i < |j.items| ensures P.Acceptable(j.items[i], room - 1) <==> Nests(j.items[i], room - 1) {
        AcceptableIfNests(j.items[i], room - 1);
      }
    }
    if j.Obj? {
      forall i | 0 <= i < |j.members| ensures P.Acceptable(j.members[i].value, room - 1) <==> Nests(j.members[i].value, room - 1) {
        AcceptableIfNests(j.members[i].value, room - 1);
      }
    }
  }

  lemma {:induction false} NestsMore(j: Json, room: int, more: int)
    requires Nests(j, room) && room <= more
    ensures Nests(j, more)
    decreases j
  {
    if j.Arr? { forall i | 0 <= i < |j.items| ensures Nests(j.items[i], more - 1) { NestsMore(j.items[i], room - 1, more - 1); } }
    if j.Obj? {
      forall i | 0 <= i < |j.members| ensures Nests(j.members[i].value, more - 1) { NestsMore(j.members[i].value, room - 1, more - 1); }
    }
  }

  // ----- Building blocks -----

  ghost predicate Word(t: Text) { forall i :: 0 <= i < |t| ==> t[i] < 0x80 }

  lemma {:induction false} WordPaired(t: Text)
    requires Word(t)
    ensures P.Paired(t)
  {
    if t != [] {
      assert forall i :: 0 <= i < |t| - 1 ==> t[1..][i] == t[i + 1];
      WordPaired(t[1..]);
    }
  }

  lemma {:induction false} WordProper(t: Text)
    requires Word(t)
    ensures Proper(Json.Str(t))
  {
    WordPaired(t);
  }

  /** A member with a plain key and a proper value. */
  ghost predicate Fine(m: Member) { Word(m.key) && Proper(m.value) }

  /** Where a sorted item came from. */
  lemma {:induction false} ArrangedFrom(ks: seq<Keyed>, i: nat) returns (k: nat)
    requires i < |Arranged(ks)|
    ensures k < |ks| && Arranged(ks)[i] == ks[k].value
  {
    ArrangedItems(ks);
    assert Sorted(ks)[i] in ks;
    k :| k < |ks| && ks[k] == Sorted(ks)[i];
  }

  /** Where an item went. */
  lemma {:induction false} ArrangedTo(ks: seq<Keyed>, k: nat) returns (i: nat)
    requires k < |ks|
    ensures i < |Arranged(ks)| && Arranged(ks)[i] == ks[k].value
  {
    ArrangedItems(ks);
    assert ks[k] in Sorted(ks);
    i :| i < |Sorted(ks)| && Sorted(ks)[i] == ks[k];
  }

  lemma {:induction false} ArrangedProper(ks: seq<Keyed>)
    requires forall k :: 0 <= k < |ks| ==> Proper(ks[k].value)
    ensures Proper(Arr(Arranged(ks)))
  {
    forall i | 0 <= i < |Arranged(ks)| ensures Proper(Arranged(ks)[i]) { var k := ArrangedFrom(ks, i); }
  }

  lemma {:induction false} ArrangedNests(ks: seq<Keyed>, room: int)
    requires room > 0
    ensures Nests(Arr(Arranged(ks)), room) <==> forall k :: 0 <= k < |ks| ==> Nests(ks[k].value, room - 1)
  {
    if forall k :: 0 <= k < |ks| ==> Nests(ks[k].value, room - 1) {
      forall i | 0 <= i < |Arranged(ks)| ensures Nests(Arranged(ks)[i], room - 1) { var k := ArrangedFrom(ks, i); }
    }
    if Nests(Arr(Arranged(ks)), room) {
      forall k | 0 <= k < |ks| ensures Nests(ks[k].value, room - 1) { var i := ArrangedTo(ks, k); }
    }
  }

  lemma {:induction false} ArrangedBoth(ks: seq<Keyed>, room: int)
    requires forall k :: 0 <= k < |ks| ==> Proper(ks[k].value)
    ensures Proper(Arr(Arranged(ks)))
    ensures room > 0 ==> (Nests(Arr(Arranged(ks)), room) <==> forall k :: 0 <= k < |ks| ==> Nests(ks[k].value, room - 1))
  {
    ArrangedProper(ks);
    if room > 0 { ArrangedNests(ks, room); }
  }

  function Sorted(ks: seq<Keyed>): seq<Keyed> { Sorting.SortBy(ks, ByName) }

  lemma {:induction false} ArrangedItems(ks: seq<Keyed>)
    ensures Arranged(ks) == Values(Sorted(ks)) && forall k :: k in Sorted(ks) <==> k in ks
  {
    SortedMembers(ks);
  }

  lemma {:induction false} FineObject(ms: seq<Member>, room: int)
    requires P.DistinctKeys(ms) && forall i :: 0 <= i < |ms| ==> Fine(ms[i])
    ensures Proper(Obj(ms)) && (Nests(Obj(ms), room) <==> room > 0 && forall i :: 0 <= i < |ms| ==> Nests(ms[i].value, room - 1))
  {
    forall i | 0 <= i < |ms| ensures P.Paired(ms[i].key) && Proper(ms[i].value) {
      assert Fine(ms[i]);
      WordPaired(ms[i].key);
    }
  }

  lemma {:induction false} One(a: Member, room: int)
    requires Fine(a)
    ensures Proper(Obj([a])) && (Nests(Obj([a]), room) <==> room > 0 && Nests(a.value, room - 1))
  {
    var ms := [a];
    assert ms[0] == a;
    FineObject(ms, room);
  }

  lemma {:induction false} Two(a: Member, b: Member, room: int)
    requires Fine(a) && Fine(b) && a.key != b.key
    ensures Proper(Obj([a, b]))
    ensures Nests(Obj([a, b]), room) <==> room > 0 && Nests(a.value, room - 1) && Nests(b.value, room - 1)
  {
    var ms := [a, b];
    assert ms[0] == a && ms[1] == b;
    FineObject(ms, room);
  }

  lemma {:induction false} Three(a: Member, b: Member, c: Member, room: int)
    requires Fine(a) && Fine(b) && Fine(c) && a.key != b.key && a.key != c.key && b.key != c.key
    ensures Proper(Obj([a, b, c]))
    ensures Nests(Obj([a, b, c]), room) <==> room > 0 && Nests(a.value, room - 1) && Nests(b.value, room - 1) && Nests(c.value, room - 1)
  {
    var ms := [a, b, c];
    assert ms[0] == a && ms[1] == b && ms[2] == c;
    FineObject(ms, room);
  }

  lemma {:induction false} ToldDistinct(ms: seq<Member>, order: seq<Text>)
    requires |ms| == |order| && (forall i :: 0 <= i < |ms| ==> ms[i].key == order[i]) && DescriptorReader.Told(order)
    ensures P.DistinctKeys(ms)
  {
    forall i, j | 0 <= i < j < |ms| ensures ms[i].key != ms[j].key {
      assert DescriptorReader.Signature(order[i]) != DescriptorReader.Signature(order[j]);
    }
  }

  /** A member that names the kind of an object. */
  ghost predicate Naming(kind: Member) { Fine(kind) && kind.value.Str? }

  /** A key that goes with such a member. */
  ghost predicate Beside(key: Text, kind: Member) { Naming(kind) && Word(key) && key != kind.key }

  /** A value beside the kind, before it or after it. */
  lemma {:induction false} Held(key: Text, a: Json, kind: Member, room: int)
    requires Beside(key, kind) && Proper(a)
    ensures Proper(Obj([Member(key, a), kind])) && Proper(Obj([kind, Member(key, a)]))
    ensures Nests(Obj([Member(key, a), kind]), room) <==> room > 0 && Nests(a, room - 1)
    ensures Nests(Obj([kind, Member(key, a)]), room) <==> room > 0 && Nests(a, room - 1)
  {
    Two(Member(key, a), kind, room);
    Two(kind, Member(key, a), room);
  }

  lemma {:induction false} ListBoth(js: seq<Json>, room: int)
    requires forall i :: 0 <= i < |js| ==> Proper(js[i])
    ensures Proper(Arr(js)) && (Nests(Arr(js), room) <==> room > 0 && forall i :: 0 <= i < |js| ==> Nests(js[i], room - 1))
  {
  }

  /** A list beside the kind. */
  lemma {:induction false} Listed(key: Text, js: seq<Json>, kind: Member, room: int)
    requires Beside(key, kind) && forall i :: 0 <= i < |js| ==> Proper(js[i])
    ensures Proper(Obj([Member(key, Arr(js)), kind])) && Proper(Obj([kind, Member(key, Arr(js))]))
    ensures Nests(Obj([Member(key, Arr(js)), kind]), room) <==> room > 1 && forall i :: 0 <= i < |js| ==> Nests(js[i], room - 2)
    ensures Nests(Obj([kind, Member(key, Arr(js))]), room) <==> room > 1 && forall i :: 0 <= i < |js| ==> Nests(js[i], room - 2)
  {
    ListBoth(js, room - 1);
    Held(key, Arr(js), kind, room);
  }

  /** A sorted list beside the kind. */
  lemma {:induction false} Kept(key: Text, ks: seq<Keyed>, kind: Member, room: int)
    requires Beside(key, kind) && forall i :: 0 <= i < |ks| ==> Proper(ks[i].value)
    ensures var j := Arr(Arranged(ks)); Proper(Obj([Member(key, j), kind])) && Proper(Obj([kind, Member(key, j)]))
    ensures Nests(Obj([Member(key, Arr(Arranged(ks))), kind]), room) <==> room > 1 && forall i :: 0 <= i < |ks| ==> Nests(ks[i].value, room - 2)
    ensures Nests(Obj([kind, Member(key, Arr(Arranged(ks)))]), room) <==> room > 1 && forall i :: 0 <= i < |ks| ==> Nests(ks[i].value, room - 2)
  {
    ArrangedBoth(ks, room - 1);
    Held(key, Arr(Arranged(ks)), kind, room);
  }

  /** A pair of shallow values around the kind. */
  lemma {:induction false} Around(key: Text, a: Json, kind: Member, value: Text, b: Json, shallow: int, room: int)
    requires Beside(key, kind) && Beside(value, kind) && key != value && Proper(a) && Proper(b)
    requires 0 <= shallow < room && Nests(a, shallow) && Nests(b, shallow)
    ensures var j := Obj([Member(key, a), kind, Member(value, b)]); Proper(j) && Nests(j, room)
  {
    NestsMore(a, shallow, room - 1);
    NestsMore(b, shallow, room - 1);
    Three(Member(key, a), kind, Member(value, b), room);
  }

  // ----- Words -----

  lemma {:induction false} KindNames(tag: Text)
    requires Word(tag)
    ensures Naming(D.KindMember(tag)) && D.KindMember(tag).key == D.KIND
  {
    WordProper(tag);
  }

  lemma {:induction false} TypeWord(t: ModelType)
    ensures Naming(D.KindMember(D.TypeTag(t))) && D.KindMember(D.TypeTag(t)).key == D.KIND
  {
    KindNames(D.TypeTag(t));
  }

  lemma {:induction false} LiteralWord(l: Literal)
    ensures Naming(D.KindMember(L.LiteralTag(l))) && D.KindMember(L.LiteralTag(l)).key == D.KIND
  {
    KindNames(L.LiteralTag(l));
  }

  lemma {:induction false} TypeKeys(kind: Member)
    requires Naming(kind) && kind.key == D.KIND
    ensures Beside(D.ELEMENT, kind) && Beside(D.ELEMENTS, kind) && Beside(D.FIELDS, kind) && Beside(D.CASES, kind)
    ensures Beside(D.KEY, kind) && Beside(D.VALUE, kind) && Beside(D.DESCRIPTION, kind)
    ensures Word(D.TYPE) && Word(D.WIRE_NAME) && Word(D.PAYLOAD) && Word(D.TAG)
    ensures D.KEY != D.VALUE && D.TYPE != D.WIRE_NAME && D.PAYLOAD != D.TAG
  {
    TypeDecoder.KeysDiffer();
  }

  lemma {:induction false} LiteralKeys(kind: Member)
    requires Naming(kind) && kind.key == D.KIND
    ensures Beside(D.VALUE, kind) && Beside(D.VALUES, kind) && Beside(D.FIELDS, kind) && Beside(D.ENTRIES, kind)
    ensures Beside(D.PAYLOAD, kind) && Beside(D.TAG, kind)
    ensures D.PAYLOAD != D.TAG
  {
    TypeDecoder.KeysDiffer();
  }

  lemma {:induction false} EntryKeys()
    ensures Word(D.KEY) && Word(D.NAME) && Word(D.VALUE) && D.KEY != D.VALUE && D.NAME != D.VALUE
  {
    TypeDecoder.KeysDiffer();
  }

  // ----- Types -----

  /** A type of depth `room` nests at most three containers a level. */
  lemma {:induction false} TypeFits(t: ModelType, room: nat)
    requires ValidType(t, room)
    ensures Proper(D.TypeJson(t)) && Nests(D.TypeJson(t), 3 * room)
    decreases t, 1
  {
    var kind := D.KindMember(D.TypeTag(t));
    TypeWord(t);
    TypeKeys(kind);
    match t
    case SetType(e) => ElementFits(D.ELEMENT, e, room, kind);
    case SeqType(e) => ElementFits(D.ELEMENT, e, room, kind);
    case TupleType(es) => TupleFits(D.ELEMENTS, es, room, kind);
    case RecordType(fs) => LabelsFit(D.FIELDS, fs, D.TYPE, D.WIRE_NAME, room, kind);
    case MapType(k, v) =>
      TypeFits(k, room - 1);
      TypeFits(v, room - 1);
      Around(D.KEY, D.TypeJson(k), kind, D.VALUE, D.TypeJson(v), 3 * (room - 1), 3 * room);
    case VariantType(cs) => LabelsFit(D.CASES, cs, D.PAYLOAD, D.TAG, room, kind);
    case OpaqueType(d) => Held(D.DESCRIPTION, Json.Str(d), kind, 3 * room);
    case _ => One(kind, 3 * room);
  }

  lemma {:induction false} ElementFits(key: Text, e: ModelType, room: nat, kind: Member)
    requires ValidType(e, room - 1) && Beside(key, kind)
    ensures var j := Obj([Member(key, D.TypeJson(e)), kind]); Proper(j) && Nests(j, 3 * room)
    decreases e, 2
  {
    TypeFits(e, room - 1);
    NestsMore(D.TypeJson(e), 3 * (room - 1), 3 * room - 1);
    Held(key, D.TypeJson(e), kind, 3 * room);
  }

  lemma {:induction false} TupleFits(key: Text, es: seq<ModelType>, room: nat, kind: Member)
    requires room > 0 && (forall i :: 0 <= i < |es| ==> ValidType(es[i], room - 1)) && Beside(key, kind)
    ensures var j := Obj([Member(key, Arr(D.TypeJsons(es))), kind]); Proper(j) && Nests(j, 3 * room)
    decreases es, 0
  {
    var js := D.TypeJsons(es);
    forall i | 0 <= i < |es| ensures Proper(js[i]) && Nests(js[i], 3 * room - 2) { TypeFit(es[i], room - 1, 3 * room - 2); }
    Listed(key, js, kind, 3 * room);
  }

  /** The same with room to spare. */
  lemma {:induction false} TypeFit(t: ModelType, room: nat, more: int)
    requires ValidType(t, room) && 3 * room <= more
    ensures Proper(D.TypeJson(t)) && Nests(D.TypeJson(t), more)
    decreases t, 2
  {
    TypeFits(t, room);
    NestsMore(D.TypeJson(t), 3 * room, more);
  }

  lemma {:induction false} LabelsFit(list: Text, ls: seq<Labelled>, inner: Text, name: Text, room: nat, kind: Member)
    requires room > 0 && forall i :: 0 <= i < |ls| ==> ValidName(ls[i]) && ValidType(ls[i].inner, room - 1)
    requires Beside(list, kind) && Word(inner) && Word(name) && inner != name
    ensures var j := Obj([Member(list, Arr(Arranged(D.LabelItems(ls, inner, name)))), kind]); Proper(j) && Nests(j, 3 * room)
    decreases ls, 0
  {
    var ks := D.LabelItems(ls, inner, name);
    forall i | 0 <= i < |ls| ensures Proper(ks[i].value) && Nests(ks[i].value, 3 * room - 2) { LabelFits(ls[i], inner, name, room); }
    Kept(list, ks, kind, 3 * room);
  }

  lemma {:induction false} LabelFits(l: Labelled, inner: Text, name: Text, room: nat)
    requires ValidName(l) && ValidType(l.inner, room - 1) && Word(inner) && Word(name) && inner != name
    ensures Proper(D.LabelJson(l, inner, name)) && Nests(D.LabelJson(l, inner, name), 3 * room - 2)
    decreases l, 2
  {
    TypeFits(l.inner, room - 1);
    Two(Member(inner, D.TypeJson(l.inner)), Member(name, Json.Str(l.name)), 3 * room - 2);
  }

  // ----- Literals -----

  /** How many containers a literal's canonical form takes: one for a scalar or a
      variant, two for a list, three for the fields or entries of a record or map. */
  predicate LiteralNests(l: Literal, room: int)
    decreases l
  {
    room > 0 && match l
      case SetLit(vs) => room > 1 && forall i :: 0 <= i < |vs| ==> LiteralNests(vs[i], room - 2)
      case SeqLit(vs) => room > 1 && forall i :: 0 <= i < |vs| ==> LiteralNests(vs[i], room - 2)
      case TupleLit(vs) => room > 1 && forall i :: 0 <= i < |vs| ==> LiteralNests(vs[i], room - 2)
      case RecordLit(fs) => room > 1 && forall i :: 0 <= i < |fs| ==> room > 2 && LiteralNests(fs[i].value, room - 3)
      case MapLit(es) =>
        room > 1 && forall i :: 0 <= i < |es| ==> room > 2 && LiteralNests(es[i].key, room - 3) && LiteralNests(es[i].value, room - 3)
      case VariantLit(_, p) => LiteralNests(p, room - 1)
      case _ => true
  }

  ghost predicate LiteralFits(l: Literal, room: int) {
    Proper(L.Canonise(l)) && (Nests(L.Canonise(l), room) <==> LiteralNests(l, room))
  }

  lemma {:induction false} LiteralFit(l: Literal, depth: int, room: int)
    requires ValidLiteral(l, depth)
    ensures LiteralFits(l, room)
    decreases l, 2
  {
    LiteralWord(l);
    LiteralKeys(D.KindMember(L.LiteralTag(l)));
    if l.SetLit? {
      SetFit(l, depth, room);
    } else if l.SeqLit? || l.TupleLit? {
      ListFit(l, depth, room);
    } else if l.RecordLit? {
      FieldsFit(l, depth, room);
    } else if l.MapLit? {
      EntriesFit(l, depth, room);
    } else if l.VariantLit? {
      VariantFit(l, depth, room);
    } else {
      ScalarFit(l, depth, room);
    }
  }

  lemma {:induction false} ScalarFit(l: Literal, depth: int, room: int)
    requires ValidLiteral(l, depth) && (l.IntLit? || l.BoolLit? || l.StrLit? || l.NullLit?)
    requires Beside(D.VALUE, D.KindMember(L.LiteralTag(l)))
    ensures LiteralFits(l, room)
  {
    var kind := D.KindMember(L.LiteralTag(l));
    match l
    case IntLit(t) =>
      DecimalPaired(t);
      Held(D.VALUE, Json.Str(t), kind, room);
    case BoolLit(b) => Held(D.VALUE, Json.Bool(b), kind, room);
    case StrLit(s) => Held(D.VALUE, Json.Str(s), kind, room);
    case NullLit => One(kind, room);
  }

  lemma {:induction false} DecimalPaired(t: Text)
    requires DecimalText(t)
    ensures P.Paired(t)
  {
    var d := if t[0] == MINUS then t[1..] else t;
    DigitsSpanned(d);
    forall i | 0 <= i < |t| ensures t[i] < 0x80 { assert t[0] == MINUS && i > 0 ==> d[i - 1] == t[i]; }
    WordPaired(t);
  }

  lemma {:induction false} DigitsSpanned(d: Text)
    requires DigitSpan(d) == |d|
    ensures forall i :: 0 <= i < |d| ==> Digit(d[i])
  {
    if d != [] { DigitsSpanned(d[1..]); }
  }

  lemma {:induction false} VariantFit(l: Literal, depth: int, room: int)
    requires l.VariantLit? && ValidLiteral(l, depth)
    requires var kind := D.KindMember(L.LiteralTag(l)); Beside(D.PAYLOAD, kind) && Beside(D.TAG, kind) && D.PAYLOAD != D.TAG
    ensures LiteralFits(l, room)
    decreases l, 1
  {
    LiteralFit(l.payload, depth - 1, room - 1);
    Three(D.KindMember(L.LiteralTag(l)), Member(D.PAYLOAD, L.Canonise(l.payload)), Member(D.TAG, Json.Str(l.tag)), room);
  }

  lemma {:induction false} SetFit(l: Literal, depth: int, room: int)
    requires l.SetLit? && ValidLiteral(l, depth) && Beside(D.VALUES, D.KindMember(L.LiteralTag(l)))
    ensures LiteralFits(l, room)
    decreases l, 1
  {
    var vs, ks := l.values, L.SetItems(l.values);
    forall i | 0 <= i < |vs|
      ensures Proper(ks[i].value)
      ensures Nests(ks[i].value, room - 2) <==> LiteralNests(vs[i], room - 2)
    {
      LiteralFit(vs[i], depth - 1, room - 2);
    }
    Kept(D.VALUES, ks, D.KindMember(L.LiteralTag(l)), room);
  }

  lemma {:induction false} ListFit(l: Literal, depth: int, room: int)
    requires (l.SeqLit? || l.TupleLit?) && ValidLiteral(l, depth) && Beside(D.VALUES, D.KindMember(L.LiteralTag(l)))
    ensures LiteralFits(l, room)
    decreases l, 1
  {
    var vs, js := l.values, L.Canonised(l.values);
    forall i | 0 <= i < |vs|
      ensures Proper(js[i])
      ensures Nests(js[i], room - 2) <==> LiteralNests(vs[i], room - 2)
    {
      LiteralFit(vs[i], depth - 1, room - 2);
    }
    Listed(D.VALUES, js, D.KindMember(L.LiteralTag(l)), room);
  }

  lemma {:induction false} FieldsFit(l: Literal, depth: int, room: int)
    requires l.RecordLit? && ValidLiteral(l, depth) && Beside(D.FIELDS, D.KindMember(L.LiteralTag(l)))
    ensures LiteralFits(l, room)
    decreases l, 1
  {
    var fs, ks := l.fields, L.FieldItems(l.fields);
    forall i | 0 <= i < |fs|
      ensures Proper(ks[i].value)
      ensures Nests(ks[i].value, room - 2) <==> room > 2 && LiteralNests(fs[i].value, room - 3)
    {
      FieldFit(fs[i], depth - 1, room - 2);
    }
    Kept(D.FIELDS, ks, D.KindMember(L.LiteralTag(l)), room);
  }

  lemma {:induction false} FieldFit(f: LiteralField, depth: int, room: int)
    requires P.Paired(f.name) && ValidLiteral(f.value, depth)
    ensures Proper(L.FieldJson(f)) && (Nests(L.FieldJson(f), room) <==> room > 0 && LiteralNests(f.value, room - 1))
    decreases f, 3
  {
    EntryKeys();
    LiteralFit(f.value, depth, room - 1);
    Two(Member(D.NAME, Json.Str(f.name)), Member(D.VALUE, L.Canonise(f.value)), room);
  }

  lemma {:induction false} EntriesFit(l: Literal, depth: int, room: int)
    requires l.MapLit? && ValidLiteral(l, depth) && Beside(D.ENTRIES, D.KindMember(L.LiteralTag(l)))
    ensures LiteralFits(l, room)
    decreases l, 1
  {
    var es, ks := l.entries, L.EntryItems(l.entries);
    forall i | 0 <= i < |es|
      ensures Proper(ks[i].value)
      ensures Nests(ks[i].value, room - 2) <==> room > 2 && LiteralNests(es[i].key, room - 3) && LiteralNests(es[i].value, room - 3)
    {
      EntryFit(es[i], depth - 1, room - 2);
    }
    Kept(D.ENTRIES, ks, D.KindMember(L.LiteralTag(l)), room);
  }

  lemma {:induction false} EntryFit(e: LiteralEntry, depth: int, room: int)
    requires ValidLiteral(e.key, depth) && ValidLiteral(e.value, depth)
    ensures var j := L.EntryItem(e).value;
      Proper(j) && (Nests(j, room) <==> room > 0 && LiteralNests(e.key, room - 1) && LiteralNests(e.value, room - 1))
    decreases e, 3
  {
    EntryKeys();
    LiteralFit(e.key, depth, room - 1);
    LiteralFit(e.value, depth, room - 1);
    Two(Member(D.KEY, L.Canonise(e.key)), Member(D.VALUE, L.Canonise(e.value)), room);
  }

  // ----- Descriptors -----

  /** A map key in a path has room for what encloses it: eight containers. */
  predicate SegmentNests(s: Segment, room: int) { s.KeySegment? ==> LiteralNests(s.key, room) }

  predicate InputNests(i: Input, room: int) { forall k :: 0 <= k < |i.path| ==> SegmentNests(i.path[k], room) }

  predicate ActionNests(a: Action, room: int) { forall k :: 0 <= k < |a.inputs| ==> InputNests(a.inputs[k], room) }

  predicate ActionsNest(actions: seq<Action>, room: int) { forall i :: 0 <= i < |actions| ==> ActionNests(actions[i], room) }

  predicate KeysNest(d: Descriptor) { ActionsNest(d.initializers, 120) && ActionsNest(d.actions, 120) }

  lemma {:induction false} SegmentFit(s: Segment, room: int)
    requires ValidSegment(s) && room > 1
    ensures Proper(SegmentJson(s)) && (Nests(SegmentJson(s), room) <==> SegmentNests(s, room - 1))
  {
    match s
    case FieldSegment(name) => One(Member(FIELD, Json.Str(name)), room);
    case IndexSegment(index) => One(Member(INDEX, Num(index)), room);
    case KeySegment(key) =>
      LiteralFit(key, MAX_LITERAL_DEPTH, room - 1);
      One(Member(MAP_KEY, L.Canonise(key)), room);
    case CaseSegment(tag) => One(Member(VARIANT_VALUE, Json.Str(tag)), room);
  }

  lemma {:induction false} InputWords()
    ensures Word(PATH) && Word(ROOT) && PATH != ROOT && Word(FROM) && Word(ID) && Word(TYPE)
    ensures FROM != ID && FROM != TYPE && ID != TYPE
  {
    assert |ID| == 2 && |FROM| == 4 && |TYPE| == 4 && |PATH| == 4 && |ROOT| == 4;
    assert FROM[0] == 'f' as int && TYPE[0] == 't' as int && PATH[0] == 'p' as int && ROOT[0] == 'r' as int;
  }

  lemma {:induction false} FromFit(i: Input, phase: Phase, room: int)
    requires ValidInput(i, phase) && room > 3
    ensures Proper(FromJson(i)) && (Nests(FromJson(i), room) <==> InputNests(i, room - 3))
  {
    var js := PathJson(i.path);
    forall k | 0 <= k < |js| ensures Proper(js[k]) && (Nests(js[k], room - 2) <==> SegmentNests(i.path[k], room - 3)) {
      SegmentFit(i.path[k], room - 2);
    }
    ListBoth(js, room - 1);
    InputWords();
    WordProper(RootText(i.root));
    Two(Member(PATH, Arr(js)), Member(ROOT, Json.Str(RootText(i.root))), room);
  }

  lemma {:induction false} InputFit(i: Input, phase: Phase, room: int)
    requires ValidInput(i, phase) && room > 3 * MAX_TYPE_DEPTH
    ensures Proper(InputJson(i)) && (Nests(InputJson(i), room) <==> InputNests(i, room - 4))
  {
    InputWords();
    FromFit(i, phase, room - 1);
    TypeFit(i.shape, MAX_TYPE_DEPTH, room - 1);
    Three(Member(FROM, FromJson(i)), Member(ID, Json.Str(i.id)), Member(TYPE, D.TypeJson(i.shape)), room);
  }

  lemma {:induction false} TextsFit(ts: seq<Text>, room: int)
    requires room > 0 && forall i :: 0 <= i < |ts| ==> P.Paired(ts[i])
    ensures Proper(Arr(Arranged(TextItems(ts)))) && Nests(Arr(Arranged(TextItems(ts))), room)
  {
    ArrangedBoth(TextItems(ts), room);
  }

  lemma {:induction false} InputsFit(inputs: seq<Input>, phase: Phase, room: int)
    requires room > 3 * MAX_TYPE_DEPTH + 1 && forall i :: 0 <= i < |inputs| ==> ValidInput(inputs[i], phase)
    ensures var j := Arr(Arranged(InputItems(inputs)));
      Proper(j) && (Nests(j, room) <==> forall i :: 0 <= i < |inputs| ==> InputNests(inputs[i], room - 5))
  {
    var ks := InputItems(inputs);
    forall i | 0 <= i < |inputs| ensures Proper(ks[i].value) && (Nests(ks[i].value, room - 1) <==> InputNests(inputs[i], room - 5)) {
      InputFit(inputs[i], phase, room - 1);
    }
    ArrangedBoth(ks, room);
  }

  lemma {:induction false} Five(a: Member, b: Member, c: Member, d: Member, e: Member, room: int)
    requires Fine(a) && Fine(b) && Fine(c) && Fine(d) && Fine(e) && P.DistinctKeys([a, b, c, d, e])
    ensures var j := Obj([a, b, c, d, e]);
      Proper(j) && (Nests(j, room) <==> room > 0 && Nests(a.value, room - 1) && Nests(b.value, room - 1)
                                        && Nests(c.value, room - 1) && Nests(d.value, room - 1) && Nests(e.value, room - 1))
  {
    var ms := [a, b, c, d, e];
    assert ms[0] == a && ms[1] == b && ms[2] == c && ms[3] == d && ms[4] == e;
    FineObject(ms, room);
  }

  lemma {:induction false} ActionFit(a: Action, phase: Phase, room: int)
    requires ValidAction(a, phase) && room > 3 * MAX_TYPE_DEPTH + 2
    ensures Proper(ActionJson(a)) && (Nests(ActionJson(a), room) <==> ActionNests(a, room - 6))
  {
    DescriptorReader.KeysTold();
    ToldDistinct(ActionMembers(a), DescriptorReader.ACTION_ORDER);
    InputsFit(a.inputs, phase, room - 1);
    TextsFit(a.aliases, room - 1);
    WordProper(PhaseText(a.phase));
    Five(Member(ID, Json.Str(a.id)), Member(INPUTS, Arr(Arranged(InputItems(a.inputs)))), Member(PHASE, Json.Str(PhaseText(a.phase))),
      Member(WIRE_ACTION, Json.Str(a.wireAction)), Member(WIRE_ALIASES, Arr(Arranged(TextItems(a.aliases)))), room);
  }

  lemma {:induction false} ActionsFit(actions: seq<Action>, phase: Phase, room: int)
    requires room > 3 * MAX_TYPE_DEPTH + 3 && ValidActions(actions, phase)
    ensures var j := Arr(Arranged(ActionItems(actions))); Proper(j) && (Nests(j, room) <==> ActionsNest(actions, room - 7))
  {
    var ks := ActionItems(actions);
    forall i | 0 <= i < |actions| ensures Proper(ks[i].value) && (Nests(ks[i].value, room - 1) <==> ActionNests(actions[i], room - 7)) {
      ActionFit(actions[i], phase, room - 1);
    }
    ArrangedBoth(ks, room);
  }

  lemma {:induction false} Four(a: Member, b: Member, c: Member, d: Member, room: int)
    requires Fine(a) && Fine(b) && Fine(c) && Fine(d) && P.DistinctKeys([a, b, c, d])
    requires room > 0 && Nests(a.value, room - 1) && Nests(b.value, room - 1) && Nests(c.value, room - 1) && Nests(d.value, room - 1)
    ensures Proper(Obj([a, b, c, d])) && Nests(Obj([a, b, c, d]), room)
  {
    var ms := [a, b, c, d];
    assert ms[0] == a && ms[1] == b && ms[2] == c && ms[3] == d;
    FineObject(ms, room);
  }

  lemma {:induction false} ObservationKeys(o: Observation)
    ensures P.DistinctKeys(ObservationMembers(o)) && Word(ID) && Word(PROVENANCE) && Word(TYPE) && Word(WIRE_NAME)
    ensures Proper(Json.Str(IMPLEMENTATION))
  {
    DescriptorReader.KeysTold();
    ToldDistinct(ObservationMembers(o), DescriptorReader.OBSERVATION_ORDER);
    WordProper(IMPLEMENTATION);
  }

  lemma {:induction false} ObservationFit(o: Observation, room: int)
    requires ValidObservation(o) && room > 3 * MAX_TYPE_DEPTH
    ensures Proper(ObservationJson(o)) && Nests(ObservationJson(o), room)
  {
    ObservationKeys(o);
    TypeFit(o.shape, MAX_TYPE_DEPTH, room - 1);
    Four(Member(ID, Json.Str(o.id)), Member(PROVENANCE, Json.Str(IMPLEMENTATION)), Member(TYPE, D.TypeJson(o.shape)),
      Member(WIRE_NAME, Json.Str(o.wireName)), room);
  }

  lemma {:induction false} ObservationsFit(os: seq<Observation>, room: int)
    requires room > 3 * MAX_TYPE_DEPTH + 1 && ValidObservations(os)
    ensures var j := Arr(Arranged(ObservationItems(os))); Proper(j) && Nests(j, room)
  {
    forall i | 0 <= i < |os| ensures Proper(ObservationItems(os)[i].value) && Nests(ObservationItems(os)[i].value, room - 1) {
      ObservationFit(os[i], room - 1);
    }
    ArrangedBoth(ObservationItems(os), room);
  }

  lemma {:induction false} ProfileFit(p: Profile, room: int)
    requires ValidProfile(p) && room > 1
    ensures Proper(Obj(ProfileMembers(p))) && Nests(Obj(ProfileMembers(p)), room)
  {
    DescriptorReader.KeysTold();
    ToldDistinct(ProfileMembers(p), DescriptorReader.PROFILE_ORDER);
    forall i | 0 <= i < |p.effectiveVars| ensures P.Paired(p.effectiveVars[i]) { EffectivePaired(p, p.effectiveVars[i]); }
    TextsFit(p.effectiveVars, room - 1);
    TextsFit(p.itfVars, room - 1);
    WordProper(ACTION_TAKEN);
    Four(Member(ACTION_VARIABLE, Json.Str(ACTION_TAKEN)), Member(CONFIGURED, ConfiguredJson(p.configured)),
      Member(EFFECTIVE, Arr(Arranged(TextItems(p.effectiveVars)))), Member(ITF, Arr(Arranged(TextItems(p.itfVars)))), room);
  }

  lemma {:induction false} EffectivePaired(p: Profile, t: Text)
    requires ValidProfile(p) && t in p.effectiveVars
    ensures P.Paired(t)
  {
    if t in p.itfVars {
      var i :| 0 <= i < |p.itfVars| && p.itfVars[i] == t;
    }
  }

  lemma {:induction false} ModelMember(m: Text, room: int)
    requires P.Paired(m) && room > 0
    ensures var j := Obj([Member(MODULE, Json.Str(m))]); Proper(j) && Nests(j, room)
  {
    One(Member(MODULE, Json.Str(m)), room);
  }

  lemma {:induction false} Stamps()
    ensures Proper(Json.Str(COMPARISON_VERSION)) && Proper(Json.Str(RESOLVER_VERSION)) && Proper(Json.Str(DESCRIPTOR_SCHEMA))
  {
    WordProper(COMPARISON_VERSION);
    WordProper(RESOLVER_VERSION);
    WordProper(DESCRIPTOR_SCHEMA);
  }

  lemma {:induction false} DescriptorWords()
    ensures Word(ACTIONS) && Word(COMPARISON) && Word(INITIALIZERS) && Word(INTERFACE_VERSION) && Word(MODEL)
    ensures Word(OBSERVATIONS) && Word(RESOLVER) && Word(RUN_PROFILE) && Word(SCHEMA)
  {
  }

  lemma {:induction false} DescriptorKeys(d: Descriptor)
    ensures P.DistinctKeys(DescriptorMembers(d))
  {
    DescriptorReader.DescriptorKeysTold();
    DescriptorReader.DescriptorOrder(d);
    ToldDistinct(DescriptorMembers(d), DescriptorReader.DESCRIPTOR_ORDER);
  }

  ghost predicate Shallow(ms: seq<Member>, room: int) { forall i :: 0 <= i < |ms| ==> Fine(ms[i]) && Nests(ms[i].value, room) }

  /** Of these members the first and the third decide. */
  lemma {:induction false} Nine(a: Member, b: Member, c: Member, rest: seq<Member>, room: int)
    requires Fine(a) && Fine(b) && Fine(c) && Shallow(rest, room - 1)
    requires room > 0 && Nests(b.value, room - 1) && P.DistinctKeys([a, b, c] + rest)
    ensures var j := Obj([a, b, c] + rest); Proper(j) && (Nests(j, room) <==> Nests(a.value, room - 1) && Nests(c.value, room - 1))
  {
    var ms := [a, b, c] + rest;
    assert ms[0] == a && ms[1] == b && ms[2] == c;
    forall i | 3 <= i < |ms| ensures ms[i] == rest[i - 3] {}
    FineObject(ms, room);
  }

  lemma {:induction false} Six(a: Member, b: Member, c: Member, d: Member, e: Member, f: Member, room: int)
    requires Fine(a) && Fine(b) && Fine(c) && Fine(d) && Fine(e) && Fine(f)
    requires Nests(a.value, room) && Nests(b.value, room) && Nests(c.value, room)
    requires Nests(d.value, room) && Nests(e.value, room) && Nests(f.value, room)
    ensures Shallow([a, b, c, d, e, f], room)
  {
  }

  lemma {:induction false} RemainingFit(d: Descriptor, room: int)
    requires P.Paired(d.version) && P.Paired(d.model) && ValidObservations(d.observations) && ValidProfile(d.profile)
    requires room > 3 * MAX_TYPE_DEPTH + 1
    ensures Shallow(Remaining(d), room)
  {
    ObservationsFit(d.observations, room);
    ModelMember(d.model, room);
    ProfileFit(d.profile, room);
    Stamps();
    DescriptorWords();
    Six(Member(INTERFACE_VERSION, Json.Str(d.version)), Member(MODEL, Obj([Member(MODULE, Json.Str(d.model))])),
      Member(OBSERVATIONS, Arr(Arranged(ObservationItems(d.observations)))), Member(RESOLVER, Json.Str(RESOLVER_VERSION)),
      Member(RUN_PROFILE, Obj(ProfileMembers(d.profile))), Member(SCHEMA, Json.Str(DESCRIPTOR_SCHEMA)), room);
  }

  /** The canonical tree of a valid descriptor is proper, and fits the parser exactly
      if the map keys in its paths are not too deep. */
  lemma {:induction false} DescriptorFit(d: Descriptor)
    requires Valid(d)
    ensures Proper(Canonical(d)) && (Nests(Canonical(d), StrictJson.MAX_JSON_DEPTH) <==> KeysNest(d))
  {
    var room := StrictJson.MAX_JSON_DEPTH - 1;
    ActionsFit(d.actions, Transition, room);
    ActionsFit(d.initializers, Initialize, room);
    RemainingFit(d, room);
    Stamps();
    DescriptorWords();
    DescriptorKeys(d);
    Parts(d);
    Nine(Member(ACTIONS, Arr(Arranged(ActionItems(d.actions)))), Member(COMPARISON, Json.Str(COMPARISON_VERSION)),
      Member(INITIALIZERS, Arr(Arranged(ActionItems(d.initializers)))), Remaining(d), room + 1);
  }
}
