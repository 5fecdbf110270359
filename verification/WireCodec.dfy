/** Protocol values on the wire: the encoder, the decoder, and the exact class of
    values that survive the trip. */
module WireCodec {
  import opened Wrappers
  import opened JsonText
  import opened Itf

  const BIGINT: Text := [0x23, 0x62, 0x69, 0x67, 0x69, 0x6E, 0x74]
  const TUP: Text := [0x23, 0x74, 0x75, 0x70]
  const SET: Text := [0x23, 0x73, 0x65, 0x74]
  const MAP: Text := [0x23, 0x6D, 0x61, 0x70]
  const UNSERIALIZABLE: Text :=
    [0x23, 0x75, 0x6E, 0x73, 0x65, 0x72, 0x69, 0x61, 0x6C, 0x69, 0x7A, 0x61, 0x62, 0x6C, 0x65]
  const PROTO_STEP: Text := [0x70, 0x72, 0x6F, 0x74, 0x6F, 0x5F, 0x73, 0x74, 0x65, 0x70]
  const TAG: Text := [0x74, 0x61, 0x67]
  const VALUE: Text := [0x76, 0x61, 0x6C, 0x75, 0x65]

  // ----- BigInt of a string -----

  /** White space and line terminators that numeric strings may be padded with. */
  predicate Padding(u: CodeUnit) {
    0x09 <= u <= 0x0D || u == 0x20 || u == 0xA0 || u == 0x1680 || 0x2000 <= u <= 0x200A || u == 0x2028 || u == 0x2029
    || u == 0x202F || u == 0x205F || u == 0x3000 || u == 0xFEFF
  }

  function TrimStart(t: Text): Text {
    if t != [] && Padding(t[0]) then TrimStart(t[1..]) else t
  }

  function TrimEnd(t: Text): Text {
    if t != [] && Padding(t[|t| - 1]) then TrimEnd(t[..|t| - 1]) else t
  }

  /** The digits of `t` in a radix, read left to right. */
  function Radix(t: Text, radix: int): Option<int> {
    if t == [] then Some(0)
    else
      var lead := Radix(t[..|t| - 1], radix);
      var d := HexValue(t[|t| - 1]);
      if lead.None? || d < 0 || d >= radix then None else Some(lead.value * radix + d)
  }

  function SomeDigits(t: Text, radix: int): Option<int> {
    if t == [] then None else Radix(t, radix)
  }

  function Negated(n: Option<int>): Option<int> {
    if n.None? then None else Some(-n.value)
  }

  /** `BigInt(text)`: None where it throws. The empty string is zero. */
  function ParseBigInt(text: Text): Option<int> {
    var t := TrimEnd(TrimStart(text));
    if t == [] then Some(0)
    else if t[0] == 0x30 && |t| > 1 && (t[1] == 0x78 || t[1] == 0x58) then SomeDigits(t[2..], 16)
    else if t[0] == 0x30 && |t| > 1 && (t[1] == 0x6F || t[1] == 0x4F) then SomeDigits(t[2..], 8)
    else if t[0] == 0x30 && |t| > 1 && (t[1] == 0x62 || t[1] == 0x42) then SomeDigits(t[2..], 2)
    else if t[0] == MINUS then Negated(SomeDigits(t[1..], 10))
    else if t[0] == 0x2B then SomeDigits(t[1..], 10)
    else SomeDigits(t, 10)
  }

  lemma {:induction false} RadixTen(t: Text)
    requires AllDigits(t)
    ensures Radix(t, 10) == Some(DigitsValue(t))
  {
    if t != [] {
      RadixTen(t[..|t| - 1]);
    }
  }

  lemma {:induction false} NothingToTrim(t: Text)
    requires t != [] && !Padding(t[0]) && !Padding(t[|t| - 1])
    ensures TrimEnd(TrimStart(t)) == t
  {
  }

  lemma {:induction false} PlainDigits(t: Text)
    requires t != [] && AllDigits(t)
    ensures ParseBigInt(t) == SomeDigits(t, 10)
  {
    assert Digit(t[0]) && Digit(t[|t| - 1]) && (|t| > 1 ==> Digit(t[1]));
    NothingToTrim(t);
  }

  lemma {:induction false} DigitsRead(m: nat)
    ensures SomeDigits(Digits(m), 10) == Some(m)
  {
    DigitsDenote(m);
    RadixTen(Digits(m));
  }

  /** Every integer's decimal text is read back as that integer. */
  lemma {:induction false} BigIntReadsDecimal(n: int)
    ensures ParseBigInt(Decimal(n)) == Some(n)
  {
    if n < 0 {
      var d, t := Digits(-n), Decimal(n);
      DigitsRead(-n);
      assert t[0] == MINUS && t[1..] == d && t[|t| - 1] == d[|d| - 1];
      assert Digit(d[|d| - 1]);
      NothingToTrim(t);
    } else {
      DigitsRead(n);
      PlainDigits(Digits(n));
    }
  }

  // ----- Encoding -----

  /** `encodeValue`. */
  function Encode(v: Value): Json
    decreases v, 1
  {
    match v
    case Null => Json.Null
    case Int(n) => Obj([Member(BIGINT, Json.Str(Decimal(n)))])
    case Bool(b) => Json.Bool(b)
    case Str(s) => Json.Str(s)
    case Unserializable(s) => Obj([Member(UNSERIALIZABLE, Json.Str(s))])
    case Set(items) => Obj([Member(SET, Arr(EncodeItems(items)))])
    case Seq(items) => Arr(EncodeItems(items))
    case Tuple(items) => Obj([Member(TUP, Arr(EncodeItems(items)))])
    case Record(fields) => Obj(EncodeFields(fields))
    case Map(entries) => Obj([Member(MAP, Arr(EncodeEntries(entries)))])
    case Variant(tag, value) => Obj([Member(TAG, Json.Str(tag)), Member(VALUE, Encode(value))])
  }

  function EncodeItems(items: seq<Value>): (r: seq<Json>)
    ensures |r| == |items|
    decreases items, 0
  {
    if items == [] then [] else [Encode(items[0])] + EncodeItems(items[1..])
  }

  function EncodeField(f: Field): Member
    decreases f, 2
  {
    Member(f.name, Encode(f.value))
  }

  function EncodeFields(fields: seq<Field>): (r: seq<Member>)
    ensures |r| == |fields|
    ensures forall i :: 0 <= i < |fields| ==> r[i].key == fields[i].name
    decreases fields, 0
  {
    if fields == [] then [] else [EncodeField(fields[0])] + EncodeFields(fields[1..])
  }

  function EncodeEntry(e: Entry): Json
    decreases e, 2
  {
    Arr([Encode(e.key), Encode(e.value)])
  }

  function EncodeEntries(entries: seq<Entry>): (r: seq<Json>)
    ensures |r| == |entries|
    decreases entries, 0
  {
    if entries == [] then [] else [EncodeEntry(entries[0])] + EncodeEntries(entries[1..])
  }

  // ----- Decoding -----

  /** What decoding yields: a value; something a nested protocol message stands
      for; or an exception. */
  datatype Outcome<+T> = Got(value: T) | Message | Thrown

  function Pair<A, B>(a: Outcome<A>, b: Outcome<B>): Outcome<(A, B)> {
    if a.Thrown? || b.Thrown? then Thrown
    else if a.Message? || b.Message? then Message
    else Got((a.value, b.value))
  }

  function Cons<T>(head: Outcome<T>, tail: Outcome<seq<T>>): Outcome<seq<T>> {
    if head.Thrown? || tail.Thrown? then Thrown
    else if head.Message? || tail.Message? then Message
    else Got([head.value] + tail.value)
  }

  /** An object with this marker as its only property. */
  predicate Marked(members: seq<Member>, marker: Text) {
    |members| == 1 && members[0].key == marker
  }

  ghost predicate HasMember(members: seq<Member>, key: Text) {
    exists i :: 0 <= i < |members| && members[i].key == key
  }

  function FindMember(members: seq<Member>, key: Text): (r: Option<nat>)
    ensures r.Some? ==> r.value < |members| && members[r.value].key == key
    ensures r.None? ==> !HasMember(members, key)
  {
    if members == [] then None
    else if members[0].key == key then Some(0)
    else
      var more := FindMember(members[1..], key);
      assert more.None? ==> forall i :: 1 <= i < |members| ==> members[i] == members[1..][i - 1];
      if more.None? then None else Some(more.value + 1)
  }

  predicate TagAndValue(members: seq<Member>) {
    |members| == 2
    && ((members[0].key == TAG && members[1].key == VALUE) || (members[0].key == VALUE && members[1].key == TAG))
  }

  /** `walk`. */
  function Walk(j: Json): Outcome<Value>
    decreases j, 1
  {
    match j
    case Null => Got(Value.Null)
    case Bool(b) => Got(Value.Bool(b))
    case Str(s) => Got(Value.Str(s))
    case Num(n) => Got(Int(n))
    case Frac(_) => Thrown
    case Arr(items) => AsSeq(WalkItems(items))
    case Obj(members) => WalkObject(members)
  }

  function AsSeq(items: Outcome<seq<Value>>): Outcome<Value> {
    match items case Got(vs) => Got(Seq(vs)) case Message => Message case Thrown => Thrown
  }

  function AsTuple(items: Outcome<seq<Value>>): Outcome<Value> {
    match items case Got(vs) => Got(Tuple(vs)) case Message => Message case Thrown => Thrown
  }

  function AsSet(items: Outcome<seq<Value>>): Outcome<Value> {
    match items case Got(vs) => Got(Set(vs)) case Message => Message case Thrown => Thrown
  }

  function AsMap(entries: Outcome<seq<Entry>>): Outcome<Value> {
    match entries case Got(es) => Got(Map(es)) case Message => Message case Thrown => Thrown
  }

  function AsRecord(fields: Outcome<seq<Field>>): Outcome<Value> {
    match fields case Got(fs) => Got(Record(fs)) case Message => Message case Thrown => Thrown
  }

  function AsVariant(tag: Text, value: Outcome<Value>): Outcome<Value> {
    match value case Got(v) => Got(Variant(tag, v)) case Message => Message case Thrown => Thrown
  }

  function WalkObject(members: seq<Member>): Outcome<Value>
    decreases members, 1
  {
    if Marked(members, BIGINT) && members[0].value.Str? then
      var n := ParseBigInt(members[0].value.s);
      if n.None? then Thrown else Got(Int(n.value))
    else if Marked(members, TUP) && members[0].value.Arr? then AsTuple(WalkItems(members[0].value.items))
    else if Marked(members, SET) && members[0].value.Arr? then AsSet(WalkItems(members[0].value.items))
    else if Marked(members, MAP) && members[0].value.Arr? then AsMap(WalkEntries(members[0].value.items))
    else if Marked(members, UNSERIALIZABLE) && members[0].value.Str? then Got(Unserializable(members[0].value.s))
    else if FindMember(members, PROTO_STEP).Some? then Message
    else if TagAndValue(members) then
      var t := if members[0].key == TAG then 0 else 1;
      if !members[t].value.Str? then Thrown else AsVariant(members[t].value.s, WalkMember(members[1 - t]))
    else AsRecord(WalkMembers(members))
  }

  function WalkItems(items: seq<Json>): Outcome<seq<Value>>
    decreases items, 0
  {
    if items == [] then Got([]) else Cons(Walk(items[0]), WalkItems(items[1..]))
  }

  function WalkMember(m: Member): Outcome<Value>
    decreases m, 2
  {
    Walk(m.value)
  }

  function AsField(name: Text, v: Outcome<Value>): Outcome<Field> {
    match v case Got(x) => Got(Field(name, x)) case Message => Message case Thrown => Thrown
  }

  function WalkMembers(members: seq<Member>): Outcome<seq<Field>>
    decreases members, 0
  {
    if members == [] then Got([])
    else Cons(AsField(members[0].key, WalkMember(members[0])), WalkMembers(members[1..]))
  }

  function WalkEntries(items: seq<Json>): Outcome<seq<Entry>>
    decreases items, 0
  {
    if items == [] then Got([]) else Cons(WalkEntry(items[0]), WalkEntries(items[1..]))
  }

  function AsEntry(pair: Outcome<(Value, Value)>): Outcome<Entry> {
    match pair case Got(p) => Got(Entry(p.0, p.1)) case Message => Message case Thrown => Thrown
  }

  /** The first code point of a string, as a string. */
  function FirstPoint(s: Text): (r: Text)
    requires s != []
    ensures 0 < |r| <= |s|
  {
    if High(s[0]) && |s| > 1 && Low(s[1]) then s[..2] else s[..1]
  }

  /** A map entry is destructured as two items of anything iterable: an absent
      item decodes as null, items beyond the second are ignored, a string yields
      its code points, and anything else cannot be iterated. */
  function WalkEntry(j: Json): Outcome<Entry>
    decreases j, 1
  {
    match j
    case Arr(items) =>
      AsEntry(Pair(if |items| > 0 then Walk(items[0]) else Got(Value.Null),
                   if |items| > 1 then Walk(items[1]) else Got(Value.Null)))
    case Str(s) =>
      var first := if s == [] then [] else FirstPoint(s);
      var rest := s[|first|..];
      Got(Entry(if s == [] then Value.Null else Value.Str(first),
                if rest == [] then Value.Null else Value.Str(FirstPoint(rest))))
    case _ => Thrown
  }

  // ----- Which values survive -----

  /** A record whose encoding the decoder reads as something else. */
  predicate Reserved(fields: seq<Field>) {
    || (|fields| == 1 && fields[0].name in {BIGINT, UNSERIALIZABLE} && fields[0].value.Str?)
    || (|fields| == 1 && fields[0].name in {TUP, SET, MAP} && fields[0].value.Seq?)
    || (exists i :: 0 <= i < |fields| && fields[i].name == PROTO_STEP)
    || (|fields| == 2 && fields[0].name == TAG && fields[1].name == VALUE)
    || (|fields| == 2 && fields[0].name == VALUE && fields[1].name == TAG)
  }

  /** No record of a reserved shape, at any depth. */
  predicate Plain(v: Value)
    decreases v
  {
    match v
    case Set(items) => forall i :: 0 <= i < |items| ==> Plain(items[i])
    case Seq(items) => forall i :: 0 <= i < |items| ==> Plain(items[i])
    case Tuple(items) => forall i :: 0 <= i < |items| ==> Plain(items[i])
    case Record(fields) => !Reserved(fields) && forall i :: 0 <= i < |fields| ==> Plain(fields[i].value)
    case Map(entries) => forall i :: 0 <= i < |entries| ==> Plain(entries[i].key) && Plain(entries[i].value)
    case Variant(_, value) => Plain(value)
    case _ => true
  }

  lemma {:induction false} EncodedKind(v: Value)
    ensures Encode(v).Str? <==> v.Str?
    ensures Encode(v).Arr? <==> v.Seq?
  {
  }

  lemma {:induction false} EncodedField(fields: seq<Field>, i: nat)
    requires i < |fields|
    ensures EncodeFields(fields)[i] == EncodeField(fields[i])
  {
    if i > 0 {
      EncodedField(fields[1..], i - 1);
    }
  }

  /** The encoder's record case meets a decoder branch of another shape exactly
      when the record is reserved. */
  lemma {:induction false} RecordBranch(fields: seq<Field>)
    ensures Reserved(fields) ==> WalkObject(EncodeFields(fields)) != Got(Record(fields))
    ensures !Reserved(fields) ==> WalkObject(EncodeFields(fields)) == AsRecord(WalkMembers(EncodeFields(fields)))
  {
    var ms := EncodeFields(fields);
    forall i | 0 <= i < |fields| ensures ms[i] == EncodeField(fields[i]) && ms[i].key == fields[i].name {
      EncodedField(fields, i);
    }
    if |fields| == 1 {
      EncodedKind(fields[0].value);
    }
    var at := FindMember(ms, PROTO_STEP);
    if at.Some? { assert fields[at.value].name == PROTO_STEP; }
    if i :| 0 <= i < |fields| && fields[i].name == PROTO_STEP { assert HasMember(ms, PROTO_STEP); }
  }

  lemma {:induction false} MarkersDiffer()
    ensures BIGINT != TUP && BIGINT != SET && BIGINT != MAP && BIGINT != UNSERIALIZABLE
    ensures TUP != SET && TUP != MAP && TUP != UNSERIALIZABLE && SET != MAP && SET != UNSERIALIZABLE && MAP != UNSERIALIZABLE
    ensures PROTO_STEP !in {BIGINT, TUP, SET, MAP, UNSERIALIZABLE, TAG, VALUE} && TAG != VALUE
  {
    assert |BIGINT| == 7 && |TUP| == |SET| == |MAP| == 4 && |UNSERIALIZABLE| == 15;
    assert TUP[1] == 0x74 && SET[1] == 0x73 && MAP[1] == 0x6D;
  }

  /** The decoder's marker branches undo the encoder's. */
  lemma {:induction false} MarkerBranch(key: Text, value: Json)
    ensures key == TUP && value.Arr? ==> Walk(Obj([Member(key, value)])) == AsTuple(WalkItems(value.items))
    ensures key == SET && value.Arr? ==> Walk(Obj([Member(key, value)])) == AsSet(WalkItems(value.items))
    ensures key == MAP && value.Arr? ==> Walk(Obj([Member(key, value)])) == AsMap(WalkEntries(value.items))
    ensures key == UNSERIALIZABLE && value.Str? ==> Walk(Obj([Member(key, value)])) == Got(Unserializable(value.s))
    ensures key == BIGINT && value.Str? && ParseBigInt(value.s).Some? ==>
              Walk(Obj([Member(key, value)])) == Got(Int(ParseBigInt(value.s).value))
  {
    MarkersDiffer();
    var ms := [Member(key, value)];
    assert |ms| == 1 && ms[0].key == key && ms[0].value == value;
    assert Walk(Obj(ms)) == WalkObject(ms);
  }

  lemma {:induction false} VariantBranch(tag: Text, value: Json)
    ensures WalkObject([Member(TAG, Json.Str(tag)), Member(VALUE, value)]) == AsVariant(tag, Walk(value))
  {
    MarkersDiffer();
    var ms := [Member(TAG, Json.Str(tag)), Member(VALUE, value)];
    assert |ms| == 2 && ms[0] == Member(TAG, Json.Str(tag)) && ms[1] == Member(VALUE, value);
    assert forall i :: 0 <= i < |ms| ==> ms[i].key == TAG || ms[i].key == VALUE;
    assert FindMember(ms, PROTO_STEP).None?;
    assert WalkMember(ms[1]) == Walk(value);
  }

  /** A value is read back as itself exactly when it holds no reserved record. */
  lemma {:induction false} RoundTrip(v: Value)
    ensures Walk(Encode(v)) == Got(v) <==> Plain(v)
    decreases v, 1
  {
    match v
    case Int(n) =>
      BigIntReadsDecimal(n);
      MarkerBranch(BIGINT, Json.Str(Decimal(n)));
    case Unserializable(s) => MarkerBranch(UNSERIALIZABLE, Json.Str(s));
    case Set(items) =>
      MarkerBranch(SET, Arr(EncodeItems(items)));
      ItemsRoundTrip(items);
    case Seq(items) => ItemsRoundTrip(items);
    case Tuple(items) =>
      MarkerBranch(TUP, Arr(EncodeItems(items)));
      ItemsRoundTrip(items);
    case Record(fields) => RecordRoundTrip(fields);
    case Map(entries) =>
      MarkersDiffer();
      MarkerBranch(MAP, Arr(EncodeEntries(entries)));
      EntriesRoundTrip(entries);
    case Variant(tag, value) =>
      RoundTrip(value);
      VariantBranch(tag, Encode(value));
    case _ =>
  }

  lemma {:induction false} RecordRoundTrip(fields: seq<Field>)
    ensures Walk(Encode(Record(fields))) == Got(Record(fields)) <==> Plain(Record(fields))
    decreases fields, 1
  {
    RecordBranch(fields);
    FieldsRoundTrip(fields);
  }

  lemma {:induction false} ConsIs<T>(head: Outcome<T>, tail: Outcome<seq<T>>, xs: seq<T>)
    requires xs != []
    ensures Cons(head, tail) == Got(xs) <==> head == Got(xs[0]) && tail == Got(xs[1..])
  {
    if head.Got? && tail.Got? {
      var all := [head.value] + tail.value;
      assert all[0] == head.value && all[1..] == tail.value;
      assert xs == [xs[0]] + xs[1..];
    }
  }

  lemma {:induction false} ItemsRoundTrip(items: seq<Value>)
    ensures WalkItems(EncodeItems(items)) == Got(items) <==> forall i :: 0 <= i < |items| ==> Plain(items[i])
    decreases items, 0
  {
    if items != [] {
      var js := EncodeItems(items);
      assert js[0] == Encode(items[0]) && js[1..] == EncodeItems(items[1..]);
      RoundTrip(items[0]);
      ItemsRoundTrip(items[1..]);
      ConsIs(Walk(js[0]), WalkItems(js[1..]), items);
      assert forall i :: 1 <= i < |items| ==> items[i] == items[1..][i - 1];
    }
  }

  lemma {:induction false} FieldRoundTrip(f: Field)
    ensures AsField(f.name, WalkMember(EncodeField(f))) == Got(f) <==> Plain(f.value)
    decreases f, 2
  {
    RoundTrip(f.value);
  }

  lemma {:induction false} FieldsRoundTrip(fields: seq<Field>)
    ensures WalkMembers(EncodeFields(fields)) == Got(fields) <==> forall i :: 0 <= i < |fields| ==> Plain(fields[i].value)
    decreases fields, 0
  {
    if fields != [] {
      var ms := EncodeFields(fields);
      assert ms[0] == EncodeField(fields[0]) && ms[1..] == EncodeFields(fields[1..]);
      FieldRoundTrip(fields[0]);
      FieldsRoundTrip(fields[1..]);
      ConsIs(AsField(ms[0].key, WalkMember(ms[0])), WalkMembers(ms[1..]), fields);
      assert forall i :: 1 <= i < |fields| ==> fields[i] == fields[1..][i - 1];
    }
  }

  lemma {:induction false} EntryRoundTrip(e: Entry)
    ensures WalkEntry(EncodeEntry(e)) == Got(e) <==> Plain(e.key) && Plain(e.value)
    decreases e, 2
  {
    RoundTrip(e.key);
    RoundTrip(e.value);
    var pair := [Encode(e.key), Encode(e.value)];
    assert EncodeEntry(e) == Arr(pair) && pair[0] == Encode(e.key) && pair[1] == Encode(e.value);
  }

  lemma {:induction false} EntriesRoundTrip(entries: seq<Entry>)
    ensures WalkEntries(EncodeEntries(entries)) == Got(entries)
       <==> forall i :: 0 <= i < |entries| ==> Plain(entries[i].key) && Plain(entries[i].value)
    decreases entries, 0
  {
    if entries != [] {
      var js := EncodeEntries(entries);
      assert js[0] == EncodeEntry(entries[0]) && js[1..] == EncodeEntries(entries[1..]);
      EntryRoundTrip(entries[0]);
      EntriesRoundTrip(entries[1..]);
      ConsIs(WalkEntry(js[0]), WalkEntries(js[1..]), entries);
      assert forall i :: 1 <= i < |entries| ==> entries[i] == entries[1..][i - 1];
    }
  }

  // ----- Decoded values survive -----

  lemma {:induction false} WalkedKind(j: Json)
    requires Walk(j).Got?
    ensures Walk(j).value.Str? <==> j.Str?
    ensures Walk(j).value.Seq? <==> j.Arr?
  {
  }

  /** Fields come from the members in their places. */
  lemma {:induction false} WalkedField(members: seq<Member>, i: nat)
    requires WalkMembers(members).Got? && i < |members|
    ensures var fs := WalkMembers(members).value;
      |fs| == |members| && fs[i].name == members[i].key && Walk(members[i].value) == Got(fs[i].value)
  {
    if i > 0 {
      WalkedField(members[1..], i - 1);
    } else if |members| > 1 {
      WalkedField(members[1..], 0);
    }
  }

  /** What reaches the record branch is not of a reserved shape. */
  lemma {:induction false} RecordIsFree(members: seq<Member>)
    requires WalkObject(members).Got? && WalkObject(members).value.Record?
    ensures WalkMembers(members) == Got(WalkObject(members).value.fields) && !Reserved(WalkObject(members).value.fields)
  {
    var fs := WalkObject(members).value.fields;
    assert WalkMembers(members) == Got(fs);
    if members == [] {
    } else {
      forall i | 0 <= i < |members|
        ensures |fs| == |members| && fs[i].name == members[i].key && Walk(members[i].value) == Got(fs[i].value)
      {
        WalkedField(members, i);
      }
      WalkedKind(members[0].value);
      if i :| 0 <= i < |fs| && fs[i].name == PROTO_STEP {
        assert HasMember(members, PROTO_STEP);
      }
    }
  }

  /** Whatever is decoded holds no reserved record. */
  lemma {:induction false} WalkedIsPlain(j: Json)
    ensures Walk(j).Got? ==> Plain(Walk(j).value)
    decreases j, 1
  {
    match j
    case Arr(items) => ItemsPlain(items);
    case Obj(members) => ObjectPlain(members);
    case _ =>
  }

  lemma {:induction false} ObjectPlain(members: seq<Member>)
    ensures WalkObject(members).Got? ==> Plain(WalkObject(members).value)
    decreases members, 1
  {
    var w := WalkObject(members);
    if w.Got? {
      match w.value
      case Record(fields) =>
        RecordIsFree(members);
        MembersPlain(members);
      case Tuple(_) => ItemsPlain(members[0].value.items);
      case Set(_) => ItemsPlain(members[0].value.items);
      case Map(_) => EntriesPlain(members[0].value.items);
      case Variant(_, _) =>
        MemberPlain(members[0]);
        MemberPlain(members[1]);
      case _ =>
    }
  }

  lemma {:induction false} MemberPlain(m: Member)
    ensures WalkMember(m).Got? ==> Plain(WalkMember(m).value)
    decreases m, 2
  {
    WalkedIsPlain(m.value);
  }

  lemma {:induction false} ItemsPlain(items: seq<Json>)
    ensures WalkItems(items).Got? ==> forall i :: 0 <= i < |WalkItems(items).value| ==> Plain(WalkItems(items).value[i])
    decreases items, 0
  {
    if items != [] {
      WalkedIsPlain(items[0]);
      ItemsPlain(items[1..]);
    }
  }

  lemma {:induction false} MembersPlain(members: seq<Member>)
    ensures WalkMembers(members).Got? ==>
              forall i :: 0 <= i < |WalkMembers(members).value| ==> Plain(WalkMembers(members).value[i].value)
    decreases members, 0
  {
    if members != [] {
      MemberPlain(members[0]);
      MembersPlain(members[1..]);
    }
  }

  lemma {:induction false} EntryPlain(j: Json)
    ensures WalkEntry(j).Got? ==> Plain(WalkEntry(j).value.key) && Plain(WalkEntry(j).value.value)
    decreases j, 1
  {
    if j.Arr? {
      if |j.items| > 0 { WalkedIsPlain(j.items[0]); }
      if |j.items| > 1 { WalkedIsPlain(j.items[1]); }
    }
  }

  lemma {:induction false} EntriesPlain(items: seq<Json>)
    ensures WalkEntries(items).Got? ==>
              forall i :: 0 <= i < |WalkEntries(items).value| ==>
                Plain(WalkEntries(items).value[i].key) && Plain(WalkEntries(items).value[i].value)
    decreases items, 0
  {
    if items != [] {
      EntryPlain(items[0]);
      EntriesPlain(items[1..]);
    }
  }

  /** Decoding, encoding and decoding again changes nothing. */
  lemma {:induction false} DecodingStabilises(j: Json)
    requires Walk(j).Got?
    ensures Walk(Encode(Walk(j).value)) == Walk(j)
  {
    WalkedIsPlain(j);
    RoundTrip(Walk(j).value);
  }

  /** Only an object with a protocol step can stand for a message. */
  predicate NoSteps(j: Json)
    decreases j
  {
    && (j.Arr? ==> forall i :: 0 <= i < |j.items| ==> NoSteps(j.items[i]))
    && (j.Obj? ==> forall i :: 0 <= i < |j.members| ==> j.members[i].key != PROTO_STEP && NoSteps(j.members[i].value))
  }

  lemma {:induction false} NoStepsNoMessage(j: Json)
    requires NoSteps(j)
    ensures !Walk(j).Message?
    decreases j, 1
  {
    match j
    case Arr(items) => ItemsNoMessage(items);
    case Obj(members) =>
      var at := FindMember(members, PROTO_STEP);
      if |members| == 1 && members[0].value.Arr? {
        assert NoSteps(members[0].value);
        ItemsNoMessage(members[0].value.items);
        EntriesNoMessage(members[0].value.items);
      }
      MembersNoMessage(members);
      if |members| == 2 {
        MemberNoMessage(members[0]);
        MemberNoMessage(members[1]);
      }
    case _ =>
  }

  lemma {:induction false} MemberNoMessage(m: Member)
    requires NoSteps(m.value)
    ensures !WalkMember(m).Message?
    decreases m, 2
  {
    NoStepsNoMessage(m.value);
  }

  lemma {:induction false} ItemsNoMessage(items: seq<Json>)
    requires forall i :: 0 <= i < |items| ==> NoSteps(items[i])
    ensures !WalkItems(items).Message?
    decreases items, 0
  {
    if items != [] {
      NoStepsNoMessage(items[0]);
      ItemsNoMessage(items[1..]);
    }
  }

  lemma {:induction false} MembersNoMessage(members: seq<Member>)
    requires forall i :: 0 <= i < |members| ==> NoSteps(members[i].value)
    ensures !WalkMembers(members).Message?
    decreases members, 0
  {
    if members != [] {
      MemberNoMessage(members[0]);
      MembersNoMessage(members[1..]);
    }
  }

  lemma {:induction false} EntriesNoMessage(items: seq<Json>)
    requires forall i :: 0 <= i < |items| ==> NoSteps(items[i])
    ensures !WalkEntries(items).Message?
    decreases items, 0
  {
    if items != [] {
      if items[0].Arr? {
        var pair := items[0].items;
        if |pair| > 0 { NoStepsNoMessage(pair[0]); }
        if |pair| > 1 { NoStepsNoMessage(pair[1]); }
      }
      EntriesNoMessage(items[1..]);
    }
  }

  // ----- The text on the wire -----

  lemma {:induction false} EncodedIntegral(v: Value)
    ensures Integral(Encode(v))
    decreases v, 1
  {
    match v
    case Set(items) => EncodedItemsIntegral(items);
    case Seq(items) => EncodedItemsIntegral(items);
    case Tuple(items) => EncodedItemsIntegral(items);
    case Record(fields) => EncodedFieldsIntegral(fields);
    case Map(entries) => EncodedEntriesIntegral(entries);
    case Variant(tag, value) => EncodedIntegral(value);
    case _ =>
  }

  lemma {:induction false} EncodedItemsIntegral(items: seq<Value>)
    ensures forall i :: 0 <= i < |items| ==> Integral(EncodeItems(items)[i])
    decreases items, 0
  {
    if items != [] {
      EncodedIntegral(items[0]);
      EncodedItemsIntegral(items[1..]);
    }
  }

  lemma {:induction false} EncodedFieldIntegral(f: Field)
    ensures Integral(EncodeField(f).value)
    decreases f, 2
  {
    EncodedIntegral(f.value);
  }

  lemma {:induction false} EncodedFieldsIntegral(fields: seq<Field>)
    ensures forall i :: 0 <= i < |fields| ==> Integral(EncodeFields(fields)[i].value)
    decreases fields, 0
  {
    if fields != [] {
      EncodedFieldIntegral(fields[0]);
      EncodedFieldsIntegral(fields[1..]);
    }
  }

  lemma {:induction false} EncodedEntryIntegral(e: Entry)
    ensures Integral(EncodeEntry(e))
    decreases e, 2
  {
    EncodedIntegral(e.key);
    EncodedIntegral(e.value);
  }

  lemma {:induction false} EncodedEntriesIntegral(entries: seq<Entry>)
    ensures forall i :: 0 <= i < |entries| ==> Integral(EncodeEntries(entries)[i])
    decreases entries, 0
  {
    if entries != [] {
      EncodedEntryIntegral(entries[0]);
      EncodedEntriesIntegral(entries[1..]);
    }
  }

  function WireText(v: Value): Text {
    Render(Encode(v), Stringify)
  }

  /** Values without reserved records have the same text only if they are the same. */
  lemma {:induction false} WireTextInjective(v: Value, w: Value)
    requires Plain(v) && Plain(w)
    ensures WireText(v) == WireText(w) <==> v == w
  {
    EncodedIntegral(v);
    EncodedIntegral(w);
    SameTextSameTree(Encode(v), Encode(w), Stringify);
    RoundTrip(v);
    RoundTrip(w);
  }

  /** The restriction is needed: an integer and a one-field record share a text. */
  lemma {:induction false} WireTextAmbiguous(n: int)
    ensures var r := Record([Field(BIGINT, Value.Str(Decimal(n)))]);
      WireText(Int(n)) == WireText(r) && Int(n) != r && !Plain(r)
  {
    var f := Field(BIGINT, Value.Str(Decimal(n)));
    EncodedField([f], 0);
    assert EncodeFields([f]) == [Member(BIGINT, Json.Str(Decimal(n)))];
    assert [f][0] == f;
  }

  // ----- Records are filled one own property at a time -----

  /** `setOwnField`: replaces the property, or appends it. */
  function SetOwn<T>(record: seq<(Text, T)>, key: Text, value: T): seq<(Text, T)> {
    if record == [] then [(key, value)]
    else if record[0].0 == key then [(key, value)] + record[1..]
    else [record[0]] + SetOwn(record[1..], key, value)
  }

  lemma {:induction false} SetOwnAppends<T>(record: seq<(Text, T)>, key: Text, value: T)
    requires forall i :: 0 <= i < |record| ==> record[i].0 != key
    ensures SetOwn(record, key, value) == record + [(key, value)]
  {
    if record != [] {
      SetOwnAppends(record[1..], key, value);
      assert record == [record[0]] + record[1..];
    }
  }

  /** `encodeState`: with distinct names nothing is overwritten. */
  method EncodeState(fields: seq<Field>) returns (out: seq<(Text, Json)>)
    requires DistinctFields(fields)
    ensures |out| == |fields|
    ensures forall i :: 0 <= i < |fields| ==> Member(out[i].0, out[i].1) == EncodeFields(fields)[i]
  {
    out := [];
    for i := 0 to |fields|
      invariant |out| == i
      invariant forall k :: 0 <= k < i ==> out[k] == (fields[k].name, Encode(fields[k].value))
    {
      SetOwnAppends(out, fields[i].name, Encode(fields[i].value));
      out := SetOwn(out, fields[i].name, Encode(fields[i].value));
    }
    forall i | 0 <= i < |fields| ensures Member(out[i].0, out[i].1) == EncodeFields(fields)[i] {
      EncodedField(fields, i);
    }
  }
}
