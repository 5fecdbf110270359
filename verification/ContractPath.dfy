/** Reading a value at a declared path. */
module ContractPath {
  import opened Wrappers
  import opened JsonText
  import opened Permutations
  import opened Itf
  import opened ValueIdentity
  import opened OpaqueItf
  import opened ValueOrder
  import opened ModelTypes
  import opened NativeCodec
  import WireCodec

  /** `literalValue`: the protocol value a literal denotes, if it has no duplicates. */
  ghost function LiteralValue(l: Literal): Option<Value>
    decreases l, 1
  {
    match l
    case IntLit(text) =>
      var n := WireCodec.ParseBigInt(text);
      if n.None? then None else Some(Int(n.value))
    case BoolLit(b) => Some(Value.Bool(b))
    case StrLit(s) => Some(Value.Str(s))
    case NullLit => Some(Value.Null)
    case SetLit(values) =>
      var items := Collect(LiteralValues(values));
      if items.None? || !UniqueValues(items.value) then None else Some(Set(items.value))
    case SeqLit(values) =>
      var items := Collect(LiteralValues(values));
      if items.None? then None else Some(Seq(items.value))
    case TupleLit(values) =>
      var items := Collect(LiteralValues(values));
      if items.None? then None else Some(Tuple(items.value))
    case RecordLit(fields) =>
      var fs := Collect(LiteralFields(fields));
      if fs.None? || !DistinctFields(fs.value) then None else Some(Record(fs.value))
    case MapLit(entries) =>
      var es := Collect(LiteralEntries(entries));
      if es.None? || !UniqueValues(Keys(es.value)) then None else Some(Map(es.value))
    case VariantLit(tag, payload) =>
      var v := LiteralValue(payload);
      if v.None? then None else Some(Variant(tag, v.value))
  }

  ghost function LiteralValues(values: seq<Literal>): (r: seq<Option<Value>>)
    ensures |r| == |values| && forall i :: 0 <= i < |r| ==> r[i] == LiteralValue(values[i])
    decreases values, 0
  {
    seq(|values|, i requires 0 <= i < |values| => LiteralValue(values[i]))
  }

  ghost function LiteralFieldValue(f: LiteralField): Option<Field>
    decreases f, 2
  {
    AsField(f.name, LiteralValue(f.value))
  }

  ghost function LiteralFields(fields: seq<LiteralField>): (r: seq<Option<Field>>)
    ensures |r| == |fields| && forall i :: 0 <= i < |r| ==> r[i] == LiteralFieldValue(fields[i])
    decreases fields, 0
  {
    seq(|fields|, i requires 0 <= i < |fields| => LiteralFieldValue(fields[i]))
  }

  ghost function LiteralEntryValue(e: LiteralEntry): Option<Entry>
    decreases e, 2
  {
    var k, v := LiteralValue(e.key), LiteralValue(e.value);
    if k.None? || v.None? then None else Some(Entry(k.value, v.value))
  }

  ghost function LiteralEntries(entries: seq<LiteralEntry>): (r: seq<Option<Entry>>)
    ensures |r| == |entries| && forall i :: 0 <= i < |r| ==> r[i] == LiteralEntryValue(entries[i])
    decreases entries, 0
  {
    seq(|entries|, i requires 0 <= i < |entries| => LiteralEntryValue(entries[i]))
  }

  /** A literal that denotes a value denotes a well-formed one. */
  lemma {:induction false} LiteralWellFormed(l: Literal)
    ensures LiteralValue(l).Some? ==> WellFormed(LiteralValue(l).value)
    decreases l, 1
  {
    if LiteralValue(l).Some? {
      match l
      case SetLit(values) => LiteralsWellFormed(values);
      case SeqLit(values) => LiteralsWellFormed(values);
      case TupleLit(values) => LiteralsWellFormed(values);
      case RecordLit(fields) =>
        var fs := Collect(LiteralFields(fields)).value;
        forall i | 0 <= i < |fs| ensures WellFormed(fs[i].value) {
          assert LiteralFields(fields)[i] == Some(fs[i]);
          FieldLiteralWellFormed(fields[i]);
        }
      case MapLit(entries) =>
        var es := Collect(LiteralEntries(entries)).value;
        forall i | 0 <= i < |es| ensures WellFormed(es[i].key) && WellFormed(es[i].value) {
          assert LiteralEntries(entries)[i] == Some(es[i]);
          EntryLiteralWellFormed(entries[i]);
        }
      case VariantLit(_, payload) => LiteralWellFormed(payload);
      case _ =>
    }
  }

  lemma {:induction false} LiteralsWellFormed(values: seq<Literal>)
    requires Collect(LiteralValues(values)).Some?
    ensures forall i :: 0 <= i < |values| ==> WellFormed(Collect(LiteralValues(values)).value[i])
    decreases values, 0
  {
    var items := Collect(LiteralValues(values)).value;
    forall i | 0 <= i < |values| ensures WellFormed(items[i]) {
      assert LiteralValues(values)[i] == Some(items[i]);
      LiteralWellFormed(values[i]);
    }
  }

  lemma {:induction false} FieldLiteralWellFormed(f: LiteralField)
    ensures LiteralFieldValue(f).Some? ==> WellFormed(LiteralFieldValue(f).value.value)
    decreases f, 2
  {
    LiteralWellFormed(f.value);
  }

  lemma {:induction false} EntryLiteralWellFormed(e: LiteralEntry)
    ensures var v := LiteralEntryValue(e); v.Some? ==> WellFormed(v.value.key) && WellFormed(v.value.value)
    decreases e, 2
  {
    LiteralWellFormed(e.key);
    LiteralWellFormed(e.value);
  }

  method ValueOfLiteral(l: Literal) returns (r: Option<Value>)
    ensures r == LiteralValue(l)
    ensures r.Some? ==> WellFormed(r.value)
    decreases l, 1
  {
    LiteralWellFormed(l);
    match l {
      case IntLit(text) =>
        var n := WireCodec.ParseBigInt(text);
        r := if n.None? then None else Some(Int(n.value));
      case BoolLit(b) => r := Some(Value.Bool(b));
      case StrLit(s) => r := Some(Value.Str(s));
      case NullLit => r := Some(Value.Null);
      case SetLit(values) =>
        var items := ValuesOfLiterals(values);
        if items.None? { return None; }
        var unique := AssertUniqueValues(items.value);
        r := if unique then Some(Set(items.value)) else None;
      case SeqLit(values) =>
        var items := ValuesOfLiterals(values);
        r := if items.None? then None else Some(Seq(items.value));
      case TupleLit(values) =>
        var items := ValuesOfLiterals(values);
        r := if items.None? then None else Some(Tuple(items.value));
      case RecordLit(fields) => r := RecordOfLiteral(fields);
      case MapLit(entries) => r := MapOfLiteral(entries);
      case VariantLit(tag, payload) =>
        var v := ValueOfLiteral(payload);
        r := if v.None? then None else Some(Variant(tag, v.value));
    }
  }

  method ValuesOfLiterals(values: seq<Literal>) returns (r: Option<seq<Value>>)
    ensures r == Collect(LiteralValues(values))
    ensures r.Some? ==> forall i :: 0 <= i < |r.value| ==> WellFormed(r.value[i])
    decreases values, 0
  {
    var out := [];
    for i := 0 to |values|
      invariant |out| == i
      invariant forall k :: 0 <= k < i ==> LiteralValues(values)[k] == Some(out[k]) && WellFormed(out[k])
    {
      var v := ValueOfLiteral(values[i]);
      if v.None? { return None; }
      out := out + [v.value];
    }
    assert Collect(LiteralValues(values)).value == out;
    r := Some(out);
  }

  method RecordOfLiteral(fields: seq<LiteralField>) returns (r: Option<Value>)
    ensures r == LiteralValue(RecordLit(fields))
    decreases fields, 0
  {
    var out: seq<Field> := [];
    for i := 0 to |fields|
      invariant |out| == i && DistinctFields(out)
      invariant forall k :: 0 <= k < i ==> LiteralFields(fields)[k] == Some(out[k]) && out[k].name == fields[k].name
    {
      var f := fields[i];
      if IndexOf(Names(out), f.name).Some? {
        RepeatedField(fields, IndexOf(Names(out), f.name).value, i);
        return None;
      }
      var v := FieldOfLiteral(f);
      if v.None? { return None; }
      out := out + [v.value];
    }
    assert Collect(LiteralFields(fields)).value == out;
    r := Some(Record(out));
  }

  lemma {:induction false} RepeatedField(fields: seq<LiteralField>, k: nat, i: nat)
    requires k < i < |fields| && fields[k].name == fields[i].name
    ensures LiteralValue(RecordLit(fields)).None?
  {
    var fs := Collect(LiteralFields(fields));
    if fs.Some? {
      assert LiteralFields(fields)[k] == Some(fs.value[k]) && LiteralFields(fields)[i] == Some(fs.value[i]);
      assert fs.value[k].name == fs.value[i].name;
    }
  }

  method FieldOfLiteral(f: LiteralField) returns (r: Option<Field>)
    ensures r == LiteralFieldValue(f)
    decreases f, 2
  {
    var v := ValueOfLiteral(f.value);
    r := AsField(f.name, v);
  }

  method MapOfLiteral(entries: seq<LiteralEntry>) returns (r: Option<Value>)
    ensures r == LiteralValue(MapLit(entries))
    decreases entries, 0
  {
    var out: seq<Entry> := [];
    for i := 0 to |entries|
      invariant |out| == i
      invariant forall k :: 0 <= k < i ==> LiteralEntries(entries)[k] == Some(out[k]) && WellFormed(out[k].key)
    {
      var e := EntryOfLiteral(entries[i]);
      if e.None? { return None; }
      out := out + [e.value];
    }
    assert Collect(LiteralEntries(entries)).value == out;
    var unique := AssertUniqueValues(Keys(out));
    r := if unique then Some(Map(out)) else None;
  }

  method EntryOfLiteral(e: LiteralEntry) returns (r: Option<Entry>)
    ensures r == LiteralEntryValue(e)
    ensures r.Some? ==> WellFormed(r.value.key)
    decreases e, 2
  {
    var k := ValueOfLiteral(e.key);
    if k.None? { return None; }
    var v := ValueOfLiteral(e.value);
    r := if v.None? then None else Some(Entry(k.value, v.value));
  }

  // ----- One step -----

  /** The place of the first key with the identity of `key`, if any. */
  function KeyPlace(keys: seq<Value>, key: Value): (r: Option<nat>)
    ensures r.Some? ==> r.value < |keys|
  {
    IndexOf(Identities(keys), Identity(key))
  }

  ghost function Select(v: Value, s: Segment): Option<Value> {
    match s
    case FieldSegment(name) =>
      if !v.Record? then None
      else
        var i := IndexOf(Names(v.fields), name);
        if i.None? then None else Some(v.fields[i.value].value)
    case IndexSegment(index) =>
      if (v.Seq? || v.Tuple?) && index < |v.items| then Some(v.items[index]) else None
    case CaseSegment(tag) => if v.Variant? && v.tag == tag then Some(v.value) else None
    case KeySegment(key) => if v.Map? then SelectKey(v.entries, key) else None
  }

  ghost function SelectKey(entries: seq<Entry>, l: Literal): Option<Value> {
    if !UniqueValues(Keys(entries)) then None
    else
      var key := LiteralValue(l);
      if key.None? || !Acceptable(key.value) then None
      else
        EntryAt(entries, key.value)
  }

  function EntryAt(entries: seq<Entry>, key: Value): Option<Value> {
    var place := KeyPlace(Keys(entries), key);
    if place.None? then None else Some(entries[place.value].value)
  }

  /** A path followed from a value. */
  ghost function Follow(v: Value, path: seq<Segment>): Option<Value> {
    if path == [] then Some(v)
    else
      var next := Select(v, path[0]);
      if next.None? then None else Follow(next.value, path[1..])
  }

  /** `readPath`. */
  method ReadPath(root: seq<Field>, path: seq<Segment>) returns (r: Option<Value>)
    requires WellFormed(Record(root))
    ensures r == Follow(Record(root), path)
  {
    var value := Record(root);
    assert path[0..] == path;
    for i := 0 to |path|
      invariant WellFormed(value) && Follow(value, path[i..]) == Follow(Record(root), path)
    {
      assert path[i..][0] == path[i] && path[i..][1..] == path[i + 1..];
      var next := TakeStep(value, path[i]);
      if next.None? { return None; }
      value := next.value;
    }
    r := Some(value);
  }

  method TakeStep(value: Value, segment: Segment) returns (r: Option<Value>)
    requires WellFormed(value)
    ensures r == Select(value, segment) && (r.Some? ==> WellFormed(r.value))
  {
    match segment {
      case FieldSegment(name) =>
        if !value.Record? { return None; }
        var i := IndexOf(Names(value.fields), name);
        r := if i.None? then None else Some(value.fields[i.value].value);
      case IndexSegment(index) =>
        r := if (value.Seq? || value.Tuple?) && index < |value.items| then Some(value.items[index]) else None;
      case CaseSegment(tag) => r := if value.Variant? && value.tag == tag then Some(value.value) else None;
      case KeySegment(key) =>
        if !value.Map? { return None; }
        r := LookUp(value.entries, key);
    }
  }

  method LookUp(entries: seq<Entry>, l: Literal) returns (r: Option<Value>)
    requires WellFormed(Map(entries))
    ensures r == SelectKey(entries, l) && (r.Some? ==> WellFormed(r.value))
  {
    var unique := AssertUniqueValues(Keys(entries));
    if !unique { return None; }
    var key := ValueOfLiteral(l);
    if key.None? { return None; }
    var fits := SnapshotValue(key.value);
    if !fits { return None; }
    var place := FindKey(Keys(entries), key.value);
    r := if place.None? then None else Some(entries[place.value].value);
  }

  method FindKey(keys: seq<Value>, key: Value) returns (place: Option<nat>)
    ensures place == KeyPlace(keys, key)
  {
    place := FindText(Identities(keys), Identity(key));
  }

  /** Identities are compared with the expected one until one matches. */
  method FindText(ids: seq<Text>, expected: Text) returns (place: Option<nat>)
    ensures place == IndexOf(ids, expected)
  {
    for i := 0 to |ids|
      invariant forall k :: 0 <= k < i ==> ids[k] != expected
    {
      if ids[i] == expected {
        FirstIndex(ids, i);
        return Some(i);
      }
    }
    place := None;
  }

  lemma {:induction false} FirstIndex(names: seq<Text>, i: nat)
    requires i < |names| && forall k :: 0 <= k < i ==> names[k] != names[i]
    ensures IndexOf(names, names[i]) == Some(i)
  {
    if i > 0 {
      FirstIndex(names[1..], i - 1);
    }
  }

  // ----- What a path means does not depend on how a value is written down -----

  /** Looking up a name in paired lists finds paired places. */
  lemma {:induction false} PairedPlaces(xs: seq<Text>, ys: seq<Text>, p: seq<nat>, name: Text)
    requires Pairs(xs, ys, p) && DistinctNames(ys)
    ensures IndexOf(xs, name).Some? <==> IndexOf(ys, name).Some?
    ensures IndexOf(xs, name).Some? ==> IndexOf(ys, name) == Some(p[IndexOf(xs, name).value])
  {
    PairingMultiset(xs, ys, p);
    assert name in multiset(xs) <==> name in multiset(ys);
    if IndexOf(xs, name).Some? {
      IndexOfDistinct(ys, p[IndexOf(xs, name).value]);
    }
  }

  lemma {:induction false} FieldSelected(fs: seq<Field>, gs: seq<Field>, name: Text)
    requires WellFormed(Record(fs)) && WellFormed(Record(gs)) && Same(Record(fs), Record(gs))
    ensures SameResult(Select(Record(fs), FieldSegment(name)), Select(Record(gs), FieldSegment(name)))
  {
    var p := RecordsPaired(fs, gs);
    forall i | 0 <= i < |fs| ensures Names(fs)[i] == Names(gs)[p[i]] { assert SameField(fs[i], gs[p[i]]); }
    PairedPlaces(Names(fs), Names(gs), p, name);
    var i := IndexOf(Names(fs), name);
    if i.Some? {
      assert SameField(fs[i.value], gs[p[i.value]]);
    }
  }

  /** Both missing, or both there and equal up to order. */
  ghost predicate SameResult(a: Option<Value>, b: Option<Value>) {
    a.Some? == b.Some? && (a.Some? ==> Same(a.value, b.value))
  }

  lemma {:induction false} IdentitiesPaired(ks: seq<Value>, ls: seq<Value>, p: seq<nat>)
    requires SamePaired(ks, ls, p) && NoDuplicates(ls)
    requires forall i :: 0 <= i < |ks| ==> WellFormed(ks[i]) && WellFormed(ls[i])
    ensures Pairs(Identities(ks), Identities(ls), p) && DistinctNames(Identities(ls))
  {
    forall i | 0 <= i < |ks| ensures Identities(ks)[i] == Identities(ls)[p[i]] {
      assert SameItem(ks[i], ls[p[i]]);
      IdentityIsEquality(ks[i], ls[p[i]]);
    }
    DistinctIdentities(ls);
  }

  lemma {:induction false} EntriesPaired(es: seq<Entry>, ds: seq<Entry>) returns (p: seq<nat>)
    requires WellFormed(Map(es)) && WellFormed(Map(ds)) && Same(Map(es), Map(ds)) && NoDuplicates(Keys(ds))
    ensures |es| == |ds| == |p| && forall i :: 0 <= i < |es| ==> 0 <= p[i] < |ds| && SameEntry(es[i], ds[p[i]])
    ensures Pairs(Identities(Keys(es)), Identities(Keys(ds)), p) && DistinctNames(Identities(Keys(ds)))
  {
    p := MapsPaired(es, ds);
    SameKeys(es, ds, p);
    IdentitiesPaired(Keys(es), Keys(ds), p);
  }

  lemma {:induction false} EntryFound(es: seq<Entry>, ds: seq<Entry>, key: Value)
    requires WellFormed(Map(es)) && WellFormed(Map(ds)) && Same(Map(es), Map(ds)) && NoDuplicates(Keys(ds))
    ensures SameResult(EntryAt(es, key), EntryAt(ds, key))
  {
    var p := EntriesPaired(es, ds);
    PairedPlaces(Identities(Keys(es)), Identities(Keys(ds)), p, Identity(key));
    var place := KeyPlace(Keys(es), key);
    if place.Some? { assert SameEntry(es[place.value], ds[p[place.value]]); }
  }

  lemma {:induction false} UniqueAlike(es: seq<Entry>, ds: seq<Entry>)
    requires WellFormed(Map(es)) && WellFormed(Map(ds)) && Same(Map(es), Map(ds)) && UniqueValues(Keys(es))
    ensures UniqueValues(Keys(ds))
  {
    var p := MapsPaired(es, ds);
    SameKeys(es, ds, p);
    SameUnique(Keys(es), Keys(ds), p);
  }

  lemma {:induction false} UniqueBoth(es: seq<Entry>, ds: seq<Entry>)
    requires WellFormed(Map(es)) && WellFormed(Map(ds)) && Same(Map(es), Map(ds))
    ensures UniqueValues(Keys(es)) <==> UniqueValues(Keys(ds))
  {
    IdentityIsEquality(Map(es), Map(ds));
    IdentityIsEquality(Map(ds), Map(es));
    if UniqueValues(Keys(es)) { UniqueAlike(es, ds); }
    if UniqueValues(Keys(ds)) { UniqueAlike(ds, es); }
  }

  lemma {:induction false} KeySelected(es: seq<Entry>, ds: seq<Entry>, l: Literal)
    requires WellFormed(Map(es)) && WellFormed(Map(ds)) && Same(Map(es), Map(ds))
    ensures SameResult(SelectKey(es, l), SelectKey(ds, l))
  {
    UniqueBoth(es, ds);
    var key := LiteralValue(l);
    if UniqueValues(Keys(ds)) && key.Some? {
      EntryFound(es, ds, key.value);
      SelectKeyIs(es, l);
      SelectKeyIs(ds, l);
    }
  }

  lemma {:induction false} SelectKeyIs(entries: seq<Entry>, l: Literal)
    requires UniqueValues(Keys(entries)) && LiteralValue(l).Some?
    ensures SelectKey(entries, l) == if Acceptable(LiteralValue(l).value) then EntryAt(entries, LiteralValue(l).value) else None
  {
  }

  lemma {:induction false} SelectRespects(v: Value, w: Value, s: Segment)
    requires WellFormed(v) && WellFormed(w) && Same(v, w)
    ensures SameResult(Select(v, s), Select(w, s))
  {
    match s
    case FieldSegment(name) => if v.Record? { FieldSelected(v.fields, w.fields, name); }
    case KeySegment(l) => if v.Map? { KeySelected(v.entries, w.entries, l); }
    case _ =>
  }

  lemma {:induction false} SelectWellFormed(v: Value, s: Segment)
    requires WellFormed(v) && Select(v, s).Some?
    ensures WellFormed(Select(v, s).value)
  {
  }

  /** Following a path in two values that are equal up to order fails in both or
      gives results equal up to order. */
  lemma {:induction false} FollowRespects(v: Value, w: Value, path: seq<Segment>)
    requires WellFormed(v) && WellFormed(w) && Same(v, w)
    ensures SameResult(Follow(v, path), Follow(w, path))
    decreases path
  {
    if path != [] {
      SelectRespects(v, w, path[0]);
      if Select(v, path[0]).Some? {
        SelectWellFormed(v, path[0]);
        SelectWellFormed(w, path[0]);
        FollowRespects(Select(v, path[0]).value, Select(w, path[0]).value, path[1..]);
      }
    }
  }

  /** A map step selects the value of the one entry whose key equals the literal. */
  lemma {:induction false} KeySegmentMeaning(entries: seq<Entry>, key: Value, i: nat)
    requires WellFormed(Map(entries)) && WellFormed(key) && NoDuplicates(Keys(entries)) && i < |entries|
    ensures KeyPlace(Keys(entries), key) == Some(i) <==> Same(entries[i].key, key)
  {
    var keys := Keys(entries);
    DistinctIdentities(keys);
    IdentityIsEquality(keys[i], key);
    assert Identities(keys)[i] == Identity(keys[i]);
    if Identity(keys[i]) == Identity(key) {
      IndexOfDistinct(Identities(keys), i);
    }
  }
}
