/** The structural difference of two parsed traces. */
module TraceDifferences {
  import opened Wrappers
  import opened JsonText
  import opened Sorting

  const SLASH: CodeUnit := 0x2F
  const PROTO: Text := Ascii("__proto__")

  function Child(path: Text, name: Text): Text { path + [SLASH] + name }

  /** A member of an object by its key. */
  function Own(j: Json, key: Text): (r: Option<Json>)
    requires j.Obj?
    ensures r.Some? ==> r.value < j
  {
    OwnOf(j.members, key)
  }

  function OwnOf(ms: seq<Member>, key: Text): (r: Option<Json>)
    ensures r.Some? ==> exists i :: 0 <= i < |ms| && ms[i].value == r.value
  {
    if ms == [] then None else if ms[0].key == key then Some(ms[0].value) else OwnOf(ms[1..], key)
  }

  lemma {:induction false} OwnMeaning(ms: seq<Member>, key: Text)
    ensures OwnOf(ms, key).Some? <==> key in Keys(ms)
  {
    if ms != [] {
      OwnMeaning(ms[1..], key);
      assert Keys(ms) == [ms[0].key] + Keys(ms[1..]);
    }
  }

  function Keys(ms: seq<Member>): (ks: seq<Text>)
    ensures |ks| == |ms| && forall i :: 0 <= i < |ms| ==> ks[i] == ms[i].key
  {
    seq(|ms|, i requires 0 <= i < |ms| => ms[i].key)
  }

  function Unique(ks: seq<Text>): (r: seq<Text>)
    ensures forall k :: k in r <==> k in ks
    ensures forall i, j :: 0 <= i < j < |r| ==> r[i] != r[j]
  {
    if ks == [] then []
    else
      var front := Unique(ks[..|ks| - 1]);
      assert ks == ks[..|ks| - 1] + [ks[|ks| - 1]];
      if ks[|ks| - 1] in front then front else front + [ks[|ks| - 1]]
  }

  function Units(t: Text): seq<int> { t }

  /** The keys of both objects, each once, in order. */
  function AllKeys(l: Json, r: Json): seq<Text>
    requires l.Obj? && r.Obj?
  {
    SortBy(Unique(Keys(l.members) + Keys(r.members)), Units)
  }

  /** `differences`: the paths at which two trees differ. */
  function Differences(l: Json, r: Json, path: Text): seq<Text>
    decreases l, 2
  {
    if l.Arr? && r.Arr? then
      if |l.items| != |r.items| then [path] else ItemDifferences(l, r, 0, path)
    else if l.Obj? && r.Obj? then KeyDifferences(l, r, AllKeys(l, r), path)
    else if l == r then [] else [path]
  }

  function ItemDifferences(l: Json, r: Json, i: nat, path: Text): seq<Text>
    requires l.Arr? && r.Arr? && i <= |l.items| == |r.items|
    decreases l, 1, |l.items| - i
  {
    if i == |l.items| then []
    else Differences(l.items[i], r.items[i], Child(path, Digits(i))) + ItemDifferences(l, r, i + 1, path)
  }

  function KeyDifferences(l: Json, r: Json, keys: seq<Text>, path: Text): seq<Text>
    requires l.Obj? && r.Obj?
    decreases l, 1, |keys|
  {
    if keys == [] then []
    else KeyDifference(l, r, keys[0], Child(path, keys[0])) + KeyDifferences(l, r, keys[1..], path)
  }

  /** A key that only one object owns is read from the other's prototype: for
      `__proto__` that is an object without enumerable keys. */
  function KeyDifference(l: Json, r: Json, key: Text, path: Text): seq<Text>
    requires l.Obj? && r.Obj?
    decreases l, 0
  {
    match (Own(l, key), Own(r, key))
    case (Some(a), Some(b)) => Differences(a, b, path)
    case (Some(a), None) => if key == PROTO then FromPrototype(a, path) else [path]
    case (None, Some(b)) => if key == PROTO then FromPrototype(b, path) else [path]
    case (None, None) => []
  }

  /** The differences of a value from the root prototype, whose own prototype is null
      and whose other properties are functions. */
  function FromPrototype(v: Json, path: Text): seq<Text> {
    if v.Obj? then FromPrototypeKeys(v, SortBy(Unique(Keys(v.members)), Units), path) else [path]
  }

  function FromPrototypeKeys(v: Json, keys: seq<Text>, path: Text): seq<Text>
    requires v.Obj?
  {
    if keys == [] then []
    else
      (if keys[0] == PROTO && Own(v, PROTO) == Some(Null) then [] else [Child(path, keys[0])])
      + FromPrototypeKeys(v, keys[1..], path)
  }

  // ----- No difference -----

  /** Structural equality, whatever the order of keys. */
  ghost predicate Same(l: Json, r: Json)
    decreases l
  {
    if l.Arr? && r.Arr? then |l.items| == |r.items| && forall i :: 0 <= i < |l.items| ==> Same(l.items[i], r.items[i])
    else if l.Obj? && r.Obj? then
      forall k :: if Own(l, k).Some? && Own(r, k).Some? then Same(Own(l, k).value, Own(r, k).value)
                  else Own(l, k).None? && Own(r, k).None?
    else l == r
  }

  /** Somewhere in both trees, one of two objects owns `__proto__` and the other does not. */
  ghost predicate Borrows(l: Json, r: Json)
    decreases l
  {
    if l.Arr? && r.Arr? then exists i :: 0 <= i < |l.items| && i < |r.items| && Borrows(l.items[i], r.items[i])
    else if l.Obj? && r.Obj? then
      || Own(l, PROTO).Some? != Own(r, PROTO).Some?
      || exists k :: Own(l, k).Some? && Own(r, k).Some? && Borrows(Own(l, k).value, Own(r, k).value)
    else false
  }

  /** What no reported difference amounts to. */
  ghost predicate Agree(l: Json, r: Json)
    decreases l, 1
  {
    if l.Arr? && r.Arr? then |l.items| == |r.items| && forall i :: 0 <= i < |l.items| ==> Agree(l.items[i], r.items[i])
    else if l.Obj? && r.Obj? then forall k :: AgreeAt(l, r, k)
    else l == r
  }

  ghost predicate AgreeAt(l: Json, r: Json, k: Text)
    requires l.Obj? && r.Obj?
    decreases l, 0
  {
    match (Own(l, k), Own(r, k))
    case (Some(a), Some(b)) => Agree(a, b)
    case (Some(a), None) => k == PROTO && FromPrototype(a, []) == []
    case (None, Some(b)) => k == PROTO && FromPrototype(b, []) == []
    case (None, None) => true
  }

  lemma {:induction false} PrototypeKeysPath(v: Json, keys: seq<Text>, p: Text, q: Text)
    requires v.Obj?
    ensures FromPrototypeKeys(v, keys, p) == [] <==> FromPrototypeKeys(v, keys, q) == []
  {
    if keys != [] { PrototypeKeysPath(v, keys[1..], p, q); }
  }

  lemma {:induction false} PrototypePath(v: Json, p: Text, q: Text)
    ensures FromPrototype(v, p) == [] <==> FromPrototype(v, q) == []
  {
    if v.Obj? { PrototypeKeysPath(v, SortBy(Unique(Keys(v.members)), Units), p, q); }
  }

  lemma {:induction false} AllKeysMeaning(l: Json, r: Json)
    requires l.Obj? && r.Obj?
    ensures forall k :: k in AllKeys(l, r) <==> Own(l, k).Some? || Own(r, k).Some?
    ensures DistinctTexts(AllKeys(l, r))
  {
    var both := Keys(l.members) + Keys(r.members);
    SortByMeaning(Unique(both), Units);
    SameMembers(Unique(both), AllKeys(l, r));
    DistinctByMultiset(Unique(both), AllKeys(l, r));
    forall k ensures k in AllKeys(l, r) <==> Own(l, k).Some? || Own(r, k).Some? {
      OwnMeaning(l.members, k);
      OwnMeaning(r.members, k);
    }
  }

  ghost predicate DistinctTexts(ts: seq<Text>) {
    forall i, j :: 0 <= i < j < |ts| ==> ts[i] != ts[j]
  }

  lemma {:induction false} SameMembers(a: seq<Text>, b: seq<Text>)
    requires multiset(a) == multiset(b)
    ensures forall k :: k in a <==> k in b
  {
    forall k ensures k in a <==> k in b {
      assert k in a <==> k in multiset(a);
    }
  }

  lemma {:induction false} DistinctByMultiset(a: seq<Text>, b: seq<Text>)
    requires multiset(a) == multiset(b) && DistinctTexts(a)
    ensures DistinctTexts(b)
  {
    forall i, j | 0 <= i < j < |b| ensures b[i] != b[j] {
      if b[i] == b[j] {
        Twice(b, i, j);
        Once(a, b[i]);
      }
    }
  }

  lemma {:induction false} Twice(b: seq<Text>, i: nat, j: nat)
    requires i < j < |b| && b[i] == b[j]
    ensures multiset(b)[b[i]] >= 2
  {
    assert b == b[..j] + b[j..];
    assert b[i] in b[..j] && b[..j][i] == b[i];
    assert b[j] in b[j..] && b[j..][0] == b[j];
  }

  lemma {:induction false} Once(a: seq<Text>, t: Text)
    requires DistinctTexts(a)
    ensures multiset(a)[t] <= 1
  {
    if a != [] {
      var front := a[..|a| - 1];
      assert a == front + [a[|a| - 1]];
      Once(front, t);
      if t == a[|a| - 1] { assert t !in front; }
    }
  }

  lemma {:induction false} EmptyIffAgree(l: Json, r: Json, path: Text)
    ensures Differences(l, r, path) == [] <==> Agree(l, r)
    decreases l, 2
  {
    if l.Arr? && r.Arr? {
      if |l.items| == |r.items| { EmptyItems(l, r, 0, path); }
    } else if l.Obj? && r.Obj? {
      var keys := AllKeys(l, r);
      AllKeysMeaning(l, r);
      EmptyKeys(l, r, keys, path);
      forall k | k !in keys ensures AgreeAt(l, r, k) {
      }
    }
  }

  lemma {:induction false} EmptyItems(l: Json, r: Json, i: nat, path: Text)
    requires l.Arr? && r.Arr? && i <= |l.items| == |r.items|
    ensures ItemDifferences(l, r, i, path) == [] <==> forall k :: i <= k < |l.items| ==> Agree(l.items[k], r.items[k])
    decreases l, 1, |l.items| - i
  {
    if i < |l.items| {
      EmptyIffAgree(l.items[i], r.items[i], Child(path, Digits(i)));
      EmptyItems(l, r, i + 1, path);
    }
  }

  lemma {:induction false} EmptyKeys(l: Json, r: Json, keys: seq<Text>, path: Text)
    requires l.Obj? && r.Obj?
    ensures KeyDifferences(l, r, keys, path) == [] <==> forall k :: k in keys ==> AgreeAt(l, r, k)
    decreases l, 1, |keys|
  {
    if keys != [] {
      EmptyKey(l, r, keys[0], Child(path, keys[0]));
      EmptyKeys(l, r, keys[1..], path);
      assert forall k :: k in keys <==> k == keys[0] || k in keys[1..];
    }
  }

  lemma {:induction false} EmptyKey(l: Json, r: Json, key: Text, path: Text)
    requires l.Obj? && r.Obj?
    ensures KeyDifference(l, r, key, path) == [] <==> AgreeAt(l, r, key)
    decreases l, 0
  {
    match (Own(l, key), Own(r, key))
    case (Some(a), Some(b)) => EmptyIffAgree(a, b, path);
    case (Some(a), None) => PrototypePath(a, path, []);
    case (None, Some(b)) => PrototypePath(b, path, []);
    case (None, None) =>
  }

  lemma {:induction false} SameIffAgree(l: Json, r: Json)
    ensures Same(l, r) <==> Agree(l, r) && !Borrows(l, r)
    decreases l
  {
    if l.Arr? && r.Arr? {
      if |l.items| == |r.items| {
        forall i | 0 <= i < |l.items|
          ensures Same(l.items[i], r.items[i]) <==> Agree(l.items[i], r.items[i]) && !Borrows(l.items[i], r.items[i])
        {
          SameIffAgree(l.items[i], r.items[i]);
        }
      }
    } else if l.Obj? && r.Obj? {
      forall k | Own(l, k).Some? && Own(r, k).Some?
        ensures var a, b := Own(l, k).value, Own(r, k).value; Same(a, b) <==> Agree(a, b) && !Borrows(a, b)
      {
        SameIffAgree(Own(l, k).value, Own(r, k).value);
      }
      SameKeys(l, r);
    }
  }

  lemma {:induction false} SameKeys(l: Json, r: Json)
    requires l.Obj? && r.Obj?
    requires forall k :: Own(l, k).Some? && Own(r, k).Some? ==>
      (Same(Own(l, k).value, Own(r, k).value) <==> Agree(Own(l, k).value, Own(r, k).value) && !Borrows(Own(l, k).value, Own(r, k).value))
    ensures Same(l, r) <==> Agree(l, r) && !Borrows(l, r)
  {
    if Same(l, r) {
      forall k ensures AgreeAt(l, r, k) {
        assert Own(l, k).Some? && Own(r, k).Some? ==> Same(Own(l, k).value, Own(r, k).value);
      }
      assert !Borrows(l, r);
    }
    if Agree(l, r) && !Borrows(l, r) {
      forall k ensures if Own(l, k).Some? && Own(r, k).Some? then Same(Own(l, k).value, Own(r, k).value)
                       else Own(l, k).None? && Own(r, k).None?
      {
        assert AgreeAt(l, r, k);
      }
    }
  }

  /** Two trees are the same exactly if no difference is reported and nowhere does
      only one of two corresponding objects own `__proto__`. */
  lemma {:induction false} NoDifferenceMeansSame(l: Json, r: Json)
    ensures Same(l, r) <==> Differences(l, r, []) == [] && !Borrows(l, r)
  {
    EmptyIffAgree(l, r, []);
    SameIffAgree(l, r);
  }

  /** The second condition is needed: no difference is reported between these. */
  lemma {:induction false} BorrowedPrototype()
    ensures var l, r := Obj([]), Obj([Member(PROTO, Obj([]))]); Differences(l, r, []) == [] && !Same(l, r)
  {
    var v: Json := Obj([]);
    var l, r := Obj([]), Obj([Member(PROTO, v)]);
    assert Unique([]) == [];
    assert FromPrototype(v, []) == [];
    assert Own(r, PROTO) == Some(v) && Own(l, PROTO).None?;
    forall k ensures AgreeAt(l, r, k) {
      assert Keys(r.members) == [PROTO];
    }
    EmptyIffAgree(l, r, []);
  }
}

/** Applying declared edits to a trace, and what they change. */
module LeaseReduction {
  import opened Wrappers
  import opened JsonText
  import opened Sorting
  import opened TraceDifferences

  datatype ActionId = Acquire | Renew | Release | Write

  datatype InputId = Client | Token

  datatype Edit = Edit(stateIndex: int, action: ActionId, input: InputId, before: int, after: int)

  datatype Refusal = TransformUnsupported | EditDuplicate | CandidateInvalid

  const MAX_SAFE_INTEGER := 0x1F_FFFF_FFFF_FFFF
  const MAX_EDITS := 16

  const STATES: Text := Ascii("states")
  const PARAMETERS: Text := Ascii("parameters")
  const ACTION_TAKEN: Text := Ascii("action_taken")
  const BIGINT: Text := Ascii("#bigint")
  const CLIENT: Text := Ascii("client")
  const TOKEN: Text := Ascii("token")

  function Field(input: InputId): Text {
    if input.Client? then CLIENT else TOKEN
  }

  function WireAction(a: ActionId): Text {
    match a
    case Acquire => Ascii("acquire")
    case Renew => Ascii("renew")
    case Release => Ascii("release")
    case Write => Ascii("write")
  }

  // ----- Candidates -----

  predicate Supported(e: Edit) {
    1 <= e.stateIndex <= MAX_SAFE_INTEGER && e.before == 2 && e.after == 1 && (e.action.Acquire? ==> e.input.Client?)
  }

  predicate SameTarget(e: Edit, f: Edit) {
    e.stateIndex == f.stateIndex && e.action == f.action && e.input == f.input
  }

  predicate NoDuplicates(edits: seq<Edit>) {
    forall i, j :: 0 <= i < j < |edits| ==> !SameTarget(edits[i], edits[j])
  }

  predicate AllSupported(edits: seq<Edit>) {
    1 <= |edits| <= MAX_EDITS && forall i :: 0 <= i < |edits| ==> Supported(edits[i])
  }

  // ----- Places in a trace -----

  function States(trace: Json): Option<seq<Json>> {
    if trace.Obj? && Own(trace, STATES).Some? && Own(trace, STATES).value.Arr? then Some(Own(trace, STATES).value.items) else None
  }

  function State(trace: Json, i: int): Option<Json> {
    if States(trace).Some? && 0 <= i < |States(trace).value| then Some(States(trace).value[i]) else None
  }

  function MemberOf(j: Option<Json>, key: Text): Option<Json> {
    if j.Some? && j.value.Obj? then Own(j.value, key) else None
  }

  /** The input an edit is about. */
  function Leaf(trace: Json, i: int, input: InputId): Option<Json> {
    MemberOf(MemberOf(State(trace, i), PARAMETERS), Field(input))
  }

  /** `rawBigint`. */
  function RawBigint(j: Json): Option<Text> {
    if j.Obj? && |j.members| == 1 && j.members[0].key == BIGINT && j.members[0].value.Str? then Some(j.members[0].value.s) else None
  }

  function Bigint(n: int): Json { Obj([Member(BIGINT, Str(Decimal(n)))]) }

  /** The checks made of an edit before it is applied. */
  predicate Applies(original: Json, e: Edit) {
    && MemberOf(State(original, e.stateIndex), ACTION_TAKEN) == Some(Str(WireAction(e.action)))
    && Leaf(original, e.stateIndex, e.input).Some?
    && RawBigint(Leaf(original, e.stateIndex, e.input).value) == Some(Decimal(e.before))
  }

  function LeafPath(i: nat, input: InputId): Text {
    Child(Child(Child(Child(Child([], STATES), Digits(i)), PARAMETERS), Field(input)), BIGINT)
  }

  function PathOf(e: Edit): Text {
    LeafPath(if e.stateIndex < 0 then 0 else e.stateIndex, e.input)
  }

  // ----- Editing -----

  function PutOf(ms: seq<Member>, key: Text, v: Json): seq<Member> {
    if ms == [] then []
    else if ms[0].key == key then [Member(key, v)] + ms[1..]
    else [ms[0]] + PutOf(ms[1..], key, v)
  }

  lemma {:induction false} PutKeys(ms: seq<Member>, key: Text, v: Json)
    ensures Keys(PutOf(ms, key, v)) == Keys(ms)
  {
    if ms != [] {
      PutKeys(ms[1..], key, v);
      KeysCons(ms[0], ms[1..]);
      assert ms == [ms[0]] + ms[1..];
      if ms[0].key == key { KeysCons(Member(key, v), ms[1..]); } else { KeysCons(ms[0], PutOf(ms[1..], key, v)); }
    }
  }

  lemma {:induction false} KeysCons(m: Member, ms: seq<Member>)
    ensures Keys([m] + ms) == [m.key] + Keys(ms)
  {
  }

  /** An object with another value for a key it owns. */
  function Put(j: Json, key: Text, v: Json): Json
    requires j.Obj?
  {
    Obj(PutOf(j.members, key, v))
  }

  function PutItem(j: Json, i: nat, v: Json): Json
    requires j.Arr? && i < |j.items|
  {
    Arr(j.items[i := v])
  }

  /** A trace with another value for an input. */
  function WithLeaf(trace: Json, i: int, input: InputId, v: Json): Json
    requires Leaf(trace, i, input).Some?
  {
    var state := State(trace, i).value;
    var parameters := Own(state, PARAMETERS).value;
    Put(trace, STATES, PutItem(Own(trace, STATES).value, i, Put(state, PARAMETERS, Put(parameters, Field(input), v))))
  }

  function Apply(trace: Json, e: Edit): Json {
    if Leaf(trace, e.stateIndex, e.input).Some? then WithLeaf(trace, e.stateIndex, e.input, Bigint(e.after)) else trace
  }

  /** The trace with all edits made. */
  function Edited(original: Json, edits: seq<Edit>): Json {
    if edits == [] then original else Apply(Edited(original, edits[..|edits| - 1]), edits[|edits| - 1])
  }

  lemma {:induction false} OwnCons(m: Member, ms: seq<Member>, k: Text)
    ensures OwnOf([m] + ms, k) == if m.key == k then Some(m.value) else OwnOf(ms, k)
  {
    assert ([m] + ms)[1..] == ms;
  }

  lemma {:induction false} OwnPut(ms: seq<Member>, key: Text, v: Json, k: Text)
    requires OwnOf(ms, key).Some?
    ensures OwnOf(PutOf(ms, key, v), k) == if k == key then Some(v) else OwnOf(ms, k)
  {
    if ms[0].key == key {
      OwnCons(Member(key, v), ms[1..], k);
    } else {
      OwnPut(ms[1..], key, v, k);
      OwnCons(ms[0], PutOf(ms[1..], key, v), k);
    }
  }

  /** Putting a state back: only its place changes. */
  lemma {:induction false} StatesAfter(trace: Json, i: nat, s: Json)
    requires State(trace, i).Some?
    ensures var after := Put(trace, STATES, PutItem(Own(trace, STATES).value, i, s));
      States(after) == Some(States(trace).value[i := s])
  {
    OwnPut(trace.members, STATES, PutItem(Own(trace, STATES).value, i, s), STATES);
  }

  lemma {:induction false} StateAfter(trace: Json, i: int, input: InputId, v: Json)
    requires Leaf(trace, i, input).Some?
    ensures var state := State(trace, i).value;
      States(WithLeaf(trace, i, input, v))
      == Some(States(trace).value[i := Put(state, PARAMETERS, Put(Own(state, PARAMETERS).value, Field(input), v))])
  {
    var state := State(trace, i).value;
    StatesAfter(trace, i, Put(state, PARAMETERS, Put(Own(state, PARAMETERS).value, Field(input), v)));
  }

  /** An edit changes its own input and no other. */
  lemma {:induction false} LeafAfter(trace: Json, i: int, input: InputId, v: Json, k: int, other: InputId)
    requires Leaf(trace, i, input).Some?
    ensures Leaf(WithLeaf(trace, i, input, v), k, other) == if k == i && other == input then Some(v) else Leaf(trace, k, other)
  {
    var state := State(trace, i).value;
    var parameters := Own(state, PARAMETERS).value;
    StateAfter(trace, i, input, v);
    if k == i {
      OwnPut(state.members, PARAMETERS, Put(parameters, Field(input), v), PARAMETERS);
      InputAfter(parameters, input, v, other);
    }
  }

  lemma {:induction false} InputAfter(parameters: Json, input: InputId, v: Json, other: InputId)
    requires parameters.Obj? && Own(parameters, Field(input)).Some?
    ensures Own(Put(parameters, Field(input), v), Field(other)) == if other == input then Some(v) else Own(parameters, Field(other))
  {
    OwnPut(parameters.members, Field(input), v, Field(other));
    FieldsDiffer();
  }

  lemma {:induction false} FieldsDiffer()
    ensures Field(Client) != Field(Token)
  {
    assert |CLIENT| != |TOKEN|;
  }

  // ----- What an edit adds to the differences -----

  /** Replacing one member swaps its differences for those of the new value. */
  lemma {:induction false} PutDifferences(o: Json, t: Json, key: Text, v: Json, path: Text)
    requires o.Obj? && t.Obj? && Own(o, key).Some? && Own(t, key).Some?
    ensures var was, own, p := Own(t, key).value, Own(o, key).value, Child(path, key);
      Swapped(Differences(o, t, path), Differences(o, Put(t, key, v), path), Differences(own, was, p), Differences(own, v, p))
  {
    var keys := AllKeys(o, t);
    PutKeys(t.members, key, v);
    AllKeysMeaning(o, t);
    KeysSwap(o, t, key, v, keys, path);
  }

  /** Two lists differ by swapping some elements for others. */
  ghost predicate Swapped(before: seq<Text>, after: seq<Text>, was: seq<Text>, now: seq<Text>) {
    multiset(after) + multiset(was) == multiset(before) + multiset(now)
  }

  lemma {:induction false} SwapHead(was: seq<Text>, now: seq<Text>, rest: seq<Text>)
    ensures Swapped(was + rest, now + rest, was, now)
  {
  }

  lemma {:induction false} SwapTail(head: seq<Text>, before: seq<Text>, after: seq<Text>, was: seq<Text>, now: seq<Text>)
    requires Swapped(before, after, was, now)
    ensures Swapped(head + before, head + after, was, now)
  {
    assert multiset(head) + multiset(after) + multiset(was) == multiset(head) + (multiset(after) + multiset(was));
  }

  lemma {:induction false} KeyAfter(o: Json, t: Json, key: Text, v: Json, k: Text, path: Text)
    requires o.Obj? && t.Obj? && Own(o, key).Some? && Own(t, key).Some?
    ensures k != key ==> KeyDifference(o, Put(t, key, v), k, path) == KeyDifference(o, t, k, path)
    ensures k == key ==> KeyDifference(o, t, k, path) == Differences(Own(o, key).value, Own(t, key).value, path)
    ensures k == key ==> KeyDifference(o, Put(t, key, v), k, path) == Differences(Own(o, key).value, v, path)
  {
    OwnPut(t.members, key, v, k);
  }

  lemma {:induction false} KeysSwap(o: Json, t: Json, key: Text, v: Json, keys: seq<Text>, path: Text)
    requires o.Obj? && t.Obj? && Own(o, key).Some? && Own(t, key).Some? && DistinctTexts(keys)
    ensures key in keys ==> Swapped(KeyDifferences(o, t, keys, path), KeyDifferences(o, Put(t, key, v), keys, path),
      Differences(Own(o, key).value, Own(t, key).value, Child(path, key)), Differences(Own(o, key).value, v, Child(path, key)))
    ensures key !in keys ==> KeyDifferences(o, Put(t, key, v), keys, path) == KeyDifferences(o, t, keys, path)
  {
    if keys != [] {
      var k, rest := keys[0], keys[1..];
      KeyAfter(o, t, key, v, k, Child(path, k));
      assert DistinctTexts(rest) && k !in rest by {
        assert forall i :: 0 <= i < |rest| ==> rest[i] == keys[i + 1];
      }
      KeysSwap(o, t, key, v, rest, path);
      if k == key {
        SwapHead(Differences(Own(o, key).value, Own(t, key).value, Child(path, key)),
          Differences(Own(o, key).value, v, Child(path, key)), KeyDifferences(o, t, rest, path));
      } else if key in rest {
        KeysSwapTail(o, t, key, v, k, rest, path);
      }
    }
  }

  lemma {:induction false} KeysSwapTail(o: Json, t: Json, key: Text, v: Json, k: Text, rest: seq<Text>, path: Text)
    requires o.Obj? && t.Obj? && Own(o, key).Some? && Own(t, key).Some? && k != key
    requires Swapped(KeyDifferences(o, t, rest, path), KeyDifferences(o, Put(t, key, v), rest, path),
      Differences(Own(o, key).value, Own(t, key).value, Child(path, key)), Differences(Own(o, key).value, v, Child(path, key)))
    ensures Swapped(KeyDifference(o, t, k, Child(path, k)) + KeyDifferences(o, t, rest, path),
      KeyDifference(o, Put(t, key, v), k, Child(path, k)) + KeyDifferences(o, Put(t, key, v), rest, path),
      Differences(Own(o, key).value, Own(t, key).value, Child(path, key)), Differences(Own(o, key).value, v, Child(path, key)))
  {
    KeyAfter(o, t, key, v, k, Child(path, k));
    SwapTail(KeyDifference(o, t, k, Child(path, k)), KeyDifferences(o, t, rest, path), KeyDifferences(o, Put(t, key, v), rest, path),
      Differences(Own(o, key).value, Own(t, key).value, Child(path, key)), Differences(Own(o, key).value, v, Child(path, key)));
  }

  lemma {:induction false} PutItemDifferences(o: Json, t: Json, i: nat, v: Json, path: Text)
    requires o.Arr? && t.Arr? && i < |o.items| == |t.items|
    ensures var p := Child(path, Digits(i));
      Swapped(Differences(o, t, path), Differences(o, PutItem(t, i, v), path), Differences(o.items[i], t.items[i], p), Differences(o.items[i], v, p))
  {
    ItemsSwap(o, t, i, v, 0, path);
  }

  lemma {:induction false} ItemsSwap(o: Json, t: Json, i: nat, v: Json, from: nat, path: Text)
    requires o.Arr? && t.Arr? && i < |o.items| == |t.items| && from <= |o.items|
    ensures from <= i ==> Swapped(ItemDifferences(o, t, from, path), ItemDifferences(o, PutItem(t, i, v), from, path),
      Differences(o.items[i], t.items[i], Child(path, Digits(i))), Differences(o.items[i], v, Child(path, Digits(i))))
    ensures from > i ==> ItemDifferences(o, PutItem(t, i, v), from, path) == ItemDifferences(o, t, from, path)
    decreases |o.items| - from
  {
    if from < |o.items| {
      ItemsSwap(o, t, i, v, from + 1, path);
      var p := Child(path, Digits(i));
      var was, now := Differences(o.items[i], t.items[i], p), Differences(o.items[i], v, p);
      if from == i {
        SwapHead(was, now, ItemDifferences(o, t, from + 1, path));
      } else if from < i {
        SwapTail(Differences(o.items[from], t.items[from], Child(path, Digits(from))), ItemDifferences(o, t, from + 1, path),
          ItemDifferences(o, PutItem(t, i, v), from + 1, path), was, now);
      }
    }
  }

  /** A swap within a part is a swap of the whole. */
  lemma {:induction false} SwapWithin(before: seq<Text>, after: seq<Text>, partBefore: seq<Text>, partAfter: seq<Text>, was: seq<Text>, now: seq<Text>)
    requires Swapped(before, after, partBefore, partAfter) && Swapped(partBefore, partAfter, was, now)
    ensures Swapped(before, after, was, now)
  {
    var a, b, c, d, x, y := multiset(after), multiset(partBefore), multiset(before), multiset(partAfter), multiset(was), multiset(now);
    forall t ensures (a + x)[t] == (c + y)[t] {
      assert (a + b)[t] == (c + d)[t] && (d + x)[t] == (b + y)[t];
    }
    assert a + x == c + y;
  }

  /** Replacing an input swaps its differences for those of the new value. */
  lemma {:induction false} LeafDifferences(o: Json, t: Json, i: nat, input: InputId, v: Json)
    requires Leaf(o, i, input).Some? && Leaf(t, i, input).Some? && |States(o).value| == |States(t).value|
    ensures var was, own := Leaf(t, i, input).value, Leaf(o, i, input).value;
      var p := Child(Child(Child(Child([], STATES), Digits(i)), PARAMETERS), Field(input));
      Swapped(Differences(o, t, []), Differences(o, WithLeaf(t, i, input, v), []), Differences(own, was, p), Differences(own, v, p))
  {
    var p1 := Child([], STATES);
    var p2 := Child(p1, Digits(i));
    var p3 := Child(p2, PARAMETERS);
    var p4 := Child(p3, Field(input));
    var oStates, tStates := Own(o, STATES).value, Own(t, STATES).value;
    var oState, tState := State(o, i).value, State(t, i).value;
    var oParams, tParams := Own(oState, PARAMETERS).value, Own(tState, PARAMETERS).value;
    var newParams := Put(tParams, Field(input), v);
    var newState := Put(tState, PARAMETERS, newParams);
    var newStates := PutItem(tStates, i, newState);
    var was, now := Differences(Leaf(o, i, input).value, Leaf(t, i, input).value, p4), Differences(Leaf(o, i, input).value, v, p4);
    PutDifferences(oParams, tParams, Field(input), v, p3);
    PutDifferences(oState, tState, PARAMETERS, newParams, p2);
    PutItemDifferences(oStates, tStates, i, newState, p1);
    PutDifferences(o, t, STATES, newStates, []);
    SwapWithin(Differences(oState, tState, p2), Differences(oState, newState, p2),
      Differences(oParams, tParams, p3), Differences(oParams, newParams, p3), was, now);
    SwapWithin(Differences(oStates, tStates, p1), Differences(oStates, newStates, p1),
      Differences(oState, tState, p2), Differences(oState, newState, p2), was, now);
    SwapWithin(Differences(o, t, []), Differences(o, WithLeaf(t, i, input, v), []),
      Differences(oStates, tStates, p1), Differences(oStates, newStates, p1), was, now);
  }

  lemma {:induction false} AgreeSelf(j: Json)
    ensures Agree(j, j)
    decreases j
  {
    if j.Arr? {
      forall i | 0 <= i < |j.items| ensures Agree(j.items[i], j.items[i]) { AgreeSelf(j.items[i]); }
    } else if j.Obj? {
      forall k ensures AgreeAt(j, j, k) {
        if Own(j, k).Some? { AgreeSelf(Own(j, k).value); }
      }
    }
  }

  lemma {:induction false} OwnOne(m: Member, k: Text)
    ensures OwnOf([m], k) == if m.key == k then Some(m.value) else None
  {
    assert [m][1..] == [];
  }

  lemma {:induction false} OnlyKey(l: Json, r: Json, k: Text)
    requires l.Obj? && r.Obj? && |l.members| == 1 && |r.members| == 1 && l.members[0].key == k && r.members[0].key == k
    ensures AllKeys(l, r) == [k]
  {
    var keys := AllKeys(l, r);
    AllKeysMeaning(l, r);
    assert l.members == [l.members[0]] && r.members == [r.members[0]];
    forall x ensures x in keys <==> x == k {
      OwnOne(l.members[0], x);
      OwnOne(r.members[0], x);
    }
    SetSize(keys, {k});
    assert keys[0] in keys;
  }

  lemma {:induction false} OneKey(l: Json, r: Json, k: Text, path: Text)
    requires l.Obj? && r.Obj?
    ensures KeyDifferences(l, r, [k], path) == KeyDifference(l, r, k, Child(path, k))
  {
    assert [k][1..] == [] && KeyDifferences(l, r, [], path) == [];
  }

  /** A changed numeral is one difference. */
  lemma {:induction false} BigintDiffers(own: Json, before: Text, after: int, p: Text)
    requires RawBigint(own) == Some(before) && before != Decimal(after)
    ensures Differences(own, Bigint(after), p) == [Child(p, BIGINT)]
  {
    var now := Bigint(after);
    OnlyKey(own, now, BIGINT);
    assert own.members == [own.members[0]];
    OwnOne(own.members[0], BIGINT);
    OwnOne(now.members[0], BIGINT);
    var p1 := Child(p, BIGINT);
    assert KeyDifference(own, now, BIGINT, p1) == [p1];
    OneKey(own, now, BIGINT, p);
  }

  function PathsOf(edits: seq<Edit>): (ps: seq<Text>)
    ensures |ps| == |edits| && forall i :: 0 <= i < |edits| ==> ps[i] == PathOf(edits[i])
  {
    seq(|edits|, i requires 0 <= i < |edits| => PathOf(edits[i]))
  }

  predicate At(e: Edit, k: int, input: InputId) { e.stateIndex == k && e.input == input }

  predicate AllApply(original: Json, edits: seq<Edit>) {
    forall i :: 0 <= i < |edits| ==> Applies(original, edits[i])
  }

  ghost predicate Accepted(original: Json, edits: seq<Edit>) {
    AllApply(original, edits) && NoDuplicates(edits) && forall i :: 0 <= i < |edits| ==> Supported(edits[i])
  }

  lemma {:induction false} ApplyFront(original: Json, edits: seq<Edit>, n: nat)
    requires AllApply(original, edits) && n <= |edits|
    ensures AllApply(original, edits[..n])
  {
    forall i | 0 <= i < n ensures Applies(original, edits[..n][i]) { assert edits[..n][i] == edits[i]; }
  }

  lemma {:induction false} ApplyMore(original: Json, edits: seq<Edit>, n: nat)
    requires n < |edits| && AllApply(original, edits[..n]) && Applies(original, edits[n])
    ensures AllApply(original, edits[..n + 1])
  {
    var more := edits[..n + 1];
    forall i | 0 <= i < |more| ensures Applies(original, more[i]) {
      if i < n { assert more[i] == edits[..n][i]; } else { assert more[i] == edits[n]; }
    }
  }

  lemma {:induction false} DistinctFront(edits: seq<Edit>, n: nat)
    requires NoDuplicates(edits) && n <= |edits|
    ensures NoDuplicates(edits[..n])
  {
    forall i, j | 0 <= i < j < n ensures !SameTarget(edits[..n][i], edits[..n][j]) {
      assert edits[..n][i] == edits[i] && edits[..n][j] == edits[j];
    }
  }

  lemma {:induction false} AcceptedFront(original: Json, edits: seq<Edit>)
    requires Accepted(original, edits) && edits != []
    ensures Accepted(original, edits[..|edits| - 1]) && Supported(edits[|edits| - 1])
  {
    ApplyFront(original, edits, |edits| - 1);
    DistinctFront(edits, |edits| - 1);
  }

  lemma {:induction false} WireActionsDiffer(a: ActionId, b: ActionId)
    requires WireAction(a) == WireAction(b)
    ensures a == b
  {
    assert |WireAction(Acquire)| == 7 && |WireAction(Renew)| == 5 && |WireAction(Release)| == 7 && |WireAction(Write)| == 5;
    assert WireAction(Acquire)[0] != WireAction(Release)[0] && WireAction(Renew)[0] != WireAction(Write)[0];
  }

  /** Accepted edits are about different inputs. */
  lemma {:induction false} PlacesDiffer(original: Json, edits: seq<Edit>, i: nat, j: nat)
    requires Accepted(original, edits) && i < j < |edits|
    ensures !At(edits[i], edits[j].stateIndex, edits[j].input)
  {
    assert Applies(original, edits[i]) && Applies(original, edits[j]) && !SameTarget(edits[i], edits[j]);
    if edits[i].stateIndex == edits[j].stateIndex { WireActionsDiffer(edits[i].action, edits[j].action); }
  }

  predicate Touched(edits: seq<Edit>, k: int, input: InputId) {
    exists i :: 0 <= i < |edits| && At(edits[i], k, input)
  }

  lemma {:induction false} TouchedLast(edits: seq<Edit>, k: int, input: InputId)
    requires edits != []
    ensures Touched(edits, k, input) <==> Touched(edits[..|edits| - 1], k, input) || At(edits[|edits| - 1], k, input)
  {
    var n := |edits| - 1;
    assert forall i :: 0 <= i < n ==> edits[..n][i] == edits[i];
  }

  /** The edited trace: every input of an edit has its new value, every other input is
      as it was. */
  lemma {:induction false} EditedLeaves(original: Json, edits: seq<Edit>, k: int, input: InputId)
    requires Accepted(original, edits)
    ensures Leaf(Edited(original, edits), k, input) == if Touched(edits, k, input) then Some(Bigint(1)) else Leaf(original, k, input)
    decreases |edits|, 2
  {
    if edits != [] {
      FrontLeaves(original, edits, k, input);
      EditedLeaf(original, edits, k, input);
      TouchedLast(edits, k, input);
    }
  }

  lemma {:induction false} FrontLeaves(original: Json, edits: seq<Edit>, k: int, input: InputId)
    requires Accepted(original, edits) && edits != []
    ensures var front := edits[..|edits| - 1];
      Leaf(Edited(original, front), k, input) == if Touched(front, k, input) then Some(Bigint(1)) else Leaf(original, k, input)
    decreases |edits|, 0, 0
  {
    AcceptedFront(original, edits);
    EditedLeaves(original, edits[..|edits| - 1], k, input);
  }

  lemma {:induction false} EditedLeaf(original: Json, edits: seq<Edit>, k: int, input: InputId)
    requires Accepted(original, edits) && edits != []
    ensures var n := |edits| - 1;
      Leaf(Edited(original, edits), k, input) == if At(edits[n], k, input) then Some(Bigint(1)) else Leaf(Edited(original, edits[..n]), k, input)
    decreases |edits|, 1
  {
    var n := |edits| - 1;
    LastLeaf(original, edits);
    LeafStep(Edited(original, edits[..n]), edits[n], k, input);
  }

  lemma {:induction false} LeafStep(t: Json, e: Edit, k: int, input: InputId)
    requires Leaf(t, e.stateIndex, e.input).Some? && Supported(e)
    ensures Leaf(Apply(t, e), k, input) == if At(e, k, input) then Some(Bigint(1)) else Leaf(t, k, input)
  {
    LeafAfter(t, e.stateIndex, e.input, Bigint(e.after), k, input);
  }

  /** The last edit finds the original value still in place. */
  lemma {:induction false} LastLeaf(original: Json, edits: seq<Edit>)
    requires Accepted(original, edits) && edits != []
    ensures var n := |edits| - 1;
      var e := edits[n];
      Leaf(original, e.stateIndex, e.input).Some?
      && Leaf(Edited(original, edits[..n]), e.stateIndex, e.input) == Leaf(original, e.stateIndex, e.input)
    decreases |edits|, 0, 1
  {
    var n := |edits| - 1;
    var front, e := edits[..n], edits[n];
    assert Applies(original, e);
    if Touched(front, e.stateIndex, e.input) {
      var i :| 0 <= i < n && At(front[i], e.stateIndex, e.input);
      PlacesDiffer(original, edits, i, n);
    }
    FrontLeaves(original, edits, e.stateIndex, e.input);
  }

  /** So it is applied. */
  lemma {:induction false} LastEdit(original: Json, edits: seq<Edit>)
    requires Accepted(original, edits) && edits != []
    ensures var n := |edits| - 1;
      var e, t := edits[n], Edited(original, edits[..n]);
      Leaf(t, e.stateIndex, e.input).Some? && Edited(original, edits) == WithLeaf(t, e.stateIndex, e.input, Bigint(e.after))
  {
    LastLeaf(original, edits);
  }

  lemma {:induction false} EditedStates(original: Json, edits: seq<Edit>)
    requires Accepted(original, edits) && States(original).Some?
    ensures States(Edited(original, edits)).Some?
    ensures |States(Edited(original, edits)).value| == |States(original).value|
  {
    if edits != [] {
      var n := |edits| - 1;
      var e := edits[n];
      AcceptedFront(original, edits);
      LastEdit(original, edits);
      EditedStates(original, edits[..n]);
      StateAfter(Edited(original, edits[..n]), e.stateIndex, e.input, Bigint(e.after));
    }
  }

  /** The differences of the edited trace are exactly the declared paths. */
  lemma {:induction false} ChangesAreTheEdits(original: Json, edits: seq<Edit>)
    requires Accepted(original, edits)
    ensures multiset(Differences(original, Edited(original, edits), [])) == multiset(PathsOf(edits))
    decreases |edits|, 1
  {
    if edits == [] {
      AgreeSelf(original);
      EmptyIffAgree(original, original, []);
    } else {
      FrontChanges(original, edits);
      LastChange(original, edits);
      PathsLast(edits);
    }
  }

  lemma {:induction false} FrontChanges(original: Json, edits: seq<Edit>)
    requires Accepted(original, edits) && edits != []
    ensures var front := edits[..|edits| - 1];
      multiset(Differences(original, Edited(original, front), [])) == multiset(PathsOf(front))
    decreases |edits|, 0
  {
    AcceptedFront(original, edits);
    ChangesAreTheEdits(original, edits[..|edits| - 1]);
  }

  lemma {:induction false} PathsLast(edits: seq<Edit>)
    requires edits != []
    ensures PathsOf(edits) == PathsOf(edits[..|edits| - 1]) + [PathOf(edits[|edits| - 1])]
  {
  }

  lemma {:induction false} LastChange(original: Json, edits: seq<Edit>)
    requires Accepted(original, edits) && edits != []
    ensures var n := |edits| - 1;
      multiset(Differences(original, Edited(original, edits), []))
      == multiset(Differences(original, Edited(original, edits[..n]), [])) + multiset{PathOf(edits[n])}
  {
    var n := |edits| - 1;
    AcceptedFront(original, edits);
    assert Applies(original, edits[n]);
    LastLeaf(original, edits);
    LastEdit(original, edits);
    EditedStates(original, edits[..n]);
    OneChange(original, Edited(original, edits[..n]), edits[n]);
  }

  lemma {:induction false} OneChange(original: Json, t: Json, e: Edit)
    requires Applies(original, e) && Supported(e) && Leaf(t, e.stateIndex, e.input) == Leaf(original, e.stateIndex, e.input)
    requires |States(t).value| == |States(original).value|
    ensures multiset(Differences(original, WithLeaf(t, e.stateIndex, e.input, Bigint(e.after)), []))
      == multiset(Differences(original, t, [])) + multiset{PathOf(e)}
  {
    var own := Leaf(original, e.stateIndex, e.input).value;
    var p := Child(Child(Child(Child([], STATES), Digits(e.stateIndex)), PARAMETERS), Field(e.input));
    LeafDifferences(original, t, e.stateIndex, e.input, Bigint(e.after));
    AgreeSelf(own);
    EmptyIffAgree(own, own, p);
    TwoIsNotOne();
    BigintDiffers(own, Decimal(e.before), e.after, p);
    assert Differences(own, Bigint(e.after), p) == [PathOf(e)];
  }

  lemma {:induction false} TwoIsNotOne()
    ensures Decimal(2) != Decimal(1)
  {
  }

  // ----- Paths -----

  lemma {:induction false} PathInjective(i: nat, input: InputId, j: nat, other: InputId)
    requires LeafPath(i, input) == LeafPath(j, other)
    ensures i == j && input == other
  {
    PathParts(i, input);
    PathParts(j, other);
    SplitAt(Child([], STATES) + [SLASH], Child([], STATES) + [SLASH], Digits(i) + Tail(input), Digits(j) + Tail(other));
    DigitsInjective(i, j, Tail(input), Tail(other));
    assert |CLIENT| == 6 && |TOKEN| == 5;
  }

  function Tail(input: InputId): Text {
    [SLASH] + PARAMETERS + [SLASH] + Field(input) + [SLASH] + BIGINT
  }

  lemma {:induction false} PathParts(i: nat, input: InputId)
    ensures LeafPath(i, input) == (Child([], STATES) + [SLASH]) + (Digits(i) + Tail(input))
    ensures Terminated(Tail(input))
  {
    var d, f := Digits(i), Field(input);
    Reassociate(Child([], STATES) + [SLASH], d, [SLASH] + PARAMETERS, [SLASH] + f + [SLASH] + BIGINT);
  }

  lemma {:induction false} Reassociate(a: Text, b: Text, c: Text, d: Text)
    ensures a + b + c + d == a + (b + (c + d))
  {
  }

  lemma {:induction false} PathsDiffer(original: Json, edits: seq<Edit>)
    requires Accepted(original, edits)
    ensures DistinctTexts(PathsOf(edits))
  {
    forall i, j | 0 <= i < j < |edits| ensures PathOf(edits[i]) != PathOf(edits[j]) {
      assert Supported(edits[i]) && Supported(edits[j]);
      if PathOf(edits[i]) == PathOf(edits[j]) {
        PathInjective(edits[i].stateIndex, edits[i].input, edits[j].stateIndex, edits[j].input);
        PlacesDiffer(original, edits, i, j);
      }
    }
  }

  lemma {:induction false} SetSize(ts: seq<Text>, s: set<Text>)
    requires DistinctTexts(ts) && forall t :: t in s <==> t in ts
    ensures |s| == |ts|
  {
    if ts == [] {
      assert s == {};
    } else {
      var front, last := ts[..|ts| - 1], ts[|ts| - 1];
      assert forall t :: t in front <==> t in ts && t != last;
      SetSize(front, s - {last});
    }
  }

  // ----- Materialising -----

  /** `materializeLeaseReductionTrace`: it succeeds exactly if every edit passes its own
      checks, so that its last guard never fires, and the changed paths are exactly the
      declared ones, in order. */
  method Materialize(original: Json, edits: seq<Edit>) returns (r: Result<(Json, seq<Text>), Refusal>)
    ensures r.Ok? <==> AllSupported(edits) && NoDuplicates(edits) && AllApply(original, edits)
    ensures r == Err(TransformUnsupported) <==> !AllSupported(edits)
    ensures r == Err(EditDuplicate) <==> AllSupported(edits) && !NoDuplicates(edits)
    ensures r.Ok? ==> r.value.0 == Edited(original, edits)
    ensures r.Ok? ==> r.value.1 == SortBy(PathsOf(edits), Units) && DistinctTexts(r.value.1)
  {
    if !AllSupported(edits) { return Err(TransformUnsupported); }
    if !NoDuplicates(edits) { return Err(EditDuplicate); }
    if States(original).None? {
      assert !Applies(original, edits[0]);
      return Err(CandidateInvalid);
    }
    r := ApplyEdits(original, edits);
  }

  /** The loop over the edits and the last guard. */
  method ApplyEdits(original: Json, edits: seq<Edit>) returns (r: Result<(Json, seq<Text>), Refusal>)
    requires AllSupported(edits) && NoDuplicates(edits)
    ensures r.Ok? <==> AllApply(original, edits)
    ensures r.Err? ==> r.error == CandidateInvalid
    ensures r.Ok? ==> r.value.0 == Edited(original, edits)
    ensures r.Ok? ==> r.value.1 == SortBy(PathsOf(edits), Units) && DistinctTexts(r.value.1)
  {
    var trace := original;
    var allowed: set<Text> := {};
    for n := 0 to |edits|
      invariant AllApply(original, edits[..n])
      invariant trace == Edited(original, edits[..n])
      invariant forall t :: t in allowed <==> t in PathsOf(edits[..n])
    {
      var e := edits[n];
      if !Applies(original, e) { return Err(CandidateInvalid); }
      NextEdit(original, edits, n);
      NextPath(edits, n);
      trace := WithLeaf(trace, e.stateIndex, e.input, Bigint(e.after));
      allowed := allowed + {PathOf(e)};
    }
    assert edits[..|edits|] == edits;
    var changedPaths := SortBy(Differences(original, trace, []), Units);
    GuardHolds(original, edits, allowed);
    if |changedPaths| != |allowed| || exists i :: 0 <= i < |changedPaths| && changedPaths[i] !in allowed {
      return Err(CandidateInvalid);
    }
    r := Ok((trace, changedPaths));
  }

  lemma {:induction false} PrefixAccepted(original: Json, edits: seq<Edit>, n: nat)
    requires n < |edits| && AllSupported(edits) && NoDuplicates(edits) && AllApply(original, edits[..n]) && Applies(original, edits[n])
    ensures Accepted(original, edits[..n + 1])
  {
    ApplyMore(original, edits, n);
    DistinctFront(edits, n + 1);
  }

  lemma {:induction false} NextEdit(original: Json, edits: seq<Edit>, n: nat)
    requires n < |edits| && AllSupported(edits) && NoDuplicates(edits) && AllApply(original, edits[..n]) && Applies(original, edits[n])
    ensures AllApply(original, edits[..n + 1])
    ensures var e, t := edits[n], Edited(original, edits[..n]);
      && Leaf(t, e.stateIndex, e.input).Some?
      && Edited(original, edits[..n + 1]) == WithLeaf(t, e.stateIndex, e.input, Bigint(e.after))
  {
    var more := edits[..n + 1];
    PrefixAccepted(original, edits, n);
    assert more[..n] == edits[..n];
    LastEdit(original, more);
  }

  lemma {:induction false} NextPath(edits: seq<Edit>, n: nat)
    requires n < |edits|
    ensures PathsOf(edits[..n + 1]) == PathsOf(edits[..n]) + [PathOf(edits[n])]
  {
    assert edits[..n + 1][..n] == edits[..n];
    PathsLast(edits[..n + 1]);
  }

  lemma {:induction false} GuardHolds(original: Json, edits: seq<Edit>, allowed: set<Text>)
    requires Accepted(original, edits) && forall t :: t in allowed <==> t in PathsOf(edits)
    ensures var changed := SortBy(Differences(original, Edited(original, edits), []), Units);
      && |changed| == |allowed| && (forall i :: 0 <= i < |changed| ==> changed[i] in allowed)
      && changed == SortBy(PathsOf(edits), Units) && DistinctTexts(changed)
  {
    var found, declared := Differences(original, Edited(original, edits), []), PathsOf(edits);
    var changed := SortBy(found, Units);
    ChangesAreTheEdits(original, edits);
    PathsDiffer(original, edits);
    SortByMeaning(found, Units);
    SortCanonical(found, declared, Units);
    DistinctByMultiset(declared, changed);
    SameMembers(declared, changed);
    SetSize(declared, allowed);
    assert |multiset(changed)| == |multiset(declared)|;
  }
}
