/** The length in bytes of a printed tree, from those of its parts. */
module RenderedLength {
  import opened JsonText
  import opened Permutations
  import StrictJson
  import V = ValueOrder

  function Length(j: Json, mode: Mode): nat { StrictJson.Utf8Length(Render(j, mode)) }

  function Lengths(items: seq<Json>, mode: Mode): (r: seq<nat>)
    ensures |r| == |items| && forall i :: 0 <= i < |r| ==> r[i] == Length(items[i], mode) + 1
  {
    seq(|items|, i requires 0 <= i < |items| => Length(items[i], mode) + 1)
  }

  function TotalLength(items: seq<Json>, mode: Mode): nat { V.Sum(Lengths(items, mode)) }

  /** The text ends with a whole character. */
  predicate EndsWhole(t: Text) { t != [] && !High(t[|t| - 1]) }

  lemma {:induction false} LengthAppend(a: Text, b: Text)
    requires EndsWhole(a)
    ensures StrictJson.Utf8Length(a + b) == StrictJson.Utf8Length(a) + StrictJson.Utf8Length(b)
  {
    var n := if a[0] >= 0x800 && High(a[0]) && |a| > 1 && Low(a[1]) then 2 else 1;
    assert (a + b)[n..] == a[n..] + b;
    assert |a| == 1 ==> a[0] == a[|a| - 1];
    if |a| > n {
      LengthAppend(a[n..], b);
    } else {
      assert a[n..] == [] && [] + b == b;
    }
  }

  lemma {:induction false} DigitsEnd(n: nat)
    ensures EndsWhole(Digits(n))
  {
  }

  lemma {:induction false} RenderEnds(j: Json, mode: Mode)
    requires !j.Frac?
    ensures EndsWhole(Render(j, mode))
  {
    match j
    case Num(n) => DigitsEnd(if n < 0 then -n else n);
    case _ =>
  }

  lemma {:induction false} TotalLengthCons(items: seq<Json>, mode: Mode)
    requires items != []
    ensures TotalLength(items, mode) == Length(items[0], mode) + 1 + TotalLength(items[1..], mode)
  {
    assert Lengths(items, mode)[1..] == Lengths(items[1..], mode);
  }

  /** An array costs one for each bracket or comma besides its items. */
  lemma {:induction false} ItemsLength(items: seq<Json>, mode: Mode, close: Text)
    requires items != [] && forall i :: 0 <= i < |items| ==> Integral(items[i])
    ensures StrictJson.Utf8Length(RenderItems(items, mode) + close) + 1 == TotalLength(items, mode) + StrictJson.Utf8Length(close)
  {
    TotalLengthCons(items, mode);
    RenderEnds(items[0], mode);
    if |items| == 1 {
      assert items[1..] == [] && TotalLength(items[1..], mode) == 0;
      LengthAppend(Render(items[0], mode), close);
    } else {
      ItemsLength(items[1..], mode, close);
      CommaLength(Render(items[0], mode), RenderItems(items[1..], mode), close);
    }
  }

  lemma {:induction false} CommaLength(first: Text, rest: Text, close: Text)
    requires EndsWhole(first)
    ensures StrictJson.Utf8Length(first + [COMMA] + rest + close)
         == StrictJson.Utf8Length(first) + 1 + StrictJson.Utf8Length(rest + close)
  {
    assert first + [COMMA] + rest + close == first + ([COMMA] + (rest + close));
    LengthAppend(first, [COMMA] + (rest + close));
    LengthAppend([COMMA], rest + close);
    Single(COMMA);
  }

  lemma {:induction false} Single(u: CodeUnit)
    requires u < 0x80
    ensures StrictJson.Utf8Length([u]) == 1
  {
    assert [u][1..] == [];
  }

  lemma {:induction false} ListLength(items: seq<Json>, mode: Mode)
    requires forall i :: 0 <= i < |items| ==> Integral(items[i])
    ensures Length(Arr(items), mode) == 1 + if items == [] then 1 else TotalLength(items, mode)
  {
    var open, close: Text := [OPEN_BRACKET], [CLOSE_BRACKET];
    Single(OPEN_BRACKET);
    Single(CLOSE_BRACKET);
    assert Render(Arr(items), mode) == open + (RenderItems(items, mode) + close);
    LengthAppend(open, RenderItems(items, mode) + close);
    if items == [] {
      assert RenderItems(items, mode) + close == close;
    } else {
      ItemsLength(items, mode, close);
    }
  }

  // ----- Trees of the same length -----

  /** Arrays whose items can be paired by length are of one length. */
  lemma {:induction false} SameLists(xs: seq<Json>, ys: seq<Json>, mode: Mode, p: seq<nat>)
    requires (forall i :: 0 <= i < |xs| ==> Integral(xs[i])) && forall i :: 0 <= i < |ys| ==> Integral(ys[i])
    requires |xs| == |ys| && Permutation(p, |xs|) && forall i :: 0 <= i < |xs| ==> Length(xs[i], mode) == Length(ys[p[i]], mode)
    ensures Length(Arr(xs), mode) == Length(Arr(ys), mode)
  {
    ListLength(xs, mode);
    ListLength(ys, mode);
    V.SumPaired(Lengths(xs, mode), Lengths(ys, mode), p);
  }

  lemma {:induction false} MemberLength(m: Member, mode: Mode)
    requires !m.value.Frac?
    ensures StrictJson.Utf8Length(RenderMember(m, mode)) == StrictJson.Utf8Length(Quote(m.key, mode)) + 1 + Length(m.value, mode)
    ensures EndsWhole(RenderMember(m, mode))
  {
    var key, value := Quote(m.key, mode), Render(m.value, mode);
    assert key + [COLON] + value == key + ([COLON] + value);
    LengthAppend(key, [COLON] + value);
    LengthAppend([COLON], value);
    Single(COLON);
    RenderEnds(m.value, mode);
  }

  /** The same keys, and values of the same lengths. */
  ghost predicate Matching(ms: seq<Member>, ns: seq<Member>, mode: Mode) {
    |ms| == |ns| && forall i :: 0 <= i < |ms| ==>
      ms[i].key == ns[i].key && Length(ms[i].value, mode) == Length(ns[i].value, mode) && !ms[i].value.Frac? && !ns[i].value.Frac?
  }

  lemma {:induction false} MatchingLength(ms: seq<Member>, ns: seq<Member>, mode: Mode, close: Text)
    requires Matching(ms, ns, mode)
    ensures StrictJson.Utf8Length(RenderMembers(ms, mode) + close) == StrictJson.Utf8Length(RenderMembers(ns, mode) + close)
  {
    if ms != [] {
      MemberLength(ms[0], mode);
      MemberLength(ns[0], mode);
      if |ms| == 1 {
        LengthAppend(RenderMember(ms[0], mode), close);
        LengthAppend(RenderMember(ns[0], mode), close);
      } else {
        assert Matching(ms[1..], ns[1..], mode);
        MatchingLength(ms[1..], ns[1..], mode, close);
        CommaLength(RenderMember(ms[0], mode), RenderMembers(ms[1..], mode), close);
        CommaLength(RenderMember(ns[0], mode), RenderMembers(ns[1..], mode), close);
      }
    }
  }

  lemma {:induction false} SameObjects(ms: seq<Member>, ns: seq<Member>, mode: Mode)
    requires Matching(ms, ns, mode)
    ensures Length(Obj(ms), mode) == Length(Obj(ns), mode)
  {
    var open, close: Text := [OPEN_BRACE], [CLOSE_BRACE];
    assert Render(Obj(ms), mode) == open + (RenderMembers(ms, mode) + close);
    assert Render(Obj(ns), mode) == open + (RenderMembers(ns, mode) + close);
    LengthAppend(open, RenderMembers(ms, mode) + close);
    LengthAppend(open, RenderMembers(ns, mode) + close);
    MatchingLength(ms, ns, mode, close);
  }
}

/** An upper bound on the bytes of a printed tree. */
module RenderedCost {
  import opened JsonText
  import opened StrictJson

  lemma {:induction false} LengthJoined(a: Text, b: Text)
    ensures Utf8Length(a + b) <= Utf8Length(a) + Utf8Length(b)
  {
    if a == [] {
      assert a + b == b;
    } else {
      var n := if a[0] >= 0x800 && High(a[0]) && |a| > 1 && Low(a[1]) then 2 else 1;
      assert (a + b)[n..] == a[n..] + b;
      LengthJoined(a[n..], b);
      if a[0] >= 0x800 && High(a[0]) && |a| == 1 && b != [] && Low(b[0]) {
        assert (a + b)[2..] == b[1..];
      }
    }
  }

  /** Six bytes for each unit of a string, and two for its quotes. */
  function TextCost(t: Text): nat { 2 + 6 * |t| }

  function Cost(j: Json): nat
    decreases j, 1
  {
    match j
    case Str(s) => TextCost(s)
    case Arr(items) => 2 + ItemsCost(items)
    case Obj(members) => 2 + MembersCost(members)
    case _ => Utf8Length(Render(j, Compress))
  }

  function ItemsCost(items: seq<Json>): nat
    decreases items, 0
  {
    if items == [] then 0 else Cost(items[0]) + 1 + ItemsCost(items[1..])
  }

  function MemberCost(m: Member): nat
    decreases m, 2
  {
    TextCost(m.key) + 1 + Cost(m.value)
  }

  function MembersCost(members: seq<Member>): nat
    decreases members, 0
  {
    if members == [] then 0 else MemberCost(members[0]) + 1 + MembersCost(members[1..])
  }

  lemma {:induction false} Single(u: CodeUnit)
    ensures Utf8Length([u]) <= 3 && (u < 0x80 ==> Utf8Length([u]) == 1)
  {
    assert [u][1..] == [];
  }

  lemma {:induction false} AsciiLength(t: Text)
    requires forall i :: 0 <= i < |t| ==> t[i] < 0x80
    ensures Utf8Length(t) == |t|
  {
    if t != [] { AsciiLength(t[1..]); }
  }

  lemma {:induction false} UnitCost(u: CodeUnit, lone: bool, mode: Mode)
    ensures Utf8Length(EscapeUnit(u, lone, mode)) <= 6
  {
    if EscapeUnit(u, lone, mode) == [u] { Single(u); } else { AsciiLength(EscapeUnit(u, lone, mode)); }
  }

  lemma {:induction false} EscapeCost(s: Text, paired: bool, mode: Mode)
    ensures Utf8Length(Escape(s, paired, mode)) <= 6 * |s|
  {
    if s != [] {
      var pair := !paired && High(s[0]) && |s| > 1 && Low(s[1]);
      var lone := !paired && !pair && (High(s[0]) || Low(s[0]));
      UnitCost(s[0], lone, mode);
      EscapeCost(s[1..], pair, mode);
      LengthJoined(EscapeUnit(s[0], lone, mode), Escape(s[1..], pair, mode));
    }
  }

  /** One unit before and one after. */
  lemma {:induction false} Enclosed(open: CodeUnit, t: Text, close: CodeUnit)
    requires open < 0x80 && close < 0x80
    ensures Utf8Length([open] + t + [close]) <= 2 + Utf8Length(t)
  {
    Single(open);
    Single(close);
    LengthJoined([open], t);
    LengthJoined([open] + t, [close]);
  }

  lemma {:induction false} Between(a: Text, mark: CodeUnit, b: Text)
    requires mark < 0x80
    ensures Utf8Length(a + [mark] + b) <= Utf8Length(a) + 1 + Utf8Length(b)
  {
    Single(mark);
    LengthJoined(a, [mark]);
    LengthJoined(a + [mark], b);
  }

  lemma {:induction false} QuoteCost(s: Text, mode: Mode)
    ensures Utf8Length(Quote(s, mode)) <= TextCost(s)
  {
    EscapeCost(s, false, mode);
    Enclosed(QUOTE, Escape(s, false, mode), QUOTE);
  }

  lemma {:induction false} CostBounds(j: Json, mode: Mode)
    ensures Utf8Length(Render(j, mode)) <= Cost(j)
    decreases j, 1
  {
    match j
    case Str(s) => QuoteCost(s, mode);
    case Arr(items) =>
      ItemsBound(items, mode);
      Enclosed(OPEN_BRACKET, RenderItems(items, mode), CLOSE_BRACKET);
    case Obj(members) =>
      MembersBound(members, mode);
      Enclosed(OPEN_BRACE, RenderMembers(members, mode), CLOSE_BRACE);
    case _ =>
  }

  lemma {:induction false} ItemsBound(items: seq<Json>, mode: Mode)
    ensures Utf8Length(RenderItems(items, mode)) <= ItemsCost(items)
    decreases items, 0
  {
    if items != [] {
      CostBounds(items[0], mode);
      ItemsBound(items[1..], mode);
      if |items| > 1 { Between(Render(items[0], mode), COMMA, RenderItems(items[1..], mode)); }
    }
  }

  lemma {:induction false} MemberBound(m: Member, mode: Mode)
    ensures Utf8Length(RenderMember(m, mode)) <= MemberCost(m)
    decreases m, 2
  {
    CostBounds(m.value, mode);
    QuoteCost(m.key, mode);
    Between(Quote(m.key, mode), COLON, Render(m.value, mode));
  }

  lemma {:induction false} MembersBound(members: seq<Member>, mode: Mode)
    ensures Utf8Length(RenderMembers(members, mode)) <= MembersCost(members)
    decreases members, 0
  {
    if members != [] {
      MemberBound(members[0], mode);
      MembersBound(members[1..], mode);
      if |members| > 1 { Between(RenderMember(members[0], mode), COMMA, RenderMembers(members[1..], mode)); }
    }
  }

  /** Every member is light but one. */
  lemma {:induction false} OneHeavy(ms: seq<Member>, k: int, light: nat, heavy: nat)
    requires forall i :: 0 <= i < |ms| && i != k ==> MemberCost(ms[i]) < light
    requires 0 <= k < |ms| ==> MemberCost(ms[k]) < heavy
    ensures MembersCost(ms) <= |ms| * light + if 0 <= k < |ms| then heavy else 0
  {
    if ms != [] {
      OneHeavy(ms[1..], k - 1, light, heavy);
      assert |ms| * light == light + (|ms| - 1) * light;
    }
  }

  lemma {:induction false} OneItem(j: Json)
    ensures Cost(Arr([j])) == 3 + Cost(j) && Cost(Arr([])) == 2
  {
    assert [j][1..] == [] && ItemsCost([]) == 0;
    assert ItemsCost([j]) == Cost(j) + 1;
  }

  lemma {:induction false} TwoItems(a: Json, b: Json)
    ensures Cost(Arr([a, b])) == 4 + Cost(a) + Cost(b)
  {
    assert [a, b][1..] == [b] && [b][1..] == [] && ItemsCost([]) == 0;
    assert ItemsCost([b]) == Cost(b) + 1;
    assert ItemsCost([a, b]) == Cost(a) + 1 + ItemsCost([b]);
  }
}
