/** The strict JSON grammar as functions on what is left of the text. */
module StrictJson {
  import opened Wrappers
  import opened JsonText

  const MAX_JSON_DEPTH := 128
  const MAX_MESSAGE_BYTES := 65_535
  const MAX_SAFE_INTEGER := 0x1F_FFFF_FFFF_FFFF

  datatype Parse<+T> = Failed | Parsed(value: T, rest: Text)

  // ----- Lexical level -----

  predicate Whitespace(u: CodeUnit) {
    u == 0x20 || u == 0x09 || u == 0x0A || u == 0x0D
  }

  function Skip(t: Text): (r: Text)
    ensures |r| <= |t|
    ensures r != [] ==> !Whitespace(r[0])
  {
    if t != [] && Whitespace(t[0]) then Skip(t[1..]) else t
  }

  function SimpleEscape(u: CodeUnit): Option<CodeUnit> {
    match u
    case 0x22 => Some(0x22)
    case 0x5C => Some(0x5C)
    case 0x2F => Some(0x2F)
    case 0x62 => Some(0x08)
    case 0x66 => Some(0x0C)
    case 0x6E => Some(0x0A)
    case 0x72 => Some(0x0D)
    case 0x74 => Some(0x09)
    case _ => None
  }

  predicate HexQuad(t: Text) {
    |t| >= 4 && forall i :: 0 <= i < 4 ==> HexValue(t[i]) >= 0
  }

  function QuadValue(t: Text): (u: CodeUnit)
    requires HexQuad(t)
  {
    assert forall i :: 0 <= i < 4 ==> 0 <= HexValue(t[i]) < 16;
    assert HexQuad(t) ==> HexValue(t[0]) >= 0 && HexValue(t[1]) >= 0 && HexValue(t[2]) >= 0 && HexValue(t[3]) >= 0;
    HexValue(t[0]) * 0x1000 + HexValue(t[1]) * 0x100 + HexValue(t[2]) * 0x10 + HexValue(t[3])
  }

  /** What follows `\u`: one unit, or the two halves of an escaped pair. */
  function UnicodeEscape(t: Text): (r: Parse<Text>)
    ensures r.Parsed? ==> |r.rest| < |t|
  {
    if !HexQuad(t) then Failed
    else
      var first := QuadValue(t);
      if High(first) then
        if |t| < 6 || t[4] != BACKSLASH || t[5] != 0x75 || !HexQuad(t[6..]) then Failed
        else
          var second := QuadValue(t[6..]);
          if Low(second) then Parsed([first, second], t[10..]) else Failed
      else if Low(first) then Failed
      else Parsed([first], t[4..])
  }

  /** What is read first, put before what is read next. */
  function Then<T>(head: seq<T>, tail: Parse<seq<T>>): Parse<seq<T>> {
    if tail.Failed? then Failed else Parsed(head + tail.value, tail.rest)
  }

  /** The contents of a string and what follows its closing quote. */
  function Chars(t: Text): (r: Parse<Text>)
    ensures r.Parsed? ==> |r.rest| < |t|
    decreases |t|
  {
    if t == [] then Failed
    else if t[0] == QUOTE then Parsed([], t[1..])
    else if t[0] == BACKSLASH then
      if |t| < 2 then Failed
      else if SimpleEscape(t[1]).Some? then Then([SimpleEscape(t[1]).value], Chars(t[2..]))
      else if t[1] != 0x75 then Failed
      else
        var escape := UnicodeEscape(t[2..]);
        if escape.Failed? then Failed else Then(escape.value, Chars(escape.rest))
    else if t[0] < 0x20 then Failed
    else if High(t[0]) || Low(t[0]) then
      if Low(t[0]) || |t| < 2 || !Low(t[1]) then Failed else Then([t[0], t[1]], Chars(t[2..]))
    else Then([t[0]], Chars(t[1..]))
  }

  // ----- Numbers -----

  function Pow10(k: int): real
    decreases if k < 0 then -k else k
  {
    if k == 0 then 1.0 else if k > 0 then 10.0 * Pow10(k - 1) else Pow10(k + 1) / 10.0
  }

  function Pow2(k: nat): int {
    if k == 0 then 1 else 2 * Pow2(k - 1)
  }

  /** The least magnitude that rounds to infinity: 2^1024 - 2^970. */
  function Overflow(): real {
    (Pow2(970) * (Pow2(54) - 1)) as real
  }

  /** A number's lexeme, taken apart. */
  datatype Lexeme = Lexeme(negative: bool, digits: Text, fraction: Text, exponent: int)

  function DigitSpanBounded(t: Text): (n: nat)
    ensures n <= |t| && n == DigitSpan(t)
  {
    if t == [] || !Digit(t[0]) then 0 else 1 + DigitSpanBounded(t[1..])
  }

  /** How many units the integer part takes: a lone zero or a run of digits. */
  function IntegerSpan(t: Text): (n: nat)
    ensures n <= |t|
  {
    if t == [] || !Digit(t[0]) then 0 else if t[0] == 0x30 then 1 else DigitSpanBounded(t)
  }

  /** How many digits follow the point, if there is a fraction. */
  function FractionSpan(t: Text): (n: nat)
    ensures n > 0 ==> n + 1 <= |t|
  {
    if t != [] && t[0] == 0x2E then DigitSpanBounded(t[1..]) else 0
  }

  /** The length of an exponent part, zero if there is none. */
  function ExponentSpan(t: Text): (n: nat)
    ensures n <= |t|
  {
    if t == [] || (t[0] != 0x65 && t[0] != 0x45) then 0
    else
      var sign := if |t| > 1 && (t[1] == 0x2B || t[1] == MINUS) then 2 else 1;
      var digits := DigitSpanBounded(t[sign..]);
      if digits == 0 then 0 else sign + digits
  }

  function ExponentValue(t: Text): int
    requires t != []
  {
    if |t| > 1 && t[1] == MINUS then -DigitsValue(t[2..])
    else if |t| > 1 && t[1] == 0x2B then DigitsValue(t[2..])
    else DigitsValue(t[1..])
  }

  function ExactValue(l: Lexeme): real {
    var magnitude := DigitsValue(l.digits + l.fraction) as real * Pow10(l.exponent - |l.fraction|);
    if l.negative then -magnitude else magnitude
  }

  function Classified(x: real): Json {
    if x.Floor as real == x then Num(x.Floor) else Frac(x)
  }

  function Number(t: Text): (r: Parse<Json>)
    ensures r.Parsed? ==> |r.rest| < |t|
  {
    var negative := t != [] && t[0] == MINUS;
    var a := if negative then t[1..] else t;
    var n := IntegerSpan(a);
    if n == 0 then Failed
    else
      var b := a[n..];
      var f := FractionSpan(b);
      var fraction := if f == 0 then [] else b[1..f + 1];
      var c := if f == 0 then b else b[f + 1..];
      var e := ExponentSpan(c);
      var exponent := if e == 0 then 0 else ExponentValue(c[..e]);
      var x := ExactValue(Lexeme(negative, a[..n], fraction, exponent));
      if x >= Overflow() || -x >= Overflow() then Failed else Parsed(Classified(x), c[e..])
  }

  function Literal(t: Text, word: Text, value: Json): (r: Parse<Json>)
    requires word != []
    ensures r.Parsed? ==> |r.rest| < |t|
  {
    if word <= t then Parsed(value, t[|word|..]) else Failed
  }

  // ----- Values -----

  function Value(t: Text, depth: nat): (r: Parse<Json>)
    ensures r.Parsed? ==> |r.rest| < |t|
    decreases |t|, 1
  {
    var u := Skip(t);
    if u == [] then Failed
    else if u[0] == OPEN_BRACE then Object(u[1..], depth)
    else if u[0] == OPEN_BRACKET then Array(u[1..], depth)
    else if u[0] == QUOTE then
      var s := Chars(u[1..]);
      if s.Failed? then Failed else Parsed(Str(s.value), s.rest)
    else if u[0] == 0x74 then Literal(u, TRUE, Bool(true))
    else if u[0] == 0x66 then Literal(u, FALSE, Bool(false))
    else if u[0] == 0x6E then Literal(u, NULL, Null)
    else if u[0] == MINUS || Digit(u[0]) then Number(u)
    else Failed
  }

  function Array(t: Text, depth: nat): (r: Parse<Json>)
    ensures r.Parsed? ==> |r.rest| < |t|
    decreases |t|, 3
  {
    if depth >= MAX_JSON_DEPTH then Failed
    else
      var u := Skip(t);
      if u != [] && u[0] == CLOSE_BRACKET then Parsed(Arr([]), u[1..])
      else
        var items := Items(u, depth + 1);
        if items.Failed? then Failed else Parsed(Arr(items.value), items.rest)
  }

  function Items(t: Text, depth: nat): (r: Parse<seq<Json>>)
    ensures r.Parsed? ==> |r.rest| < |t|
    decreases |t|, 2
  {
    var v := Value(t, depth);
    if v.Failed? then Failed
    else
      var u := Skip(v.rest);
      if u == [] then Failed
      else if u[0] == CLOSE_BRACKET then Parsed([v.value], u[1..])
      else if u[0] != COMMA then Failed
      else
        Then([v.value], Items(u[1..], depth))
  }

  function Object(t: Text, depth: nat): (r: Parse<Json>)
    ensures r.Parsed? ==> |r.rest| < |t|
    decreases |t|, 3
  {
    if depth >= MAX_JSON_DEPTH then Failed
    else
      var u := Skip(t);
      if u != [] && u[0] == CLOSE_BRACE then Parsed(Obj([]), u[1..])
      else
        var members := Members(u, depth + 1, {});
        if members.Failed? then Failed else Parsed(Obj(members.value), members.rest)
  }

  function Members(t: Text, depth: nat, seen: set<Text>): (r: Parse<seq<Member>>)
    ensures r.Parsed? ==> |r.rest| < |t|
    decreases |t|, 2
  {
    var k := Key(t, seen);
    if k.Failed? then Failed
    else
      var v := Value(k.rest, depth);
      if v.Failed? then Failed
      else
        var u := Skip(v.rest);
        var m := Member(k.value, v.value);
        if u == [] then Failed
        else if u[0] == CLOSE_BRACE then Parsed([m], u[1..])
        else if u[0] != COMMA then Failed
        else
          Then([m], Members(u[1..], depth, seen + {k.value}))
  }

  /** A member's key, not seen before, and the colon after it. */
  function Key(t: Text, seen: set<Text>): (r: Parse<Text>)
    ensures r.Parsed? ==> |r.rest| < |t|
  {
    var u := Skip(t);
    if u == [] || u[0] != QUOTE then Failed
    else
      var key := Chars(u[1..]);
      if key.Failed? || key.value in seen then Failed
      else
        var c := Skip(key.rest);
        if c == [] || c[0] != COLON then Failed else Parsed(key.value, c[1..])
  }

  lemma {:induction false} ThenAssociates<T>(a: seq<T>, b: seq<T>, p: Parse<seq<T>>)
    ensures Then(a, Then(b, p)) == Then(a + b, p)
  {
    if p.Parsed? { assert a + (b + p.value) == a + b + p.value; }
  }

  lemma {:induction false} ThenNothing<T>(p: Parse<seq<T>>)
    ensures Then([], p) == p
  {
    if p.Parsed? { assert [] + p.value == p.value; }
  }

  /** What one step of the item loop makes of an item and what follows it. */
  lemma {:induction false} ItemsStep(t: Text, depth: nat, v: Json, u: Text)
    requires Value(t, depth).Parsed? && Value(t, depth).value == v && Skip(Value(t, depth).rest) == u != []
    ensures u[0] == CLOSE_BRACKET ==> Items(t, depth) == Parsed([v], u[1..])
    ensures u[0] != CLOSE_BRACKET && u[0] != COMMA ==> Items(t, depth).Failed?
    ensures u[0] == COMMA ==> Items(t, depth) == Then([v], Items(u[1..], depth))
  {
  }

  lemma {:induction false} ItemsStop(t: Text, depth: nat)
    ensures Value(t, depth).Failed? ==> Items(t, depth).Failed?
    ensures Value(t, depth).Parsed? && Skip(Value(t, depth).rest) == [] ==> Items(t, depth).Failed?
  {
  }

  /** What one step of the member loop makes of a key, its value and what follows. */
  lemma {:induction false} MembersStep(t: Text, depth: nat, seen: set<Text>, m: Member, r: Text, u: Text)
    requires Key(t, seen) == Parsed(m.key, r) && Value(r, depth).Parsed?
    requires Value(r, depth).value == m.value && Skip(Value(r, depth).rest) == u != []
    ensures u[0] == CLOSE_BRACE ==> Members(t, depth, seen) == Parsed([m], u[1..])
    ensures u[0] != CLOSE_BRACE && u[0] != COMMA ==> Members(t, depth, seen).Failed?
    ensures u[0] == COMMA ==> Members(t, depth, seen) == Then([m], Members(u[1..], depth, seen + {m.key}))
  {
  }

  lemma {:induction false} MembersStuck(t: Text, depth: nat, seen: set<Text>)
    requires Key(t, seen).Failed? || Value(Key(t, seen).rest, depth).Failed? || Skip(Value(Key(t, seen).rest, depth).rest) == []
    ensures Members(t, depth, seen).Failed?
  {
  }

  /** UTF-8 size of a UTF-16 text; a lone surrogate costs three bytes. */
  function Utf8Length(t: Text): nat {
    if t == [] then 0
    else if t[0] < 0x80 then 1 + Utf8Length(t[1..])
    else if t[0] < 0x800 then 2 + Utf8Length(t[1..])
    else if High(t[0]) && |t| > 1 && Low(t[1]) then 4 + Utf8Length(t[2..])
    else 3 + Utf8Length(t[1..])
  }

  /** `parseStrictJson`. */
  function ParseText(t: Text): Option<Json> {
    if Utf8Length(t) > MAX_MESSAGE_BYTES then None
    else
      var v := Value(t, 0);
      if v.Failed? || Skip(v.rest) != [] then None else Some(v.value)
  }
}

/** The canonical printer and the strict parser undo each other. */
module StrictJsonRoundTrip {
  import opened Wrappers
  import opened JsonText
  import opened StrictJson

  /** Every number is one the canonical printer accepts. */
  predicate Printable(v: Json)
    decreases v
  {
    && !v.Frac?
    && (v.Num? ==> -MAX_SAFE_INTEGER <= v.n <= MAX_SAFE_INTEGER)
    && (v.Arr? ==> forall i :: 0 <= i < |v.items| ==> Printable(v.items[i]))
    && (v.Obj? ==> forall i :: 0 <= i < |v.members| ==> Printable(v.members[i].value))
  }

  /** `compressCanonicalJson`: the text, or a rejection of a number. */
  function Print(v: Json): Option<Text> {
    if Printable(v) then Some(Render(v, Compress)) else None
  }

  /** No surrogate without its partner. */
  predicate Paired(s: Text) {
    if s == [] then true
    else if High(s[0]) then |s| > 1 && Low(s[1]) && Paired(s[2..])
    else !Low(s[0]) && Paired(s[1..])
  }

  /** What the strict parser accepts of a printed tree: well-formed strings,
      distinct keys, and nesting within the limit. */
  predicate Good(v: Json, depth: nat)
    decreases v, 1
  {
    match v
    case Str(s) => Paired(s)
    case Arr(items) => depth < MAX_JSON_DEPTH && GoodItems(items, depth + 1)
    case Obj(members) => depth < MAX_JSON_DEPTH && GoodMembers(members, depth + 1, {})
    case _ => true
  }

  predicate GoodItems(items: seq<Json>, depth: nat)
    decreases items, 0
  {
    items == [] || (Good(items[0], depth) && GoodItems(items[1..], depth))
  }

  predicate GoodMembers(members: seq<Member>, depth: nat, seen: set<Text>)
    decreases members, 0
  {
    members == []
    || (Paired(members[0].key) && members[0].key !in seen && GoodMember(members[0], depth)
        && GoodMembers(members[1..], depth, seen + {members[0].key}))
  }

  predicate GoodMember(m: Member, depth: nat)
    decreases m, 2
  {
    Good(m.value, depth)
  }

  // ----- Strings -----

  lemma {:induction false} HexEscaped(u: CodeUnit, rest: Text)
    requires u < 0x20
    ensures UnicodeEscape(HexEscape(u)[2..] + rest) == Parsed([u], rest)
  {
    var quad := HexEscape(u)[2..];
    var t := quad + rest;
    HexEscapeValue(u);
    assert forall i :: 0 <= i < 4 ==> t[i] == quad[i] == HexEscape(u)[i + 2];
    assert HexQuad(t) && t[4..] == rest;
  }

  lemma {:induction false} EscapedUnit(u: CodeUnit, rest: Text)
    requires !High(u) && !Low(u)
    ensures Chars(EscapeUnit(u, false, Compress) + rest) == Then([u], Chars(rest))
  {
    var e := EscapeUnit(u, false, Compress);
    var t := e + rest;
    if |e| == 6 {
      HexEscaped(u, rest);
      assert t[0] == BACKSLASH && t[1] == 0x75;
      assert t[2..] == HexEscape(u)[2..] + rest;
    } else if |e| == 2 {
      assert t[0] == BACKSLASH && t[1] == e[1];
      assert t[2..] == rest;
    } else {
      assert t[0] == u && t[1..] == rest;
    }
  }

  lemma {:induction false} EscapeHead(s: Text, rest: Text)
    requires s != []
    ensures Escape(s, false, Compress) + rest
         == EscapeUnit(s[0], High(s[0]) || Low(s[0]), Compress) + (Escape(s[1..], TailPaired(s, false), Compress) + rest)
  {
    EscapeCons(s, false, Compress, rest);
    assert EscapeUnit(s[0], false, Compress) == EscapeUnit(s[0], true, Compress);
  }

  /** A printed string followed by its quote is read back iff it is well formed. */
  lemma {:induction false} CharsReadBack(s: Text, r: Text)
    ensures Chars(Escape(s, false, Compress) + ([QUOTE] + r)) == if Paired(s) then Parsed(s, r) else Failed
    decreases |s|
  {
    var q := [QUOTE] + r;
    if s == [] {
      assert Escape(s, false, Compress) + q == q;
      assert q[1..] == r;
    } else {
      EscapeHead(s, q);
      var tail := Escape(s[1..], TailPaired(s, false), Compress) + q;
      if High(s[0]) {
        PairReadBack(s, r);
      } else if Low(s[0]) {
        assert Escape(s, false, Compress) + q == [s[0]] + tail;
      } else {
        EscapedUnit(s[0], tail);
        CharsReadBack(s[1..], r);
        assert s == [s[0]] + s[1..];
      }
    }
  }

  lemma {:induction false} PairReadBack(s: Text, r: Text)
    requires s != [] && High(s[0])
    ensures Chars(Escape(s, false, Compress) + ([QUOTE] + r)) == if Paired(s) then Parsed(s, r) else Failed
    decreases |s|, 0
  {
    var q := [QUOTE] + r;
    EscapeHead(s, q);
    var tail := Escape(s[1..], TailPaired(s, false), Compress) + q;
    var t := Escape(s, false, Compress) + q;
    assert t == [s[0]] + tail;
    if |s| > 1 && Low(s[1]) {
      var more := Escape(s[2..], false, Compress) + q;
      assert s[1..][1..] == s[2..];
      assert tail == [s[1]] + more;
      assert t[2..] == more && t[1] == s[1];
      CharsReadBack(s[2..], r);
      assert s == [s[0], s[1]] + s[2..];
    } else {
      assert t[1] == tail[0];
      if |s| > 1 {
        EscapeHead(s[1..], q);
        assert !Low(EscapeUnit(s[1], High(s[1]) || Low(s[1]), Compress)[0]);
      } else {
        assert tail == q;
      }
    }
  }

  // ----- Numbers -----

  lemma {:induction false} DigitsLead(n: nat)
    ensures Digits(n)[0] == 0x30 <==> n == 0
    ensures n == 0 ==> |Digits(n)| == 1
  {
    if n >= 10 {
      DigitsLead(n / 10);
    }
  }

  lemma {:induction false} Pow2Positive(k: nat)
    ensures Pow2(k) >= 1
  {
    if k > 0 { Pow2Positive(k - 1); }
  }

  lemma {:induction false} OverflowLarge()
    ensures Overflow() > MAX_SAFE_INTEGER as real
  {
    Pow2Positive(970);
    Pow2Of54();
    assert Pow2(970) * (Pow2(54) - 1) >= Pow2(54) - 1;
  }

  lemma {:induction false} Pow2Of54()
    ensures Pow2(54) == 0x40_0000_0000_0000
  {
    assert Pow2(9) == 512;
    assert Pow2(18) == 512 * Pow2(9) by { Pow2Shift(9, 9); }
    Pow2Shift(18, 18);
    Pow2Shift(36, 18);
  }

  lemma {:induction false} Pow2Shift(a: nat, b: nat)
    ensures Pow2(a + b) == Pow2(a) * Pow2(b)
  {
    if b > 0 {
      Pow2Shift(a, b - 1);
      assert Pow2(a + b) == 2 * Pow2(a + (b - 1));
    }
  }

  /** What may follow a printed value. */
  predicate Stops(r: Text) {
    r == [] || r[0] == COMMA || r[0] == CLOSE_BRACKET || r[0] == CLOSE_BRACE
  }

  lemma {:induction false} NumberReadBack(n: int, r: Text)
    requires Stops(r) && -MAX_SAFE_INTEGER <= n <= MAX_SAFE_INTEGER
    ensures Number(Decimal(n) + r) == Parsed(Num(n), r)
  {
    var m := if n < 0 then -n else n;
    var t := Decimal(n) + r;
    var a := Digits(m) + r;
    DecimalStarts(n);
    assert t[0] == Decimal(n)[0];
    if n < 0 { DropFirst(MINUS, Digits(m), r); }
    SpanOf(Digits(m), r);
    DigitsLead(m);
    assert a[0] == Digits(m)[0];
    assert IntegerSpan(a) == |Digits(m)|;
    SplitDigits(m, r);
    IntegerLexeme(n < 0, m);
    OverflowLarge();
    assert (n as real).Floor == n;
  }

  lemma {:induction false} SplitDigits(m: nat, r: Text)
    requires Stops(r)
    ensures var a := Digits(m) + r; a[..|Digits(m)|] == Digits(m) && a[|Digits(m)|..] == r
    ensures FractionSpan(r) == 0 && ExponentSpan(r) == 0 && r[0..] == r
  {
  }

  lemma {:induction false} IntegerLexeme(negative: bool, m: nat)
    ensures ExactValue(Lexeme(negative, Digits(m), [], 0)) == if negative then -(m as real) else m as real
  {
    DigitsDenote(m);
    assert Digits(m) + [] == Digits(m);
    assert Pow10(0) == 1.0;
  }

  // ----- Values -----

  lemma {:induction false} SkipNothing(t: Text)
    requires t == [] || !Whitespace(t[0])
    ensures Skip(t) == t
  {
  }

  lemma {:induction false} StringReadBack(s: Text, r: Text)
    ensures var t := Quote(s, Compress) + r;
      t != [] && t[0] == QUOTE && Skip(t) == t && Chars(t[1..]) == if Paired(s) then Parsed(s, r) else Failed
  {
    var t := Quote(s, Compress) + r;
    assert t[1..] == Escape(s, false, Compress) + ([QUOTE] + r);
    CharsReadBack(s, r);
  }

  lemma {:induction false} RenderNoSpace(v: Json, r: Text)
    requires Printable(v)
    ensures var t := Render(v, Compress) + r;
      t != [] && KindAt(t[0]) == KindOf(v) != NoKind && Skip(t) == t
  {
    PrintableIntegral(v);
    RenderStarts(v, Compress);
    assert (Render(v, Compress) + r)[0] == Render(v, Compress)[0];
  }

  lemma {:induction false} PrintableIntegral(v: Json)
    requires Printable(v)
    ensures Integral(v)
    decreases v
  {
    match v
    case Arr(items) => forall i | 0 <= i < |items| ensures Integral(items[i]) { PrintableIntegral(items[i]); }
    case Obj(members) => forall i | 0 <= i < |members| ensures Integral(members[i].value) { PrintableIntegral(members[i].value); }
    case _ =>
  }

  lemma {:induction false} WordReadBack(word: Text, r: Text, value: Json)
    requires word != []
    ensures Literal(word + r, word, value) == Parsed(value, r)
  {
    assert word <= word + r;
  }

  /** A printed value is read back exactly when it is acceptable at this depth. */
  lemma {:induction false} ValueReadBack(v: Json, depth: nat, r: Text)
    requires Printable(v) && Stops(r)
    ensures Value(Render(v, Compress) + r, depth) == if Good(v, depth) then Parsed(v, r) else Failed
    decreases v, 1
  {
    RenderNoSpace(v, r);
    match v
    case Null => WordReadBack(NULL, r, v);
    case Bool(b) => WordReadBack(if b then TRUE else FALSE, r, v);
    case Num(n) => NumberReadBack(n, r);
    case Str(s) => StringReadBack(s, r);
    case Arr(items) =>
      Inside(OPEN_BRACKET, RenderItems(items, Compress), CLOSE_BRACKET, r);
      ArrayReadBack(items, depth, r);
    case Obj(members) =>
      Inside(OPEN_BRACE, RenderMembers(members, Compress), CLOSE_BRACE, r);
      ObjectReadBack(members, depth, r);
  }

  lemma {:induction false} ArrayReadBack(items: seq<Json>, depth: nat, r: Text)
    requires forall i :: 0 <= i < |items| ==> Printable(items[i])
    ensures Array(RenderItems(items, Compress) + ([CLOSE_BRACKET] + r), depth)
         == if depth < MAX_JSON_DEPTH && GoodItems(items, depth + 1) then Parsed(Arr(items), r) else Failed
    decreases items, 1
  {
    var c := [CLOSE_BRACKET] + r;
    if items == [] {
      assert [] + c == c && c[1..] == r;
    } else {
      ItemsCons(items, Compress, c);
      RenderNoSpace(items[0], AfterItem(items, Compress, c));
      if depth < MAX_JSON_DEPTH {
        ItemsReadBack(items, depth + 1, r);
      }
    }
  }

  lemma {:induction false} ItemsReadBack(items: seq<Json>, depth: nat, r: Text)
    requires items != [] && forall i :: 0 <= i < |items| ==> Printable(items[i])
    ensures Items(RenderItems(items, Compress) + ([CLOSE_BRACKET] + r), depth)
         == if GoodItems(items, depth) then Parsed(items, r) else Failed
    decreases items, 0
  {
    var c := [CLOSE_BRACKET] + r;
    var t := RenderItems(items, Compress) + c;
    ItemsCons(items, Compress, c);
    AfterItemIs(items, Compress, c);
    var after := AfterItem(items, Compress, c);
    ValueReadBack(items[0], depth, after);
    SkipNothing(after);
    assert items == [items[0]] + items[1..];
    if Good(items[0], depth) {
      ItemsStep(t, depth, items[0], after);
      if |items| == 1 {
        assert after[1..] == r && [items[0]] == items && items[1..] == [];
      } else {
        ItemsReadBack(items[1..], depth, r);
      }
    }
  }

  lemma {:induction false} MembersStart(members: seq<Member>, c: Text)
    requires members != []
    ensures var t := RenderMembers(members, Compress) + c; t != [] && t[0] == QUOTE && Skip(t) == t
  {
    MembersCons(members, Compress, c);
  }

  lemma {:induction false} ObjectOpens(t: Text, depth: nat)
    requires t != [] && t[0] == QUOTE && Skip(t) == t && depth < MAX_JSON_DEPTH
    ensures var ms := Members(t, depth + 1, {});
      Object(t, depth) == if ms.Failed? then Failed else Parsed(Obj(ms.value), ms.rest)
  {
  }

  lemma {:induction false} ObjectCloses(t: Text, depth: nat)
    requires t != [] && t[0] == CLOSE_BRACE
    ensures Object(t, depth) == if depth < MAX_JSON_DEPTH then Parsed(Obj([]), t[1..]) else Failed
  {
  }

  lemma {:induction false} EmptyReadBack(depth: nat, r: Text)
    ensures Object(RenderMembers([], Compress) + ([CLOSE_BRACE] + r), depth)
         == if depth < MAX_JSON_DEPTH then Parsed(Obj([]), r) else Failed
  {
    var c := [CLOSE_BRACE] + r;
    assert RenderMembers([], Compress) + c == c;
    assert c[1..] == r;
    ObjectCloses(c, depth);
  }

  lemma {:induction false} TooDeep(t: Text, depth: nat)
    requires depth >= MAX_JSON_DEPTH
    ensures Object(t, depth).Failed?
  {
  }

  lemma {:induction false} ObjectReadBack(members: seq<Member>, depth: nat, r: Text)
    requires forall i :: 0 <= i < |members| ==> Printable(members[i].value)
    ensures Object(RenderMembers(members, Compress) + ([CLOSE_BRACE] + r), depth)
         == if depth < MAX_JSON_DEPTH && GoodMembers(members, depth + 1, {}) then Parsed(Obj(members), r) else Failed
    decreases members, 1
  {
    var t := RenderMembers(members, Compress) + ([CLOSE_BRACE] + r);
    if depth >= MAX_JSON_DEPTH {
      TooDeep(t, depth);
    } else if members == [] {
      EmptyReadBack(depth, r);
    } else {
      MembersStart(members, [CLOSE_BRACE] + r);
      ObjectOpens(t, depth);
      MembersReadBack(members, depth + 1, {}, r);
    }
  }

  lemma {:induction false} KeyReadBack(key: Text, seen: set<Text>, r: Text)
    ensures Key(Quote(key, Compress) + ([COLON] + r), seen) == if Paired(key) && key !in seen then Parsed(key, r) else Failed
  {
    StringReadBack(key, [COLON] + r);
    SkipNothing([COLON] + r);
    assert ([COLON] + r)[1..] == r;
  }

  lemma {:induction false} MembersReadBack(members: seq<Member>, depth: nat, seen: set<Text>, r: Text)
    requires members != [] && forall i :: 0 <= i < |members| ==> Printable(members[i].value)
    ensures Members(RenderMembers(members, Compress) + ([CLOSE_BRACE] + r), depth, seen)
         == if GoodMembers(members, depth, seen) then Parsed(members, r) else Failed
    decreases members, 0
  {
    var c := [CLOSE_BRACE] + r;
    var m := members[0];
    var t := RenderMembers(members, Compress) + c;
    MembersCons(members, Compress, c);
    AfterMemberIs(members, Compress, c);
    var after := AfterMember(members, Compress, c);
    KeyReadBack(m.key, seen, Render(m.value, Compress) + after);
    MemberReadBack(m, depth, after);
    SkipNothing(after);
    if Paired(m.key) && m.key !in seen && GoodMember(m, depth) {
      MembersStep(t, depth, seen, m, Render(m.value, Compress) + after, after);
      if |members| == 1 {
        assert after[1..] == r && [m] == members && members[1..] == [];
      } else {
        MembersReadBack(members[1..], depth, seen + {m.key}, r);
        assert members == [m] + members[1..];
      }
    } else {
      MembersStuck(t, depth, seen);
    }
  }

  lemma {:induction false} MemberReadBack(m: Member, depth: nat, r: Text)
    requires Printable(m.value) && Stops(r)
    ensures Value(Render(m.value, Compress) + r, depth) == if GoodMember(m, depth) then Parsed(m.value, r) else Failed
    decreases m, 2
  {
    ValueReadBack(m.value, depth, r);
  }

  // ----- The acceptance condition, without reference to the order of reading -----

  ghost predicate DistinctKeys(members: seq<Member>) {
    forall i, j :: 0 <= i < j < |members| ==> members[i].key != members[j].key
  }

  /** Strings and keys are well formed, keys are distinct, and no container is
      nested in more than `room - 1` others. */
  ghost predicate Acceptable(v: Json, room: int)
    decreases v
  {
    && (v.Str? ==> Paired(v.s))
    && (v.Arr? || v.Obj? ==> room > 0)
    && (v.Arr? ==> forall i :: 0 <= i < |v.items| ==> Acceptable(v.items[i], room - 1))
    && (v.Obj? ==> DistinctKeys(v.members))
    && (v.Obj? ==> forall i :: 0 <= i < |v.members| ==> Paired(v.members[i].key) && Acceptable(v.members[i].value, room - 1))
  }

  lemma {:induction false} GoodMeans(v: Json, depth: nat)
    requires depth <= MAX_JSON_DEPTH
    ensures Good(v, depth) <==> Acceptable(v, MAX_JSON_DEPTH - depth)
    decreases v, 1
  {
    match v
    case Arr(items) => if depth < MAX_JSON_DEPTH { GoodItemsMean(items, depth + 1); }
    case Obj(members) => if depth < MAX_JSON_DEPTH { GoodMembersMean(members, depth + 1, {}); }
    case _ =>
  }

  lemma {:induction false} GoodItemsMean(items: seq<Json>, depth: nat)
    requires depth <= MAX_JSON_DEPTH
    ensures GoodItems(items, depth) <==> forall i :: 0 <= i < |items| ==> Acceptable(items[i], MAX_JSON_DEPTH - depth)
    decreases items, 0
  {
    if items != [] {
      GoodMeans(items[0], depth);
      GoodItemsMean(items[1..], depth);
      assert forall i :: 1 <= i < |items| ==> items[i] == items[1..][i - 1];
    }
  }

  lemma {:induction false} GoodMembersMean(members: seq<Member>, depth: nat, seen: set<Text>)
    requires depth <= MAX_JSON_DEPTH
    ensures GoodMembers(members, depth, seen)
       <==> DistinctKeys(members)
            && forall i :: 0 <= i < |members| ==>
                 members[i].key !in seen && Paired(members[i].key) && Acceptable(members[i].value, MAX_JSON_DEPTH - depth)
    decreases members, 0
  {
    if members != [] {
      GoodMemberMeans(members[0], depth);
      GoodMembersMean(members[1..], depth, seen + {members[0].key});
      var rest := members[1..];
      assert forall i :: 1 <= i < |members| ==> members[i] == rest[i - 1];
      assert forall i :: 0 <= i < |rest| ==> rest[i] == members[i + 1];
    }
  }

  lemma {:induction false} GoodMemberMeans(m: Member, depth: nat)
    requires depth <= MAX_JSON_DEPTH
    ensures GoodMember(m, depth) <==> Acceptable(m.value, MAX_JSON_DEPTH - depth)
    decreases m, 2
  {
    GoodMeans(m.value, depth);
  }

  /** Parsing a printed tree gives the tree back exactly when the text is within
      the byte limit and the tree within the grammar's; otherwise it is rejected,
      and never turned into a different tree. */
  lemma {:induction false} ParserUndoesPrinter(v: Json)
    requires Printable(v)
    ensures var t := Print(v).value;
      ParseText(t) == if Utf8Length(t) <= MAX_MESSAGE_BYTES && Acceptable(v, MAX_JSON_DEPTH) then Some(v) else None
  {
    var t := Render(v, Compress);
    ValueReadBack(v, 0, []);
    assert t + [] == t;
    GoodMeans(v, 0);
  }

  // ----- Everything the parser returns is acceptable -----

  lemma {:induction false} CharsPaired(t: Text)
    ensures Chars(t).Parsed? ==> Paired(Chars(t).value)
    decreases |t|
  {
    if t != [] && t[0] != QUOTE {
      if t[0] == BACKSLASH {
        if |t| >= 2 {
          if SimpleEscape(t[1]).Some? {
            CharsPaired(t[2..]);
            PairedCons(SimpleEscape(t[1]).value, Chars(t[2..]));
          } else if UnicodeEscape(t[2..]).Parsed? {
            var escape := UnicodeEscape(t[2..]);
            CharsPaired(escape.rest);
            PairedThen(escape.value, Chars(escape.rest));
          }
        }
      } else if High(t[0]) && |t| > 1 && Low(t[1]) {
        CharsPaired(t[2..]);
        PairedThen([t[0], t[1]], Chars(t[2..]));
      } else if !High(t[0]) && !Low(t[0]) {
        CharsPaired(t[1..]);
        PairedCons(t[0], Chars(t[1..]));
      }
    }
  }

  lemma {:induction false} PairedCons(u: CodeUnit, p: Parse<Text>)
    requires !High(u) && !Low(u) && (p.Parsed? ==> Paired(p.value))
    ensures Then([u], p).Parsed? ==> Paired(Then([u], p).value)
  {
    if p.Parsed? { assert ([u] + p.value)[1..] == p.value; }
  }

  lemma {:induction false} PairedThen(head: Text, p: Parse<Text>)
    requires |head| == 1 || |head| == 2
    requires |head| == 1 ==> !High(head[0]) && !Low(head[0])
    requires |head| == 2 ==> High(head[0]) && Low(head[1])
    requires p.Parsed? ==> Paired(p.value)
    ensures Then(head, p).Parsed? ==> Paired(Then(head, p).value)
  {
    if p.Parsed? { assert (head + p.value)[|head|..] == p.value; }
  }

  lemma {:induction false} ValueGood(t: Text, depth: nat)
    ensures Value(t, depth).Parsed? ==> Good(Value(t, depth).value, depth)
    decreases |t|, 1
  {
    var u := Skip(t);
    if u != [] {
      if u[0] == OPEN_BRACE {
        ObjectGood(u[1..], depth);
      } else if u[0] == OPEN_BRACKET {
        ArrayGood(u[1..], depth);
      } else if u[0] == QUOTE {
        CharsPaired(u[1..]);
      }
    }
  }

  lemma {:induction false} ArrayGood(t: Text, depth: nat)
    ensures Array(t, depth).Parsed? ==> Good(Array(t, depth).value, depth)
    decreases |t|, 3
  {
    if depth < MAX_JSON_DEPTH { ItemsGood(Skip(t), depth + 1); }
  }

  lemma {:induction false} ItemsGood(t: Text, depth: nat)
    ensures Items(t, depth).Parsed? ==> GoodItems(Items(t, depth).value, depth)
    decreases |t|, 2
  {
    ValueGood(t, depth);
    var v := Value(t, depth);
    if v.Parsed? {
      var u := Skip(v.rest);
      if u != [] && u[0] == COMMA {
        ItemsGood(u[1..], depth);
        var more := Items(u[1..], depth);
        if more.Parsed? { assert ([v.value] + more.value)[1..] == more.value; }
      }
    }
  }

  lemma {:induction false} ObjectGood(t: Text, depth: nat)
    ensures Object(t, depth).Parsed? ==> Good(Object(t, depth).value, depth)
    decreases |t|, 3
  {
    if depth < MAX_JSON_DEPTH { MembersGood(Skip(t), depth + 1, {}); }
  }

  lemma {:induction false} MembersGood(t: Text, depth: nat, seen: set<Text>)
    ensures Members(t, depth, seen).Parsed? ==> GoodMembers(Members(t, depth, seen).value, depth, seen)
    decreases |t|, 2
  {
    var k := Key(t, seen);
    if k.Parsed? {
      CharsPaired(Skip(t)[1..]);
      ValueGood(k.rest, depth);
      var v := Value(k.rest, depth);
      if v.Parsed? {
        var u := Skip(v.rest);
        var m := Member(k.value, v.value);
        assert GoodMember(m, depth);
        if u != [] && u[0] == CLOSE_BRACE {
          assert [m][0] == m && [m][1..] == [];
          assert GoodMembers([m], depth, seen);
        } else if u != [] && u[0] == COMMA {
          MembersGood(u[1..], depth, seen + {k.value});
          GoodMembersCons(m, Members(u[1..], depth, seen + {k.value}), depth, seen);
        }
      }
    }
  }

  lemma {:induction false} GoodMembersCons(m: Member, p: Parse<seq<Member>>, depth: nat, seen: set<Text>)
    requires Paired(m.key) && m.key !in seen && GoodMember(m, depth)
    requires p.Parsed? ==> GoodMembers(p.value, depth, seen + {m.key})
    ensures Then([m], p).Parsed? ==> GoodMembers(Then([m], p).value, depth, seen)
  {
    if p.Parsed? { assert ([m] + p.value)[1..] == p.value; }
  }

  /** Whatever text is parsed, the tree is acceptable. */
  lemma {:induction false} ParsedIsAcceptable(t: Text)
    requires ParseText(t).Some?
    ensures Acceptable(ParseText(t).value, MAX_JSON_DEPTH)
  {
    ValueGood(t, 0);
    GoodMeans(Value(t, 0).value, 0);
  }

  /** So if its numbers can be printed and the canonical text is within the byte
      limit, that text is parsed to the same tree. */
  lemma {:induction false} ReparsedIsSame(t: Text)
    requires ParseText(t).Some? && Printable(ParseText(t).value)
    requires Utf8Length(Print(ParseText(t).value).value) <= MAX_MESSAGE_BYTES
    ensures ParseText(Print(ParseText(t).value).value) == ParseText(t)
  {
    ParsedIsAcceptable(t);
    ParserUndoesPrinter(ParseText(t).value);
  }
}

/** The recursive-descent parser with its single moving offset. */
module StrictJsonParsing {
  import opened Wrappers
  import opened JsonText
  import opened StrictJson

  /** What a parsing method returned is what the grammar says of the text that was left. */
  ghost predicate Agrees<T(!new)>(spec: Parse<T>, result: Option<T>, rest: Text) {
    spec == if result.Some? then Parsed(result.value, rest) else Failed
  }

  lemma {:induction false} NumberRest(t: Text)
    ensures Number(t).Parsed? ==> Number(t).rest == t[|t| - |Number(t).rest|..]
  {
  }

  class StrictJsonParser {
    const text: Text
    var offset: nat

    ghost predicate Valid()
      reads this
    {
      offset <= |text|
    }

    /** The text not read yet. */
    ghost function Left(): Text
      reads this
      requires Valid()
    {
      text[offset..]
    }

    constructor (text: Text)
      ensures this.text == text && Valid() && Left() == text
    {
      this.text := text;
      offset := 0;
    }

    method Parse() returns (r: Option<Json>)
      requires offset == 0
      modifies this
      ensures r == var v := Value(text, 0); if v.Failed? || Skip(v.rest) != [] then None else Some(v.value)
    {
      assert text[0..] == text;
      r := ParseValue(0);
      if r.None? { return; }
      Whitespaces();
      if offset != |text| { return None; }
    }

    method Whitespaces()
      requires Valid()
      modifies this
      ensures Valid() && Left() == Skip(old(Left())) && offset >= old(offset)
    {
      while offset < |text| && Whitespace(text[offset])
        invariant Valid() && offset >= old(offset) && Skip(Left()) == Skip(old(Left()))
      {
        assert text[offset..][1..] == text[offset + 1..];
        offset := offset + 1;
      }
    }

    method ParseValue(depth: nat) returns (r: Option<Json>)
      requires Valid()
      modifies this
      ensures Valid() && Agrees(Value(old(Left()), depth), r, Left())
      ensures r.Some? ==> offset > old(offset)
      decreases |text| - offset, 1
    {
      Whitespaces();
      if offset >= |text| { return None; }
      var c := text[offset];
      assert Left()[1..] == text[offset + 1..];
      if c == OPEN_BRACE {
        r := ParseObject(depth);
      } else if c == OPEN_BRACKET {
        r := ParseArray(depth);
      } else if c == QUOTE {
        var s := ParseString();
        r := if s.Some? then Some(Str(s.value)) else None;
      } else if c == 0x74 {
        r := ParseLiteral(TRUE, Bool(true));
      } else if c == 0x66 {
        r := ParseLiteral(FALSE, Bool(false));
      } else if c == 0x6E {
        r := ParseLiteral(NULL, Null);
      } else if c == MINUS || Digit(c) {
        r := ParseNumber();
      } else {
        r := None;
      }
    }

    method ParseObject(depth: nat) returns (r: Option<Json>)
      requires Valid() && offset < |text|
      modifies this
      ensures Valid() && Agrees(Object(old(text[offset + 1..]), depth), r, Left())
      ensures r.Some? ==> offset > old(offset)
      decreases |text| - offset, 0
    {
      if depth >= MAX_JSON_DEPTH { return None; }
      offset := offset + 1;
      Whitespaces();
      if offset < |text| && text[offset] == CLOSE_BRACE {
        assert Left()[1..] == text[offset + 1..];
        offset := offset + 1;
        return Some(Obj([]));
      }
      var members := ParseMembers(depth + 1);
      r := if members.Some? then Some(Obj(members.value)) else None;
    }

    method ParseMembers(depth: nat) returns (r: Option<seq<Member>>)
      requires Valid()
      modifies this
      ensures Valid() && Agrees(Members(old(Left()), depth, {}), r, Left())
      ensures r.Some? ==> offset > old(offset)
      decreases |text| - offset, 3
    {
      ghost var whole := Members(Left(), depth, {});
      var members: seq<Member> := [];
      var keys: set<Text> := {};
      ThenNothing(whole);
      while true
        invariant Valid() && offset >= old(offset)
        invariant whole == Then(members, Members(Left(), depth, keys))
        decreases |text| - offset
      {
        var m, last := ParseMember(depth, keys);
        if m.None? { return None; }
        ThenAssociates(members, [m.value], Members(Left(), depth, keys + {m.value.key}));
        members := members + [m.value];
        keys := keys + {m.value.key};
        if last { return Some(members); }
      }
    }

    /** One turn of the member loop: a member and whether the closing brace followed it. */
    method ParseMember(depth: nat, keys: set<Text>) returns (m: Option<Member>, last: bool)
      requires Valid()
      modifies this
      ensures Valid()
      ensures m.Some? ==> offset > old(offset)
      ensures Members(old(Left()), depth, keys)
           == if m.None? then Failed
              else if last then Parsed([m.value], Left())
              else Then([m.value], Members(Left(), depth, keys + {m.value.key}))
      decreases |text| - offset, 2
    {
      m, last := None, false;
      var key := ParseKey(keys);
      if key.None? { return; }
      ghost var afterKey := Left();
      var value := ParseValue(depth);
      if value.None? { MembersStuck(old(Left()), depth, keys); return; }
      Whitespaces();
      if offset >= |text| { MembersStuck(old(Left()), depth, keys); return; }
      MembersStep(old(Left()), depth, keys, Member(key.value, value.value), afterKey, Left());
      assert Left()[1..] == text[offset + 1..];
      if text[offset] != CLOSE_BRACE && text[offset] != COMMA { return; }
      m, last := Some(Member(key.value, value.value)), text[offset] == CLOSE_BRACE;
      offset := offset + 1;
    }

    method ParseKey(keys: set<Text>) returns (r: Option<Text>)
      requires Valid()
      modifies this
      ensures Valid() && Agrees(Key(old(Left()), keys), r, Left())
      ensures r.Some? ==> offset > old(offset)
    {
      Whitespaces();
      if offset >= |text| || text[offset] != QUOTE { return None; }
      assert Left()[1..] == text[offset + 1..];
      r := ParseString();
      if r.None? || r.value in keys { return None; }
      Whitespaces();
      if offset >= |text| || text[offset] != COLON { return None; }
      assert Left()[1..] == text[offset + 1..];
      offset := offset + 1;
    }

    method ParseArray(depth: nat) returns (r: Option<Json>)
      requires Valid() && offset < |text|
      modifies this
      ensures Valid() && Agrees(Array(old(text[offset + 1..]), depth), r, Left())
      ensures r.Some? ==> offset > old(offset)
      decreases |text| - offset, 0
    {
      if depth >= MAX_JSON_DEPTH { return None; }
      offset := offset + 1;
      Whitespaces();
      if offset < |text| && text[offset] == CLOSE_BRACKET {
        assert Left()[1..] == text[offset + 1..];
        offset := offset + 1;
        return Some(Arr([]));
      }
      var items := ParseItems(depth + 1);
      r := if items.Some? then Some(Arr(items.value)) else None;
    }

    method ParseItems(depth: nat) returns (r: Option<seq<Json>>)
      requires Valid()
      modifies this
      ensures Valid() && Agrees(Items(old(Left()), depth), r, Left())
      ensures r.Some? ==> offset > old(offset)
      decreases |text| - offset, 3
    {
      ghost var whole := Items(Left(), depth);
      var items: seq<Json> := [];
      ThenNothing(whole);
      while true
        invariant Valid() && offset >= old(offset)
        invariant whole == Then(items, Items(Left(), depth))
        decreases |text| - offset
      {
        var v, last := ParseItem(depth);
        if v.None? { return None; }
        ThenAssociates(items, [v.value], Items(Left(), depth));
        items := items + [v.value];
        if last { return Some(items); }
      }
    }

    /** One turn of the element loop: a value and whether the closing bracket followed it. */
    method ParseItem(depth: nat) returns (v: Option<Json>, last: bool)
      requires Valid()
      modifies this
      ensures Valid()
      ensures v.Some? ==> offset > old(offset)
      ensures Items(old(Left()), depth)
           == if v.None? then Failed
              else if last then Parsed([v.value], Left())
              else Then([v.value], Items(Left(), depth))
      decreases |text| - offset, 2
    {
      last := false;
      ghost var start := Left();
      ItemsStop(start, depth);
      v := ParseValue(depth);
      if v.None? { return; }
      Whitespaces();
      if offset >= |text| { return None, false; }
      ItemsStep(start, depth, v.value, Left());
      assert Left()[1..] == text[offset + 1..];
      if text[offset] != CLOSE_BRACKET && text[offset] != COMMA { return None, false; }
      last := text[offset] == CLOSE_BRACKET;
      offset := offset + 1;
    }

    method ParseString() returns (r: Option<Text>)
      requires Valid() && offset < |text|
      modifies this
      ensures Valid() && Agrees(Chars(old(text[offset + 1..])), r, Left())
      ensures r.Some? ==> offset > old(offset)
    {
      offset := offset + 1;
      ghost var whole := Chars(old(text[offset + 1..]));
      assert Left() == old(text[offset + 1..]);
      var result: Text := [];
      ThenNothing(whole);
      while offset < |text|
        invariant Valid() && offset > old(offset)
        invariant whole == Then(result, Chars(Left()))
      {
        var ended, more := ParseNext(result);
        if more.None? { return None; }
        if ended { return more; }
        result := more.value;
      }
      return None;
    }

    /** The closing quote or one item of a string. */
    method ParseNext(result: Text) returns (ended: bool, more: Option<Text>)
      requires Valid() && offset < |text|
      modifies this
      ensures Valid() && offset > old(offset)
      ensures var all := Then(result, Chars(old(Left())));
        all == if more.None? then Failed else if ended then Parsed(more.value, Left()) else Then(more.value, Chars(Left()))
    {
      ghost var start := Left();
      var unit := text[offset];
      assert start[1..] == text[offset + 1..];
      offset := offset + 1;
      if unit == QUOTE {
        QuoteEnds(result, start);
        return true, Some(result);
      }
      var piece := ParsePiece(unit);
      if piece.None? { return false, None; }
      ThenAssociates(result, piece.value, Chars(Left()));
      return false, Some(result + piece.value);
    }

    static lemma {:induction false} QuoteEnds(result: Text, start: Text)
      requires start != [] && start[0] == QUOTE
      ensures Then(result, Chars(start)) == Parsed(result, start[1..])
    {
      assert result + [] == result;
    }

    /** What one item of a string stands for, its first unit having been read. */
    method ParsePiece(unit: CodeUnit) returns (r: Option<Text>)
      requires 0 < offset <= |text| && text[offset - 1] == unit != QUOTE
      modifies this
      ensures Valid() && offset >= old(offset)
      ensures var all := Chars(old(text[offset - 1..])); all == if r.Some? then Then(r.value, Chars(Left())) else Failed
    {
      ghost var start := text[offset - 1..];
      assert start[0] == unit && start[1..] == Left();
      if unit == BACKSLASH {
        if offset >= |text| { return None; }
        var escaped := text[offset];
        assert start[1] == escaped && start[2..] == text[offset + 1..];
        offset := offset + 1;
        if SimpleEscape(escaped).Some? {
          r := Some([SimpleEscape(escaped).value]);
        } else if escaped == 0x75 {
          r := ParseUnicodeEscape();
        } else {
          r := None;
        }
      } else if unit < 0x20 {
        r := None;
      } else if High(unit) || Low(unit) {
        if Low(unit) || offset >= |text| || !Low(text[offset]) { return None; }
        r := Some([unit, text[offset]]);
        assert start[1] == text[offset] && start[2..] == text[offset + 1..];
        offset := offset + 1;
      } else {
        r := Some([unit]);
      }
    }

    method ParseUnicodeEscape() returns (r: Option<Text>)
      requires Valid()
      modifies this
      ensures Valid() && Agrees(UnicodeEscape(old(Left())), r, Left())
      ensures offset >= old(offset)
    {
      var first := ParseHex4();
      if first.None? { return None; }
      if High(first.value) {
        if offset + 2 > |text| || text[offset] != BACKSLASH || text[offset + 1] != 0x75 { return None; }
        offset := offset + 2;
        assert text[old(offset)..][6..] == text[offset..];
        var second := ParseHex4();
        if second.None? || !Low(second.value) { return None; }
        r := Some([first.value, second.value]);
      } else if Low(first.value) {
        r := None;
      } else {
        r := Some([first.value]);
      }
    }

    method ParseHex4() returns (r: Option<CodeUnit>)
      requires Valid()
      modifies this
      ensures Valid()
      ensures r == if HexQuad(old(Left())) then Some(QuadValue(old(Left()))) else None
      ensures offset == if r.Some? then old(offset) + 4 else old(offset)
    {
      var rest := text[offset..];
      if !HexQuad(rest) { return None; }
      r := Some(QuadValue(rest));
      offset := offset + 4;
    }

    method ParseLiteral(word: Text, value: Json) returns (r: Option<Json>)
      requires Valid() && word != []
      modifies this
      ensures Valid() && Agrees(Literal(old(Left()), word, value), r, Left())
      ensures r.Some? ==> offset > old(offset)
    {
      if !(word <= text[offset..]) { return None; }
      assert text[offset..][|word|..] == text[offset + |word|..];
      offset := offset + |word|;
      r := Some(value);
    }

    method ParseNumber() returns (r: Option<Json>)
      requires Valid()
      modifies this
      ensures Valid() && Agrees(Number(old(Left())), r, Left())
      ensures r.Some? ==> offset > old(offset)
    {
      var n := Number(text[offset..]);
      if n.Failed? { return None; }
      NumberRest(text[offset..]);
      offset := |text| - |n.rest|;
      r := Some(n.value);
    }
  }

  /** `parseStrictJson`. */
  method ParseStrictJson(text: Text) returns (r: Option<Json>)
    ensures r == ParseText(text)
  {
    if Utf8Length(text) > MAX_MESSAGE_BYTES { return None; }
    var parser := new StrictJsonParser(text);
    r := parser.Parse();
  }
}
