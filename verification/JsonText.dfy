/** JavaScript strings as UTF-16 code units, and JSON texts printed from trees.
    Two printers share one shape and differ in how they escape strings. */
module JsonText {

  type CodeUnit = c: int | 0 <= c < 0x1_0000

  type Text = seq<CodeUnit>

  const QUOTE: CodeUnit := 0x22
  const BACKSLASH: CodeUnit := 0x5C
  const COMMA: CodeUnit := 0x2C
  const COLON: CodeUnit := 0x3A
  const OPEN_BRACKET: CodeUnit := 0x5B
  const CLOSE_BRACKET: CodeUnit := 0x5D
  const OPEN_BRACE: CodeUnit := 0x7B
  const CLOSE_BRACE: CodeUnit := 0x7D
  const MINUS: CodeUnit := 0x2D

  const TRUE: Text := [0x74, 0x72, 0x75, 0x65]
  const FALSE: Text := [0x66, 0x61, 0x6C, 0x73, 0x65]
  const NULL: Text := [0x6E, 0x75, 0x6C, 0x6C]

  /** The code units of a plain string constant. */
  function Ascii(s: string): (t: Text)
    ensures |t| == |s| && forall i :: 0 <= i < |s| ==> t[i] == s[i] as int % 0x80
  {
    seq(|s|, i requires 0 <= i < |s| => s[i] as int % 0x80)
  }

  predicate High(u: CodeUnit) { 0xD800 <= u <= 0xDBFF }

  predicate Low(u: CodeUnit) { 0xDC00 <= u <= 0xDFFF }

  predicate Digit(u: CodeUnit) { 0x30 <= u <= 0x39 }

  /** Parsed or printable JSON: numbers with an integer value are kept as
      integers, every other number by its exact decimal value. */
  datatype Json =
    | Null
    | Bool(b: bool)
    | Num(n: int)
    | Frac(r: real)
    | Str(s: Text)
    | Arr(items: seq<Json>)
    | Obj(members: seq<Member>)

  datatype Member = Member(key: Text, value: Json)

  // ----- Decimal numerals -----

  function Digits(n: nat): (t: Text)
    ensures t != [] && forall i :: 0 <= i < |t| ==> Digit(t[i])
  {
    if n < 10 then [(0x30 + n) as CodeUnit] else Digits(n / 10) + [(0x30 + n % 10) as CodeUnit]
  }

  function Decimal(n: int): (t: Text)
    ensures t != []
  {
    if n < 0 then [MINUS] + Digits(-n) else Digits(n)
  }

  /** The number a digit string denotes. */
  function DigitsValue(t: Text): int {
    if t == [] then 0 else 10 * DigitsValue(t[..|t| - 1]) + (t[|t| - 1] as int - 0x30)
  }

  lemma {:induction false} DigitsDenote(n: nat)
    ensures DigitsValue(Digits(n)) == n
  {
    if n >= 10 {
      DigitsDenote(n / 10);
      var t := Digits(n);
      assert t[..|t| - 1] == Digits(n / 10);
    }
  }

  /** What follows a number in a JSON text never continues it. */
  predicate Terminated(rest: Text) {
    rest == [] || !Digit(rest[0])
  }

  ghost predicate AllDigits(t: Text) {
    forall i :: 0 <= i < |t| ==> Digit(t[i])
  }

  /** How many digits a text begins with. */
  function DigitSpan(t: Text): nat {
    if t == [] || !Digit(t[0]) then 0 else 1 + DigitSpan(t[1..])
  }

  lemma {:induction false} SpanOf(a: Text, r: Text)
    requires AllDigits(a) && Terminated(r)
    ensures DigitSpan(a + r) == |a|
  {
    if a == [] {
      assert a + r == r;
    } else {
      SpanOf(a[1..], r);
      assert (a + r)[1..] == a[1..] + r;
    }
  }

  lemma {:induction false} SplitAt(a: Text, b: Text, r: Text, q: Text)
    requires |a| == |b| && a + r == b + q
    ensures a == b && r == q
  {
    assert a == (a + r)[..|a|] && b == (b + q)[..|b|];
    assert r == (a + r)[|a|..] && q == (b + q)[|b|..];
  }

  lemma {:induction false} DigitsInjective(n: nat, m: nat, r: Text, q: Text)
    requires Terminated(r) && Terminated(q) && Digits(n) + r == Digits(m) + q
    ensures n == m && r == q
  {
    SpanOf(Digits(n), r);
    SpanOf(Digits(m), q);
    SplitAt(Digits(n), Digits(m), r, q);
    DigitsDenote(n);
    DigitsDenote(m);
  }

  lemma {:induction false} DecimalStarts(n: int)
    ensures Decimal(n)[0] == MINUS <==> n < 0
    ensures n >= 0 ==> Digit(Decimal(n)[0])
  {
  }

  lemma {:induction false} DropFirst(u: CodeUnit, b: Text, r: Text)
    ensures ([u] + b + r)[1..] == b + r
  {
  }

  lemma {:induction false} DecimalInjective(n: int, m: int, r: Text, q: Text)
    requires Terminated(r) && Terminated(q) && Decimal(n) + r == Decimal(m) + q
    ensures n == m && r == q
  {
    DecimalStarts(n);
    DecimalStarts(m);
    assert (Decimal(n) + r)[0] == Decimal(n)[0] && (Decimal(m) + q)[0] == Decimal(m)[0];
    if n < 0 {
      DropFirst(MINUS, Digits(-n), r);
      DropFirst(MINUS, Digits(-m), q);
      DigitsInjective(-n, -m, r, q);
    } else {
      DigitsInjective(n, m, r, q);
    }
  }

  // ----- Strings -----

  /** `Stringify` is JSON.stringify; `Compress` the canonical descriptor printer. */
  datatype Mode = Stringify | Compress

  function HexDigit(d: int): (u: CodeUnit)
    requires 0 <= d < 16
  {
    if d < 10 then 0x30 + d else 0x61 + d - 10
  }

  /** The six-unit escape of any code unit, in lower-case hexadecimal. */
  function HexEscape(u: CodeUnit): (t: Text)
    ensures |t| == 6
  {
    var a: int := u / 16;
    var b := a / 16;
    [BACKSLASH, 0x75, HexDigit(b / 16), HexDigit(b % 16), HexDigit(a % 16), HexDigit(u % 16)]
  }

  /** One code unit inside a printed string; `lone` marks a surrogate without its
      partner, which only JSON.stringify escapes. */
  function EscapeUnit(u: CodeUnit, lone: bool, mode: Mode): (t: Text)
    ensures t != []
  {
    if u == QUOTE then [BACKSLASH, QUOTE]
    else if u == BACKSLASH then [BACKSLASH, BACKSLASH]
    else if u == 0x0A then [BACKSLASH, 0x6E]
    else if u == 0x0D then [BACKSLASH, 0x72]
    else if mode == Stringify && u == 0x08 then [BACKSLASH, 0x62]
    else if mode == Stringify && u == 0x09 then [BACKSLASH, 0x74]
    else if mode == Stringify && u == 0x0C then [BACKSLASH, 0x66]
    else if u < 0x20 || (mode == Stringify && lone) then HexEscape(u)
    else [u]
  }

  /** The printed contents of a string; `paired` says that the first unit is the
      low half of a pair whose high half has just been printed. */
  function Escape(s: Text, paired: bool, mode: Mode): Text {
    if s == [] then []
    else if paired then EscapeUnit(s[0], false, mode) + Escape(s[1..], false, mode)
    else if High(s[0]) && |s| > 1 && Low(s[1]) then EscapeUnit(s[0], false, mode) + Escape(s[1..], true, mode)
    else EscapeUnit(s[0], High(s[0]) || Low(s[0]), mode) + Escape(s[1..], false, mode)
  }

  function Quote(s: Text, mode: Mode): Text {
    [QUOTE] + Escape(s, false, mode) + [QUOTE]
  }

  function HexValue(u: CodeUnit): int {
    if Digit(u) then u - 0x30 else if 0x61 <= u <= 0x66 then u - 0x61 + 10 else if 0x41 <= u <= 0x46 then u - 0x41 + 10 else -1
  }

  /** The unit that one printed item stands for, and how long the item is. */
  function ItemUnit(t: Text): int {
    if t == [] then -1
    else if t[0] != BACKSLASH then t[0]
    else if |t| < 2 then -1
    else match t[1]
      case 0x6E => 0x0A
      case 0x72 => 0x0D
      case 0x62 => 0x08
      case 0x74 => 0x09
      case 0x66 => 0x0C
      case 0x75 =>
        if |t| < 6 then -1
        else HexValue(t[2]) * 0x1000 + HexValue(t[3]) * 0x100 + HexValue(t[4]) * 0x10 + HexValue(t[5])
      case u => u
  }

  function ItemLength(t: Text): nat {
    if t == [] || t[0] != BACKSLASH || |t| < 2 then 1 else if t[1] == 0x75 then 6 else 2
  }

  lemma {:induction false} HexDigitValue(d: int)
    requires 0 <= d < 16
    ensures HexValue(HexDigit(d)) == d
  {
  }

  lemma {:induction false} HexEscapeValue(u: CodeUnit)
    ensures var t := HexEscape(u);
      HexValue(t[2]) * 0x1000 + HexValue(t[3]) * 0x100 + HexValue(t[4]) * 0x10 + HexValue(t[5]) == u
  {
    var a: int := u / 16;
    var b := a / 16;
    HexDigitValue(b / 16);
    HexDigitValue(b % 16);
    HexDigitValue(a % 16);
    HexDigitValue(u % 16);
  }

  /** Whatever follows, a printed item is read back as the unit it came from. */
  lemma {:induction false} ItemReadsBack(u: CodeUnit, lone: bool, mode: Mode, rest: Text)
    ensures var t := EscapeUnit(u, lone, mode) + rest;
      ItemUnit(t) == u && ItemLength(t) == |EscapeUnit(u, lone, mode)| && t[0] != QUOTE
  {
    HexEscapeValue(u);
    var e := EscapeUnit(u, lone, mode);
    var t := e + rest;
    assert forall i :: 0 <= i < |e| ==> t[i] == e[i];
  }

  function HeadItem(s: Text, paired: bool, mode: Mode): (t: Text)
    requires s != []
    ensures t != []
  {
    if paired then EscapeUnit(s[0], false, mode)
    else if High(s[0]) && |s| > 1 && Low(s[1]) then EscapeUnit(s[0], false, mode)
    else EscapeUnit(s[0], High(s[0]) || Low(s[0]), mode)
  }

  predicate TailPaired(s: Text, paired: bool)
    requires s != []
  {
    !paired && High(s[0]) && |s| > 1 && Low(s[1])
  }

  lemma {:induction false} EscapeCons(s: Text, paired: bool, mode: Mode, rest: Text)
    requires s != []
    ensures Escape(s, paired, mode) + rest == HeadItem(s, paired, mode) + (Escape(s[1..], TailPaired(s, paired), mode) + rest)
  {
  }

  lemma {:induction false} HeadReadsBack(s: Text, paired: bool, mode: Mode, rest: Text)
    requires s != []
    ensures var t := Escape(s, paired, mode) + rest;
      ItemUnit(t) == s[0] && ItemLength(t) == |HeadItem(s, paired, mode)| && t[0] != QUOTE
      && t[|HeadItem(s, paired, mode)|..] == Escape(s[1..], TailPaired(s, paired), mode) + rest
  {
    EscapeCons(s, paired, mode, rest);
    var tail := Escape(s[1..], TailPaired(s, paired), mode) + rest;
    if paired || (High(s[0]) && |s| > 1 && Low(s[1])) {
      ItemReadsBack(s[0], false, mode, tail);
    } else {
      ItemReadsBack(s[0], High(s[0]) || Low(s[0]), mode, tail);
    }
  }

  /** The first unit after the opening quote tells whether the string is empty. */
  lemma {:induction false} EscapeEmpty(s: Text, paired: bool, mode: Mode, rest: Text)
    requires rest != [] && rest[0] == QUOTE
    ensures (Escape(s, paired, mode) + rest)[0] == QUOTE <==> s == []
  {
    if s == [] {
      assert Escape(s, paired, mode) + rest == rest;
    } else {
      HeadReadsBack(s, paired, mode, rest);
    }
  }

  /** A printed string ends where its closing quote stands, and determines the string. */
  lemma {:induction false} EscapeInjective(s: Text, t: Text, p: bool, p': bool, mode: Mode, r: Text, q: Text)
    requires r != [] && r[0] == QUOTE && q != [] && q[0] == QUOTE
    requires Escape(s, p, mode) + r == Escape(t, p', mode) + q
    ensures s == t && r == q
    decreases |s|
  {
    EscapeEmpty(s, p, mode, r);
    EscapeEmpty(t, p', mode, q);
    if s == [] {
      assert [] + r == r && [] + q == q;
    } else {
      HeadReadsBack(s, p, mode, r);
      HeadReadsBack(t, p', mode, q);
      EscapeInjective(s[1..], t[1..], TailPaired(s, p), TailPaired(t, p'), mode, r, q);
      assert s == [s[0]] + s[1..] && t == [t[0]] + t[1..];
    }
  }

  lemma {:induction false} QuoteInjective(s: Text, t: Text, mode: Mode, r: Text, q: Text)
    requires Quote(s, mode) + r == Quote(t, mode) + q
    ensures s == t && r == q
  {
    var x, y := [QUOTE] + r, [QUOTE] + q;
    assert (Quote(s, mode) + r)[1..] == Escape(s, false, mode) + x;
    assert (Quote(t, mode) + q)[1..] == Escape(t, false, mode) + y;
    EscapeInjective(s, t, false, false, mode, x, y);
    assert x[1..] == r && y[1..] == q;
  }

  // ----- Trees -----

  function Render(v: Json, mode: Mode): Text
    decreases v, 1
  {
    match v
    case Null => NULL
    case Bool(b) => if b then TRUE else FALSE
    case Num(n) => Decimal(n)
    case Frac(_) => []
    case Str(s) => Quote(s, mode)
    case Arr(items) => [OPEN_BRACKET] + RenderItems(items, mode) + [CLOSE_BRACKET]
    case Obj(members) => [OPEN_BRACE] + RenderMembers(members, mode) + [CLOSE_BRACE]
  }

  /** The items of an array, joined by commas. */
  function RenderItems(items: seq<Json>, mode: Mode): Text
    decreases items, 0
  {
    if items == [] then []
    else if |items| == 1 then Render(items[0], mode)
    else Render(items[0], mode) + [COMMA] + RenderItems(items[1..], mode)
  }

  function RenderMember(m: Member, mode: Mode): Text
    decreases m, 2
  {
    Quote(m.key, mode) + [COLON] + Render(m.value, mode)
  }

  function RenderMembers(members: seq<Member>, mode: Mode): Text
    decreases members, 0
  {
    if members == [] then []
    else if |members| == 1 then RenderMember(members[0], mode)
    else RenderMember(members[0], mode) + [COMMA] + RenderMembers(members[1..], mode)
  }

  /** Trees whose every number is an integer. */
  predicate Integral(v: Json)
    decreases v
  {
    && !v.Frac?
    && (v.Arr? ==> forall i :: 0 <= i < |v.items| ==> Integral(v.items[i]))
    && (v.Obj? ==> forall i :: 0 <= i < |v.members| ==> Integral(v.members[i].value))
  }

  datatype Kind = NullKind | TrueKind | FalseKind | NumKind | StrKind | ArrKind | ObjKind | NoKind

  function KindOf(v: Json): Kind {
    match v
    case Null => NullKind
    case Bool(b) => if b then TrueKind else FalseKind
    case Num(_) => NumKind
    case Frac(_) => NoKind
    case Str(_) => StrKind
    case Arr(_) => ArrKind
    case Obj(_) => ObjKind
  }

  /** The kind of tree a text begins, by its first unit. */
  function KindAt(u: CodeUnit): Kind {
    if u == 0x6E then NullKind
    else if u == 0x74 then TrueKind
    else if u == 0x66 then FalseKind
    else if u == MINUS || Digit(u) then NumKind
    else if u == QUOTE then StrKind
    else if u == OPEN_BRACKET then ArrKind
    else if u == OPEN_BRACE then ObjKind
    else NoKind
  }

  lemma {:induction false} RenderStarts(v: Json, mode: Mode)
    requires Integral(v)
    ensures Render(v, mode) != [] && KindAt(Render(v, mode)[0]) == KindOf(v) != NoKind
  {
    match v
    case Num(n) => DecimalStarts(n);
    case _ =>
  }

  /** A printed tree followed by anything that does not continue a number
      determines the tree and what follows: printing is injective and prefix-free. */
  lemma {:induction false} RenderInjective(v: Json, w: Json, mode: Mode, r: Text, q: Text)
    requires Integral(v) && Integral(w) && Terminated(r) && Terminated(q)
    requires Render(v, mode) + r == Render(w, mode) + q
    ensures v == w && r == q
    decreases v, 1
  {
    RenderStarts(v, mode);
    RenderStarts(w, mode);
    assert (Render(v, mode) + r)[0] == Render(v, mode)[0] && (Render(w, mode) + q)[0] == Render(w, mode)[0];
    assert KindOf(v) == KindOf(w);
    match v
    case Null => SplitAt(NULL, NULL, r, q);
    case Bool(x) => SplitAt(Render(v, mode), Render(w, mode), r, q);
    case Num(n) => DecimalInjective(n, w.n, r, q);
    case Frac(_) =>
    case Str(s) => QuoteInjective(s, w.s, mode, r, q);
    case Arr(items) =>
      Inside(OPEN_BRACKET, RenderItems(items, mode), CLOSE_BRACKET, r);
      Inside(OPEN_BRACKET, RenderItems(w.items, mode), CLOSE_BRACKET, q);
      ItemsInjective(items, w.items, mode, r, q);
    case Obj(members) =>
      Inside(OPEN_BRACE, RenderMembers(members, mode), CLOSE_BRACE, r);
      Inside(OPEN_BRACE, RenderMembers(w.members, mode), CLOSE_BRACE, q);
      MembersInjective(members, w.members, mode, r, q);
  }

  lemma {:induction false} Inside(open: CodeUnit, body: Text, close: CodeUnit, r: Text)
    ensures ([open] + body + [close] + r)[1..] == body + ([close] + r)
  {
  }

  /** What follows an item: a comma and the rest, or the closing bracket. */
  function AfterItem(items: seq<Json>, mode: Mode, close: Text): Text
    requires items != []
  {
    if |items| == 1 then close else [COMMA] + RenderItems(items[1..], mode) + close
  }

  lemma {:induction false} ItemsCons(items: seq<Json>, mode: Mode, close: Text)
    requires items != []
    ensures RenderItems(items, mode) + close == Render(items[0], mode) + AfterItem(items, mode, close)
  {
  }

  lemma {:induction false} ItemsEmpty(items: seq<Json>, mode: Mode, close: Text)
    requires forall i :: 0 <= i < |items| ==> Integral(items[i])
    requires close != [] && close[0] == CLOSE_BRACKET
    ensures (RenderItems(items, mode) + close)[0] == CLOSE_BRACKET <==> items == []
  {
    if items == [] {
      assert RenderItems(items, mode) + close == close;
    } else {
      ItemsCons(items, mode, close);
      RenderStarts(items[0], mode);
    }
  }

  lemma {:induction false} AfterItemIs(items: seq<Json>, mode: Mode, close: Text)
    requires items != [] && close != [] && close[0] == CLOSE_BRACKET
    ensures var x := AfterItem(items, mode, close);
      x != [] && Terminated(x) && (x[0] == CLOSE_BRACKET <==> |items| == 1)
      && (|items| > 1 ==> x[1..] == RenderItems(items[1..], mode) + close)
  {
    if |items| > 1 { DropFirst(COMMA, RenderItems(items[1..], mode), close); }
  }

  lemma {:induction false} ItemsInjective(xs: seq<Json>, ys: seq<Json>, mode: Mode, r: Text, q: Text)
    requires forall i :: 0 <= i < |xs| ==> Integral(xs[i])
    requires forall i :: 0 <= i < |ys| ==> Integral(ys[i])
    requires RenderItems(xs, mode) + ([CLOSE_BRACKET] + r) == RenderItems(ys, mode) + ([CLOSE_BRACKET] + q)
    ensures xs == ys && r == q
    decreases xs, 0
  {
    var c, d := [CLOSE_BRACKET] + r, [CLOSE_BRACKET] + q;
    ItemsEmpty(xs, mode, c);
    ItemsEmpty(ys, mode, d);
    if xs == [] {
      assert [] + c == c && [] + d == d;
      assert c[1..] == r && d[1..] == q;
    } else {
      ItemsCons(xs, mode, c);
      ItemsCons(ys, mode, d);
      AfterItemIs(xs, mode, c);
      AfterItemIs(ys, mode, d);
      RenderInjective(xs[0], ys[0], mode, AfterItem(xs, mode, c), AfterItem(ys, mode, d));
      if |xs| == 1 {
        assert c[1..] == r && d[1..] == q;
      } else {
        ItemsInjective(xs[1..], ys[1..], mode, r, q);
      }
      assert xs == [xs[0]] + xs[1..] && ys == [ys[0]] + ys[1..];
    }
  }

  function AfterMember(members: seq<Member>, mode: Mode, close: Text): Text
    requires members != []
  {
    if |members| == 1 then close else [COMMA] + RenderMembers(members[1..], mode) + close
  }

  lemma {:induction false} MembersCons(members: seq<Member>, mode: Mode, close: Text)
    requires members != []
    ensures RenderMembers(members, mode) + close
         == Quote(members[0].key, mode) + ([COLON] + (Render(members[0].value, mode) + AfterMember(members, mode, close)))
  {
    var k, v := Quote(members[0].key, mode), Render(members[0].value, mode);
    MemberThen(k, v, close);
    if |members| > 1 {
      MemberThen(k, v, [COMMA] + RenderMembers(members[1..], mode) + close);
      ThenRest(RenderMember(members[0], mode), RenderMembers(members[1..], mode), close);
    }
  }

  lemma {:induction false} MemberThen(k: Text, v: Text, rest: Text)
    ensures k + [COLON] + v + rest == k + ([COLON] + (v + rest))
  {
  }

  lemma {:induction false} ThenRest(m: Text, more: Text, close: Text)
    ensures m + [COMMA] + more + close == m + ([COMMA] + more + close)
  {
  }

  lemma {:induction false} MembersEmpty(members: seq<Member>, mode: Mode, close: Text)
    requires close != [] && close[0] == CLOSE_BRACE
    ensures (RenderMembers(members, mode) + close)[0] == CLOSE_BRACE <==> members == []
  {
    if members == [] {
      assert RenderMembers(members, mode) + close == close;
    } else {
      MembersCons(members, mode, close);
    }
  }

  lemma {:induction false} AfterMemberIs(members: seq<Member>, mode: Mode, close: Text)
    requires members != [] && close != [] && close[0] == CLOSE_BRACE
    ensures var x := AfterMember(members, mode, close);
      x != [] && Terminated(x) && (x[0] == CLOSE_BRACE <==> |members| == 1)
      && (|members| > 1 ==> x[1..] == RenderMembers(members[1..], mode) + close)
  {
    if |members| > 1 { DropFirst(COMMA, RenderMembers(members[1..], mode), close); }
  }

  lemma {:induction false} MembersInjective(xs: seq<Member>, ys: seq<Member>, mode: Mode, r: Text, q: Text)
    requires forall i :: 0 <= i < |xs| ==> Integral(xs[i].value)
    requires forall i :: 0 <= i < |ys| ==> Integral(ys[i].value)
    requires RenderMembers(xs, mode) + ([CLOSE_BRACE] + r) == RenderMembers(ys, mode) + ([CLOSE_BRACE] + q)
    ensures xs == ys && r == q
    decreases xs, 0
  {
    var c, d := [CLOSE_BRACE] + r, [CLOSE_BRACE] + q;
    MembersEmpty(xs, mode, c);
    MembersEmpty(ys, mode, d);
    if xs == [] {
      assert [] + c == c && [] + d == d;
      assert c[1..] == r && d[1..] == q;
    } else {
      MembersCons(xs, mode, c);
      MembersCons(ys, mode, d);
      AfterMemberIs(xs, mode, c);
      AfterMemberIs(ys, mode, d);
      FirstMember(xs[0], ys[0], mode, AfterMember(xs, mode, c), AfterMember(ys, mode, d));
      if |xs| == 1 {
        assert c[1..] == r && d[1..] == q;
      } else {
        MembersInjective(xs[1..], ys[1..], mode, r, q);
      }
      assert xs == [xs[0]] + xs[1..] && ys == [ys[0]] + ys[1..];
    }
  }

  lemma {:induction false} FirstMember(m: Member, n: Member, mode: Mode, x: Text, y: Text)
    requires Integral(m.value) && Integral(n.value) && Terminated(x) && Terminated(y)
    requires Quote(m.key, mode) + ([COLON] + (Render(m.value, mode) + x)) == Quote(n.key, mode) + ([COLON] + (Render(n.value, mode) + y))
    ensures m == n && x == y
    decreases m, 2
  {
    var vx, vy := Render(m.value, mode) + x, Render(n.value, mode) + y;
    QuoteInjective(m.key, n.key, mode, [COLON] + vx, [COLON] + vy);
    assert ([COLON] + vx)[1..] == vx && ([COLON] + vy)[1..] == vy;
    RenderInjective(m.value, n.value, mode, x, y);
  }

  /** Two trees with the same printed text are the same tree. */
  lemma {:induction false} SameTextSameTree(v: Json, w: Json, mode: Mode)
    requires Integral(v) && Integral(w)
    ensures Render(v, mode) == Render(w, mode) <==> v == w
  {
    if Render(v, mode) == Render(w, mode) {
      RenderInjective(v, w, mode, [], []);
    }
  }
}
