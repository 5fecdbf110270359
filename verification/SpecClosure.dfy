/** Which modules a TLA+ source names. */
module ModuleReferences {
  import opened JsonText

  const STAR: CodeUnit := 0x2A
  const OPEN: CodeUnit := 0x28
  const CLOSE: CodeUnit := 0x29
  const NEWLINE: CodeUnit := 0x0A

  const EXTENDS: Text := Ascii("EXTENDS")
  const INSTANCE: Text := Ascii("INSTANCE")
  const COMMA_TOKEN: Text := [COMMA]

  /** Modules provided by TLA+ itself, which are never looked up as files. */
  const BUILTINS: seq<Text> := [Ascii("Naturals"), Ascii("Integers"), Ascii("Reals"), Ascii("Sequences"),
    Ascii("FiniteSets"), Ascii("TLC"), Ascii("Bags"), Ascii("Apalache")]

  predicate Starts(t: Text, a: CodeUnit, b: CodeUnit) {
    |t| >= 2 && t[0] == a && t[1] == b
  }

  predicate WordStart(u: CodeUnit) { 0x41 <= u <= 0x5A || 0x61 <= u <= 0x7A || u == 0x5F }

  predicate WordUnit(u: CodeUnit) { WordStart(u) || Digit(u) }

  // ----- Tokens -----

  /** What follows a block comment nested `depth` deep; nothing if it does not end. */
  function AfterBlock(t: Text, depth: nat): (r: Text)
    ensures |r| <= |t|
    decreases |t|
  {
    if t == [] || depth == 0 then t
    else if Starts(t, OPEN, STAR) then AfterBlock(t[2..], depth + 1)
    else if Starts(t, STAR, CLOSE) then AfterBlock(t[2..], depth - 1)
    else AfterBlock(t[1..], depth)
  }

  /** From the end of the line on. */
  function AfterLine(t: Text): (r: Text)
    ensures |r| <= |t|
  {
    if t == [] || t[0] == NEWLINE then t else AfterLine(t[1..])
  }

  /** What follows the rest of a string. */
  function AfterString(t: Text): (r: Text)
    ensures |r| <= |t|
    decreases |t|
  {
    if t == [] then []
    else if t[0] == BACKSLASH then (if |t| >= 2 then AfterString(t[2..]) else [])
    else if t[0] == QUOTE then t[1..]
    else AfterString(t[1..])
  }

  function WordSpan(t: Text): (n: nat)
    ensures n <= |t|
  {
    if t == [] || !WordUnit(t[0]) then 0 else 1 + WordSpan(t[1..])
  }

  /** Identifiers and commas outside comments and strings. */
  function Tokens(t: Text): seq<Text>
    decreases |t|
  {
    if t == [] then []
    else if Starts(t, BACKSLASH, STAR) then Tokens(AfterLine(t[2..]))
    else if Starts(t, OPEN, STAR) then Tokens(AfterBlock(t[2..], 1))
    else if t[0] == QUOTE then Tokens(AfterString(t[1..]))
    else if t[0] == COMMA then [COMMA_TOKEN] + Tokens(t[1..])
    else if WordStart(t[0]) then
      var n := 1 + WordSpan(t[1..]);
      [t[..n]] + Tokens(t[n..])
    else Tokens(t[1..])
  }

  /** The tokens still to come, inside a comment or not. */
  function Remaining(t: Text, blockDepth: nat): seq<Text> {
    Tokens(AfterBlock(t, blockDepth))
  }

  lemma {:induction false} Prepend(out: seq<Text>, token: Text, rest: seq<Text>)
    ensures out + ([token] + rest) == out + [token] + rest
  {
  }

  lemma {:induction false} DropTwice<T>(s: seq<T>, i: nat, j: nat)
    requires i + j <= |s|
    ensures s[i..][j..] == s[i + j..]
  {
  }

  /** The tokens found so far and those still to come. */
  function Scanned(out: seq<Text>, source: Text, i: nat, blockDepth: nat): seq<Text>
    requires i <= |source|
  {
    out + Remaining(source[i..], blockDepth)
  }

  /** `dependencyTokens`: one scan with an index and the depth of the comment. */
  method DependencyTokens(source: Text) returns (out: seq<Text>)
    ensures out == Tokens(source)
  {
    out := [];
    var i, blockDepth := 0, 0;
    ScannedAtEnds(out, source, blockDepth);
    while i < |source|
      invariant 0 <= i <= |source| && Scanned(out, source, i, blockDepth) == Tokens(source)
      decreases |source| - i
    {
      if blockDepth > 0 {
        BlockStep(out, source, i, blockDepth);
        if Starts(source[i..], OPEN, STAR) {
          i, blockDepth := i + 2, blockDepth + 1;
        } else if Starts(source[i..], STAR, CLOSE) {
          i, blockDepth := i + 2, blockDepth - 1;
        } else {
          i := i + 1;
        }
      } else {
        out, i, blockDepth := OutsideComment(out, source, i);
      }
    }
    ScannedAtEnds(out, source, blockDepth);
  }

  /** One round of the scan outside a block comment. */
  method OutsideComment(out: seq<Text>, source: Text, i: nat) returns (more: seq<Text>, next: nat, blockDepth: nat)
    requires i < |source|
    ensures i < next <= |source| && Scanned(more, source, next, blockDepth) == Scanned(out, source, i, 0)
  {
    more, blockDepth := out, 0;
    if Starts(source[i..], BACKSLASH, STAR) {
      next := EndOfLine(source, i + 2);
      LineStep(out, source, i, next);
    } else if Starts(source[i..], OPEN, STAR) {
      OpenStep(out, source, i);
      next, blockDepth := i + 2, 1;
    } else if source[i] == QUOTE {
      next := EndOfString(source, i + 1);
      StringStep(out, source, i, next);
    } else if source[i] == COMMA {
      CommaStep(out, source, i);
      more, next := out + [COMMA_TOKEN], i + 1;
    } else if WordStart(source[i]) {
      next := EndOfWord(source, i + 1);
      WordStep(out, source, i);
      more := out + [source[i..next]];
    } else {
      SkipStep(out, source, i);
      next := i + 1;
    }
  }

  lemma {:induction false} ScannedAtEnds(out: seq<Text>, source: Text, blockDepth: nat)
    ensures Scanned([], source, 0, 0) == Tokens(source) && Scanned(out, source, |source|, blockDepth) == out
  {
    assert source[0..] == source && [] + Tokens(source) == Tokens(source);
    assert source[|source|..] == [] && out + [] == out;
  }

  lemma {:induction false} BlockStep(out: seq<Text>, source: Text, i: nat, blockDepth: nat)
    requires i < |source| && blockDepth > 0
    ensures Starts(source[i..], OPEN, STAR) ==> Scanned(out, source, i, blockDepth) == Scanned(out, source, i + 2, blockDepth + 1)
    ensures Starts(source[i..], STAR, CLOSE) ==> Scanned(out, source, i, blockDepth) == Scanned(out, source, i + 2, blockDepth - 1)
    ensures !Starts(source[i..], OPEN, STAR) && !Starts(source[i..], STAR, CLOSE) ==>
      Scanned(out, source, i, blockDepth) == Scanned(out, source, i + 1, blockDepth)
  {
    DropTwice(source, i, 1);
    if i + 2 <= |source| { DropTwice(source, i, 2); }
  }

  lemma {:induction false} LineStep(out: seq<Text>, source: Text, i: nat, end: nat)
    requires i < |source| && Starts(source[i..], BACKSLASH, STAR)
    requires end <= |source| && source[end..] == AfterLine(source[i + 2..])
    ensures Scanned(out, source, i, 0) == Scanned(out, source, end, 0)
  {
    DropTwice(source, i, 2);
  }

  lemma {:induction false} OpenStep(out: seq<Text>, source: Text, i: nat)
    requires i < |source| && Starts(source[i..], OPEN, STAR) && !Starts(source[i..], BACKSLASH, STAR)
    ensures Scanned(out, source, i, 0) == Scanned(out, source, i + 2, 1)
  {
    DropTwice(source, i, 2);
  }

  lemma {:induction false} StringStep(out: seq<Text>, source: Text, i: nat, end: nat)
    requires i < |source| && source[i] == QUOTE
    requires end <= |source| && source[end..] == AfterString(source[i + 1..])
    ensures Scanned(out, source, i, 0) == Scanned(out, source, end, 0)
  {
    DropTwice(source, i, 1);
  }

  lemma {:induction false} SkipStep(out: seq<Text>, source: Text, i: nat)
    requires i < |source| && !WordStart(source[i]) && source[i] != COMMA && source[i] != QUOTE
    requires !Starts(source[i..], BACKSLASH, STAR) && !Starts(source[i..], OPEN, STAR)
    ensures Scanned(out, source, i, 0) == Scanned(out, source, i + 1, 0)
  {
    DropTwice(source, i, 1);
  }

  lemma {:induction false} CommaStep(out: seq<Text>, source: Text, i: nat)
    requires i < |source| && source[i] == COMMA
    ensures Scanned(out, source, i, 0) == Scanned(out + [COMMA_TOKEN], source, i + 1, 0)
  {
    DropTwice(source, i, 1);
    Prepend(out, COMMA_TOKEN, Tokens(source[i + 1..]));
  }

  lemma {:induction false} WordStep(out: seq<Text>, source: Text, i: nat)
    requires i < |source| && WordStart(source[i])
    ensures var end := i + 1 + WordSpan(source[i + 1..]);
      Scanned(out, source, i, 0) == Scanned(out + [source[i..end]], source, end, 0)
  {
    var t := source[i..];
    var n := 1 + WordSpan(source[i + 1..]);
    DropTwice(source, i, 1);
    DropTwice(source, i, n);
    assert source[i..i + n] == t[..n];
    Prepend(out, t[..n], Tokens(t[n..]));
  }

  method EndOfLine(source: Text, from: nat) returns (i: nat)
    requires from <= |source|
    ensures from <= i <= |source| && source[i..] == AfterLine(source[from..])
  {
    i := from;
    while i < |source| && source[i] != NEWLINE
      invariant from <= i <= |source| && AfterLine(source[i..]) == AfterLine(source[from..])
    {
      DropTwice(source, i, 1);
      i := i + 1;
    }
  }

  method EndOfString(source: Text, from: nat) returns (i: nat)
    requires from <= |source|
    ensures from <= i <= |source| && source[i..] == AfterString(source[from..])
  {
    i := from;
    while i < |source|
      invariant from <= i <= |source| && AfterString(source[i..]) == AfterString(source[from..])
    {
      DropTwice(source, i, 1);
      if source[i] == BACKSLASH {
        if i + 2 > |source| { return |source|; }
        DropTwice(source, i, 2);
        i := i + 2;
      } else if source[i] == QUOTE {
        return i + 1;
      } else {
        i := i + 1;
      }
    }
  }

  method EndOfWord(source: Text, from: nat) returns (i: nat)
    requires from <= |source|
    ensures from <= i <= |source| && i == from + WordSpan(source[from..])
  {
    i := from;
    while i < |source| && WordUnit(source[i])
      invariant from <= i <= |source| && i + WordSpan(source[i..]) == from + WordSpan(source[from..])
    {
      DropTwice(source, i, 1);
      i := i + 1;
    }
  }

  /** A comment that ends contributes no token, whatever is in it. */
  lemma {:induction false} CommentIsSkipped(body: Text, depth: nat, rest: Text)
    requires Closes(body, depth)
    ensures AfterBlock(body + rest, depth) == rest
    decreases |body|
  {
    if depth > 0 {
      var t := body + rest;
      if Starts(body, OPEN, STAR) {
        assert Starts(t, OPEN, STAR) && t[2..] == body[2..] + rest;
        CommentIsSkipped(body[2..], depth + 1, rest);
      } else if Starts(body, STAR, CLOSE) {
        assert Starts(t, STAR, CLOSE) && t[2..] == body[2..] + rest;
        CommentIsSkipped(body[2..], depth - 1, rest);
      } else {
        assert |body| >= 2 && t[0] == body[0] && t[1] == body[1] && t[1..] == body[1..] + rest;
        CommentIsSkipped(body[1..], depth, rest);
      }
    } else {
      assert body + rest == rest;
    }
  }

  /** The text closes exactly `depth` open comments, and nothing follows the last. */
  predicate Closes(body: Text, depth: nat)
    decreases |body|
  {
    if depth == 0 then body == []
    else if Starts(body, OPEN, STAR) then Closes(body[2..], depth + 1)
    else if Starts(body, STAR, CLOSE) then Closes(body[2..], depth - 1)
    else |body| >= 2 && Closes(body[1..], depth)
  }

  // ----- References -----

  /** The names after the first of an EXTENDS clause: comma and name, again and again. */
  function MoreNames(tokens: seq<Text>): (n: nat)
    ensures 2 * n <= |tokens|
  {
    if |tokens| >= 2 && tokens[0] == COMMA_TOKEN && tokens[1] != COMMA_TOKEN then 1 + MoreNames(tokens[2..]) else 0
  }

  function EveryOther(tokens: seq<Text>, n: nat): seq<Text>
    requires 2 * n <= |tokens|
  {
    if n == 0 then [] else [tokens[1]] + EveryOther(tokens[2..], n - 1)
  }

  /** The names in EXTENDS clauses and after INSTANCE, in order. */
  function References(tokens: seq<Text>): seq<Text>
    decreases |tokens|
  {
    if tokens == [] then []
    else if tokens[0] == EXTENDS && |tokens| >= 2 && tokens[1] != COMMA_TOKEN then
      var n := MoreNames(tokens[2..]);
      [tokens[1]] + EveryOther(tokens[2..], n) + References(tokens[2 + 2 * n..])
    else if tokens[0] == INSTANCE && |tokens| >= 2 then [tokens[1]] + References(tokens[2..])
    else References(tokens[1..])
  }

  /** The names that are not builtin modules. */
  function Keep(names: seq<Text>): (r: seq<Text>)
    ensures forall n :: n in r <==> n in names && n !in BUILTINS
  {
    if names == [] then []
    else if names[0] in BUILTINS then Keep(names[1..])
    else [names[0]] + Keep(names[1..])
  }

  /** The modules a source depends on. */
  function Imports(source: Text): seq<Text> {
    Keep(References(Tokens(source)))
  }

  /** The references found so far and those in the tokens still to be read. */
  function Found(refs: seq<Text>, tokens: seq<Text>, i: nat): seq<Text>
    requires i <= |tokens|
  {
    refs + References(tokens[i..])
  }

  /** `moduleRefs`: one pass over the tokens with an index. */
  method ModuleRefs(source: Text) returns (names: seq<Text>)
    ensures names == Imports(source)
  {
    var tokens := DependencyTokens(source);
    var refs: seq<Text> := [];
    var i := 0;
    FoundAtEnds(refs, tokens);
    while i < |tokens|
      invariant 0 <= i <= |tokens| && Found(refs, tokens, i) == References(tokens)
    {
      if tokens[i] == EXTENDS && i + 1 < |tokens| && tokens[i + 1] != COMMA_TOKEN {
        refs, i := Clause(refs, tokens, i);
      } else if tokens[i] == INSTANCE && i + 1 < |tokens| {
        InstanceStep(refs, tokens, i);
        refs := refs + [tokens[i + 1]];
        i := i + 2;
      } else {
        OtherStep(refs, tokens, i);
        i := i + 1;
      }
    }
    FoundAtEnds(refs, tokens);
    names := Keep(refs);
  }

  /** One EXTENDS clause. */
  method Clause(refs: seq<Text>, tokens: seq<Text>, i: nat) returns (more: seq<Text>, end: nat)
    requires i + 1 < |tokens| && tokens[i] == EXTENDS && tokens[i + 1] != COMMA_TOKEN
    ensures i < end <= |tokens| && Found(more, tokens, end) == Found(refs, tokens, i)
  {
    var names;
    names, end := ContinuedNames(tokens, i + 2);
    ExtendsStep(refs, tokens, i);
    more := refs + ([tokens[i + 1]] + names);
  }

  lemma {:induction false} FoundAtEnds(refs: seq<Text>, tokens: seq<Text>)
    ensures Found([], tokens, 0) == References(tokens) && Found(refs, tokens, |tokens|) == refs
  {
    assert tokens[0..] == tokens && [] + References(tokens) == References(tokens);
    assert tokens[|tokens|..] == [] && refs + [] == refs;
  }

  lemma {:induction false} ExtendsStep(refs: seq<Text>, tokens: seq<Text>, i: nat)
    requires i + 1 < |tokens| && tokens[i] == EXTENDS && tokens[i + 1] != COMMA_TOKEN
    ensures var n := MoreNames(tokens[i + 2..]);
      Found(refs, tokens, i) == Found(refs + ([tokens[i + 1]] + EveryOther(tokens[i + 2..], n)), tokens, i + 2 + 2 * n)
  {
    var n := MoreNames(tokens[i + 2..]);
    DropTwice(tokens, i, 2);
    DropTwice(tokens, i, 2 + 2 * n);
    PrependAll(refs, [tokens[i + 1]], EveryOther(tokens[i + 2..], n), References(tokens[i + 2 + 2 * n..]));
  }

  lemma {:induction false} InstanceStep(refs: seq<Text>, tokens: seq<Text>, i: nat)
    requires i + 1 < |tokens| && tokens[i] == INSTANCE && tokens[i] != EXTENDS
    ensures Found(refs, tokens, i) == Found(refs + [tokens[i + 1]], tokens, i + 2)
  {
    DropTwice(tokens, i, 2);
    Prepend(refs, tokens[i + 1], References(tokens[i + 2..]));
  }

  lemma {:induction false} OtherStep(refs: seq<Text>, tokens: seq<Text>, i: nat)
    requires i < |tokens|
    requires i + 1 < |tokens| ==> !(tokens[i] == EXTENDS && tokens[i + 1] != COMMA_TOKEN) && tokens[i] != INSTANCE
    ensures Found(refs, tokens, i) == Found(refs, tokens, i + 1)
  {
    DropTwice(tokens, i, 1);
  }

  lemma {:induction false} PrependAll(out: seq<Text>, a: seq<Text>, b: seq<Text>, rest: seq<Text>)
    ensures out + (a + b + rest) == out + (a + b) + rest
  {
  }

  method ContinuedNames(tokens: seq<Text>, from: nat) returns (names: seq<Text>, end: nat)
    requires from <= |tokens|
    ensures end == from + 2 * MoreNames(tokens[from..]) && end <= |tokens|
    ensures names == EveryOther(tokens[from..], MoreNames(tokens[from..]))
  {
    names, end := [], from;
    ghost var all := EveryOther(tokens[from..], MoreNames(tokens[from..]));
    assert [] + all == all;
    while end + 1 < |tokens| && tokens[end] == COMMA_TOKEN && tokens[end + 1] != COMMA_TOKEN
      invariant from <= end <= |tokens| && end + 2 * MoreNames(tokens[end..]) == from + 2 * MoreNames(tokens[from..])
      invariant names + EveryOther(tokens[end..], MoreNames(tokens[end..])) == all
    {
      DropTwice(tokens, end, 2);
      Prepend(names, tokens[end + 1], EveryOther(tokens[end + 2..], MoreNames(tokens[end + 2..])));
      names := names + [tokens[end + 1]];
      end := end + 2;
    }
    assert names + [] == names;
  }
}

/** The dependency closure of a root module. */
module SpecClosure {
  import opened Wrappers
  import opened JsonText
  import opened ModuleReferences

  /** `texts` holds the readable files; `lookups` lists the real paths of the existing
      candidates for a module name, as seen from an importer. */
  datatype Files<!Path> = Files(texts: map<Path, Text>, lookups: (Path, Text) -> seq<Path>)

  function Refs<Path(==)>(fs: Files<Path>, u: Path): seq<Text>
    requires u in fs.texts
  {
    Imports(fs.texts[u])
  }

  datatype Resolution<Path> = Unique(path: Path) | Missing | Ambiguous

  /** What a name stands for: the one file all its candidates lead to. */
  function Resolve<Path(==)>(fs: Files<Path>, importer: Path, name: Text): Resolution<Path> {
    var found := fs.lookups(importer, name);
    if found == [] then Missing
    else if forall i :: 0 <= i < |found| ==> found[i] == found[0] then Unique(found[0])
    else Ambiguous
  }

  /** One module imports another. */
  ghost predicate Edge<Path(!new)>(fs: Files<Path>, u: Path, v: Path) {
    u in fs.texts && exists i :: 0 <= i < |Refs(fs, u)| && Resolve(fs, u, Refs(fs, u)[i]) == Unique(v)
  }

  /** Each module of the list imports the next. */
  ghost predicate Chain<Path(!new)>(fs: Files<Path>, list: seq<Path>) {
    |list| >= 2 ==> Edge(fs, list[|list| - 2], list[|list| - 1]) && Chain(fs, list[..|list| - 1])
  }

  lemma {:induction false} Lengthened<Path(!new)>(fs: Files<Path>, list: seq<Path>, x: Path)
    ensures Chain(fs, list + [x]) <==> (list != [] ==> Edge(fs, list[|list| - 1], x) && Chain(fs, list))
  {
    assert (list + [x])[..|list|] == list;
  }

  ghost predicate Leads<Path(!new)>(fs: Files<Path>, list: seq<Path>, u: Path, v: Path) {
    list != [] && list[0] == u && list[|list| - 1] == v && Chain(fs, list)
  }

  ghost predicate Reaches<Path(!new)>(fs: Files<Path>, u: Path, v: Path) {
    exists list :: Leads(fs, list, u, v)
  }

  lemma {:induction false} ReachesSelf<Path(!new)>(fs: Files<Path>, u: Path)
    ensures Reaches(fs, u, u)
  {
    assert Leads(fs, [u], u, u);
  }

  lemma {:induction false} ReachesMore<Path(!new)>(fs: Files<Path>, u: Path, v: Path, x: Path)
    requires Reaches(fs, u, v) && Edge(fs, v, x)
    ensures Reaches(fs, u, x)
  {
    var list :| Leads(fs, list, u, v);
    Lengthened(fs, list, x);
    assert Leads(fs, list + [x], u, x);
  }

  /** A readable module all of whose names resolve. */
  predicate Readable<Path(==, !new)>(fs: Files<Path>, u: Path) {
    u in fs.texts && forall i :: 0 <= i < |Refs(fs, u)| ==> Resolve(fs, u, Refs(fs, u)[i]).Unique?
  }

  /** Why a closure cannot be had: a reachable module that is not readable, or more
      reachable modules than are allowed. */
  ghost predicate Unfit<Path(!new)>(fs: Files<Path>, root: Path, max: Option<nat>) {
    || (exists u :: Reaches(fs, root, u) && !Readable(fs, u))
    || (max.Some? && exists s: set<Path> :: |s| > max.value && AllReachable(fs, root, s))
  }

  ghost predicate AllReachable<Path(!new)>(fs: Files<Path>, root: Path, s: set<Path>) {
    forall u :: u in s ==> Reaches(fs, root, u)
  }

  lemma {:induction false} ClosedHolds<Path(!new)>(fs: Files<Path>, closed: set<Path>, list: seq<Path>)
    requires Chain(fs, list) && list != [] && list[0] in closed && ImportClosed(fs, closed)
    ensures list[|list| - 1] in closed
  {
    if |list| > 1 { ClosedHolds(fs, closed, list[..|list| - 1]); }
  }

  ghost predicate ImportClosed<Path(!new)>(fs: Files<Path>, closed: set<Path>) {
    forall u, v :: u in closed && Edge(fs, u, v) ==> v in closed
  }

  lemma {:induction false} ClosedIsReachable<Path(!new)>(fs: Files<Path>, root: Path, closed: set<Path>)
    requires root in closed && AllReachable(fs, root, closed) && ImportClosed(fs, closed)
    ensures forall u :: u in closed <==> Reaches(fs, root, u)
  {
    forall u | Reaches(fs, root, u) ensures u in closed {
      var list :| Leads(fs, list, root, u);
      ClosedHolds(fs, closed, list);
    }
  }

  lemma {:induction false} FitClosure<Path(!new)>(fs: Files<Path>, root: Path, max: Option<nat>, closed: set<Path>)
    requires forall u :: u in closed <==> Reaches(fs, root, u)
    requires (forall u :: u in closed ==> Readable(fs, u)) && (max.Some? ==> |closed| <= max.value)
    ensures !Unfit(fs, root, max)
  {
    if s: set<Path> :| max.Some? && |s| > max.value && AllReachable(fs, root, s) {
      assert s <= closed;
      Subset(s, closed);
    }
  }

  ghost predicate DistinctPaths<T>(xs: seq<T>) {
    forall i, j :: 0 <= i < j < |xs| ==> xs[i] != xs[j]
  }

  /** A finished module: all it imports has been visited, and each import comes before
      it in the order unless the two depend on each other. */
  ghost predicate Settled<Path(!new)>(fs: Files<Path>, visited: set<Path>, order: seq<Path>, i: nat)
    requires i < |order|
  {
    Readable(fs, order[i]) && forall v :: Edge(fs, order[i], v) ==> v in visited && (v in order[..i] || Reaches(fs, v, order[i]))
  }

  /** A readable module all of whose imports have been visited. */
  ghost predicate Covered<Path(!new)>(fs: Files<Path>, abs: Path, visited: set<Path>) {
    Readable(fs, abs) && forall v :: Edge(fs, abs, v) ==> v in visited
  }

  ghost predicate AllSettled<Path(!new)>(fs: Files<Path>, visited: set<Path>, order: seq<Path>) {
    forall i :: 0 <= i < |order| ==> Settled(fs, visited, order, i)
  }

  /** Every visited module is either finished, once, or under way. */
  ghost predicate Sorted<Path(!new)>(visited: set<Path>, deps: seq<Path>, stack: seq<Path>) {
    && DistinctPaths(deps)
    && (forall u :: u in visited <==> u in deps || u in stack)
    && (forall u :: u in deps ==> u !in stack)
  }

  ghost predicate Bounded<Path(!new)>(fs: Files<Path>, root: Path, max: Option<nat>, visited: set<Path>) {
    AllReachable(fs, root, visited) && (max.Some? ==> |visited| <= max.value)
  }

  ghost predicate Exploring<Path(!new)>(fs: Files<Path>, root: Path, max: Option<nat>, visited: set<Path>, deps: seq<Path>, stack: seq<Path>) {
    && Sorted(visited, deps, stack) && Chain(fs, stack) && Bounded(fs, root, max, visited) && AllSettled(fs, visited, deps)
    && AllOwned(fs, deps, stack)
  }

  /** Something that imports the module is under way or finished after it. */
  ghost predicate Owned<Path(!new)>(fs: Files<Path>, order: seq<Path>, stack: seq<Path>, i: nat)
    requires i < |order|
  {
    exists u :: Edge(fs, u, order[i]) && (u in stack || u in order[i + 1..])
  }

  ghost predicate AllOwned<Path(!new)>(fs: Files<Path>, order: seq<Path>, stack: seq<Path>) {
    forall i :: 0 <= i < |order| ==> Owned(fs, order, stack, i)
  }

  lemma {:induction false} OwnedMore<Path(!new)>(fs: Files<Path>, order: seq<Path>, stack: seq<Path>, more: seq<Path>, tail: seq<Path>, i: nat)
    requires i < |order| && Owned(fs, order, stack, i)
    requires forall u :: u in stack ==> u in more || u in tail
    ensures Owned(fs, order + tail, more, i)
  {
    assert (order + tail)[i + 1..] == order[i + 1..] + tail;
    assert (order + tail)[i] == order[i];
  }

  /** Another module is under way. */
  lemma {:induction false} OwnedEntered<Path(!new)>(fs: Files<Path>, deps: seq<Path>, stack: seq<Path>, abs: Path)
    requires AllOwned(fs, deps, stack)
    ensures AllOwned(fs, deps, stack + [abs])
  {
    forall i | 0 <= i < |deps| ensures Owned(fs, deps, stack + [abs], i) {
      OwnedMore(fs, deps, stack, stack + [abs], [], i);
      assert deps + [] == deps;
    }
  }

  /** The module on top of the stack is finished. */
  lemma {:induction false} OwnedFinished<Path(!new)>(fs: Files<Path>, deps: seq<Path>, stack: seq<Path>, abs: Path)
    requires AllOwned(fs, deps, stack + [abs]) && stack != [] && Edge(fs, stack[|stack| - 1], abs)
    ensures AllOwned(fs, deps + [abs], stack)
  {
    forall i | 0 <= i < |deps + [abs]| ensures Owned(fs, deps + [abs], stack, i) {
      if i < |deps| {
        OwnedMore(fs, deps, stack + [abs], stack, [abs], i);
      } else {
        assert stack[|stack| - 1] in stack;
      }
    }
  }

  lemma {:induction false} StackReaches<Path(!new)>(fs: Files<Path>, stack: seq<Path>, v: Path)
    requires Chain(fs, stack) && v in stack
    ensures Reaches(fs, v, stack[|stack| - 1])
  {
    var n := |stack|;
    if v == stack[n - 1] {
      ReachesSelf(fs, v);
    } else {
      StackReaches(fs, stack[..n - 1], v);
      ReachesMore(fs, v, stack[n - 2], stack[n - 1]);
    }
  }

  /** A settled module stays settled while more modules are visited and finished. */
  lemma {:induction false} StillSettled<Path(!new)>(fs: Files<Path>, visited: set<Path>, more: set<Path>, order: seq<Path>, tail: seq<Path>)
    requires AllSettled(fs, visited, order) && visited <= more
    ensures forall i :: 0 <= i < |order| ==> Settled(fs, more, order + tail, i)
  {
    forall i | 0 <= i < |order| ensures Settled(fs, more, order + tail, i) {
      assert Settled(fs, visited, order, i);
      assert (order + tail)[..i] == order[..i] && (order + tail)[i] == order[i];
    }
  }

  /** Finishing the module on top of the stack. */
  lemma {:induction false} Finishes<Path(!new)>(fs: Files<Path>, visited: set<Path>, deps: seq<Path>, stack: seq<Path>, abs: Path)
    requires AllSettled(fs, visited, deps) && Sorted(visited, deps, stack + [abs]) && Chain(fs, stack + [abs])
    requires Covered(fs, abs, visited)
    ensures AllSettled(fs, visited, deps + [abs])
  {
    var order, full := deps + [abs], stack + [abs];
    StillSettled(fs, visited, visited, deps, [abs]);
    forall v | Edge(fs, abs, v) ensures v in deps || Reaches(fs, v, abs) {
      if v !in deps { StackReaches(fs, full, v); }
    }
    assert order[..|deps|] == deps;
    assert Settled(fs, visited, order, |deps|);
  }

  lemma {:induction false} Moved<Path(!new)>(visited: set<Path>, deps: seq<Path>, stack: seq<Path>, abs: Path)
    requires Sorted(visited, deps, stack + [abs]) && abs !in stack
    ensures Sorted(visited, deps + [abs], stack)
  {
    var order := deps + [abs];
    assert abs in stack + [abs];
    assert abs !in deps;
    assert forall u :: u in order <==> u in deps || u == abs;
    assert forall u :: u in stack + [abs] <==> u in stack || u == abs;
  }

  lemma {:induction false} NotUnderWay<Path(!new)>(visited: set<Path>, deps: seq<Path>, stack: seq<Path>, abs: Path)
    requires Sorted(visited, deps, stack) && abs !in visited
    ensures abs !in stack
  {
  }

  lemma {:induction false} Completes<Path(!new)>(fs: Files<Path>, root: Path, max: Option<nat>, visited: set<Path>, deps: seq<Path>, stack: seq<Path>, abs: Path)
    requires Exploring(fs, root, max, visited, deps, stack + [abs]) && abs !in stack && stack != []
    requires Covered(fs, abs, visited)
    ensures Exploring(fs, root, max, visited, deps + [abs], stack)
  {
    Lengthened(fs, stack, abs);
    OwnedFinished(fs, deps, stack, abs);
    Finishes(fs, visited, deps, stack, abs);
    Moved(visited, deps, stack, abs);
  }

  lemma {:induction false} Entered<Path(!new)>(visited: set<Path>, deps: seq<Path>, stack: seq<Path>, abs: Path)
    requires Sorted(visited, deps, stack) && abs !in visited
    ensures Sorted(visited + {abs}, deps, stack + [abs])
  {
    assert forall u :: u in stack + [abs] <==> u in stack || u == abs;
  }

  lemma {:induction false} Subset<T(!new)>(a: set<T>, b: set<T>)
    requires a <= b
    ensures |a| <= |b|
  {
    assert b == a + (b - a);
  }

  lemma {:induction false} Smaller<Path>(all: set<Path>, visited: set<Path>, abs: Path)
    requires abs in all && abs !in visited
    ensures |all - (visited + {abs})| < |all - visited|
  {
    assert all - visited == (all - (visited + {abs})) + {abs};
  }

  /** Depth first from the `k`-th reference of `u` on: what has been visited then, and the
      modules that were finished, each after what it imports, in the order of the references. */
  ghost function PostOrder<Path(!new)>(fs: Files<Path>, u: Path, k: nat, visited: set<Path>): (r: (set<Path>, seq<Path>))
    ensures visited <= r.0
    decreases |fs.texts.Keys - visited|, if u in fs.texts && k < |Refs(fs, u)| then |Refs(fs, u)| - k else 0
  {
    if u !in fs.texts || k >= |Refs(fs, u)| || !Resolve(fs, u, Refs(fs, u)[k]).Unique? then (visited, [])
    else
      var v := Resolve(fs, u, Refs(fs, u)[k]).path;
      if v in visited then PostOrder(fs, u, k + 1, visited)
      else
        assert v in fs.texts ==> |fs.texts.Keys - (visited + {v})| < |fs.texts.Keys - visited| by {
          if v in fs.texts { Smaller(fs.texts.Keys, visited, v); }
        }
        assert v !in fs.texts ==> fs.texts.Keys - (visited + {v}) == fs.texts.Keys - visited;
        var inner := PostOrder(fs, v, 0, visited + {v});
        assert |fs.texts.Keys - inner.0| <= |fs.texts.Keys - visited| by { Subset(fs.texts.Keys - inner.0, fs.texts.Keys - visited); }
        var rest := PostOrder(fs, u, k + 1, inner.0);
        (rest.0, inner.1 + [v] + rest.1)
  }

  lemma {:induction false} Begins<Path(!new)>(fs: Files<Path>, root: Path, max: Option<nat>, visited: set<Path>, deps: seq<Path>, stack: seq<Path>, abs: Path)
    requires Exploring(fs, root, max, visited, deps, stack) && Reaches(fs, root, abs) && abs !in visited
    requires (stack != [] ==> Edge(fs, stack[|stack| - 1], abs)) && (max.Some? ==> |visited| < max.value)
    ensures Exploring(fs, root, max, visited + {abs}, deps, stack + [abs])
  {
    StillSettled(fs, visited, visited + {abs}, deps, []);
    assert deps + [] == deps;
    Entered(visited, deps, stack, abs);
    OwnedEntered(fs, deps, stack, abs);
    Lengthened(fs, stack, abs);
  }

  /** What is visited and finished after `n` references leaves the rest of the order. */
  ghost predicate Resumes<Path(!new)>(
      fs: Files<Path>, u: Path, n: nat, start: set<Path>, first: seq<Path>, visited: set<Path>, deps: seq<Path>)
  {
    var all, rest := PostOrder(fs, u, 0, start), PostOrder(fs, u, n, visited);
    all.0 == rest.0 && first + all.1 == deps + rest.1
  }

  lemma {:induction false} ResumesNext<Path(!new)>(
      fs: Files<Path>, u: Path, n: nat, start: set<Path>, first: seq<Path>, before: set<Path>, done: seq<Path>, visited: set<Path>,
      deps: seq<Path>)
    requires u in fs.texts && n < |Refs(fs, u)| && Resolve(fs, u, Refs(fs, u)[n]).Unique?
    requires Resumes(fs, u, n, start, first, before, done)
    requires var v := Resolve(fs, u, Refs(fs, u)[n]).path; var w := PostOrder(fs, v, 0, before + {v});
      if v in before then visited == before && deps == done else visited == w.0 && deps == done + w.1 + [v]
    ensures Resumes(fs, u, n + 1, start, first, visited, deps)
  {
    var v := Resolve(fs, u, Refs(fs, u)[n]).path;
    var inner, rest := PostOrder(fs, v, 0, before + {v}), PostOrder(fs, u, n + 1, visited);
    if v !in before { assert done + (inner.1 + [v] + rest.1) == done + inner.1 + [v] + rest.1; }
  }

  class SpecReader<Path(==, !new)> {
    const fs: Files<Path>
    const root: Path
    const max: Option<nat>
    var visited: set<Path>
    /** The finished modules, in the order they were finished. */
    var deps: seq<Path>

    /** `stack` is the chain of modules under way. */
    ghost predicate Valid(stack: seq<Path>)
      reads this
    {
      Exploring(fs, root, max, visited, deps, stack)
    }

    constructor (fs: Files<Path>, root: Path, max: Option<nat>)
      ensures this.fs == fs && this.root == root && this.max == max && visited == {} && deps == [] && Valid([])
    {
      this.fs, this.root, this.max := fs, root, max;
      visited, deps := {}, [];
    }

    /** Visits a module unless it has been visited; false if the closure is unfit. */
    method Visit(abs: Path, ghost stack: seq<Path>) returns (ok: bool)
      requires Valid(stack) && Reaches(fs, root, abs) && stack != [] && Edge(fs, stack[|stack| - 1], abs)
      modifies this
      ensures ok ==> Valid(stack) && abs in visited && old(visited) <= visited
      ensures ok && abs in old(visited) ==> visited == old(visited) && deps == old(deps)
      ensures ok && abs !in old(visited) ==>
                var w := PostOrder(fs, abs, 0, old(visited) + {abs}); visited == w.0 && deps == old(deps) + w.1 + [abs]
      ensures !ok ==> Unfit(fs, root, max)
      decreases |fs.texts.Keys - visited|, 1
    {
      if abs in visited { return true; }
      NotUnderWay(visited, deps, stack, abs);
      ok := Explore(abs, stack);
      if !ok { return; }
      Completes(fs, root, max, visited, deps, stack, abs);
      deps := deps + [abs];
    }

    /** Marks a module visited and visits everything it imports. */
    method Explore(abs: Path, ghost stack: seq<Path>) returns (ok: bool)
      requires Valid(stack) && Reaches(fs, root, abs) && abs !in visited
      requires stack != [] ==> Edge(fs, stack[|stack| - 1], abs)
      modifies this
      ensures ok ==> Valid(stack + [abs]) && abs in visited && old(visited) <= visited && Covered(fs, abs, visited)
      ensures ok ==> var w := PostOrder(fs, abs, 0, old(visited) + {abs}); visited == w.0 && deps == old(deps) + w.1
      ensures !ok ==> Unfit(fs, root, max)
      decreases |fs.texts.Keys - visited|, 0
    {
      ghost var full := stack + [abs];
      if max.Some? && |visited| >= max.value {
        TooMany(fs, root, max, visited + {abs});
        return false;
      }
      Begins(fs, root, max, visited, deps, stack, abs);
      ghost var before := visited;
      visited := visited + {abs};
      if abs !in fs.texts { return false; }
      Smaller(fs.texts.Keys, before, abs);
      ok := ExploreNames(abs, full);
    }

    method ExploreNames(abs: Path, ghost full: seq<Path>) returns (ok: bool)
      requires Valid(full) && full != [] && full[|full| - 1] == abs
      requires Reaches(fs, root, abs) && abs in visited && abs in fs.texts
      modifies this
      ensures ok ==> Valid(full) && old(visited) <= visited && Covered(fs, abs, visited)
      ensures ok ==> var w := PostOrder(fs, abs, 0, old(visited)); visited == w.0 && deps == old(deps) + w.1
      ensures !ok ==> Unfit(fs, root, max)
      decreases |fs.texts.Keys - visited|, 2
    {
      var names := ModuleRefs(fs.texts[abs]);
      for n := 0 to |names|
        invariant Valid(full) && old(visited) <= visited && Imported(fs, abs, n, visited)
        invariant Resumes(fs, abs, n, old(visited), old(deps), visited, deps)
      {
        var r := Resolve(fs, abs, names[n]);
        if !r.Unique? {
          Unresolved(fs, root, max, abs, n);
          return false;
        }
        ImportReaches(fs, root, abs, n);
        Subset(fs.texts.Keys - visited, fs.texts.Keys - old(visited));
        ghost var before, done := visited, deps;
        ok := Visit(r.path, full);
        if !ok { return; }
        OneMoreImported(fs, abs, n, before, visited);
        ResumesNext(fs, abs, n, old(visited), old(deps), before, done, visited, deps);
      }
      AllImported(fs, abs, visited);
      ok := true;
    }
  }

  /** The first `n` names resolve, to visited modules. */
  ghost predicate Imported<Path(!new)>(fs: Files<Path>, abs: Path, n: nat, visited: set<Path>)
    requires abs in fs.texts && n <= |Refs(fs, abs)|
  {
    forall i :: 0 <= i < n ==> Resolve(fs, abs, Refs(fs, abs)[i]).Unique? && Resolve(fs, abs, Refs(fs, abs)[i]).path in visited
  }

  lemma {:induction false} OneMoreImported<Path(!new)>(fs: Files<Path>, abs: Path, n: nat, before: set<Path>, visited: set<Path>)
    requires abs in fs.texts && n < |Refs(fs, abs)| && Imported(fs, abs, n, before) && before <= visited
    requires Resolve(fs, abs, Refs(fs, abs)[n]).Unique? && Resolve(fs, abs, Refs(fs, abs)[n]).path in visited
    ensures Imported(fs, abs, n + 1, visited)
  {
  }

  lemma {:induction false} Unresolved<Path(!new)>(fs: Files<Path>, root: Path, max: Option<nat>, abs: Path, n: nat)
    requires Reaches(fs, root, abs) && abs in fs.texts && n < |Refs(fs, abs)| && !Resolve(fs, abs, Refs(fs, abs)[n]).Unique?
    ensures Unfit(fs, root, max)
  {
    assert !Readable(fs, abs);
  }

  lemma {:induction false} ImportReaches<Path(!new)>(fs: Files<Path>, root: Path, abs: Path, n: nat)
    requires abs in fs.texts && n < |Refs(fs, abs)| && Reaches(fs, root, abs) && Resolve(fs, abs, Refs(fs, abs)[n]).Unique?
    ensures var v := Resolve(fs, abs, Refs(fs, abs)[n]).path; Edge(fs, abs, v) && Reaches(fs, root, v)
  {
    var v := Resolve(fs, abs, Refs(fs, abs)[n]).path;
    assert Edge(fs, abs, v);
    ReachesMore(fs, root, abs, v);
  }

  lemma {:induction false} AllImported<Path(!new)>(fs: Files<Path>, abs: Path, visited: set<Path>)
    requires abs in fs.texts && Imported(fs, abs, |Refs(fs, abs)|, visited)
    ensures Covered(fs, abs, visited)
  {
  }

  lemma {:induction false} TooMany<Path(!new)>(fs: Files<Path>, root: Path, max: Option<nat>, s: set<Path>)
    requires max.Some? && |s| > max.value && AllReachable(fs, root, s)
    ensures Unfit(fs, root, max)
  {
  }

  /** `specFromFiles`. It succeeds exactly if the closure is fit; then the sources are
      the root and after it every other reachable module once, imports before
      importers unless they depend on each other, and each before one of its importers
      or imported by the root; siblings follow the order of the references. */
  method SpecFromFiles<Path(==, !new)>(fs: Files<Path>, root: Path, max: Option<nat>) returns (sources: Option<seq<Path>>)
    ensures sources.Some? <==> !Unfit(fs, root, max)
    ensures sources.Some? ==> sources.value != [] && sources.value[0] == root && DistinctPaths(sources.value)
    ensures sources.Some? ==> forall u :: u in sources.value <==> Reaches(fs, root, u)
    ensures sources.Some? && max.Some? ==> |sources.value| <= max.value
    ensures sources.Some? ==> ImportsFirst(fs, sources.value) && ImportersLater(fs, sources.value)
    ensures sources.Some? ==> sources.value == [root] + PostOrder(fs, root, 0, {root}).1
  {
    var reader := new SpecReader(fs, root, max);
    ReachesSelf(fs, root);
    var ok := reader.Explore(root, []);
    if !ok { return None; }
    assert [] + [root] == [root];
    FromRoot(fs, root, reader.deps);
    sources := Some([root] + reader.deps);
    Conclude(fs, root, max, reader.visited, reader.deps);
  }

  /** Except for the root, a module comes after its imports unless they depend on it. */
  ghost predicate ImportsFirst<Path(!new)>(fs: Files<Path>, s: seq<Path>) {
    forall i, v :: 1 <= i < |s| && Edge(fs, s[i], v) ==> v == s[0] || v in s[1..i] || Reaches(fs, v, s[i])
  }

  /** Except for the root, a module is imported by the root or by one that comes later. */
  ghost predicate ImportersLater<Path(!new)>(fs: Files<Path>, s: seq<Path>) {
    forall i :: 1 <= i < |s| ==> ImporterLater(fs, s, i)
  }

  ghost predicate ImporterLater<Path(!new)>(fs: Files<Path>, s: seq<Path>, i: nat)
    requires i < |s|
  {
    exists u :: Edge(fs, u, s[i]) && (u == s[0] || u in s[i + 1..])
  }

  lemma {:induction false} OwnersLater<Path(!new)>(fs: Files<Path>, root: Path, deps: seq<Path>)
    requires AllOwned(fs, deps, [root])
    ensures ImportersLater(fs, [root] + deps)
  {
    var s := [root] + deps;
    forall i | 1 <= i < |s| ensures ImporterLater(fs, s, i) {
      assert Owned(fs, deps, [root], i - 1);
      var u :| Edge(fs, u, deps[i - 1]) && (u in [root] || u in deps[i..]);
      assert s[i + 1..] == deps[i..];
      assert Edge(fs, u, s[i]);
    }
  }

  lemma {:induction false} FromRoot<Path(!new)>(fs: Files<Path>, root: Path, deps: seq<Path>)
    requires deps == [] + PostOrder(fs, root, 0, {} + {root}).1
    ensures deps == PostOrder(fs, root, 0, {root}).1
  {
    assert {} + {root} == {root};
  }

  lemma {:induction false} Conclude<Path(!new)>(fs: Files<Path>, root: Path, max: Option<nat>, visited: set<Path>, deps: seq<Path>)
    requires Sorted(visited, deps, [root]) && Bounded(fs, root, max, visited) && AllSettled(fs, visited, deps)
    requires Covered(fs, root, visited) && AllOwned(fs, deps, [root])
    ensures !Unfit(fs, root, max)
    ensures var s := [root] + deps; DistinctPaths(s) && (forall u :: u in s <==> Reaches(fs, root, u)) && (max.Some? ==> |s| <= max.value)
    ensures ImportsFirst(fs, [root] + deps) && ImportersLater(fs, [root] + deps)
  {
    OwnersLater(fs, root, deps);
    var s := [root] + deps;
    AllVisitedReadable(fs, root, visited, deps);
    ClosedIsReachable(fs, root, visited);
    FitClosure(fs, root, max, visited);
    Ordered(fs, root, visited, deps);
    WithRoot(root, visited, deps);
    SizeOf(s, visited);
  }

  lemma {:induction false} WithRoot<Path(!new)>(root: Path, visited: set<Path>, deps: seq<Path>)
    requires Sorted(visited, deps, [root])
    ensures DistinctPaths([root] + deps) && forall u :: u in visited <==> u in [root] + deps
  {
    assert root in [root];
    assert forall u :: u in [root] + deps <==> u == root || u in deps;
  }

  lemma {:induction false} AllVisitedReadable<Path(!new)>(fs: Files<Path>, root: Path, visited: set<Path>, deps: seq<Path>)
    requires Sorted(visited, deps, [root]) && AllSettled(fs, visited, deps)
    requires Covered(fs, root, visited)
    ensures forall u :: u in visited ==> Readable(fs, u)
    ensures ImportClosed(fs, visited)
  {
    forall u | u in visited ensures Covered(fs, u, visited) {
      if u != root {
        var i :| 0 <= i < |deps| && deps[i] == u;
        assert Settled(fs, visited, deps, i);
      }
    }
  }

  lemma {:induction false} Ordered<Path(!new)>(fs: Files<Path>, root: Path, visited: set<Path>, deps: seq<Path>)
    requires AllSettled(fs, visited, deps)
    ensures ImportsFirst(fs, [root] + deps)
  {
    var s := [root] + deps;
    forall i, v | 1 <= i < |s| && Edge(fs, s[i], v) ensures v == root || v in s[1..i] || Reaches(fs, v, s[i]) {
      assert Settled(fs, visited, deps, i - 1);
      assert s[1..i] == deps[..i - 1];
    }
  }

  lemma {:induction false} SizeOf<T(!new)>(s: seq<T>, xs: set<T>)
    requires DistinctPaths(s) && forall u :: u in xs <==> u in s
    ensures |s| == |xs|
  {
    if s == [] {
      assert xs == {};
    } else {
      var front, last := s[..|s| - 1], s[|s| - 1];
      assert forall u :: u in front <==> u in s && u != last;
      SizeOf(front, xs - {last});
    }
  }
}
