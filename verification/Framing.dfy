/** Line framing as functions: what a byte stream means, and what each chunk does. */
module ProtocolLines {
  import opened Wrappers
  import opened JsonText

  type Byte = bv8

  type Bytes = seq<Byte>

  const MAX_LINE := 65_535
  const LF: Byte := 0x0A
  const CR: Byte := 0x0D

  /** `TextDecoder`, fatal: the text of valid UTF-8, nothing otherwise. */
  type Decoder = Bytes -> Option<Text>

  // ----- One line -----

  predicate EndsInCr(b: Bytes) { b != [] && b[|b| - 1] == CR }

  function Payload(raw: Bytes): (r: Bytes)
    ensures |r| <= |raw| <= |r| + 1
  {
    if EndsInCr(raw) then raw[..|raw| - 1] else raw
  }

  predicate LineOk(raw: Bytes, dec: Decoder) {
    |Payload(raw)| <= MAX_LINE && dec(Payload(raw)).Some?
  }

  function LineText(raw: Bytes, dec: Decoder): Text {
    dec(Payload(raw)).GetOr([])
  }

  /** The length check on an unfinished line: one more byte only if it is a CR. */
  predicate TooLong(prefix: Bytes) {
    |prefix| > MAX_LINE + 1 || (|prefix| > MAX_LINE && !EndsInCr(prefix))
  }

  /** An unfinished line is rejected for its length exactly when no continuation of
      it could pass the check on finished lines. */
  lemma {:induction false} TooLongMeaning(prefix: Bytes)
    ensures TooLong(prefix) <==> forall more: Bytes :: |Payload(prefix + more)| > MAX_LINE
  {
    if TooLong(prefix) {
      forall more: Bytes ensures |Payload(prefix + more)| > MAX_LINE {
        if more == [] { assert prefix + more == prefix; }
      }
    } else {
      assert prefix + [] == prefix;
      assert |Payload(prefix + [])| <= MAX_LINE;
    }
  }

  // ----- The whole stream -----

  ghost predicate NoLf(b: Bytes) {
    forall i :: 0 <= i < |b| ==> b[i] != LF
  }

  /** Bytes cut at their first line feed, if they have one. */
  datatype Cut = Whole | Cut(line: Bytes, rest: Bytes)

  function FirstCut(s: Bytes): (r: Cut)
    ensures r.Cut? ==> |r.rest| < |s|
  {
    if s == [] then Whole
    else if s[0] == LF then Cut([], s[1..])
    else
      var more := FirstCut(s[1..]);
      if more.Whole? then Whole else Cut([s[0]] + more.line, more.rest)
  }

  /** The finished lines of a stream. */
  function Lines(s: Bytes): seq<Bytes>
    decreases |s|
  {
    var c := FirstCut(s);
    if c.Whole? then [] else [c.line] + Lines(c.rest)
  }

  /** What follows the last line feed. */
  function Tail(s: Bytes): Bytes
    decreases |s|
  {
    var c := FirstCut(s);
    if c.Whole? then s else Tail(c.rest)
  }

  ghost predicate AllOk(lines: seq<Bytes>, dec: Decoder) {
    forall i :: 0 <= i < |lines| ==> LineOk(lines[i], dec)
  }

  function Texts(lines: seq<Bytes>, dec: Decoder): (r: seq<Text>)
    ensures |r| == |lines| && forall i :: 0 <= i < |r| ==> r[i] == LineText(lines[i], dec)
  {
    seq(|lines|, i requires 0 <= i < |lines| => LineText(lines[i], dec))
  }

  /** A stream that ends here is well framed. */
  ghost predicate WellFramed(s: Bytes, dec: Decoder) {
    AllOk(Lines(s), dec) && Tail(s) == []
  }

  /** Cutting and joining are inverse. */
  lemma {:induction false} CutMeaning(s: Bytes)
    ensures var c := FirstCut(s); if c.Whole? then NoLf(s) else NoLf(c.line) && s == c.line + [LF] + c.rest
  {
    if s != [] && s[0] != LF {
      CutMeaning(s[1..]);
      assert s == [s[0]] + s[1..];
    }
  }

  lemma {:induction false} CutOf(line: Bytes, rest: Bytes)
    requires NoLf(line)
    ensures FirstCut(line + [LF] + rest) == Cut(line, rest)
  {
    var s := line + [LF] + rest;
    if line == [] {
      assert s[1..] == rest;
    } else {
      assert s[1..] == line[1..] + [LF] + rest;
      CutOf(line[1..], rest);
      assert line == [line[0]] + line[1..];
    }
  }

  lemma {:induction false} WholeOf(t: Bytes)
    requires NoLf(t)
    ensures FirstCut(t) == Whole
  {
    if t != [] { WholeOf(t[1..]); }
  }

  lemma {:induction false} FirstLine(line: Bytes, rest: Bytes)
    requires NoLf(line)
    ensures Lines(line + [LF] + rest) == [line] + Lines(rest) && Tail(line + [LF] + rest) == Tail(rest)
  {
    CutOf(line, rest);
  }

  lemma {:induction false} NoLfSplit(t: Bytes)
    requires NoLf(t)
    ensures Lines(t) == [] && Tail(t) == t
  {
    WholeOf(t);
  }

  lemma {:induction false} TailNoLf(s: Bytes)
    ensures NoLf(Tail(s))
    decreases |s|
  {
    CutMeaning(s);
    if FirstCut(s).Cut? { TailNoLf(FirstCut(s).rest); }
  }

  lemma {:induction false} Regroup<T>(a: seq<T>, b: seq<T>, c: seq<T>)
    ensures a + b + c == a + (b + c)
  {
  }

  lemma {:induction false} AppendAfterLine(line: Bytes, rest: Bytes, b: Bytes)
    requires NoLf(line)
    requires Lines(rest + b) == Lines(rest) + Lines(Tail(rest) + b) && Tail(rest + b) == Tail(Tail(rest) + b)
    ensures var a := line + [LF] + rest; Lines(a + b) == Lines(a) + Lines(Tail(a) + b) && Tail(a + b) == Tail(Tail(a) + b)
  {
    FirstLine(line, rest);
    FirstLine(line, rest + b);
    Regroup(line + [LF], rest, b);
    Regroup([line], Lines(rest), Lines(Tail(rest) + b));
  }

  /** A stream in two parts: the second continues the unfinished line of the first. */
  lemma {:induction false} SplitAppend(a: Bytes, b: Bytes)
    ensures Lines(a + b) == Lines(a) + Lines(Tail(a) + b)
    ensures Tail(a + b) == Tail(Tail(a) + b)
    decreases |a|
  {
    var c := FirstCut(a);
    CutMeaning(a);
    if c.Cut? {
      SplitAppend(c.rest, b);
      AppendAfterLine(c.line, c.rest, b);
    } else {
      assert [] + Lines(a + b) == Lines(a + b);
    }
  }

  // ----- One chunk -----

  datatype Fed = Rejected | Accepted(texts: seq<Text>, pending: Bytes)

  function Prepend(text: Text, f: Fed): Fed {
    if f.Rejected? then Rejected else Accepted([text] + f.texts, f.pending)
  }

  /** What one data event does to the pending bytes. */
  function Feed(pending: Bytes, chunk: Bytes, dec: Decoder): Fed
    decreases |chunk|
  {
    var c := FirstCut(chunk);
    if c.Whole? then
      if TooLong(pending + chunk) then Rejected else Accepted([], pending + chunk)
    else if !LineOk(pending + c.line, dec) then Rejected
    else Prepend(LineText(pending + c.line, dec), Feed([], c.rest, dec))
  }

  lemma {:induction false} PendingLine(pending: Bytes, line: Bytes, rest: Bytes)
    requires NoLf(pending) && NoLf(line)
    ensures var s := pending + (line + [LF] + rest);
      Lines(s) == [pending + line] + Lines(rest) && Tail(s) == Tail(rest)
  {
    FirstLine(pending + line, rest);
    assert pending + line + [LF] + rest == pending + (line + [LF] + rest);
  }

  /** A chunk is accepted exactly when every line it finishes is good and the rest is
      not yet too long; then it yields those lines and keeps that rest. */
  lemma {:induction false} FeedMeaning(pending: Bytes, chunk: Bytes, dec: Decoder)
    requires NoLf(pending)
    ensures Feed(pending, chunk, dec) == Checked(pending + chunk, dec)
    decreases |chunk|
  {
    var c := FirstCut(chunk);
    CutMeaning(chunk);
    if c.Whole? {
      NoLfSplit(pending + chunk);
      assert Texts([], dec) == [];
    } else {
      PendingLine(pending, c.line, c.rest);
      FeedMeaning([], c.rest, dec);
      assert [] + c.rest == c.rest;
      LinesFirst(pending + c.line, Lines(c.rest), dec);
    }
  }

  /** All the finished lines and the unfinished one, if nothing is wrong with them. */
  ghost function Checked(s: Bytes, dec: Decoder): Fed {
    if AllOk(Lines(s), dec) && !TooLong(Tail(s)) then Accepted(Texts(Lines(s), dec), Tail(s)) else Rejected
  }

  lemma {:induction false} LinesFirst(line: Bytes, lines: seq<Bytes>, dec: Decoder)
    ensures AllOk([line] + lines, dec) <==> LineOk(line, dec) && AllOk(lines, dec)
    ensures Texts([line] + lines, dec) == [LineText(line, dec)] + Texts(lines, dec)
  {
    if AllOk([line] + lines, dec) {
      assert ([line] + lines)[0] == line;
      forall i | 0 <= i < |lines| ensures LineOk(lines[i], dec) { assert ([line] + lines)[i + 1] == lines[i]; }
    }
  }

  // ----- One chunk, a line at a time -----

  /** What lines already taken apart add to the rest of an event. */
  function Glue(completed: seq<Text>, f: Fed): Fed {
    if f.Rejected? then Rejected else Accepted(completed + f.texts, f.pending)
  }

  lemma {:induction false} GlueNothing(f: Fed)
    ensures Glue([], f) == f
  {
    if f.Accepted? { assert [] + f.texts == f.texts; }
  }

  lemma {:induction false} GlueNext(completed: seq<Text>, text: Text, f: Fed)
    ensures Glue(completed, Prepend(text, f)) == Glue(completed + [text], f)
  {
    if f.Accepted? { Regroup(completed, [text], f.texts); }
  }

  lemma {:induction false} GlueLast(completed: seq<Text>, rest: Bytes)
    ensures Glue(completed, Accepted([], rest)) == Accepted(completed, rest)
  {
    assert completed + [] == completed;
  }

  lemma {:induction false} EmptyFeed(dec: Decoder)
    ensures Feed([], [], dec) == Accepted([], [])
  {
    var nothing: Bytes := [];
    assert FirstCut(nothing) == Whole && nothing + nothing == nothing;
  }

  /** The body of a data event: its finished lines, unless something is wrong, and
      the bytes kept for the next event. */
  method TakeApart(before: Bytes, chunk: Bytes, dec: Decoder) returns (completed: Option<seq<Text>>, pending: Bytes)
    requires |before| <= MAX_LINE + 1
    ensures |pending| <= MAX_LINE + 1
    ensures Feed(before, chunk, dec) == if completed.None? then Rejected else Accepted(completed.value, pending)
  {
    ghost var fed := Feed(before, chunk, dec);
    pending := before;
    var lines: seq<Text> := [];
    var rest := chunk;
    GlueNothing(fed);
    while true
      invariant |pending| <= MAX_LINE + 1 && fed == Glue(lines, Feed(pending, rest, dec))
      decreases |rest|
    {
      var c := FirstCut(rest);
      if c.Whole? {
        if TooLong(pending + rest) { return None, pending; }
        GlueLast(lines, pending + rest);
        return Some(lines), pending + rest;
      }
      var line := pending + c.line;
      if !LineOk(line, dec) { return None, pending; }
      GlueNext(lines, LineText(line, dec), Feed([], c.rest, dec));
      lines := lines + [LineText(line, dec)];
      pending := [];
      rest := c.rest;
      if rest == [] {
        EmptyFeed(dec);
        GlueLast(lines, []);
        return Some(lines), [];
      }
    }
  }

  // ----- A run of chunks -----

  function Concat(chunks: seq<Bytes>): Bytes {
    if chunks == [] then [] else Concat(chunks[..|chunks| - 1]) + chunks[|chunks| - 1]
  }

  /** The state after some data events; `failed` is for good. */
  datatype Run = Run(failed: bool, emitted: seq<Text>, pending: Bytes)

  function RunOf(chunks: seq<Bytes>, dec: Decoder): Run {
    if chunks == [] then Run(false, [], [])
    else
      var before := RunOf(chunks[..|chunks| - 1], dec);
      if before.failed then before
      else
        var f := Feed(before.pending, chunks[|chunks| - 1], dec);
        if f.Rejected? then before.(failed := true) else Run(false, before.emitted + f.texts, f.pending)
  }

  /** What the end of the input makes of it. */
  function Succeeds(r: Run): bool { !r.failed && r.pending == [] }

  lemma {:induction false} TextsAppend(a: seq<Bytes>, b: seq<Bytes>, dec: Decoder)
    ensures Texts(a + b, dec) == Texts(a, dec) + Texts(b, dec)
    ensures AllOk(a + b, dec) <==> AllOk(a, dec) && AllOk(b, dec)
  {
    if AllOk(a + b, dec) {
      forall i | 0 <= i < |a| ensures LineOk(a[i], dec) { assert (a + b)[i] == a[i]; }
      forall i | 0 <= i < |b| ensures LineOk(b[i], dec) { assert (a + b)[|a| + i] == b[i]; }
    }
  }

  /** As long as nothing failed, the run has emitted the finished lines of what it was
      fed and keeps the rest; and it never keeps more than one byte over the limit. */
  lemma {:induction false} RunMeaning(chunks: seq<Bytes>, dec: Decoder)
    ensures var r, s := RunOf(chunks, dec), Concat(chunks);
      |r.pending| <= MAX_LINE + 1
      && (!r.failed ==> AllOk(Lines(s), dec) && r.emitted == Texts(Lines(s), dec) && r.pending == Tail(s) && !TooLong(Tail(s)))
  {
    if chunks != [] {
      var front, last := chunks[..|chunks| - 1], chunks[|chunks| - 1];
      RunMeaning(front, dec);
      if !RunOf(front, dec).failed { OneMore(Concat(front), last, dec); }
    } else {
      assert Lines([]) == [] && Tail([]) == [];
    }
  }

  /** One more chunk after a stream whose finished lines were all good. */
  lemma {:induction false} OneMore(s: Bytes, chunk: Bytes, dec: Decoder)
    requires AllOk(Lines(s), dec)
    ensures Feed(Tail(s), chunk, dec).Rejected? <==> !AllOk(Lines(s + chunk), dec) || TooLong(Tail(s + chunk))
    ensures var f := Feed(Tail(s), chunk, dec);
      f.Accepted? ==> Texts(Lines(s + chunk), dec) == Texts(Lines(s), dec) + f.texts && Tail(s + chunk) == f.pending
  {
    TailNoLf(s);
    FeedMeaning(Tail(s), chunk, dec);
    SplitAppend(s, chunk);
    TextsAppend(Lines(s), Lines(Tail(s) + chunk), dec);
  }

  lemma {:induction false} LongTailStays(a: Bytes, b: Bytes, dec: Decoder)
    requires NoLf(a) && TooLong(a)
    ensures !WellFramed(a + b, dec)
  {
    var c := FirstCut(b);
    CutMeaning(b);
    if c.Cut? {
      PendingLine(a, c.line, c.rest);
      TooLongMeaning(a);
      LinesFirst(a + c.line, Lines(c.rest), dec);
    } else {
      NoLfSplit(a + b);
    }
  }

  lemma {:induction false} BadStays(a: Bytes, b: Bytes, dec: Decoder)
    requires !AllOk(Lines(a), dec) || TooLong(Tail(a))
    ensures !WellFramed(a + b, dec)
  {
    SplitAppend(a, b);
    TextsAppend(Lines(a), Lines(Tail(a) + b), dec);
    TailNoLf(a);
    if TooLong(Tail(a)) { LongTailStays(Tail(a), b, dec); }
  }

  lemma {:induction false} FailureStays(chunks: seq<Bytes>, dec: Decoder)
    requires RunOf(chunks, dec).failed
    ensures forall more: Bytes :: !WellFramed(Concat(chunks) + more, dec)
  {
    var front, last := chunks[..|chunks| - 1], chunks[|chunks| - 1];
    var before := RunOf(front, dec);
    forall more: Bytes ensures !WellFramed(Concat(chunks) + more, dec) {
      if before.failed {
        FailureStays(front, dec);
        Regroup(Concat(front), last, more);
      } else {
        RunMeaning(front, dec);
        OneMore(Concat(front), last, dec);
        BadStays(Concat(chunks), more, dec);
      }
    }
  }

  /** Whether a stream that has ended succeeds depends on its bytes alone, not on how
      they came in chunks; and when it does, exactly its lines were emitted. */
  lemma {:induction false} ChunkingDoesNotMatter(chunks: seq<Bytes>, dec: Decoder)
    ensures Succeeds(RunOf(chunks, dec)) <==> WellFramed(Concat(chunks), dec)
    ensures Succeeds(RunOf(chunks, dec)) ==> RunOf(chunks, dec).emitted == Texts(Lines(Concat(chunks)), dec)
  {
    RunMeaning(chunks, dec);
    if RunOf(chunks, dec).failed {
      FailureStays(chunks, dec);
      assert Concat(chunks) + [] == Concat(chunks);
    }
  }

  /** A failed run has emitted the lines of the chunks before the failing one, which
      were all good, and nothing of the failing one. */
  lemma {:induction false} FailureEmitsNothing(chunks: seq<Bytes>, dec: Decoder) returns (k: nat)
    requires RunOf(chunks, dec).failed
    ensures k < |chunks| && !RunOf(chunks[..k], dec).failed && RunOf(chunks[..k + 1], dec).failed
    ensures var s := Concat(chunks[..k]); AllOk(Lines(s), dec) && RunOf(chunks, dec).emitted == Texts(Lines(s), dec)
  {
    var front := chunks[..|chunks| - 1];
    if RunOf(front, dec).failed {
      k := FailureEmitsNothing(front, dec);
      assert front[..k] == chunks[..k] && front[..k + 1] == chunks[..k + 1];
    } else {
      k := |chunks| - 1;
      assert chunks[..k + 1] == chunks;
      RunMeaning(front, dec);
    }
  }

  // ----- Sending -----

  /** What is written for lines sent one after the other. */
  function Sent(payloads: seq<Bytes>): Bytes {
    if payloads == [] then [] else payloads[0] + [LF] + Sent(payloads[1..])
  }

  /** A payload that is valid to send and that the receiver takes apart unchanged. */
  ghost predicate Sendable(b: Bytes, dec: Decoder) {
    |b| <= MAX_LINE && NoLf(b) && !EndsInCr(b) && dec(b).Some?
  }

  lemma {:induction false} SentLines(payloads: seq<Bytes>)
    requires forall i :: 0 <= i < |payloads| ==> NoLf(payloads[i])
    ensures Lines(Sent(payloads)) == payloads && Tail(Sent(payloads)) == []
  {
    if payloads == [] {
      assert Lines([]) == [] && Tail([]) == [];
    } else {
      FirstLine(payloads[0], Sent(payloads[1..]));
      SentLines(payloads[1..]);
      assert payloads == [payloads[0]] + payloads[1..];
    }
  }

  /** Lines sent are lines received, however the bytes are cut up on the way. */
  lemma {:induction false} SentIsReceived(payloads: seq<Bytes>, chunks: seq<Bytes>, dec: Decoder)
    requires forall i :: 0 <= i < |payloads| ==> Sendable(payloads[i], dec)
    requires Concat(chunks) == Sent(payloads)
    ensures Succeeds(RunOf(chunks, dec)) && |RunOf(chunks, dec).emitted| == |payloads|
    ensures forall i :: 0 <= i < |payloads| ==> Some(RunOf(chunks, dec).emitted[i]) == dec(payloads[i])
  {
    SentLines(payloads);
    ChunkingDoesNotMatter(chunks, dec);
  }
}

/** The queue between the framing and the readers of lines. */
module LineIterator {
  import opened JsonText

  /** What one pull has come to. */
  datatype Promise = Waiting | Line(text: Text) | Done | Rejected

  class LineQueue {
    var buffer: seq<Text>
    var waiters: seq<nat>
    var closed: bool
    var failed: bool
    /** Every pull so far, in order. */
    var promises: seq<Promise>
    /** Every line emitted so far, in order. */
    ghost var emitted: seq<Text>
    /** How many pulls were answered with a line. */
    ghost var delivered: nat

    /** The n-th pull is answered by the n-th line; nobody waits while a line is
        buffered; once closed nobody waits at all. */
    ghost predicate Valid()
      reads this
    {
      && (buffer == [] || waiters == [])
      && (closed ==> waiters == [])
      && (failed ==> closed && buffer == [])
      && |waiters| <= |promises| && delivered <= |promises| && delivered <= |emitted|
      && (forall i :: 0 <= i < |waiters| ==> waiters[i] == |promises| - |waiters| + i)
      && (forall k :: 0 <= k < |promises| ==> (promises[k].Waiting? <==> k >= |promises| - |waiters|))
      && (forall k :: 0 <= k < delivered ==> promises[k] == Line(emitted[k]))
      && (forall k :: delivered <= k < |promises| ==> !promises[k].Line?)
      && (!failed ==> buffer == emitted[delivered..] && forall k :: 0 <= k < |promises| ==> !promises[k].Rejected?)
      && (!closed ==> delivered == |promises| - |waiters|)
      && (buffer != [] ==> delivered == |promises|)
    }

    constructor ()
      ensures Valid() && !closed && !failed && promises == [] && emitted == [] && fresh(this)
    {
      buffer, waiters, closed, failed, promises, emitted, delivered := [], [], false, false, [], [], 0;
    }

    /** A line goes to the longest waiting reader, or else into the buffer. */
    method Emit(line: Text)
      requires Valid() && !closed
      modifies this
      ensures Valid() && !closed && !failed && emitted == old(emitted) + [line]
      ensures |promises| == |old(promises)|
      ensures forall k :: 0 <= k < |promises| && !old(promises)[k].Waiting? ==> promises[k] == old(promises)[k]
    {
      emitted := emitted + [line];
      if waiters != [] {
        promises := promises[waiters[0] := Line(line)];
        waiters := waiters[1..];
        delivered := delivered + 1;
      } else {
        buffer := buffer + [line];
      }
    }

    /** The end of the input: those who wait get nothing, what is buffered stays. */
    method Finish()
      requires Valid()
      modifies this
      ensures Valid() && closed && failed == old(failed) && emitted == old(emitted)
      ensures buffer == old(buffer) && |promises| == |old(promises)|
      ensures forall k :: 0 <= k < |promises| ==> promises[k] == if old(promises)[k].Waiting? then Done else old(promises)[k]
    {
      if closed { return; }
      closed := true;
      Settle(Done);
    }

    /** A fatal error: those who wait are rejected, what is buffered is dropped. */
    method Fail()
      requires Valid()
      modifies this
      ensures Valid() && closed && emitted == old(emitted)
      ensures failed == (old(failed) || !old(closed)) && |promises| == |old(promises)|
      ensures forall k :: 0 <= k < |promises| ==> promises[k] == if old(promises)[k].Waiting? then Rejected else old(promises)[k]
    {
      if closed { return; }
      closed := true;
      failed := true;
      buffer := [];
      Settle(Rejected);
    }

    method Settle(result: Promise)
      requires !result.Waiting? && |waiters| <= |promises|
      requires forall i :: 0 <= i < |waiters| ==> waiters[i] == |promises| - |waiters| + i
      requires forall k :: 0 <= k < |promises| ==> (promises[k].Waiting? <==> k >= |promises| - |waiters|)
      modifies this`promises, this`waiters
      ensures waiters == [] && |promises| == |old(promises)|
      ensures forall k :: 0 <= k < |promises| ==> promises[k] == if old(promises)[k].Waiting? then result else old(promises)[k]
    {
      ghost var was := promises;
      for i := 0 to |waiters|
        invariant waiters == old(waiters) && |promises| == |was|
        invariant forall k :: 0 <= k < |promises| ==>
                    promises[k] == if |was| - |waiters| <= k < |was| - |waiters| + i then result else was[k]
      {
        promises := promises[waiters[i] := result];
      }
      waiters := [];
    }

    /** Returns the number of the pull. */
    method Pull() returns (k: nat)
      requires Valid()
      modifies this
      ensures Valid() && closed == old(closed) && failed == old(failed) && emitted == old(emitted)
      ensures k == |old(promises)| && |promises| == k + 1 && promises[..k] == old(promises)
      ensures promises[k] == if failed then Rejected else if old(buffer) != [] then Line(old(buffer)[0])
                             else if closed then Done else Waiting
    {
      k := |promises|;
      if failed {
        promises := promises + [Rejected];
      } else if buffer != [] {
        promises := promises + [Line(buffer[0])];
        buffer := buffer[1..];
        delivered := delivered + 1;
      } else if closed {
        promises := promises + [Done];
      } else {
        promises := promises + [Waiting];
        waiters := waiters + [k];
      }
    }
  }
}

/** Bounded line framing attached to an input stream. */
module ProtocolFraming {
  import opened JsonText
  import opened ProtocolLines
  import opened LineIterator

  class Framing {
    var pending: Bytes
    var terminal: bool
    const sink: LineQueue
    const dec: Decoder
    /** The data events so far, while nothing has ended. */
    ghost var chunks: seq<Bytes>

    /** The framing is where the run of its data events says it is, and its queue
        holds exactly the lines of that run. */
    ghost predicate Valid()
      reads this, sink
    {
      && sink.Valid() && |pending| <= MAX_LINE + 1
      && sink.emitted == RunOf(chunks, dec).emitted
      && sink.closed == terminal
      && (!terminal ==> !RunOf(chunks, dec).failed && pending == RunOf(chunks, dec).pending)
    }

    constructor (dec: Decoder)
      ensures Valid() && !terminal && chunks == [] && pending == [] && this.dec == dec && fresh(sink)
    {
      this.dec := dec;
      pending, terminal, chunks := [], false, [];
      sink := new LineQueue();
    }

    /** A data event: all the lines it finishes are published together, or the event
        fails and publishes none. */
    method OnData(chunk: Bytes)
      requires Valid()
      modifies this, sink
      ensures Valid()
      ensures old(terminal) ==> unchanged(this) && unchanged(sink)
      ensures !old(terminal) ==> chunks == old(chunks) + [chunk] && terminal == RunOf(chunks, dec).failed
      ensures sink.failed == (old(sink.failed) || (!old(terminal) && terminal))
    {
      if terminal { return; }
      NextRun(chunk);
      chunks := chunks + [chunk];
      var completed, rest := TakeApart(pending, chunk, dec);
      pending := rest;
      if completed.None? {
        Stop();
      } else {
        Publish(completed.value);
      }
    }

    lemma {:induction false} NextRun(chunk: Bytes)
      ensures var r := RunOf(chunks, dec); var all := chunks + [chunk];
        !r.failed ==>
          RunOf(all, dec) == var f := Feed(r.pending, chunk, dec);
            if f.Rejected? then r.(failed := true) else Run(false, r.emitted + f.texts, f.pending)
    {
      var all := chunks + [chunk];
      assert all[..|all| - 1] == chunks;
    }

    method Publish(completed: seq<Text>)
      requires sink.Valid() && !sink.closed
      modifies sink
      ensures sink.Valid() && !sink.closed && sink.failed == old(sink.failed) && sink.emitted == old(sink.emitted) + completed
    {
      assert completed[..0] == [] && old(sink.emitted) + [] == old(sink.emitted);
      for i := 0 to |completed|
        invariant sink.Valid() && !sink.closed && sink.failed == old(sink.failed)
        invariant sink.emitted == old(sink.emitted) + completed[..i]
      {
        sink.Emit(completed[i]);
        assert completed[..i + 1] == completed[..i] + [completed[i]];
      }
      assert completed[..|completed|] == completed;
    }

    /** A framing error ends the stream for good and rejects its readers. */
    method Stop()
      requires sink.Valid() && !terminal && !sink.closed
      modifies this`terminal, sink
      ensures terminal && sink.Valid() && sink.closed && sink.failed && sink.emitted == old(sink.emitted)
    {
      terminal := true;
      sink.Fail();
    }

    /** The end of the input: an unfinished line is an error. */
    method OnEnd()
      requires Valid()
      modifies this`terminal, sink
      ensures Valid() && terminal && sink.emitted == old(sink.emitted)
      ensures !old(terminal) ==> (sink.failed <==> !Succeeds(RunOf(chunks, dec)))
    {
      if terminal { return; }
      if pending != [] {
        Stop();
        return;
      }
      terminal := true;
      sink.Finish();
    }

    /** An input error or close ends the lines without an error. */
    method OnClose()
      requires Valid()
      modifies this`terminal, this`pending, sink
      ensures Valid() && terminal && sink.emitted == old(sink.emitted) && sink.failed == old(sink.failed)
      ensures !old(terminal) ==> pending == []
    {
      if terminal { return; }
      terminal := true;
      pending := [];
      sink.Finish();
    }
  }
}
