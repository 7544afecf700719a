/**
 * A language server that exits and is started again: the client keeps the bytes
 * it had not consumed, and the new server's messages arrive behind them.
 */
module LspRestart {
  import opened GoalTypes
  import opened ByteStrings
  import opened LspFraming

  predicate EndsLine(h: Bytes) {
    |h| >= 2 && h[|h| - 2] == CR && h[|h| - 1] == LF
  }

  /** No complete header, no announced length, and the next byte starts a line. */
  predicate IsCleanBreak(rest: Bytes) {
    && IndexOfSeparator(rest, 0).None?
    && FindLength(Ascii(rest), 0).None?
    && (rest == [] || EndsLine(Ascii(rest)))
  }

  // ---------------------------------------------------------------------------
  // Headers behind left-over bytes
  // ---------------------------------------------------------------------------

  lemma SeparatorBehind(rest: Bytes, n: nat, tail: Bytes)
    requires IndexOfSeparator(rest, 0).None?
    ensures IndexOfSeparator(rest + HeaderText(n) + BLANK_LINE + tail, 0) == Some(|rest| + |HeaderText(n)|)
  {
    var h := HeaderText(n);
    HeaderStart(n);
    var buffer := rest + h + BLANK_LINE + tail;
    assert forall j :: 0 <= j < |rest| ==> buffer[j] == rest[j];
    assert forall j :: 0 <= j < |h| ==> buffer[|rest| + j] == h[j];
    assert buffer[|rest| + 0] == 67;
    forall j | 0 <= j < |rest| + |h|
      ensures !SeparatorAt(buffer, j)
    {
      if j + 4 <= |rest| {
        assert !SeparatorAt(rest, j);
      } else if j >= |rest| {
        assert buffer[j] == h[j - |rest|];
      }
    }
    assert SeparatorAt(buffer, |rest| + |h|);
  }

  lemma {:induction false} SkipBlanksBehind(a: Bytes, t: Bytes, i: nat)
    requires i <= |a| && t != [] && !IsBlankByte(t[0])
    ensures SkipBlanks(a + t, i) == SkipBlanks(a, i)
    decreases |a| - i
  {
    if i < |a| {
      assert (a + t)[i] == a[i];
      if IsBlankByte(a[i]) {
        SkipBlanksBehind(a, t, i + 1);
      }
    } else {
      assert (a + t)[i] == t[0];
    }
  }

  lemma {:induction false} DigitsEndBehind(a: Bytes, t: Bytes, i: nat)
    requires i <= |a| && t != [] && !IsDigit(t[0])
    ensures DigitsEnd(a + t, i) == DigitsEnd(a, i)
    decreases |a| - i
  {
    if i < |a| {
      assert (a + t)[i] == a[i];
      if IsDigit(a[i]) {
        DigitsEndBehind(a, t, i + 1);
      }
    } else {
      assert (a + t)[i] == t[0];
    }
  }

  lemma SameName(h: Bytes, i: nat, t: Bytes, k: nat)
    requires i + NAME_LENGTH <= |h| && k + NAME_LENGTH <= |t|
    requires h[i..i + NAME_LENGTH] == t[k..k + NAME_LENGTH]
    ensures NameAt(h, i) == NameAt(t, k)
  {
    var name := h[i..i + NAME_LENGTH];
    if NameAt(h, i) {
      forall j | 0 <= j < NAME_LENGTH
        ensures Lower(t[k + j]) == NAME[j] as int
      {
        assert name[j] == h[i + j] == t[k + j];
      }
    }
    if NameAt(t, k) {
      forall j | 0 <= j < NAME_LENGTH
        ensures Lower(h[i + j]) == NAME[j] as int
      {
        assert name[j] == h[i + j] == t[k + j];
      }
    }
  }

  lemma HeaderStart(n: nat)
    ensures HeaderText(n) != [] && HeaderText(n)[0] == 67
    ensures forall i :: 0 <= i < |HeaderText(n)| ==> HeaderText(n)[i] != CR
  {
    HeaderNameParses(HeaderText(n), n);
    assert HEADER_NAME[0] == 'C';
  }

  /** The header name does not begin inside the left-over bytes and end behind them: its first letter does not recur. */
  lemma NameDoesNotStraddle(a: Bytes, t: Bytes, i: nat)
    requires i < |a| < i + NAME_LENGTH && t != [] && t[0] == 67
    ensures !NameAt(a + t, i)
  {
    var m := |a| - i;
    assert (a + t)[i + m] == 67 && Lower(67) == 99;
    assert NAME[m] != 'c';
  }

  /** A header field in the left-over bytes is read as before. */
  lemma LengthInFront(a: Bytes, n: nat, i: nat)
    requires i < |a|
    ensures LengthAt(a + HeaderText(n), i) == LengthAt(a, i)
  {
    hide NameAt, HeaderText, Value;
    var t := HeaderText(n);
    HeaderStart(n);
    if i + NAME_LENGTH <= |a| {
      assert (a + t)[i..i + NAME_LENGTH] == a[i..i + NAME_LENGTH];
      SameName(a + t, i, a, i);
      SkipBlanksBehind(a, t, i + NAME_LENGTH);
      var from := SkipBlanks(a, i + NAME_LENGTH);
      DigitsEndBehind(a, t, from);
      assert (a + t)[from..DigitsEnd(a, from)] == a[from..DigitsEnd(a, from)];
    } else {
      NameDoesNotStraddle(a, t, i);
      NameIsLong(a, i);
    }
  }

  lemma NameIsLong(h: Bytes, i: nat)
    ensures NameAt(h, i) ==> i + NAME_LENGTH <= |h|
  {
  }

  lemma {:induction false} SkipBlanksShift(a: Bytes, t: Bytes, i: nat)
    requires i <= |t|
    ensures SkipBlanks(a + t, |a| + i) == |a| + SkipBlanks(t, i)
    decreases |t| - i
  {
    if i < |t| && IsBlankByte(t[i]) {
      SkipBlanksShift(a, t, i + 1);
    }
  }

  lemma {:induction false} DigitsEndShift(a: Bytes, t: Bytes, i: nat)
    requires i <= |t|
    ensures DigitsEnd(a + t, |a| + i) == |a| + DigitsEnd(t, i)
    decreases |t| - i
  {
    if i < |t| && IsDigit(t[i]) {
      DigitsEndShift(a, t, i + 1);
    }
  }

  lemma LengthBehind(a: Bytes, t: Bytes)
    requires |t| >= NAME_LENGTH
    ensures LengthAt(a + t, |a|) == LengthAt(t, 0)
  {
    hide NameAt, Value;
    var h := a + t;
    assert h[|a|..|a| + NAME_LENGTH] == t[..NAME_LENGTH];
    SameName(h, |a|, t, 0);
    SkipBlanksShift(a, t, NAME_LENGTH);
    var from := SkipBlanks(t, NAME_LENGTH);
    DigitsEndShift(a, t, from);
    assert h[|a| + from..|a| + DigitsEnd(t, from)] == t[from..DigitsEnd(t, from)];
  }

  lemma HeaderLength(n: nat)
    ensures |HeaderText(n)| >= NAME_LENGTH && LengthAt(HeaderText(n), 0) == Some(n)
  {
    hide LengthAt, HeaderText;
    HeaderAnnounces(n);
    HeaderNameParses(HeaderText(n), n);
    if LengthAt(HeaderText(n), 0).None? {
      NoLengthWithin(HeaderText(n), 0);
    }
  }

  lemma {:induction false} NoLengthWithin(t: Bytes, p: nat)
    requires forall i :: p <= i < |t| ==> t[i] != CR
    requires p == 0 ==> LengthAt(t, 0).None?
    ensures FindLength(t, p).None?
    decreases |t| - p
  {
    if p + 2 <= |t| {
      NoLengthWithin(t, p + 1);
    }
  }

  predicate OpensLine(a: Bytes, p: nat) {
    if a == [] then p == 0 else EndsLine(a) && p + 2 <= |a|
  }

  /** Which length a header behind left-over bytes announces. */
  lemma {:induction false} LengthOfBoth(a: Bytes, n: nat, p: nat)
    requires p <= |a|
    ensures FindLength(a + HeaderText(n), p)
         == if FindLength(a, p).Some? then FindLength(a, p) else if OpensLine(a, p) then Some(n) else None
    decreases |a| - p
  {
    hide LengthAt, HeaderText;
    var h := a + HeaderText(n);
    HeaderLength(n);
    LengthBehind(a, HeaderText(n));
    if |a| > 0 {
      LengthInFront(a, n, 0);
    }
    if p + 2 > |a| {
      if |a| == 0 {
        NothingAtTheEnd(a);
      } else if !(p == 0 && LengthAt(a, 0).Some?) {
        BeyondTheEdge(a, n, p);
      }
    } else {
      assert h[p] == a[p] && h[p + 1] == a[p + 1];
      if p + 2 < |a| {
        LengthInFront(a, n, p + 2);
      } else {
        NothingAtTheEnd(a);
      }
      LengthOfBoth(a, n, p + 1);
    }
  }

  lemma NothingAtTheEnd(a: Bytes)
    ensures LengthAt(a, |a|).None?
  {
  }

  lemma BeyondTheEdge(a: Bytes, n: nat, p: nat)
    requires 0 < |a| < p + 2 && p <= |a|
    requires p == 0 ==> LengthAt(a + HeaderText(n), 0).None?
    ensures FindLength(a + HeaderText(n), p).None?
  {
    hide LengthAt, HeaderText;
    var t := HeaderText(n);
    var h := a + t;
    HeaderStart(n);
    assert h[|a|] == t[0];
    forall i | |a| <= i < |h|
      ensures h[i] != CR
    {
      assert h[i] == t[i - |a|];
    }
    NoLengthWithin(h, |a|);
  }

  // ---------------------------------------------------------------------------
  // The first message after a restart
  // ---------------------------------------------------------------------------

  lemma AsciiBehind(rest: Bytes, n: nat)
    ensures Ascii(rest + HeaderText(n)) == Ascii(rest) + HeaderText(n)
  {
    HeaderNameParses(HeaderText(n), n);
  }

  /** What the parser makes of a framed message behind bytes without a complete header. */
  lemma FrameBehind(rest: Bytes, body: Bytes, tail: Bytes)
    requires IndexOfSeparator(rest, 0).None?
    ensures var a := Ascii(rest); var content := body + tail; var item := Front(rest + Frame(body) + tail);
      match if FindLength(a, 0).Some? then FindLength(a, 0) else if OpensLine(a, 0) then Some(|body|) else None
      case None => item == BadHeader(content)
      case Some(length) =>
        item == if length <= |content| then Content(content[..length], content[length..]) else NeedMore
  {
    hide HeaderText, FindLength, IndexOfSeparator, OpensLine;
    var h := HeaderText(|body|);
    var buffer := rest + Frame(body) + tail;
    assert buffer == rest + h + BLANK_LINE + (body + tail);
    SeparatorBehind(rest, |body|, body + tail);
    var i := |rest| + |h|;
    assert buffer[..i] == rest + h;
    assert buffer[i + 4..] == body + tail;
    AsciiBehind(rest, |body|);
    LengthOfBoth(Ascii(rest), |body|, 0);
    var length := FindLength(Ascii(buffer[..i]), 0);
    if length.Some? && length.value <= |body + tail| {
      assert buffer[i + 4..i + 4 + length.value] == (body + tail)[..length.value];
      assert buffer[i + 4 + length.value..] == (body + tail)[length.value..];
    }
  }

  /** A body of `n` zero bytes. */
  function Zeros(n: nat): (z: Bytes)
    ensures |z| == n
  {
    seq(n, _ => 0 as Byte)
  }

  lemma CleanBreakReads(rest: Bytes, bodies: seq<Bytes>)
    requires IsCleanBreak(rest) && Drain(rest) == Drained([], rest)
    ensures Drain(rest + FrameAll(bodies)).bodies == bodies
  {
    hide Drain, Front, Frame, FindLength, IndexOfSeparator;
    if bodies == [] {
      assert rest + [] == rest;
    } else {
      var body, tail := bodies[0], FrameAll(bodies[1..]);
      FrameBehind(rest, body, tail);
      assert rest + FrameAll(bodies) == rest + Frame(body) + tail;
      assert (body + tail)[..|body|] == body && (body + tail)[|body|..] == tail;
      DrainUnfolds(rest + FrameAll(bodies));
      FramedMessagesAreRead(bodies[1..]);
      assert [body] + bodies[1..] == bodies;
    }
  }

  lemma OneFrame(body: Bytes)
    ensures FrameAll([body]) == Frame(body)
  {
    assert FrameAll([body][1..]) == [];
    assert Frame(body) + [] == Frame(body);
  }

  /** The first content read, if there is one, is not `body`. */
  ghost predicate ReadsOther(buffer: Bytes, body: Bytes) {
    Drain(buffer).bodies == [] || Drain(buffer).bodies[0] != body
  }

  /** A complete header in the left-over bytes swallows a long enough message. */
  lemma PendingContentMisreads(rest: Bytes) returns (body: Bytes)
    requires IndexOfSeparator(rest, 0).Some? && Front(rest).NeedMore?
    ensures ReadsOther(rest + FrameAll([body]), body)
  {
    hide Drain, FindLength, IndexOfSeparator, Frame;
    var i := IndexOfSeparator(rest, 0).value;
    var length := FindLength(Ascii(rest[..i]), 0);
    assert length.Some?;
    body := Zeros(length.value + 1);
    OneFrame(body);
    SeparatorIsStable(rest, Frame(body));
    var buffer := rest + Frame(body);
    assert buffer[..i] == rest[..i];
    assert |Frame(body)| >= |body| by { FrameIsLonger(body); }
    DrainUnfolds(buffer);
    assert Front(buffer).Content? && |Front(buffer).body| == length.value;
    assert Drain(buffer).bodies[0] == Front(buffer).body;
  }

  lemma FrameIsLonger(body: Bytes)
    ensures |Frame(body)| >= |body|
  {
  }

  /** So do a length announced in an incomplete header, and left-over bytes in front of the header name. */
  lemma BrokenHeaderMisreads(rest: Bytes) returns (body: Bytes)
    requires IndexOfSeparator(rest, 0).None? && !IsCleanBreak(rest)
    ensures ReadsOther(rest + FrameAll([body]), body)
  {
    hide Drain, Front, FindLength, IndexOfSeparator, Frame;
    var announced := FindLength(Ascii(rest), 0);
    body := if announced.Some? then Zeros(announced.value + 1) else [];
    OneFrame(body);
    FrameBehind(rest, body, []);
    var buffer := rest + Frame(body);
    assert buffer + [] == buffer && body + [] == body;
    DrainUnfolds(buffer);
    if announced.Some? {
      assert |Front(buffer).body| == announced.value;
      assert Drain(buffer).bodies[0] == Front(buffer).body;
    } else {
      NothingToDrain();
    }
  }

  /** A content that the old server left complete is read first. */
  lemma CompleteContentMisreads(rest: Bytes) returns (body: Bytes)
    requires Drain(rest).bodies != []
    ensures ReadsOther(rest + FrameAll([body]), body)
  {
    hide Drain, FrameAll;
    body := Zeros(|Drain(rest).bodies[0]| + 1);
    DrainInTwo(rest, FrameAll([body]));
  }

  lemma SomethingMisreads(rest: Bytes) returns (body: Bytes)
    requires Drain(rest).bodies != [] || !IsCleanBreak(Drain(rest).rest)
    ensures ReadsOther(rest + FrameAll([body]), body)
  {
    hide Drain, Front, IsCleanBreak, FrameAll, IndexOfSeparator;
    if Drain(rest).bodies != [] {
      body := CompleteContentMisreads(rest);
    } else {
      var left := Drain(rest).rest;
      RestIsDrained(rest);
      if IndexOfSeparator(left, 0).Some? {
        NothingComplete(left);
        body := PendingContentMisreads(left);
      } else {
        body := BrokenHeaderMisreads(left);
      }
      DrainInTwo(rest, FrameAll([body]));
      assert [] + Drain(left + FrameAll([body])).bodies == Drain(left + FrameAll([body])).bodies;
    }
  }

  lemma OtherIsNotOnly(buffer: Bytes, rest: Bytes, body: Bytes, stops: Bytes -> bool)
    requires buffer == rest + FrameAll([body]) && ReadsOther(buffer, body)
    ensures Concat([FrameAll([body])]) == FrameAll([body])
    ensures FeedUntil(rest, [FrameAll([body])], stops).bodies != [body]
  {
    hide Drain, DrainUntil, FeedUntil, FrameAll;
    var stream := FrameAll([body]);
    OneChunk(stream, stops);
    FeedingLosesNothing(rest, [stream], stops);
    var f := FeedUntil(rest, [stream], stops);
    assert f.bodies == [body] ==> (f.bodies + Drain(f.rest).bodies)[0] == body;
  }

  /**
   * After a restart everything the new server sends is handled as it was sent, in
   * whatever chunks, if and only if the buffer of the old server holds no complete
   * content, behind an exception for instance, and what is left of it is a clean break.
   */
  lemma RestartSurvivesIff(rest: Bytes, stops: Bytes -> bool)
    ensures (forall bodies: seq<Bytes>, chunks: seq<Bytes> ::
        Concat(chunks) == FrameAll(bodies) && StopsOnlyLast(bodies, stops) ==>
        FeedUntil(rest, chunks, stops).bodies == bodies)
       <==> Drain(rest).bodies == [] && IsCleanBreak(Drain(rest).rest)
  {
    hide Drain, DrainUntil, FeedUntil, Concat, Front, IsCleanBreak, FrameAll;
    if Drain(rest).bodies == [] && IsCleanBreak(Drain(rest).rest) {
      forall bodies: seq<Bytes>, chunks: seq<Bytes> | Concat(chunks) == FrameAll(bodies) && StopsOnlyLast(bodies, stops)
        ensures FeedUntil(rest, chunks, stops).bodies == bodies
      {
        RestIsDrained(rest);
        CleanBreakReads(Drain(rest).rest, bodies);
        DrainInTwo(rest, FrameAll(bodies));
        assert [] + bodies == bodies;
        FeedingLosesNothing(rest, chunks, stops);
        NothingWaits(rest + FrameAll(bodies), FeedUntil(rest, chunks, stops), stops);
      }
    } else {
      var body := SomethingMisreads(rest);
      OtherIsNotOnly(rest + FrameAll([body]), rest, body, stops);
      assert StopsOnlyLast([body], stops);
    }
  }

  lemma NothingComplete(rest: Bytes)
    requires Drain(rest) == Drained([], rest)
    ensures Front(rest).NeedMore?
  {
    DrainUnfolds(rest);
    if Front(rest).BadHeader? {
      DrainIsShorter(Front(rest).rest);
    }
  }

  lemma {:induction false} DrainIsShorter(buffer: Bytes)
    ensures |Drain(buffer).rest| <= |buffer|
    decreases |buffer|
  {
    match Front(buffer)
    case NeedMore =>
    case BadHeader(rest) => DrainIsShorter(rest);
    case Content(body, rest) => DrainIsShorter(rest);
  }
}
