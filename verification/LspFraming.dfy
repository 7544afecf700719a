/**
 * Framing of the Language Server Protocol 3.17, section "Base Protocol": a
 * header part that ends in a blank line, and a content part of the announced
 * length. `Drain` is the incremental parser, `Frame` the printer.
 */
module LspFraming {
  import opened GoalTypes
  import opened ByteStrings

  const CR: Byte := 13
  const LF: Byte := 10

  // ---------------------------------------------------------------------------
  // Scanning
  // ---------------------------------------------------------------------------

  predicate SeparatorAt(buffer: Bytes, i: nat) {
    i + 4 <= |buffer| && buffer[i] == CR && buffer[i + 1] == LF && buffer[i + 2] == CR && buffer[i + 3] == LF
  }

  /** Index of the first blank-line separator at or after `i`. */
  function IndexOfSeparator(buffer: Bytes, i: nat): (k: Option<nat>)
    ensures k.Some? ==> i <= k.value && SeparatorAt(buffer, k.value) && forall j :: i <= j < k.value ==>
        !SeparatorAt(buffer, j)
    ensures k.None? ==> forall j :: i <= j ==> !SeparatorAt(buffer, j)
    decreases |buffer| - i
  {
    if i + 4 > |buffer| then None
    else if SeparatorAt(buffer, i) then Some(i)
    else IndexOfSeparator(buffer, i + 1)
  }

  /** ASCII decoding drops the high bit of every byte. */
  function Ascii(bytes: Bytes): (t: Bytes)
    ensures |t| == |bytes|
    ensures forall i :: 0 <= i < |t| ==> t[i] == bytes[i] % 128
  {
    seq(|bytes|, i requires 0 <= i < |bytes| => bytes[i] % 128)
  }

  function Lower(c: Byte): Byte {
    if 'A' as int <= c <= 'Z' as int then c + 32 else c
  }

  function TextBytes(s: string): (t: Bytes)
    requires forall i :: 0 <= i < |s| ==> (s[i] as int) < 128
    ensures |t| == |s|
    ensures forall i :: 0 <= i < |t| ==> t[i] == s[i] as int
  {
    seq(|s|, i requires 0 <= i < |s| => s[i] as int)
  }

  const NAME := "content-length:"
  const NAME_LENGTH: nat := 15

  predicate NameAt(h: Bytes, i: nat) {
    i + NAME_LENGTH <= |h| && forall j :: 0 <= j < NAME_LENGTH ==> Lower(h[i + j]) == NAME[j] as int
  }

  predicate IsBlankByte(c: Byte) {
    9 <= c <= 13 || c == 32
  }

  predicate IsDigit(c: Byte) {
    48 <= c <= 57
  }

  function SkipBlanks(h: Bytes, i: nat): (k: nat)
    requires i <= |h|
    ensures i <= k <= |h|
    ensures k < |h| ==> !IsBlankByte(h[k])
    ensures forall j :: i <= j < k ==> IsBlankByte(h[j])
    decreases |h| - i
  {
    if i == |h| || !IsBlankByte(h[i]) then i else SkipBlanks(h, i + 1)
  }

  function DigitsEnd(h: Bytes, i: nat): (k: nat)
    requires i <= |h|
    ensures i <= k <= |h|
    ensures k < |h| ==> !IsDigit(h[k])
    ensures forall j :: i <= j < k ==> IsDigit(h[j])
    decreases |h| - i
  {
    if i == |h| || !IsDigit(h[i]) then i else DigitsEnd(h, i + 1)
  }

  function Value(digits: Bytes): nat
    requires forall d :: d in digits ==> IsDigit(d)
  {
    if digits == [] then 0
    else
      assert IsDigit(digits[|digits| - 1]);
      10 * Value(digits[..|digits| - 1]) + (digits[|digits| - 1] - 48)
  }

  /** The length announced by a header field that starts at `i`. */
  function LengthAt(h: Bytes, i: nat): Option<nat> {
    if !NameAt(h, i) then None
    else
      var from := SkipBlanks(h, i + NAME_LENGTH);
      var to := DigitsEnd(h, from);
      if from == to then None else Some(Value(h[from..to]))
  }

  /** The leftmost announced length: at the start of the header or after a line break. */
  function FindLength(h: Bytes, p: nat): Option<nat>
    decreases |h| - p
  {
    if p == 0 && LengthAt(h, 0).Some? then LengthAt(h, 0)
    else if p + 2 > |h| then None
    else if h[p] == CR && h[p + 1] == LF && LengthAt(h, p + 2).Some? then LengthAt(h, p + 2)
    else FindLength(h, p + 1)
  }

  // ---------------------------------------------------------------------------
  // Draining
  // ---------------------------------------------------------------------------

  datatype Item =
    | NeedMore
    | BadHeader(rest: Bytes)
    | Content(body: Bytes, rest: Bytes)

  /** What the front of the buffer holds. */
  function Front(buffer: Bytes): (item: Item)
    ensures !item.NeedMore? ==> |item.rest| < |buffer|
  {
    var separator := IndexOfSeparator(buffer, 0);
    if separator.None? then NeedMore
    else
      var start := separator.value + 4;
      var length := FindLength(Ascii(buffer[..separator.value]), 0);
      if length.None? then BadHeader(buffer[start..])
      else if |buffer| < start + length.value then NeedMore
      else Content(buffer[start..start + length.value], buffer[start + length.value..])
  }

  datatype Drained = Drained(bodies: seq<Bytes>, rest: Bytes)

  /** All complete contents in order, and the bytes that wait for more. */
  function Drain(buffer: Bytes): Drained
    decreases |buffer|
  {
    match Front(buffer)
    case NeedMore => Drained([], buffer)
    case BadHeader(rest) => Drain(rest)
    case Content(body, rest) => var d := Drain(rest); Drained([body] + d.bodies, d.rest)
  }

  lemma SeparatorIsStable(a: Bytes, b: Bytes)
    requires IndexOfSeparator(a, 0).Some?
    ensures IndexOfSeparator(a + b, 0) == IndexOfSeparator(a, 0)
    ensures IndexOfSeparator(a, 0).value + 4 <= |a|
  {
    var i := IndexOfSeparator(a, 0).value;
    assert forall j :: 0 <= j < |a| ==> (a + b)[j] == a[j];
    assert SeparatorAt(a + b, i);
    forall j | 0 <= j < i
      ensures !SeparatorAt(a + b, j)
    {
      assert !SeparatorAt(a, j);
    }
  }

  lemma SlicesAreStable(a: Bytes, b: Bytes, i: nat, j: nat)
    requires i <= j <= |a|
    ensures (a + b)[i..j] == a[i..j] && (a + b)[j..] == a[j..] + b
  {
  }

  /** More bytes behind a recognised front do not change it. */
  lemma FrontIsStable(a: Bytes, b: Bytes)
    requires !Front(a).NeedMore?
    ensures Front(a + b) == match Front(a)
      case NeedMore => NeedMore
      case BadHeader(rest) => BadHeader(rest + b)
      case Content(body, rest) => Content(body, rest + b)
  {
    hide IndexOfSeparator, FindLength, Ascii;
    SeparatorIsStable(a, b);
    var i := IndexOfSeparator(a, 0).value;
    SlicesAreStable(a, b, 0, i);
    SlicesAreStable(a, b, i, i + 4);
    var length := FindLength(Ascii(a[..i]), 0);
    if length.Some? {
      SlicesAreStable(a, b, i + 4, i + 4 + length.value);
    }
  }

  /** Draining a prefix first and the remainder later gives the same contents. */
  lemma {:induction false} DrainInTwo(a: Bytes, b: Bytes)
    ensures Drain(a + b) == Drained(Drain(a).bodies + Drain(Drain(a).rest + b).bodies, Drain(Drain(a).rest + b).rest)
    decreases |a|
  {
    match Front(a)
    case NeedMore =>
      assert [] + Drain(a + b).bodies == Drain(a + b).bodies;
    case BadHeader(rest) =>
      FrontIsStable(a, b);
      DrainInTwo(rest, b);
    case Content(body, rest) =>
      FrontIsStable(a, b);
      DrainInTwo(rest, b);
      var d, e := Drain(rest), Drain(Drain(rest).rest + b);
      assert [body] + (d.bodies + e.bodies) == ([body] + d.bodies) + e.bodies;
  }

  lemma DrainUnfolds(buffer: Bytes)
    ensures match Front(buffer)
      case NeedMore => Drain(buffer) == Drained([], buffer)
      case BadHeader(rest) => Drain(buffer) == Drain(rest)
      case Content(body, rest) => Drain(buffer) == Drained([body] + Drain(rest).bodies, Drain(rest).rest)
  {
  }

  function Concat(chunks: seq<Bytes>): Bytes {
    if chunks == [] then [] else Concat(chunks[..|chunks| - 1]) + chunks[|chunks| - 1]
  }

  /** The parser fed chunk by chunk. */
  function Feed(rest: Bytes, chunks: seq<Bytes>): Drained {
    if chunks == [] then Drained([], rest)
    else
      var before := Feed(rest, chunks[..|chunks| - 1]);
      var now := Drain(before.rest + chunks[|chunks| - 1]);
      Drained(before.bodies + now.bodies, now.rest)
  }

  lemma LastChunk(rest: Bytes, chunks: seq<Bytes>)
    requires chunks != []
    ensures var init, last := chunks[..|chunks| - 1], chunks[|chunks| - 1]; var before := Feed(rest, init);
      && rest + Concat(chunks) == (rest + Concat(init)) + last
      && Feed(rest, chunks) == Drained(before.bodies + Drain(before.rest + last).bodies, Drain(before.rest + last).rest)
  {
    hide Drain;
  }

  /**
   * However a stream, malformed headers included, is cut into chunks, the contents
   * handled depend on the bytes alone.
   */
  lemma {:induction false} ChunksDoNotMatter(rest: Bytes, chunks: seq<Bytes>)
    requires Drain(rest) == Drained([], rest)
    ensures Feed(rest, chunks) == Drain(rest + Concat(chunks))
    decreases |chunks|
  {
    if chunks == [] {
      assert rest + [] == rest;
    } else {
      hide Drain, Feed, Concat;
      var init, last := chunks[..|chunks| - 1], chunks[|chunks| - 1];
      ChunksDoNotMatter(rest, init);
      DrainInTwo(rest + Concat(init), last);
      LastChunk(rest, chunks);
    }
  }

  // ---------------------------------------------------------------------------
  // Handlers that throw
  // ---------------------------------------------------------------------------

  /** The contents handled until one stops the loop, that one included, and the bytes left in the buffer. */
  function DrainUntil(buffer: Bytes, stops: Bytes -> bool): Drained
    decreases |buffer|
  {
    match Front(buffer)
    case NeedMore => Drained([], buffer)
    case BadHeader(rest) => DrainUntil(rest, stops)
    case Content(body, rest) =>
      if stops(body) then Drained([body], rest)
      else var d := DrainUntil(rest, stops); Drained([body] + d.bodies, d.rest)
  }

  predicate StopsOnlyLast(bodies: seq<Bytes>, stops: Bytes -> bool) {
    forall i :: 0 <= i < |bodies| - 1 ==> !stops(bodies[i])
  }

  /** `d` is an intermediate state of draining `buffer`: what it has not handled is still in its rest, in order. */
  ghost predicate IsPartway(buffer: Bytes, d: Drained) {
    Drain(buffer) == Drained(d.bodies + Drain(d.rest).bodies, Drain(d.rest).rest)
  }

  /** Complete contents are left over only behind one that stops the loop. */
  ghost predicate WaitsForReason(d: Drained, stops: Bytes -> bool) {
    Drain(d.rest).bodies != [] ==> d.bodies != [] && stops(d.bodies[|d.bodies| - 1])
  }

  lemma DrainUntilUnfolds(buffer: Bytes, stops: Bytes -> bool)
    ensures match Front(buffer)
      case NeedMore => DrainUntil(buffer, stops) == Drained([], buffer)
      case BadHeader(rest) => DrainUntil(buffer, stops) == DrainUntil(rest, stops)
      case Content(body, rest) =>
        DrainUntil(buffer, stops) == if stops(body) then Drained([body], rest)
                                     else Drained([body] + DrainUntil(rest, stops).bodies, DrainUntil(rest, stops).rest)
  {
  }

  /** Stopping loses nothing, and happens only at the last content handled. */
  lemma {:induction false} DrainUntilKeeps(buffer: Bytes, stops: Bytes -> bool)
    ensures var d := DrainUntil(buffer, stops);
        IsPartway(buffer, d) && WaitsForReason(d, stops) && StopsOnlyLast(d.bodies, stops)
    decreases |buffer|
  {
    hide Drain, DrainUntil, Front;
    DrainUnfolds(buffer);
    DrainUntilUnfolds(buffer, stops);
    match Front(buffer)
    case NeedMore =>
    case BadHeader(rest) => DrainUntilKeeps(rest, stops);
    case Content(body, rest) =>
      if !stops(body) {
        DrainUntilKeeps(rest, stops);
        var d := DrainUntil(rest, stops);
        assert [body] + (d.bodies + Drain(d.rest).bodies) == ([body] + d.bodies) + Drain(d.rest).bodies;
      }
  }

  /** The parser fed chunk by chunk, each chunk until a content stops it. */
  function FeedUntil(rest: Bytes, chunks: seq<Bytes>, stops: Bytes -> bool): Drained {
    if chunks == [] then Drained([], rest)
    else
      var before := FeedUntil(rest, chunks[..|chunks| - 1], stops);
      var now := DrainUntil(before.rest + chunks[|chunks| - 1], stops);
      Drained(before.bodies + now.bodies, now.rest)
  }

  lemma LastChunkUntil(rest: Bytes, chunks: seq<Bytes>, stops: Bytes -> bool)
    requires chunks != []
    ensures var init, last := chunks[..|chunks| - 1], chunks[|chunks| - 1]; var before := FeedUntil(rest, init, stops);
      var now := DrainUntil(before.rest + last, stops);
      && rest + Concat(chunks) == (rest + Concat(init)) + last
      && FeedUntil(rest, chunks, stops) == Drained(before.bodies + now.bodies, now.rest)
  {
    hide DrainUntil;
  }

  /** One more chunk keeps the state partway. */
  lemma FeedingAChunk(stream: Bytes, before: Drained, last: Bytes, stops: Bytes -> bool)
    requires IsPartway(stream, before)
    ensures var now := DrainUntil(before.rest + last, stops);
      IsPartway(stream + last, Drained(before.bodies + now.bodies, now.rest))
  {
    hide Drain, DrainUntil;
    var now := DrainUntil(before.rest + last, stops);
    var waiting := Drain(before.rest);
    var more := Drain(waiting.rest + last);
    DrainInTwo(stream, last);
    DrainInTwo(before.rest, last);
    DrainUntilKeeps(before.rest + last, stops);
    assert (before.bodies + waiting.bodies) + more.bodies == before.bodies + (waiting.bodies + more.bodies);
    assert before.bodies + (now.bodies + Drain(now.rest).bodies)
        == (before.bodies + now.bodies) + Drain(now.rest).bodies;
  }

  lemma WaitsAfterChunk(bodies: seq<Bytes>, buffer: Bytes, stops: Bytes -> bool)
    ensures var now := DrainUntil(buffer, stops); WaitsForReason(Drained(bodies + now.bodies, now.rest), stops)
  {
    hide Drain, DrainUntil;
    DrainUntilKeeps(buffer, stops);
    var now := DrainUntil(buffer, stops);
    assert now.bodies != [] ==> (bodies + now.bodies)[|bodies + now.bodies| - 1] == now.bodies[|now.bodies| - 1];
  }

  /**
   * However the stream is cut, every content is handled or still in the buffer, in
   * order; one is left only after a stop.
   */
  lemma {:induction false} FeedingLosesNothing(rest: Bytes, chunks: seq<Bytes>, stops: Bytes -> bool)
    ensures var f := FeedUntil(rest, chunks, stops);
      && IsPartway(rest + Concat(chunks), f)
      && (chunks != [] || Drain(rest).bodies == [] ==> WaitsForReason(f, stops))
    decreases |chunks|
  {
    if chunks == [] {
      assert rest + [] == rest;
    } else {
      hide Drain, DrainUntil, FeedUntil, Concat, IsPartway, WaitsForReason;
      var init, last := chunks[..|chunks| - 1], chunks[|chunks| - 1];
      FeedingLosesNothing(rest, init, stops);
      LastChunkUntil(rest, chunks, stops);
      var before := FeedUntil(rest, init, stops);
      FeedingAChunk(rest + Concat(init), before, last, stops);
      WaitsAfterChunk(before.bodies, before.rest + last, stops);
    }
  }

  /** What draining leaves over is drained. */
  lemma {:induction false} RestIsDrained(a: Bytes)
    ensures Drain(Drain(a).rest) == Drained([], Drain(a).rest)
    decreases |a|
  {
    match Front(a)
    case NeedMore =>
    case BadHeader(rest) => RestIsDrained(rest);
    case Content(body, rest) => RestIsDrained(rest);
  }

  /**
   * Every way of cutting a stream handles all of its contents if and only if no
   * content but the last one stops the loop.
   */
  lemma AllHandledIff(stream: Bytes, stops: Bytes -> bool)
    ensures (forall chunks: seq<Bytes> :: Concat(chunks) == stream ==>
        FeedUntil([], chunks, stops).bodies == Drain(stream).bodies)
       <==> StopsOnlyLast(Drain(stream).bodies, stops)
  {
    hide Drain, DrainUntil, FeedUntil, Concat;
    NothingToDrain();
    if StopsOnlyLast(Drain(stream).bodies, stops) {
      forall chunks: seq<Bytes> | Concat(chunks) == stream
        ensures FeedUntil([], chunks, stops).bodies == Drain(stream).bodies
      {
        FeedingLosesNothing([], chunks, stops);
        assert [] + Concat(chunks) == stream;
        NothingWaits(stream, FeedUntil([], chunks, stops), stops);
      }
    } else {
      OneChunk(stream, stops);
      DrainUntilKeeps(stream, stops);
      assert Concat([stream]) == stream && FeedUntil([], [stream], stops).bodies != Drain(stream).bodies;
    }
  }

  lemma NothingWaits(stream: Bytes, f: Drained, stops: Bytes -> bool)
    requires IsPartway(stream, f) && WaitsForReason(f, stops) && StopsOnlyLast(Drain(stream).bodies, stops)
    ensures f.bodies == Drain(stream).bodies
  {
    hide Drain;
    var waiting := Drain(f.rest).bodies;
    assert f.bodies != [] ==> (f.bodies + waiting)[|f.bodies| - 1] == f.bodies[|f.bodies| - 1];
    assert waiting == [] ==> f.bodies + waiting == f.bodies;
  }

  lemma NothingToDrain()
    ensures Drain([]) == Drained([], [])
  {
  }

  lemma OneChunk(stream: Bytes, stops: Bytes -> bool)
    ensures Concat([stream]) == stream
    ensures FeedUntil([], [stream], stops) == DrainUntil(stream, stops)
  {
    hide DrainUntil;
    assert [stream][..0] == [] && [] + stream == stream;
    assert Concat([stream][..0]) == [] && FeedUntil([], [stream][..0], stops) == Drained([], []);
    assert [] + DrainUntil(stream, stops).bodies == DrainUntil(stream, stops).bodies;
  }

  // ---------------------------------------------------------------------------
  // Printing
  // ---------------------------------------------------------------------------

  function DecimalBytes(n: nat): (d: Bytes)
    ensures d != [] && forall x :: x in d ==> IsDigit(x)
  {
    if n < 10 then [48 + n] else DecimalBytes(n / 10) + [48 + n % 10]
  }

  lemma {:induction false} DecimalValue(n: nat)
    ensures Value(DecimalBytes(n)) == n
  {
    if n >= 10 {
      DecimalValue(n / 10);
      assert DecimalBytes(n)[..|DecimalBytes(n)| - 1] == DecimalBytes(n / 10);
    } else {
      assert DecimalBytes(n)[..0] == [];
    }
  }

  const HEADER_NAME := "Content-Length: "

  function HeaderText(n: nat): Bytes {
    TextBytes(HEADER_NAME) + DecimalBytes(n)
  }

  const BLANK_LINE: Bytes := [CR, LF, CR, LF]

  /** What `send` writes for one message. */
  function Frame(body: Bytes): Bytes {
    HeaderText(|body|) + BLANK_LINE + body
  }

  lemma HeaderNameParses(h: Bytes, n: nat)
    requires h == HeaderText(n)
    ensures NameAt(h, 0) && |h| == 16 + |DecimalBytes(n)| && h[15] == 32
    ensures forall i :: 16 <= i < |h| ==> h[i] == DecimalBytes(n)[i - 16]
    ensures forall i :: 0 <= i < |h| ==> h[i] != CR && h[i] < 128
  {
    assert forall i :: 0 <= i < 16 ==> h[i] == HEADER_NAME[i] as int;
    assert forall i :: 16 <= i < |h| ==> h[i] == DecimalBytes(n)[i - 16] && IsDigit(h[i]);
  }

  lemma HeaderAnnounces(n: nat)
    ensures FindLength(HeaderText(n), 0) == Some(n)
  {
    var h := HeaderText(n);
    HeaderNameParses(h, n);
    var d := DecimalBytes(n);
    assert IsDigit(d[0]) && h[16] == d[0];
    assert SkipBlanks(h, 15) == 16;
    assert forall i :: 16 <= i < |h| ==> IsDigit(h[i]);
    assert DigitsEnd(h, 16) == |h|;
    assert h[16..|h|] == d;
    DecimalValue(n);
  }

  /** A framed message is recognised whatever follows it. */
  lemma FramedMessageIsRead(body: Bytes, more: Bytes)
    ensures Front(Frame(body) + more) == Content(body, more)
  {
    hide HeaderText, FindLength, IndexOfSeparator;
    var h := HeaderText(|body|);
    HeaderNameParses(h, |body|);
    HeaderAnnounces(|body|);
    assert Frame(body) + more == h + BLANK_LINE + (body + more);
    SeparatorFollowsHeader(h, body + more);
    assert Ascii(h) == h;
    assert (body + more)[..|body|] == body && (body + more)[|body|..] == more;
    var buffer := h + BLANK_LINE + (body + more);
    assert buffer[|h| + 4..] == body + more;
    assert buffer[|h| + 4..|h| + 4 + |body|] == body;
    assert buffer[|h| + 4 + |body|..] == more;
  }

  lemma SeparatorFollowsHeader(h: Bytes, tail: Bytes)
    requires forall i :: 0 <= i < |h| ==> h[i] != CR
    ensures IndexOfSeparator(h + BLANK_LINE + tail, 0) == Some(|h|)
    ensures (h + BLANK_LINE + tail)[..|h|] == h
  {
    var buffer := h + BLANK_LINE + tail;
    assert forall j :: 0 <= j < |h| ==> buffer[j] == h[j];
    assert SeparatorAt(buffer, |h|);
  }

  function FrameAll(bodies: seq<Bytes>): Bytes {
    if bodies == [] then [] else Frame(bodies[0]) + FrameAll(bodies[1..])
  }

  lemma {:induction false} FramedMessagesAreRead(bodies: seq<Bytes>)
    ensures Drain(FrameAll(bodies)) == Drained(bodies, [])
    decreases |bodies|
  {
    if bodies == [] {
      NothingToDrain();
    } else {
      hide Frame, Front, Drain;
      var tail := FrameAll(bodies[1..]);
      assert FrameAll(bodies) == Frame(bodies[0]) + tail;
      hide FrameAll;
      DrainUnfolds(FrameAll(bodies));
      FramedMessageIsRead(bodies[0], tail);
      FramedMessagesAreRead(bodies[1..]);
      assert [bodies[0]] + bodies[1..] == bodies;
    }
  }

  /** Messages framed by `send`, cut at arbitrary bytes, are handled exactly once, in order, with nothing left over. */
  lemma FramingRoundTrip(bodies: seq<Bytes>, chunks: seq<Bytes>)
    requires Concat(chunks) == FrameAll(bodies)
    ensures Feed([], chunks) == Drained(bodies, [])
  {
    ChunksDoNotMatter([], chunks);
    assert [] + Concat(chunks) == Concat(chunks);
    FramedMessagesAreRead(bodies);
  }
}
