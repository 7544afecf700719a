/**
 * The language-server client: bytes from the server drive the parser, and
 * responses settle the requests that wait for them. Parsing a content as JSON
 * is a parameter. A content that is the JSON value `null`, and a notification
 * whose listener throws, throw out of the loop; the rest of the buffer then
 * waits for the next chunk.
 */
module LspProcess {
  import opened GoalTypes
  import opened ByteStrings
  import opened LspFraming

  type RequestId = nat

  /** What the client reads in a message: a numeric id, an error member, a method. */
  datatype Message = Message(id: Option<RequestId>, isError: bool, method_: Option<string>)

  datatype Settlement = Resolved | Rejected | TimedOut | ServerGone

  /** Requests that wait, requests that are settled and how, and notifications passed on, in order. */
  datatype Table = Table(
      nextId: RequestId, pending: set<RequestId>, settled: map<RequestId, Settlement>, notified: seq<string>)

  function Handle(t: Table, m: Message): Table {
    if m.id.Some? then
      if m.id.value in t.pending then
        t.(pending := t.pending - {m.id.value},
           settled := t.settled[m.id.value := if m.isError then Rejected else Resolved])
      else t
    else if m.method_.Some? && m.method_.value != "" then t.(notified := t.notified + [m.method_.value])
    else t
  }

  datatype Parsed = NotJson | NullValue | Json(message: Message)

  /** How contents parse, and for which notifications the listener throws. */
  datatype Reader = Reader(parse: Bytes -> Parsed, listenerThrows: Message -> bool)

  predicate IsNotification(m: Message) {
    m.id.None? && m.method_.Some? && m.method_.value != ""
  }

  /** Handling this content throws. */
  predicate Throws(reader: Reader, body: Bytes) {
    var p := reader.parse(body);
    p.NullValue? || (p.Json? && IsNotification(p.message) && reader.listenerThrows(p.message))
  }

  function Stops(reader: Reader): Bytes -> bool {
    body => Throws(reader, body)
  }

  /** Contents that are not JSON are dropped, and `null` settles nothing. */
  function HandleBodies(t: Table, bodies: seq<Bytes>, reader: Reader): Table {
    if bodies == [] then t
    else
      var before := HandleBodies(t, bodies[..|bodies| - 1], reader);
      var p := reader.parse(bodies[|bodies| - 1]);
      if p.Json? then Handle(before, p.message) else before
  }

  /** Every request issued so far is either waiting or settled, never both. */
  ghost predicate Accounted(t: Table) {
    && (forall id :: id in t.pending ==> 1 <= id <= t.nextId && id !in t.settled)
    && (forall id :: id in t.settled ==> 1 <= id <= t.nextId)
    && (forall id :: 1 <= id <= t.nextId ==> id in t.pending || id in t.settled)
  }

  /** Settled requests stay settled the same way. */
  predicate SettlementsKept(a: Table, b: Table) {
    forall id :: id in a.settled ==> id in b.settled && b.settled[id] == a.settled[id]
  }

  lemma {:induction false} HandlingKeepsAccounts(t: Table, bodies: seq<Bytes>, reader: Reader)
    requires Accounted(t)
    ensures Accounted(HandleBodies(t, bodies, reader)) && SettlementsKept(t, HandleBodies(t, bodies, reader))
    ensures HandleBodies(t, bodies, reader).nextId == t.nextId
  {
    if bodies != [] {
      HandlingKeepsAccounts(t, bodies[..|bodies| - 1], reader);
    }
  }

  lemma NothingHandled(t: Table, reader: Reader)
    ensures HandleBodies(t, [], reader) == t
  {
  }

  lemma HandledOneMore(t: Table, bodies: seq<Bytes>, body: Bytes, reader: Reader)
    ensures HandleBodies(t, bodies + [body], reader)
         == var before := HandleBodies(t, bodies, reader);
             if reader.parse(body).Json? then Handle(before, reader.parse(body).message) else before
  {
    assert (bodies + [body])[..|bodies|] == bodies;
  }

  class LspProcess {
    const reader: Reader
    var buffer: Bytes
    var nextId: RequestId
    var pending: set<RequestId>
    var settled: map<RequestId, Settlement>
    var notified: seq<string>

    ghost function View(): Table
      reads this
    {
      Table(nextId, pending, settled, notified)
    }

    ghost predicate Valid()
      reads this
    {
      Accounted(View())
    }

    constructor (reader: Reader)
      ensures Valid() && buffer == [] && View() == Table(0, {}, map[], []) && this.reader == reader
    {
      this.reader := reader;
      buffer, nextId, pending, settled, notified := [], 0, {}, map[], [];
    }

    /** Issues a fresh id; the framed request goes to the server. */
    method Request(body: Bytes) returns (id: RequestId, wire: Bytes)
      requires Valid()
      modifies this`nextId, this`pending
      ensures Valid() && buffer == old(buffer)
      ensures id == old(nextId) + 1 && nextId == id && pending == old(pending) + {id}
          && id !in old(pending) && id !in settled
      ensures wire == Frame(body)
    {
      nextId := nextId + 1;
      id := nextId;
      pending := pending + {id};
      wire := Frame(body);
    }

    /** Appends a chunk and handles every complete message until one throws; each pass shrinks the buffer. */
    method OnData(chunk: Bytes) returns (threw: bool)
      requires Valid()
      modifies this`buffer, this`pending, this`settled, this`notified
      ensures Valid()
      ensures var d := DrainUntil(old(buffer) + chunk, Stops(reader));
        && buffer == d.rest
        && View() == HandleBodies(old(View()), d.bodies, reader)
        && (threw <==> d.bodies != [] && Throws(reader, d.bodies[|d.bodies| - 1]))
    {
      hide DrainUntil, HandleBodies, Front, Accounted, Handle, Throws;
      NothingHandled(View(), reader);
      buffer := buffer + chunk;
      ghost var all := DrainUntil(buffer, Stops(reader));
      ghost var bodies: seq<Bytes> := [];
      threw := false;
      while true
        invariant Accounted(View()) && nextId == old(nextId)
        invariant all == Drained(
            bodies + DrainUntil(buffer, Stops(reader)).bodies, DrainUntil(buffer, Stops(reader)).rest)
        invariant View() == HandleBodies(old(View()), bodies, reader)
        invariant bodies != [] ==> !Throws(reader, bodies[|bodies| - 1])
        decreases |buffer|
      {
        DrainUntilUnfolds(buffer, Stops(reader));
        var front := Front(buffer);
        match front {
          case NeedMore =>
            assert bodies + [] == bodies;
            return;
          case BadHeader(rest) =>
            buffer := rest;
          case Content(body, rest) =>
            ghost var later := DrainUntil(rest, Stops(reader)).bodies;
            assert bodies + ([body] + later) == (bodies + [body]) + later;
            HandledOneMore(old(View()), bodies, body, reader);
            buffer := rest;
            bodies := bodies + [body];
            var parsed := reader.parse(body);
            if parsed.Json? {
              HandleMessage(parsed.message);
            }
            if Throws(reader, body) {
              return true;
            }
        }
      }
    }

    method HandleMessage(m: Message)
      requires Accounted(View())
      modifies this`pending, this`settled, this`notified
      ensures Accounted(View()) && View() == Handle(old(View()), m)
    {
      if m.id.Some? {
        var id := m.id.value;
        if id !in pending {
          return;
        }
        pending := pending - {id};
        settled := settled[id := if m.isError then Rejected else Resolved];
      } else if m.method_.Some? && m.method_.value != "" {
        notified := notified + [m.method_.value];
      }
    }

    /** A timer can only fire for a request that still waits. */
    method OnTimeout(id: RequestId)
      requires Valid() && id in pending
      modifies this`pending, this`settled
      ensures Valid() && pending == old(pending) - {id} && settled == old(settled)[id := TimedOut]
    {
      pending := pending - {id};
      settled := settled[id := TimedOut];
    }

    /** When the server is gone, every waiting request is rejected. */
    method OnExit()
      requires Valid()
      modifies this`pending, this`settled
      ensures Valid() && pending == {} && SettlementsKept(old(View()), View())
      ensures forall id :: id in old(pending) ==> id in settled && settled[id] == ServerGone
    {
      var waiting := pending;
      settled := settled + map id | id in waiting :: ServerGone;
      pending := {};
    }
  }

  /**
   * If nothing but the last content throws, the same requests are settled the
   * same way and the same notifications arrive in order, however the server's
   * bytes are cut; `AllHandledIff` says that nothing less will do.
   */
  lemma HandlingIgnoresChunking(t: Table, first: seq<Bytes>, second: seq<Bytes>, reader: Reader)
    requires Concat(first) == Concat(second)
    ensures StopsOnlyLast(Drain(Concat(first)).bodies, Stops(reader)) ==>
      HandleBodies(t, FeedUntil([], first, Stops(reader)).bodies, reader)
      == HandleBodies(t, FeedUntil([], second, Stops(reader)).bodies, reader)
  {
    hide Drain, FeedUntil, Concat, StopsOnlyLast, HandleBodies;
    AllHandledIff(Concat(first), Stops(reader));
  }

  /** The content is `null`, or a message without a numeric id whose method the listener cannot bear. */
  predicate BreaksOff(reader: Reader, body: Bytes) {
    match reader.parse(body)
    case NotJson => false
    case NullValue => true
    case Json(m) => m.id == None && m.method_ != None && m.method_ != Some("") && reader.listenerThrows(m)
  }

  lemma ThrowsIff(reader: Reader, body: Bytes)
    ensures Throws(reader, body) <==> BreaksOff(reader, body)
  {
  }

  /**
   * A stream of framed messages is handled whole, however it is cut, exactly when no
   * message but the last one throws.
   */
  lemma SentIsHandledIff(bodies: seq<Bytes>, reader: Reader)
    ensures (forall chunks: seq<Bytes> :: Concat(chunks) == FrameAll(bodies) ==>
        FeedUntil([], chunks, Stops(reader)).bodies == bodies)
       <==> forall i :: 0 <= i < |bodies| - 1 ==> !BreaksOff(reader, bodies[i])
  {
    hide Drain, FeedUntil, Concat, FrameAll, Throws, BreaksOff;
    forall body
      ensures Throws(reader, body) <==> BreaksOff(reader, body)
    {
      ThrowsIff(reader, body);
    }
    FramedMessagesAreRead(bodies);
    AllHandledIff(FrameAll(bodies), Stops(reader));
  }

  /**
   * A response right behind a `null` is answered when it comes in a chunk of its
   * own, and waits when both come in one.
   */
  lemma NullHoldsBackTheNext(t: Table, reader: Reader, nothing: Bytes, answer: Bytes, id: RequestId)
    requires reader.parse(nothing) == NullValue
        && reader.parse(answer) == Json(Message(Some(id), false, None)) && id in t.pending
    ensures var together := FeedUntil([], [Frame(nothing) + Frame(answer)], Stops(reader));
      && together == Drained([nothing], Frame(answer))
      && id in HandleBodies(t, together.bodies, reader).pending
    ensures var apart := FeedUntil([], [Frame(nothing), Frame(answer)], Stops(reader));
      && apart == Drained([nothing, answer], [])
      && HandleBodies(t, apart.bodies, reader) == t.(pending := t.pending - {id}, settled := t.settled[id := Resolved])
  {
    hide Frame, Front, DrainUntil, FeedUntil, HandleBodies;
    var stops := Stops(reader);
    OneFrameAtATime(nothing, Frame(answer), stops);
    OneFrameAtATime(nothing, [], stops);
    OneFrameAtATime(answer, [], stops);
    assert Frame(nothing) + [] == Frame(nothing) && Frame(answer) + [] == Frame(answer);
    OneChunk(Frame(nothing) + Frame(answer), stops);
    OneChunk(Frame(nothing), stops);
    NothingLeft(stops);
    var both := [Frame(nothing), Frame(answer)];
    LastChunkUntil([], both, stops);
    assert both[..1] == [Frame(nothing)];
    assert [] + Frame(answer) == Frame(answer) && [nothing] + [answer] == [nothing, answer];
    NothingHandled(t, reader);
    HandledOneMore(t, [], nothing, reader);
    HandledOneMore(t, [nothing], answer, reader);
    assert [] + [nothing] == [nothing];
  }

  lemma OneFrameAtATime(body: Bytes, tail: Bytes, stops: Bytes -> bool)
    ensures var d := DrainUntil(Frame(body) + tail, stops);
      d == if stops(body) then Drained([body], tail)
          else Drained([body] + DrainUntil(tail, stops).bodies, DrainUntil(tail, stops).rest)
  {
    hide Frame, Front, DrainUntil;
    FramedMessageIsRead(body, tail);
    DrainUntilUnfolds(Frame(body) + tail, stops);
  }

  lemma NothingLeft(stops: Bytes -> bool)
    ensures DrainUntil([], stops) == Drained([], [])
  {
  }

  /** The methods of the messages that carry no numeric id, in order. */
  function Announced(reader: Reader, bodies: seq<Bytes>): seq<string> {
    if bodies == [] then []
    else
      (match reader.parse(bodies[0])
       case Json(m) => if m.id == None && m.method_ != None && m.method_ != Some("") then [m.method_.value] else []
       case _ => []) + Announced(reader, bodies[1..])
  }

  /** Exactly these are passed on to the listener, behind those passed on before. */
  lemma {:induction false} NotificationsArePassedOn(t: Table, bodies: seq<Bytes>, reader: Reader)
    ensures HandleBodies(t, bodies, reader).notified == t.notified + Announced(reader, bodies)
    decreases |bodies|
  {
    if bodies != [] {
      var front, last := bodies[..|bodies| - 1], bodies[|bodies| - 1];
      NotificationsArePassedOn(t, front, reader);
      AnnouncedBehind(reader, front, last);
      assert bodies == front + [last];
      assert (t.notified + Announced(reader, front)) + Announced(reader, [last])
          == t.notified + (Announced(reader, front) + Announced(reader, [last]));
    }
  }

  lemma {:induction false} AnnouncedBehind(reader: Reader, front: seq<Bytes>, last: Bytes)
    ensures Announced(reader, front + [last]) == Announced(reader, front) + Announced(reader, [last])
    decreases |front|
  {
    if front == [] {
      assert front + [last] == [last];
    } else {
      assert (front + [last])[1..] == front[1..] + [last];
      AnnouncedBehind(reader, front[1..], last);
    }
  }

  /** The content is a message with this numeric id, a response or not. */
  predicate CarriesId(reader: Reader, body: Bytes, id: RequestId) {
    reader.parse(body).Json? && reader.parse(body).message.id == Some(id)
  }

  predicate IsFirstWithId(reader: Reader, bodies: seq<Bytes>, id: RequestId, i: nat) {
    i < |bodies| && CarriesId(reader, bodies[i], id) && forall j :: 0 <= j < i ==> !CarriesId(reader, bodies[j], id)
  }

  /**
   * A waiting request is settled exactly when some message carries its id, by the
   * first one that does. The id is asked for before the method, so a request of
   * the server whose id happens to be waiting counts as the answer.
   */
  lemma {:induction false} SettledByFirstWithId(t: Table, bodies: seq<Bytes>, reader: Reader, id: RequestId)
    requires Accounted(t) && id in t.pending
    ensures id in HandleBodies(t, bodies, reader).pending <==>
        forall i :: 0 <= i < |bodies| ==> !CarriesId(reader, bodies[i], id)
    ensures forall i: nat :: IsFirstWithId(reader, bodies, id, i) ==>
        && id in HandleBodies(t, bodies, reader).settled
        && HandleBodies(t, bodies, reader).settled[id]
            == if reader.parse(bodies[i]).message.isError then Rejected else Resolved
  {
    if bodies != [] {
      hide CarriesId;
      var init, last := bodies[..|bodies| - 1], bodies[|bodies| - 1];
      SettledByFirstWithId(t, init, reader, id);
      HandlingKeepsAccounts(t, init, reader);
      LastMessage(HandleBodies(t, init, reader), last, reader, id);
      HandledOneMore(t, init, last, reader);
      assert bodies == init + [last];
      forall i: nat | IsFirstWithId(reader, bodies, id, i) && i < |init|
        ensures IsFirstWithId(reader, init, id, i)
      {
      }
    }
  }

  lemma LastMessage(t: Table, body: Bytes, reader: Reader, id: RequestId)
    requires Accounted(t)
    ensures var u := if reader.parse(body).Json? then Handle(t, reader.parse(body).message) else t;
      && (id in u.pending <==> id in t.pending && !CarriesId(reader, body, id))
      && (id in t.settled ==> id in u.settled && u.settled[id] == t.settled[id])
      && (id in t.pending && CarriesId(reader, body, id) ==>
           id in u.settled && u.settled[id] == if reader.parse(body).message.isError then Rejected else Resolved)
  {
  }

  /** Such a request of the server, sent like any message, resolves the client's request instead of being served. */
  lemma ServerRequestIsTakenForAnswer(t: Table, reader: Reader, body: Bytes, id: RequestId, name: string)
    requires Accounted(t) && id in t.pending && reader.parse(body) == Json(Message(Some(id), false, Some(name)))
    ensures var f := FeedUntil([], [Frame(body)], Stops(reader));
      && f == Drained([body], [])
      && HandleBodies(t, f.bodies, reader) == t.(pending := t.pending - {id}, settled := t.settled[id := Resolved])
  {
    hide Frame, Front, DrainUntil, FeedUntil, HandleBodies;
    var stops := Stops(reader);
    OneFrameAtATime(body, [], stops);
    assert Frame(body) + [] == Frame(body);
    OneChunk(Frame(body), stops);
    NothingLeft(stops);
    NothingHandled(t, reader);
    HandledOneMore(t, [], body, reader);
    assert [] + [body] == [body];
  }
}
