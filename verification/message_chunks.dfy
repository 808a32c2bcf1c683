/**
 * alpha-sdk's WalletConnect RPC wrapper: a message is cut into chunks that are sent as separate
 * events, and put together again from events that may arrive in any order.
 */
module MessageChunks {
  import Arithmetic
  import opened Util

  const MAX_CHARS_PER_REQUEST: nat := 6000

  // ---- cutting ----

  /** The text in pieces of `length` characters, the last one possibly shorter. */
  function Chunks(str: string, length: nat): seq<string>
    requires length > 0
    decreases |str|
  {
    if str == "" then []
    else if |str| <= length then [str]
    else [str[..length]] + Chunks(str[length..], length)
  }

  function Join(chunks: seq<string>): string {
    if chunks == [] then "" else chunks[0] + Join(chunks[1..])
  }

  lemma {:induction false} JoinChunks(str: string, length: nat)
    requires length > 0
    ensures Join(Chunks(str, length)) == str
    ensures forall i | 0 <= i < |Chunks(str, length)| :: 0 < |Chunks(str, length)[i]| <= length
    decreases |str|
  {
    if |str| > length {
      JoinChunks(str[length..], length);
    } else if str != "" {
      assert Chunks(str, length)[1..] == [];
    }
  }

  /** `Math.ceil(a / b)`. */
  function CeilDiv(a: nat, b: nat): nat
    requires b > 0
  {
    (a + b - 1) / b
  }

  lemma CeilDivStep(a: nat, b: nat)
    requires a > 0 && b > 0
    ensures CeilDiv(a, b) == 1 + CeilDiv(if a <= b then 0 else a - b, b)
  {
    if a <= b {
      Arithmetic.DivModUnique(a + b - 1, b, 1, a - 1);
      Arithmetic.DivModUnique(b - 1, b, 0, b - 1);
    } else {
      var q, r := (a - 1) / b, (a - 1) % b;
      assert a - b + b - 1 == a - 1 == q * b + r;
      Arithmetic.DivModUnique(a - 1, b, q, r);
      Arithmetic.Distribute(q, 1, b);
      Arithmetic.DivModUnique(a + b - 1, b, q + 1, r);
    }
  }

  method ChunkString(str: string, length: nat) returns (chunks: seq<string>)
    requires length > 0
    ensures chunks == Chunks(str, length)
    ensures |chunks| == CeilDiv(|str|, length)
  {
    hide CeilDiv, From, Chunks;
    var numChunks := CeilDiv(|str|, length);
    chunks := [];
    var o := 0;
    WholeText(str);
    for i := 0 to numChunks
      invariant o >= 0 && |chunks| == i
      invariant numChunks - i == CeilDiv(|From(str, o)|, length)
      invariant Chunks(str, length) == chunks + Chunks(From(str, o), length)
    {
      CutOne(str, o, length);
      var chunk := str[o..Min(o + length, |str|)];
      chunks := chunks + [chunk];
      o := o + length;
    }
    NoTextLeft(From(str, o), length);
    assert chunks + [] == chunks;
  }

  function From(str: string, o: nat): string { if o < |str| then str[o..] else "" }

  lemma NoText(length: nat)
    requires length > 0
    ensures CeilDiv(0, length) == 0
  {
    Arithmetic.DivModUnique(length - 1, length, 0, length - 1);
  }

  lemma NoTextLeft(str: string, length: nat)
    requires length > 0 && CeilDiv(|str|, length) == 0
    ensures Chunks(str, length) == []
  {
    if str != "" {
      CeilDivStep(|str|, length);
    }
  }

  lemma WholeText(str: string)
    ensures From(str, 0) == str
  {
  }

  /** Cutting one more chunk off what is left from `o` on. */
  lemma CutOne(str: string, o: nat, length: nat)
    requires length > 0 && CeilDiv(|From(str, o)|, length) > 0
    ensures o < |str|
    ensures Chunks(From(str, o), length) == [str[o..Min(o + length, |str|)]] + Chunks(From(str, o + length), length)
    ensures CeilDiv(|From(str, o)|, length) == 1 + CeilDiv(|From(str, o + length)|, length)
  {
    NoText(length);
    hide CeilDiv;
    var rest := From(str, o);
    assert rest != "";
    CeilDivStep(|rest|, length);
    if |rest| <= length {
      assert str[o..|str|] == rest;
    } else {
      assert rest[..length] == str[o..o + length] && rest[length..] == From(str, o + length);
    }
  }

  // ---- putting together ----

  datatype EventData = EventData(id: nat, name: string, chunk: string, index: nat, total: nat)

  datatype PartialMessage = PartialMessage(name: string, chunks: seq<Option<string>>)

  /** A message handed on, with the text that is then parsed. */
  datatype Dispatch = Dispatch(id: nat, name: string, text: string)

  datatype State = State(partialMessages: map<nat, PartialMessage>, dispatched: seq<Dispatch>)

  predicate Complete(chunks: seq<Option<string>>) { forall i | 0 <= i < |chunks| :: chunks[i].Some? }

  function Values(chunks: seq<Option<string>>): (r: seq<string>)
    requires Complete(chunks)
    ensures |r| == |chunks| && forall i | 0 <= i < |r| :: chunks[i] == Some(r[i])
  {
    seq(|chunks|, i requires 0 <= i < |chunks| => chunks[i].value)
  }

  /** The partial message an event belongs to; the first event of a message starts it. */
  function PartialOf(partialMessages: map<nat, PartialMessage>, e: EventData): PartialMessage {
    if e.id in partialMessages then partialMessages[e.id] else PartialMessage(e.name, seq(e.total, _ => None))
  }

  function Receive(s: State, e: EventData): State
    requires e.index < |PartialOf(s.partialMessages, e).chunks|
  {
    var p := PartialOf(s.partialMessages, e);
    var chunks := p.chunks[e.index := Some(e.chunk)];
    if Complete(chunks) then
      State(s.partialMessages - {e.id}, s.dispatched + [Dispatch(e.id, p.name, Join(Values(chunks)))])
    else s.(partialMessages := s.partialMessages[e.id := p.(chunks := chunks)])
  }

  class RPCWrapper {
    var partialMessages: map<nat, PartialMessage>
    var dispatched: seq<Dispatch>

    constructor ()
      ensures State(partialMessages, dispatched) == State(map[], [])
    {
      partialMessages, dispatched := map[], [];
    }

    method CreateOrGetPartialMessage(id: nat, name: string, total: nat) returns (p: PartialMessage)
      modifies this`partialMessages
      ensures p == PartialOf(old(partialMessages), EventData(id, name, "", 0, total))
      ensures partialMessages == old(partialMessages)[id := p]
    {
      if id in partialMessages {
        p := partialMessages[id];
      } else {
        p := PartialMessage(name, seq(total, _ => None));
        partialMessages := partialMessages[id := p];
      }
    }

    method OnSessionEvent(e: EventData)
      requires e.index < |PartialOf(partialMessages, e).chunks|
      modifies this
      ensures State(partialMessages, dispatched) == Receive(old(State(partialMessages, dispatched)), e)
    {
      var partialMessage := CreateOrGetPartialMessage(e.id, e.name, e.total);
      var chunks := partialMessage.chunks[e.index := Some(e.chunk)];
      partialMessages := partialMessages[e.id := partialMessage.(chunks := chunks)];
      if Complete(chunks) {
        partialMessages := partialMessages - {e.id};
        dispatched := dispatched + [Dispatch(e.id, partialMessage.name, Join(Values(chunks)))];
      }
    }
  }

  // ---- every interleaving ----

  datatype Message = Message(name: string, text: string)

  function ChunksOf(m: Message): seq<string> { Chunks(m.text, MAX_CHARS_PER_REQUEST) }

  /** The event is one of the chunks of one of the messages. */
  ghost predicate IsChunk(messages: map<nat, Message>, e: EventData) {
    && e.id in messages
    && var m := messages[e.id];
    && e.total == |ChunksOf(m)| && e.index < e.total
    && e.name == m.name && e.chunk == ChunksOf(m)[e.index]
  }

  ghost predicate Got(events: seq<EventData>, id: nat, index: nat) {
    exists i | 0 <= i < |events| :: events[i].id == id && events[i].index == index
  }

  ghost predicate GotAll(events: seq<EventData>, id: nat, total: nat) {
    forall index: nat | index < total :: Got(events, id, index)
  }

  /** Chunks of the messages, each delivered at most once, in any order. */
  ghost predicate Interleaving(messages: map<nat, Message>, events: seq<EventData>) {
    && (forall i | 0 <= i < |events| :: IsChunk(messages, events[i]))
    && forall i, j | 0 <= i < j < |events| :: events[i].id != events[j].id || events[i].index != events[j].index
  }

  ghost predicate WasDispatched(s: State, id: nat) {
    exists i | 0 <= i < |s.dispatched| :: s.dispatched[i].id == id
  }

  /** The chunks received so far are in their places, and only those. */
  ghost predicate Assembled(events: seq<EventData>, id: nat, m: Message, p: PartialMessage) {
    && p.name == m.name && |p.chunks| == |ChunksOf(m)|
    && forall index: nat | index < |p.chunks| ::
         p.chunks[index] == if Got(events, id, index) then Some(ChunksOf(m)[index]) else None
  }

  ghost predicate GotNone(events: seq<EventData>, id: nat) {
    forall i | 0 <= i < |events| :: events[i].id != id
  }

  /** A message is dispatched once all its chunks are there; in between there is its partial message. */
  ghost predicate Tracked(events: seq<EventData>, id: nat, m: Message, s: State) {
    if ChunksOf(m) != [] && GotAll(events, id, |ChunksOf(m)|) then
      id !in s.partialMessages && WasDispatched(s, id)
    else
      && !WasDispatched(s, id)
      && (GotNone(events, id) ==> id !in s.partialMessages)
      && (!GotNone(events, id) ==> id in s.partialMessages && Assembled(events, id, m, s.partialMessages[id]))
  }

  ghost predicate Genuine(messages: map<nat, Message>, d: Dispatch) {
    d.id in messages && d.name == messages[d.id].name && d.text == messages[d.id].text
  }

  ghost predicate Invariant(messages: map<nat, Message>, events: seq<EventData>, s: State) {
    && (forall id | id in messages :: Tracked(events, id, messages[id], s))
    && (forall id | id in s.partialMessages :: id in messages)
    && (forall i | 0 <= i < |s.dispatched| :: Genuine(messages, s.dispatched[i]))
    && (forall i, j | 0 <= i < j < |s.dispatched| :: s.dispatched[i].id != s.dispatched[j].id)
  }

  lemma GotMore(events: seq<EventData>, e: EventData, id: nat, index: nat)
    ensures Got(events + [e], id, index) <==> Got(events, id, index) || (e.id == id && e.index == index)
  {
    var more := events + [e];
    assert more[|events|] == e;
    if Got(events, id, index) {
      var i :| 0 <= i < |events| && events[i].id == id && events[i].index == index;
      assert more[i] == events[i];
    }
  }

  lemma GotAllMore(events: seq<EventData>, e: EventData, id: nat, total: nat)
    requires e.id != id
    ensures GotAll(events + [e], id, total) <==> GotAll(events, id, total)
    ensures GotNone(events + [e], id) <==> GotNone(events, id)
  {
    forall index: nat
      ensures Got(events + [e], id, index) <==> Got(events, id, index)
    {
      GotMore(events, e, id, index);
    }
    assert GotNone(events, id) ==> GotNone(events + [e], id);
    assert forall i | 0 <= i < |events| :: (events + [e])[i] == events[i];
  }

  lemma OtherMessage(events: seq<EventData>, e: EventData, id: nat, m: Message, s: State, t: State)
    requires Tracked(events, id, m, s) && e.id != id
    requires id in s.partialMessages <==> id in t.partialMessages
    requires id in s.partialMessages ==> s.partialMessages[id] == t.partialMessages[id]
    requires WasDispatched(s, id) <==> WasDispatched(t, id)
    ensures Tracked(events + [e], id, m, t)
  {
    GotAllMore(events, e, id, |ChunksOf(m)|);
    hide GotAll, GotNone, Got, WasDispatched, ChunksOf;
    forall index: nat
      ensures Got(events + [e], id, index) <==> Got(events, id, index)
    {
      GotMore(events, e, id, index);
    }
  }

  /** The partial message of an event has the message's chunks, and not yet the event's. */
  lemma PartialIsAssembled(messages: map<nat, Message>, events: seq<EventData>, s: State, e: EventData)
    requires Invariant(messages, events, s) && IsChunk(messages, e) && !Got(events, e.id, e.index)
    ensures Assembled(events, e.id, messages[e.id], PartialOf(s.partialMessages, e)) && !WasDispatched(s, e.id)
  {
    assert Tracked(events, e.id, messages[e.id], s);
    assert !GotAll(events, e.id, e.total);
    if GotNone(events, e.id) {
      forall index: nat
        ensures !Got(events, e.id, index)
      {
      }
    }
  }

  lemma JoinOfComplete(chunks: seq<Option<string>>, m: Message)
    requires Complete(chunks) && |chunks| == |ChunksOf(m)|
    requires forall i | 0 <= i < |chunks| :: chunks[i] == Some(ChunksOf(m)[i])
    ensures Join(Values(chunks)) == m.text
  {
    assert Values(chunks) == ChunksOf(m);
    JoinChunks(m.text, MAX_CHARS_PER_REQUEST);
  }

  lemma ChunkFits(events: seq<EventData>, e: EventData, m: Message, p: PartialMessage)
    requires Assembled(events, e.id, m, p) && e.index < |ChunksOf(m)| && e.chunk == ChunksOf(m)[e.index]
    ensures var chunks := p.chunks[e.index := Some(e.chunk)];
            && Assembled(events + [e], e.id, m, p.(chunks := chunks))
            && (Complete(chunks) <==> GotAll(events + [e], e.id, |ChunksOf(m)|))
            && (Complete(chunks) ==> Join(Values(chunks)) == m.text)
            && !GotNone(events + [e], e.id)
  {
    var chunks := p.chunks[e.index := Some(e.chunk)];
    hide Got, ChunksOf;
    forall index: nat
      ensures Got(events + [e], e.id, index) <==> Got(events, e.id, index) || index == e.index
    {
      GotMore(events, e, e.id, index);
    }
    assert (events + [e])[|events|].id == e.id;
    if Complete(chunks) {
      JoinOfComplete(chunks, m);
    }
    if GotAll(events + [e], e.id, |ChunksOf(m)|) {
      forall index: nat | index < |chunks|
        ensures chunks[index].Some?
      {
        assert Got(events + [e], e.id, index);
      }
    }
  }

  lemma EventKeepsInvariant(messages: map<nat, Message>, events: seq<EventData>, s: State, e: EventData)
    requires Invariant(messages, events, s) && IsChunk(messages, e) && !Got(events, e.id, e.index)
    ensures e.index < |PartialOf(s.partialMessages, e).chunks|
    ensures Invariant(messages, events + [e], Receive(s, e))
  {
    PartialIsAssembled(messages, events, s, e);
    EventKeepsTracked(messages, events, s, e);
    EventKeepsDispatched(messages, events, s, e);
    hide Got, Tracked, Genuine, ChunksOf, PartialOf, Complete, Join, Assembled, WasDispatched;
  }

  lemma EventKeepsTracked(messages: map<nat, Message>, events: seq<EventData>, s: State, e: EventData)
    requires Invariant(messages, events, s) && IsChunk(messages, e) && !Got(events, e.id, e.index)
    requires e.index < |PartialOf(s.partialMessages, e).chunks|
    ensures forall id | id in messages :: Tracked(events + [e], id, messages[id], Receive(s, e))
  {
    PartialIsAssembled(messages, events, s, e);
    var m, p, t := messages[e.id], PartialOf(s.partialMessages, e), Receive(s, e);
    ChunkFits(events, e, m, p);
    DispatchedAfter(s, e);
    hide Got, GotAll, GotNone, ChunksOf, PartialOf, Complete, Join, Assembled, WasDispatched;
    forall id | id in messages
      ensures Tracked(events + [e], id, messages[id], t)
    {
      assert Tracked(events, id, messages[id], s);
      if id != e.id {
        OtherMessage(events, e, id, messages[id], s, t);
      }
    }
  }

  lemma EventKeepsDispatched(messages: map<nat, Message>, events: seq<EventData>, s: State, e: EventData)
    requires Invariant(messages, events, s) && IsChunk(messages, e) && !Got(events, e.id, e.index)
    requires e.index < |PartialOf(s.partialMessages, e).chunks|
    ensures var t := Receive(s, e);
            && (forall id | id in t.partialMessages :: id in messages)
            && (forall i | 0 <= i < |t.dispatched| :: Genuine(messages, t.dispatched[i]))
            && (forall i, j | 0 <= i < j < |t.dispatched| :: t.dispatched[i].id != t.dispatched[j].id)
  {
    PartialIsAssembled(messages, events, s, e);
    ChunkFits(events, e, messages[e.id], PartialOf(s.partialMessages, e));
    hide Got, GotAll, GotNone, Tracked, ChunksOf, PartialOf, Complete, Join;
    assert forall i | 0 <= i < |s.dispatched| :: s.dispatched[i].id != e.id;
  }

  lemma DispatchedAfter(s: State, e: EventData)
    requires e.index < |PartialOf(s.partialMessages, e).chunks|
    ensures var p := PartialOf(s.partialMessages, e); var t := Receive(s, e);
            && (forall id | id != e.id :: WasDispatched(t, id) <==> WasDispatched(s, id))
            && (WasDispatched(t, e.id) <==> WasDispatched(s, e.id) || Complete(p.chunks[e.index := Some(e.chunk)]))
  {
    var t := Receive(s, e);
    hide Complete, Join, PartialOf;
    forall id
      ensures WasDispatched(s, id) ==> WasDispatched(t, id)
    {
      if WasDispatched(s, id) {
        var i :| 0 <= i < |s.dispatched| && s.dispatched[i].id == id;
        assert t.dispatched[i].id == id;
      }
    }
    if t.dispatched != s.dispatched {
      assert t.dispatched[|s.dispatched|].id == e.id;
    }
    assert forall i | 0 <= i < |s.dispatched| :: s.dispatched[i] == t.dispatched[i];
  }

  /** The state after the events, with what every interleaving keeps. */
  ghost function ReceiveAll(messages: map<nat, Message>, events: seq<EventData>): (s: State)
    requires Interleaving(messages, events)
    ensures Invariant(messages, events, s)
  {
    if events == [] then
      NothingReceived(messages);
      State(map[], [])
    else
      var n := |events| - 1;
      var before := ReceiveAll(messages, events[..n]);
      LastEventKeepsInvariant(messages, events, before);
      Receive(before, events[n])
  }

  lemma NothingReceived(messages: map<nat, Message>)
    ensures Invariant(messages, [], State(map[], []))
  {
    forall id | id in messages
      ensures Tracked([], id, messages[id], State(map[], []))
    {
      assert !Got([], id, 0);
    }
  }

  lemma LastEventKeepsInvariant(messages: map<nat, Message>, events: seq<EventData>, s: State)
    requires events != [] && Interleaving(messages, events) && Invariant(messages, events[..|events| - 1], s)
    ensures var e := events[|events| - 1];
            e.index < |PartialOf(s.partialMessages, e).chunks| && Invariant(messages, events, Receive(s, e))
  {
    var n := |events| - 1;
    assert !Got(events[..n], events[n].id, events[n].index);
    hide Invariant, Got, IsChunk, Receive, PartialOf;
    assert events == events[..n] + [events[n]];
    EventKeepsInvariant(messages, events[..n], s, events[n]);
  }

  /** All chunks of all messages have been delivered. */
  ghost predicate Everything(messages: map<nat, Message>, events: seq<EventData>) {
    Interleaving(messages, events) && forall id | id in messages :: GotAll(events, id, |ChunksOf(messages[id])|)
  }

  /**
   * Deliver all chunks of any messages in any order and interleaving: each message with a text is
   * handed on exactly once, with its own text; nothing else is; and nothing stays behind. A message
   * with an empty text has no chunks, so it is never handed on.
   */
  lemma EveryMessageArrivesOnce(messages: map<nat, Message>, events: seq<EventData>)
    requires Everything(messages, events)
    ensures var s := ReceiveAll(messages, events);
            && s.partialMessages == map[]
            && (forall i | 0 <= i < |s.dispatched| :: Genuine(messages, s.dispatched[i]))
            && (forall i, j | 0 <= i < j < |s.dispatched| :: s.dispatched[i].id != s.dispatched[j].id)
            && forall id | id in messages :: WasDispatched(s, id) <==> messages[id].text != ""
  {
    var s := ReceiveAll(messages, events);
    hide GotAll, Got;
    forall id | id in messages
      ensures id !in s.partialMessages && (WasDispatched(s, id) <==> messages[id].text != "")
    {
      assert Tracked(events, id, messages[id], s);
      NoChunksIffEmpty(messages[id]);
      if ChunksOf(messages[id]) == [] {
        NoEventsOfEmpty(messages, events, id);
      }
    }
  }

  lemma NoChunksIffEmpty(m: Message)
    ensures ChunksOf(m) == [] <==> m.text == ""
  {
  }

  lemma NoEventsOfEmpty(messages: map<nat, Message>, events: seq<EventData>, id: nat)
    requires Interleaving(messages, events) && id in messages && ChunksOf(messages[id]) == []
    ensures GotNone(events, id)
  {
    forall i | 0 <= i < |events|
      ensures events[i].id != id
    {
      assert IsChunk(messages, events[i]);
    }
  }
}
