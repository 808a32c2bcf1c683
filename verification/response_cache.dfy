/**
 * kebab's response cache: read requests are answered from a cache that is emptied when a poll sees
 * a new block, and receipts newer than the last block polled are withheld, so that nobody who was
 * given a receipt then reads a state from before it.
 */
module ResponseCache {
  import opened Util

  type Key = string

  /**
   * `height` is the chain's. A response stands for the height of the state it reflects. `polled` is
   * the block number a poll has asked for and not yet acted on.
   */
  datatype State = State(height: nat, blockNumber: int, polled: Option<int>, cachedResponses: map<Key, int>)

  datatype Event =
    | Mine(newHeight: nat)
    | PollRequest
    | PollReply
    | PollFailure
    | Read(key: Key, responseHeight: int)
    | Receipt(block: int)

  /** What can happen: a fresh response reflects at least the height at which it was requested. */
  predicate Possible(s: State, e: Event) {
    match e
    case Mine(h) => h >= s.height
    case PollRequest => s.polled.None?
    case PollReply => s.polled.Some?
    case PollFailure => s.polled.Some?
    case Read(key, h) => key !in s.cachedResponses ==> h >= s.height
    case Receipt(b) => 0 <= b <= s.height
  }

  function Next(s: State, e: Event): State
    requires Possible(s, e)
  {
    match e
    case Mine(h) => s.(height := h)
    case PollRequest => s.(polled := Some(s.height))
    case PollReply =>
      if s.polled.value == s.blockNumber then s.(polled := None)
      else s.(polled := None, blockNumber := s.polled.value, cachedResponses := map[])
    case PollFailure => s.(polled := None)
    case Read(key, h) => if key in s.cachedResponses then s else s.(cachedResponses := s.cachedResponses[key := h])
    case Receipt(_) => s
  }

  /** The height of the state a read is answered with. */
  function ReadAnswer(s: State, key: Key, responseHeight: int): int {
    if key in s.cachedResponses then s.cachedResponses[key] else responseHeight
  }

  /** Whether the client is told about a receipt. */
  predicate ReceiptShown(s: State, block: int) { block <= s.blockNumber }

  class Server {
    var blockNumber: int
    var cachedResponses: map<Key, int>

    /** The server's part of a state. */
    ghost predicate Is(s: State)
      reads this
    {
      blockNumber == s.blockNumber && cachedResponses == s.cachedResponses
    }

    constructor (blockNumber: int)
      ensures this.blockNumber == blockNumber && cachedResponses == map[]
    {
      this.blockNumber, cachedResponses := blockNumber, map[];
    }

    method ForwardEthRequestViaCache(key: Key, responseHeight: int, ghost s: State) returns (result: int)
      requires Is(s) && Possible(s, Read(key, responseHeight))
      modifies this
      ensures Is(Next(s, Read(key, responseHeight)))
      ensures result == ReadAnswer(s, key, responseHeight)
      ensures result == if key in old(cachedResponses) then old(cachedResponses)[key] else responseHeight
      ensures cachedResponses == old(cachedResponses)[key := result] && blockNumber == old(blockNumber)
    {
      if key !in cachedResponses {
        cachedResponses := cachedResponses[key := responseHeight];
      }
      result := cachedResponses[key];
    }

    method ForwardReceipt(block: int, ghost s: State) returns (result: Option<int>)
      requires Is(s)
      ensures result == if ReceiptShown(s, block) then Some(block) else None
      ensures result.Some? <==> block <= blockNumber
    {
      result := if block > blockNumber then None else Some(block);
    }

    /** The polling loop, once the block number has come back, or has failed to. */
    method Poll(reply: Option<int>, ghost s: State)
      requires Is(s) && s.polled.Some? && (reply.Some? ==> reply == s.polled)
      modifies this
      ensures Is(Next(s, if reply.Some? then PollReply else PollFailure))
      ensures blockNumber == if reply.Some? then reply.value else old(blockNumber)
      ensures cachedResponses == if blockNumber == old(blockNumber) then old(cachedResponses) else map[]
    {
      var newBlockNumber := if reply.Some? then reply.value else blockNumber;
      if blockNumber != newBlockNumber {
        cachedResponses := map[];
        blockNumber := newBlockNumber;
      }
    }
  }

  // ---- runs ----

  ghost predicate PossibleRun(s: State, events: seq<Event>)
    decreases events
  {
    events == [] || (Possible(s, events[0]) && PossibleRun(Next(s, events[0]), events[1..]))
  }

  function StateAt(s: State, events: seq<Event>, i: nat): State
    requires PossibleRun(s, events) && i <= |events|
    decreases events
  {
    if i == 0 then s else StateAt(Next(s, events[0]), events[1..], i - 1)
  }

  /** Nothing cached is older than the block number receipts are compared with. */
  ghost predicate Fresh(s: State) {
    && s.blockNumber <= s.height
    && (s.polled.Some? ==> s.blockNumber <= s.polled.value <= s.height)
    && forall k | k in s.cachedResponses :: s.cachedResponses[k] >= s.blockNumber
  }

  lemma StepKeepsFresh(s: State, e: Event)
    requires Fresh(s) && Possible(s, e)
    ensures Fresh(Next(s, e)) && Next(s, e).blockNumber >= s.blockNumber
  {
  }

  lemma {:induction false} RunKeepsFresh(s: State, events: seq<Event>, i: nat, j: nat)
    requires Fresh(s) && PossibleRun(s, events) && i <= j <= |events|
    decreases events
    ensures Fresh(StateAt(s, events, i)) && Fresh(StateAt(s, events, j))
    ensures StateAt(s, events, i).blockNumber <= StateAt(s, events, j).blockNumber
  {
    if j > 0 {
      StepKeepsFresh(s, events[0]);
      if i > 0 {
        RunKeepsFresh(Next(s, events[0]), events[1..], i - 1, j - 1);
      } else {
        RunKeepsFresh(Next(s, events[0]), events[1..], 0, j - 1);
      }
    }
  }

  lemma {:induction false} PossibleAt(s: State, events: seq<Event>, i: nat)
    requires PossibleRun(s, events) && i < |events|
    decreases events
    ensures Possible(StateAt(s, events, i), events[i])
  {
    if i > 0 {
      PossibleAt(Next(s, events[0]), events[1..], i - 1);
    }
  }

  /**
   * In every run from a fresh state, a client who has been shown a receipt for block b is, from then
   * on, only given reads of states at height b or later, cached or not.
   */
  lemma ReadsFollowReceipts(s: State, events: seq<Event>, i: nat, j: nat)
    requires Fresh(s) && PossibleRun(s, events) && i < j < |events|
    requires events[i].Receipt? && ReceiptShown(StateAt(s, events, i), events[i].block) && events[j].Read?
    ensures ReadAnswer(StateAt(s, events, j), events[j].key, events[j].responseHeight) >= events[i].block
  {
    RunKeepsFresh(s, events, i, j);
    PossibleAt(s, events, j);
  }

  /** No poll of these events finds a new block number. */
  ghost predicate NoNewBlock(s: State, events: seq<Event>)
    requires PossibleRun(s, events)
    decreases events
  {
    events == []
    || ((events[0].PollReply? ==> s.polled.value == s.blockNumber) && NoNewBlock(Next(s, events[0]), events[1..]))
  }

  lemma {:induction false} StaysCached(s: State, events: seq<Event>, key: Key)
    requires PossibleRun(s, events) && NoNewBlock(s, events) && key in s.cachedResponses
    decreases events
    ensures var last := StateAt(s, events, |events|);
            key in last.cachedResponses && last.cachedResponses[key] == s.cachedResponses[key]
  {
    if events != [] {
      StaysCached(Next(s, events[0]), events[1..], key);
    }
  }

  /** Until a poll finds a new block, everybody who reads a key gets the answer of the first who did. */
  lemma SecondReadIsFirst(s: State, key: Key, height: int, events: seq<Event>, other: int)
    requires Possible(s, Read(key, height)) && PossibleRun(Next(s, Read(key, height)), events)
    requires NoNewBlock(Next(s, Read(key, height)), events)
    ensures ReadAnswer(StateAt(Next(s, Read(key, height)), events, |events|), key, other) == ReadAnswer(s, key, height)
  {
    StaysCached(Next(s, Read(key, height)), events, key);
  }

  /** Every receipt is shown in the end: once a poll has seen its block. */
  lemma ReceiptsAreShownAfterPoll(s: State, block: int)
    requires Fresh(s) && s.polled.None? && 0 <= block <= s.height
    ensures ReceiptShown(Next(Next(s, PollRequest), PollReply), block)
  {
  }

  // ---- start-up ----

  /** Once ready, start-up asks for the block number again and takes it without emptying the cache. */
  function SetUnpurged(s: State): State { s.(blockNumber := s.height) }

  /** That keeps the state fresh exactly when nothing has been cached from before the new number. */
  lemma UnpurgedIsFreshIff(s: State)
    requires Fresh(s) && s.polled.None?
    ensures Fresh(SetUnpurged(s)) <==> forall k | k in s.cachedResponses :: s.cachedResponses[k] >= s.height
  {
  }

  /** Otherwise a client can be shown a receipt and then be given a state from before it. */
  lemma StaleReadAfterStartup(s: State, k: Key)
    requires Fresh(s) && s.polled.None? && k in s.cachedResponses && s.cachedResponses[k] < s.height
    ensures var events := [Receipt(s.height), Read(k, s.height)]; var started := SetUnpurged(s);
            && PossibleRun(started, events)
            && ReceiptShown(StateAt(started, events, 0), s.height)
            && ReadAnswer(StateAt(started, events, 1), k, s.height) < s.height
  {
    var events, started := [Receipt(s.height), Read(k, s.height)], SetUnpurged(s);
    assert events[1..] == [Read(k, s.height)];
    assert Possible(started, events[0]) && Next(started, events[0]) == started;
    assert PossibleRun(started, events[1..]);
    assert StateAt(started, events[1..], 0) == started;
  }
}
