/**
 * kebab's event index: the chain's events by topic, the store they are copied into and its
 * all-or-nothing writes.
 */
module EventStore {
  import opened Util

  datatype Topic = ROLLUP_PROCESSED | DEFI_BRIDGE | OFFCHAIN_DATA

  /** `number` is the event's first indexed argument; of a rollup event, the rollup's id. */
  datatype EthEvent = EthEvent(mainTopic: Topic, blockNumber: nat, number: nat, data: nat)

  // ---- the chain's events ----

  /** The topic's events in blocks [from, to], in chain order: what `eth_getLogs` returns. */
  function Window(chain: seq<EthEvent>, topic: Topic, from: int, to: int): seq<EthEvent> {
    if chain == [] then []
    else
      var e := chain[|chain| - 1];
      Window(chain[..|chain| - 1], topic, from, to)
      + if e.mainTopic == topic && from <= e.blockNumber <= to then [e] else []
  }

  ghost predicate InBlockOrder(chain: seq<EthEvent>) {
    forall i, j | 0 <= i < j < |chain| :: chain[i].blockNumber <= chain[j].blockNumber
  }

  lemma {:induction false} WindowElements(chain: seq<EthEvent>, topic: Topic, from: int, to: int)
    ensures forall e | e in Window(chain, topic, from, to) ::
              e in chain && e.mainTopic == topic && from <= e.blockNumber <= to
  {
    if chain != [] {
      WindowElements(chain[..|chain| - 1], topic, from, to);
    }
  }

  lemma {:induction false} WindowBeyond(chain: seq<EthEvent>, topic: Topic, from: int, to: int)
    requires forall i | 0 <= i < |chain| :: chain[i].blockNumber < from
    ensures Window(chain, topic, from, to) == []
  {
    if chain != [] {
      WindowBeyond(chain[..|chain| - 1], topic, from, to);
    }
  }

  /** Consecutive windows tile: nothing is missed or seen twice at their border. */
  lemma {:induction false} WindowSplit(chain: seq<EthEvent>, topic: Topic, from: int, mid: int, to: int)
    requires InBlockOrder(chain) && from <= mid + 1 && mid <= to
    ensures Window(chain, topic, from, to) == Window(chain, topic, from, mid) + Window(chain, topic, mid + 1, to)
  {
    if chain != [] {
      var front, e := chain[..|chain| - 1], chain[|chain| - 1];
      WindowSplit(front, topic, from, mid, to);
      var a, b := Window(front, topic, from, mid), Window(front, topic, mid + 1, to);
      if e.blockNumber <= mid {
        WindowBeyond(front, topic, mid + 1, to);
        assert Window(chain, topic, mid + 1, to) == [] && a + [] == a;
      } else {
        assert Window(chain, topic, from, mid) == a;
        assert (a + b) + [e] == a + (b + [e]);
      }
    }
  }

  lemma {:induction false} EmptyWindow(chain: seq<EthEvent>, topic: Topic, from: int, to: int)
    requires to < from
    ensures Window(chain, topic, from, to) == []
  {
    if chain != [] {
      EmptyWindow(chain[..|chain| - 1], topic, from, to);
    }
  }

  // ---- stored events ----

  function OfTopic(events: seq<EthEvent>, topic: Topic): seq<EthEvent> {
    if events == [] then []
    else
      OfTopic(events[..|events| - 1], topic)
      + if events[|events| - 1].mainTopic == topic then [events[|events| - 1]] else []
  }

  lemma {:induction false} OfTopicAppend(a: seq<EthEvent>, b: seq<EthEvent>, topic: Topic)
    ensures OfTopic(a + b, topic) == OfTopic(a, topic) + OfTopic(b, topic)
  {
    if b == [] {
      assert a + b == a;
    } else {
      assert (a + b)[..|a + b| - 1] == a + b[..|b| - 1];
      OfTopicAppend(a, b[..|b| - 1], topic);
    }
  }

  lemma {:induction false} OfTopicUniform(events: seq<EthEvent>, own: Topic, topic: Topic)
    requires forall i | 0 <= i < |events| :: events[i].mainTopic == own
    ensures OfTopic(events, topic) == if own == topic then events else []
  {
    if events != [] {
      OfTopicUniform(events[..|events| - 1], own, topic);
      assert events == events[..|events| - 1] + [events[|events| - 1]];
    }
  }

  lemma {:induction false} OfTopicElements(events: seq<EthEvent>, topic: Topic)
    ensures forall e :: e in OfTopic(events, topic) <==> e in events && e.mainTopic == topic
  {
    if events != [] {
      OfTopicElements(events[..|events| - 1], topic);
      assert events == events[..|events| - 1] + [events[|events| - 1]];
    }
  }

  /** A latest event of a topic, if it has any: some event in its last block. */
  ghost predicate IsLatest(events: seq<EthEvent>, topic: Topic, e: Option<EthEvent>) {
    if e.None? then forall x | x in events :: x.mainTopic != topic
    else
      && e.value in events && e.value.mainTopic == topic
      && forall x | x in events && x.mainTopic == topic :: x.blockNumber <= e.value.blockNumber
  }

  /** Whether the n-th database operation of an attempt fails; its commit comes after its saves. */
  type Faults = (nat, nat) -> bool

  /** Every attempt at a write has a failing operation, so the write fails. */
  ghost predicate AlwaysFaulty(faults: Faults) {
    forall attempt: nat | attempt < 9 :: FaultyAttempt(faults, attempt)
  }

  ghost predicate FaultyAttempt(faults: Faults, attempt: nat) { exists n: nat :: faults(attempt, n) }

  const FIRST_BATCH: nat := 200

  /** The batch size of an attempt, halved and rounded each time; 0 when there is no such attempt. */
  function BatchSize(attempt: nat): nat {
    if attempt == 0 then FIRST_BATCH
    else
      var previous := BatchSize(attempt - 1);
      if previous <= 1 then 0 else (previous + 1) / 2
  }

  lemma NineAttempts()
    ensures forall i | 0 <= i < 9 :: BatchSize(i) >= 1
    ensures BatchSize(8) == 1 && BatchSize(9) == 0
  {
    assert BatchSize(1) == 100;
    assert BatchSize(2) == 50;
    assert BatchSize(3) == 25;
    assert BatchSize(4) == 13;
    assert BatchSize(5) == 7;
    assert BatchSize(6) == 4;
    assert BatchSize(7) == 2;
  }

  class EthLogsDb {
    var events: seq<EthEvent>

    constructor ()
      ensures events == []
    {
      events := [];
    }

    /** In one transaction per attempt: all the logs are added, once, or after nine attempts none. */
    method AddEthLogs(logs: seq<EthEvent>, faults: Faults) returns (ok: bool, attempts: nat)
      modifies this
      ensures events == if ok then old(events) + logs else old(events)
      ensures 1 <= attempts <= 9 && (!ok ==> attempts == 9 && AlwaysFaulty(faults))
      ensures forall i: nat | i + 1 < attempts :: FaultyAttempt(faults, i)
      ensures !FaultyAttempt(faults, 0) ==> ok && attempts == 1
    {
      NineAttempts();
      hide BatchSize;
      var batchSize := FIRST_BATCH;
      attempts, ok := 0, false;
      assert batchSize == BatchSize(attempts) by { FirstBatch(); }
      while !ok
        invariant events == if ok then old(events) + logs else old(events)
        invariant 0 <= attempts <= 9 && (!ok ==> attempts < 9 && batchSize == BatchSize(attempts) >= 1)
                  && (ok ==> attempts > 0)
        invariant forall i: nat | (if ok then i + 1 else i) < attempts :: FaultyAttempt(faults, i)
        decreases !ok, 9 - attempts
      {
        var committed := SaveAll(logs, batchSize, attempts, faults);
        attempts := attempts + 1;
        if committed {
          ok := true;
        } else {
          NextBatch(attempts);
          if batchSize < 2 {
            return;
          }
          batchSize := (batchSize + 1) / 2;
        }
      }
    }

    /** One transaction: saves the logs slice by slice and commits, or rolls back. */
    method SaveAll(logs: seq<EthEvent>, batchSize: nat, attempt: nat, faults: Faults) returns (committed: bool)
      requires batchSize >= 1
      modifies this
      ensures events == if committed then old(events) + logs else old(events)
      ensures !committed ==> FaultyAttempt(faults, attempt)
    {
      var before := events;
      var logsCopy := logs;
      var n := 0;
      while |logsCopy| > 0
        invariant events + logsCopy == old(events) + logs
        decreases |logsCopy|
      {
        if faults(attempt, n) {
          events := before;
          return false;
        }
        var size := if batchSize < |logsCopy| then batchSize else |logsCopy|;
        events := events + logsCopy[..size];
        logsCopy := logsCopy[size..];
        n := n + 1;
      }
      assert events + [] == events;
      if faults(attempt, n) {
        events := before;
        return false;
      }
      committed := true;
    }

    /** The stored event of the topic that comes first by falling block number. */
    method GetLastEvent(topic: Topic) returns (last: Option<EthEvent>)
      ensures IsLatest(events, topic, last)
    {
      last := None;
      for i := 0 to |events|
        invariant IsLatest(events[..i], topic, last)
      {
        assert events[..i + 1] == events[..i] + [events[i]];
        if events[i].mainTopic == topic && (last.None? || events[i].blockNumber > last.value.blockNumber) {
          last := Some(events[i]);
        }
      }
      assert events[..|events|] == events;
    }
  }

  lemma FirstBatch()
    ensures BatchSize(0) == FIRST_BATCH
  {
  }

  lemma NextBatch(attempt: nat)
    requires attempt > 0
    ensures BatchSize(attempt) == if BatchSize(attempt - 1) <= 1 then 0 else (BatchSize(attempt - 1) + 1) / 2
  {
  }
}
