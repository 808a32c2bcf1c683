/**
 * kebab's indexing: reading a topic's new events window by window, checking the sequence of rollup
 * events, and committing what was read for all topics together.
 */
module EventIndexer {
  import opened Util
  import opened EventStore

  datatype EventRetrieverErrors = NONE | PROVIDER | STREAM | DB

  // ---- sequence validation ----

  function RollupNumber(e: Option<EthEvent>): int { if e.None? then -1 else e.value.number }

  /** Rollup events carry the ids that follow `current`, one by one. */
  ghost predicate Consecutive(current: int, events: seq<EthEvent>) {
    forall i | 0 <= i < |events| :: events[i].number == current + 1 + i
  }

  method RollupSequenceValidation(prev: Option<EthEvent>, newEvents: seq<EthEvent>) returns (success: bool)
    ensures success <==> Consecutive(RollupNumber(prev), newEvents)
  {
    var current := prev;
    for i := 0 to |newEvents|
      invariant forall j | 0 <= j < i :: newEvents[j].number == RollupNumber(prev) + 1 + j
      invariant RollupNumber(current) == RollupNumber(prev) + i
    {
      if newEvents[i].number != RollupNumber(current) + 1 {
        return false;
      }
      current := Some(newEvents[i]);
    }
    success := true;
  }

  /** Validating batch after batch is validating their concatenation. */
  lemma ValidationComposes(prev: int, a: seq<EthEvent>, b: seq<EthEvent>)
    ensures Consecutive(prev, a + b) <==>
            Consecutive(prev, a) && Consecutive(if a == [] then prev else a[|a| - 1].number, b)
  {
    if Consecutive(prev, a + b) {
      assert forall i | 0 <= i < |a| :: a[i] == (a + b)[i];
      assert forall i | 0 <= i < |b| :: b[i] == (a + b)[|a| + i];
    }
  }

  predicate HasValidator(topic: Topic) { topic == ROLLUP_PROCESSED }

  /** The topic's validator, if it has one, accepts the events. */
  ghost predicate Accepts(topic: Topic, prev: Option<EthEvent>, events: seq<EthEvent>) {
    HasValidator(topic) ==> Consecutive(RollupNumber(prev), events)
  }

  // ---- the chain, and how the store follows it ----

  datatype Chain = Chain(events: seq<EthEvent>, earliestBlock: nat) {
    /** The store's order is by block only, so a topic that is validated has one event a block. */
    ghost predicate Valid() {
      && InBlockOrder(events)
      && forall i, j | 0 <= i < j < |events| && HasValidator(events[i].mainTopic)
      && events[i].mainTopic == events[j].mainTopic ::
           events[i].blockNumber < events[j].blockNumber
    }

    function UpTo(topic: Topic, bound: int): seq<EthEvent> { Window(events, topic, earliestBlock, bound) }
  }

  /** A provider: the topic's events in a range of blocks, or a failed request. */
  type Provider = (Topic, nat, nat) -> Option<seq<EthEvent>>

  ghost predicate Honest(chain: Chain, provider: Provider) {
    forall topic, from: nat, to: nat ::
      provider(topic, from, to).Some? ==> provider(topic, from, to).value == Window(chain.events, topic, from, to)
  }

  /** Some request for at most `batch` of the blocks [from, to] fails. */
  ghost predicate Unanswered(provider: Provider, topic: Topic, batch: nat, from: int, to: int) {
    exists a: nat, b: nat :: from <= a <= b <= to && b - a < batch && provider(topic, a, b).None?
  }

  /** Some write fails in all its attempts. */
  ghost predicate Unwritten(faults: nat -> Faults) { exists n: nat :: AlwaysFaulty(faults(n)) }

  /** Of the topic, the store holds exactly the chain's events up to block `bound`, each once. */
  ghost predicate Follows(chain: Chain, topic: Topic, stored: seq<EthEvent>, bound: int) {
    && bound >= chain.earliestBlock - 1
    && OfTopic(stored, topic) == chain.UpTo(topic, bound)
    && Accepts(topic, None, chain.UpTo(topic, bound))
  }

  /** Added to what is stored, `added` completes the topic up to block `bound`. */
  ghost predicate Extends(chain: Chain, topic: Topic, stored: seq<EthEvent>, added: seq<EthEvent>, bound: int) {
    && bound >= chain.earliestBlock - 1
    && OfTopic(stored, topic) + added == chain.UpTo(topic, bound)
    && Accepts(topic, None, chain.UpTo(topic, bound))
    && forall i | 0 <= i < |added| :: added[i].mainTopic == topic
  }

  /** The block after the last stored event of the topic, or the earliest block. */
  function StartBlock(chain: Chain, last: Option<EthEvent>): nat {
    Max(if last.Some? then last.value.blockNumber + 1 else 0, chain.earliestBlock)
  }

  /**
   * Going on right after the last stored event misses nothing, whatever was scanned beyond it: the
   * blocks from there to the bound hold no event of the topic.
   */
  lemma ResumingMissesNothing(chain: Chain, topic: Topic, stored: seq<EthEvent>, bound: int, last: Option<EthEvent>)
    requires chain.Valid() && Follows(chain, topic, stored, bound) && IsLatest(stored, topic, last)
    ensures var start := StartBlock(chain, last);
            && start <= bound + 1
            && chain.UpTo(topic, start - 1) == chain.UpTo(topic, bound)
  {
    hide Window, OfTopic, Accepts, InBlockOrder;
    var start: int := StartBlock(chain, last);
    var seen := chain.UpTo(topic, bound);
    OfTopicElements(stored, topic);
    WindowElements(chain.events, topic, chain.earliestBlock, bound);
    if last.Some? {
      assert last.value in seen;
    }
    WindowSplit(chain.events, topic, chain.earliestBlock, start - 1, bound);
    var rest := Window(chain.events, topic, start, bound);
    WindowElements(chain.events, topic, start, bound);
    assert forall e :: e in rest ==> e in OfTopic(stored, topic);
    HasElement(rest);
  }

  lemma HasElement(s: seq<EthEvent>)
    ensures s == [] || exists e :: e in s
  {
    if s != [] {
      assert s[0] in s;
    }
  }

  /** The last stored rollup event is the last in the chain's order, so validation resumes from it. */
  lemma LatestIsLast(chain: Chain, topic: Topic, stored: seq<EthEvent>, bound: int, last: Option<EthEvent>)
    requires chain.Valid() && Follows(chain, topic, stored, bound) && IsLatest(stored, topic, last)
             && HasValidator(topic)
    ensures var seen := chain.UpTo(topic, bound);
            last == if seen == [] then None else Some(seen[|seen| - 1])
  {
    var seen := chain.UpTo(topic, bound);
    OfTopicElements(stored, topic);
    WindowElements(chain.events, topic, chain.earliestBlock, bound);
    assert last.Some? ==> last.value in OfTopic(stored, topic);
    if seen != [] {
      assert seen[0] in stored;
      assert last.value in seen;
      WindowIncreases(chain.events, topic, chain.earliestBlock, bound, last.value);
      assert seen[|seen| - 1] in stored;
    }
  }

  lemma {:induction false} WindowIncreases(events: seq<EthEvent>, topic: Topic, from: int, to: int, e: EthEvent)
    requires forall i, j | 0 <= i < j < |events| && events[i].mainTopic == events[j].mainTopic == topic ::
               events[i].blockNumber < events[j].blockNumber
    requires e in Window(events, topic, from, to)
    ensures var w := Window(events, topic, from, to); e == w[|w| - 1] || e.blockNumber < w[|w| - 1].blockNumber
  {
    var front, x := events[..|events| - 1], events[|events| - 1];
    WindowElements(front, topic, from, to);
    WindowNext(events, topic, from, to);
    if x.mainTopic == topic && from <= x.blockNumber <= to {
      hide Window;
      if e != x {
        EarlierBlock(events, topic, e);
      }
    } else {
      WindowIncreases(front, topic, from, to, e);
    }
  }

  lemma WindowNext(events: seq<EthEvent>, topic: Topic, from: int, to: int)
    requires events != []
    ensures var x := events[|events| - 1];
            Window(events, topic, from, to) ==
            Window(events[..|events| - 1], topic, from, to)
            + if x.mainTopic == topic && from <= x.blockNumber <= to then [x] else []
  {
  }

  lemma EarlierBlock(events: seq<EthEvent>, topic: Topic, e: EthEvent)
    requires forall i, j | 0 <= i < j < |events| && events[i].mainTopic == events[j].mainTopic == topic ::
               events[i].blockNumber < events[j].blockNumber
    requires events != [] && e in events[..|events| - 1] && e.mainTopic == events[|events| - 1].mainTopic == topic
    ensures e.blockNumber < events[|events| - 1].blockNumber
  {
    var i :| 0 <= i < |events| - 1 && events[i] == e;
  }

  class TopicEventRetriever {
    const provider: Provider
    const chain: Chain
    const logBatchSize: nat
    const topic: Topic

    ghost predicate Valid() {
      chain.Valid() && Honest(chain, provider) && logBatchSize >= 1
    }

    constructor (provider: Provider, chain: Chain, logBatchSize: nat, topic: Topic)
      ensures this.provider == provider && this.chain == chain && this.logBatchSize == logBatchSize
              && this.topic == topic
    {
      this.provider, this.chain, this.logBatchSize, this.topic := provider, chain, logBatchSize, topic;
    }

    /**
     * Scans from after `lastEvent` to `toBlock` and adds what it finds to `store`. Up to block
     * `reached` the store has exactly the topic's events; without an error that is `toBlock`. The
     * stream is found broken only if the chain's rollup ids are.
     */
    method RetrieveNewEvents(lastEvent: Option<EthEvent>, toBlock: nat, store: EthLogsDb, faults: nat -> Faults)
      returns (result: EventRetrieverErrors, ghost reached: int)
      requires Valid()
      modifies store
      ensures var start := StartBlock(chain, lastEvent);
              && start - 1 <= reached <= Max(toBlock, start - 1)
              && (result == NONE ==> reached == Max(toBlock, start - 1))
              && store.events == old(store.events) + Window(chain.events, topic, start, reached)
              && Accepts(topic, lastEvent, Window(chain.events, topic, start, reached))
              && (result == STREAM ==> !Accepts(topic, lastEvent, Window(chain.events, topic, start, toBlock)))
              && (result == PROVIDER ==> Unanswered(provider, topic, logBatchSize, start, toBlock))
              && (result == DB ==> Unwritten(faults))
    {
      hide Window, Consecutive, InBlockOrder, Chain.Valid, AlwaysFaulty;
      ghost var initialStart := StartBlock(chain, lastEvent);
      var start := StartBlock(chain, lastEvent);
      var end := Min(start + logBatchSize - 1, toBlock);
      var previousEvent := lastEvent;
      reached := start - 1;
      EmptyWindow(chain.events, topic, start, start - 1);
      NothingAccepted(topic, lastEvent);
      ghost var found := [];
      var n := 0;
      while start <= toBlock
        invariant initialStart <= start == reached + 1 <= Max(toBlock, initialStart - 1) + 1
        invariant end == Min(start + logBatchSize - 1, toBlock)
        invariant found == Window(chain.events, topic, initialStart, reached)
        invariant store.events == old(store.events) + found
        invariant Accepts(topic, lastEvent, found)
        invariant previousEvent == if found == [] then lastEvent else Some(found[|found| - 1])
        decreases toBlock + 1 - start
      {
        var received := provider(topic, start, end);
        if received.None? {
          return PROVIDER, reached;
        }
        var receivedEvents := received.value;
        AnswerIsWindow(start, end);
        ExtendWindow(initialStart, reached, end, toBlock, lastEvent, previousEvent, found, receivedEvents);
        if |receivedEvents| > 0 {
          if HasValidator(topic) {
            var success := RollupSequenceValidation(previousEvent, receivedEvents);
            if !success {
              return STREAM, reached;
            }
          }
          previousEvent := Some(receivedEvents[|receivedEvents| - 1]);
          var ok, _ := store.AddEthLogs(receivedEvents, faults(n));
          if !ok {
            return DB, reached;
          }
          assert old(store.events) + (found + receivedEvents) == old(store.events) + found + receivedEvents;
        }
        found := found + receivedEvents;
        reached := end;
        start := end + 1;
        end := Min(start + logBatchSize - 1, toBlock);
        n := n + 1;
      }
      result := NONE;
    }

    /**
     * Goes on from the last event in `logsDb`, adding to `store`. What is added carries the stored
     * events of the topic on to block `newBound`, which without an error is at least `latestBlock`.
     */
    method SyncToLatest(latestBlock: nat, logsDb: EthLogsDb, readFails: bool, store: EthLogsDb, faults: nat -> Faults,
                        ghost bound: int)
      returns (result: EventRetrieverErrors, ghost added: seq<EthEvent>, ghost newBound: int)
      requires Valid() && Follows(chain, topic, logsDb.events, bound)
      modifies store
      ensures store.events == old(store.events) + added
      ensures Extends(chain, topic, old(logsDb.events), added, newBound)
      ensures bound <= newBound <= Max(bound, latestBlock) && (result == NONE ==> newBound == Max(bound, latestBlock))
      ensures result == STREAM ==> !Accepts(topic, None, chain.UpTo(topic, Max(bound, latestBlock)))
      ensures result == PROVIDER ==> Unanswered(provider, topic, logBatchSize, chain.earliestBlock, latestBlock)
      ensures result == DB ==> readFails || Unwritten(faults)
    {
      hide Window, Follows, Extends, Chain.Valid, Chain.UpTo, Honest, Accepts, OfTopic, Unwritten;
      if readFails {
        NothingAdded(bound, logsDb.events);
        return DB, [], bound;
      }
      var lastEvent := logsDb.GetLastEvent(topic);
      ghost var before := logsDb.events;
      ghost var reached;
      result, reached := RetrieveNewEvents(lastEvent, latestBlock, store, faults);
      added := Window(chain.events, topic, StartBlock(chain, lastEvent), reached);
      newBound := Max(bound, reached);
      Resumed(before, bound, lastEvent, reached, latestBlock);
    }

    lemma NothingAdded(bound: int, stored: seq<EthEvent>)
      requires Follows(chain, topic, stored, bound)
      ensures Extends(chain, topic, stored, [], bound)
    {
    }

    lemma Resumed(stored: seq<EthEvent>, bound: int, last: Option<EthEvent>, reached: int, latest: nat)
      requires Valid() && Follows(chain, topic, stored, bound) && IsLatest(stored, topic, last)
      requires var start: int := StartBlock(chain, last); start - 1 <= reached <= Max(latest, start - 1)
      requires Accepts(topic, last, Window(chain.events, topic, StartBlock(chain, last), reached))
      ensures Extends(chain, topic, stored, Window(chain.events, topic, StartBlock(chain, last), reached),
                      Max(bound, reached))
      ensures Max(bound, reached) <= Max(bound, latest)
      ensures reached == Max(latest, StartBlock(chain, last) - 1) ==> Max(bound, reached) == Max(bound, latest)
      ensures !Accepts(topic, last, Window(chain.events, topic, StartBlock(chain, last), latest)) ==>
                !Accepts(topic, None, chain.UpTo(topic, Max(bound, latest)))
    {
      hide Window, Follows, IsLatest, Accepts, OfTopic, Consecutive, InBlockOrder, Chain.UpTo, HasValidator,
           Chain.Valid, Honest, StartBlock;
      StartsAfter(stored, bound, last);
      OfOneTopic(StartBlock(chain, last), reached);
      ResumedTo(stored, bound, last, reached);
      if latest >= StartBlock(chain, last) {
        ResumedTo(stored, bound, last, latest);
      } else {
        NothingNew(last, latest);
      }
    }

    lemma StartsAfter(stored: seq<EthEvent>, bound: int, last: Option<EthEvent>)
      requires Valid() && Follows(chain, topic, stored, bound) && IsLatest(stored, topic, last)
      ensures var start := StartBlock(chain, last);
              start <= bound + 1 && chain.UpTo(topic, start - 1) == chain.UpTo(topic, bound)
      ensures bound >= chain.earliestBlock - 1
    {
      ResumingMissesNothing(chain, topic, stored, bound, last);
      hide Window, IsLatest, Accepts, OfTopic, InBlockOrder, Honest;
    }

    lemma OfOneTopic(from: int, to: int)
      ensures var more := Window(chain.events, topic, from, to);
              forall i | 0 <= i < |more| :: more[i].mainTopic == topic
    {
      WindowElements(chain.events, topic, from, to);
      hide Window;
      var more := Window(chain.events, topic, from, to);
      assert forall i | 0 <= i < |more| :: more[i] in more;
    }

    lemma NothingNew(last: Option<EthEvent>, latest: nat)
      requires latest < StartBlock(chain, last)
      ensures Accepts(topic, last, Window(chain.events, topic, StartBlock(chain, last), latest))
    {
      EmptyWindow(chain.events, topic, StartBlock(chain, last), latest);
      hide Window;
    }

    /** Scanning on to block `to` completes the topic up to it, and validates exactly what is new. */
    lemma ResumedTo(stored: seq<EthEvent>, bound: int, last: Option<EthEvent>, to: int)
      requires Valid() && Follows(chain, topic, stored, bound) && IsLatest(stored, topic, last)
      requires var start := StartBlock(chain, last);
               start - 1 <= to && start <= bound + 1 && chain.UpTo(topic, start - 1) == chain.UpTo(topic, bound)
      ensures var more := Window(chain.events, topic, StartBlock(chain, last), to);
              && OfTopic(stored, topic) + more == chain.UpTo(topic, Max(bound, to))
              && (Accepts(topic, last, more) <==> Accepts(topic, None, chain.UpTo(topic, Max(bound, to))))
    {
      hide Window, IsLatest, OfTopic, InBlockOrder;
      var start: int := StartBlock(chain, last);
      var more := Window(chain.events, topic, start, to);
      if to > bound {
        WindowSplit(chain.events, topic, chain.earliestBlock, start - 1, to);
      } else {
        WindowSplit(chain.events, topic, chain.earliestBlock, start - 1, to);
        WindowSplit(chain.events, topic, chain.earliestBlock, to, bound);
        assert chain.UpTo(topic, bound) == (chain.UpTo(topic, start - 1) + more)
               + Window(chain.events, topic, to + 1, bound);
        assert |more| == 0;
      }
      if HasValidator(topic) {
        LatestIsLast(chain, topic, stored, bound, last);
        ValidationComposes(-1, chain.UpTo(topic, bound), more);
      }
    }

    lemma AnswerIsWindow(start: nat, end: nat)
      requires Valid() && provider(topic, start, end).Some?
      ensures provider(topic, start, end).value == Window(chain.events, topic, start, end)
    {
    }

    lemma ExtendWindow(from: nat, reached: int, end: nat, toBlock: nat, lastEvent: Option<EthEvent>,
                       previousEvent: Option<EthEvent>, found: seq<EthEvent>, received: seq<EthEvent>)
      requires Valid() && from - 1 <= reached <= end <= toBlock
      requires found == Window(chain.events, topic, from, reached)
               && received == Window(chain.events, topic, reached + 1, end)
      requires previousEvent == if found == [] then lastEvent else Some(found[|found| - 1])
      requires Accepts(topic, lastEvent, found)
      ensures found + received == Window(chain.events, topic, from, end)
      ensures Accepts(topic, previousEvent, received) ==> Accepts(topic, lastEvent, found + received)
      ensures !Accepts(topic, previousEvent, received) ==>
                !Accepts(topic, lastEvent, Window(chain.events, topic, from, toBlock))
      ensures received == [] ==> found + received == found && Accepts(topic, previousEvent, received)
    {
      WindowSplit(chain.events, topic, from, reached, end);
      WindowSplit(chain.events, topic, from, end, toBlock);
      ValidationComposes(RollupNumber(lastEvent), found, received);
      ValidationComposes(RollupNumber(lastEvent), found + received, Window(chain.events, topic, end + 1, toBlock));
    }

    lemma NothingAccepted(topic: Topic, lastEvent: Option<EthEvent>)
      ensures Accepts(topic, lastEvent, [])
    {
    }
  }
}
