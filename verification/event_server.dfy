/**
 * kebab's server as an indexer: the initial sync of all topics straight into the database, and then
 * polling, where what all topics read is committed in one transaction.
 */
module EventServer {
  import opened Util
  import opened EventStore
  import opened EventIndexer

  /** What can fail in one pass over the topics: reads, writes to the event store, and the joint commit. */
  datatype Failures = Failures(readFails: Topic -> bool, writes: Topic -> (nat -> Faults), commit: Faults)

  const NoFaults: nat -> Faults := (_: nat) => (_: nat, _: nat) => false

  lemma NoFaultsWrites()
    ensures !Unwritten(NoFaults)
  {
    forall n: nat
      ensures !AlwaysFaulty(NoFaults(n))
    {
      assert !FaultyAttempt(NoFaults(n), 0);
    }
  }

  datatype Poll = Poll(newBlockNumber: nat, failures: Failures)

  /** Up to which block each topic is stored. */
  datatype Bounds = Bounds(rollup: int, defi: int, offchain: int) {
    function Of(topic: Topic): int {
      match topic case ROLLUP_PROCESSED => rollup case DEFI_BRIDGE => defi case OFFCHAIN_DATA => offchain
    }

    function RaisedTo(block: int): Bounds { Bounds(Max(rollup, block), Max(defi, block), Max(offchain, block)) }

    predicate Below(other: Bounds) { rollup <= other.rollup && defi <= other.defi && offchain <= other.offchain }
  }

  /** Every topic's stored events are exactly the chain's up to its bound. */
  ghost predicate AllFollow(chain: Chain, stored: seq<EthEvent>, bounds: Bounds) {
    forall topic: Topic :: Follows(chain, topic, stored, bounds.Of(topic))
  }

  /** Writing one topic's new events keeps the other topics and moves that one on. */
  lemma WritingOneTopic(chain: Chain, stored: seq<EthEvent>, bounds: Bounds, topic: Topic, added: seq<EthEvent>,
                        bound: int, after: Bounds)
    requires AllFollow(chain, stored, bounds) && Extends(chain, topic, stored, added, bound)
    requires after.Of(topic) == bound && forall t: Topic | t != topic :: after.Of(t) == bounds.Of(t)
    ensures AllFollow(chain, stored + added, after)
  {
    forall t: Topic
      ensures Follows(chain, t, stored + added, after.Of(t))
    {
      assert Follows(chain, t, stored, bounds.Of(t));
      OfTopicAppend(stored, added, t);
      OfTopicUniform(added, topic, t);
    }
  }

  /** What extends a topic still does after events of other topics were written. */
  lemma ExtendsAfterOthers(chain: Chain, topic: Topic, stored: seq<EthEvent>, others: seq<EthEvent>,
                           added: seq<EthEvent>, bound: int)
    requires Extends(chain, topic, stored, added, bound)
    requires forall i | 0 <= i < |others| :: others[i].mainTopic != topic
    ensures Extends(chain, topic, stored + others, added, bound)
  {
    OfTopicAppend(stored, others, topic);
    OtherTopics(others, topic);
  }

  lemma Regroup(stored: seq<EthEvent>, a1: seq<EthEvent>, a2: seq<EthEvent>, a3: seq<EthEvent>)
    ensures stored + ([] + a1 + a2 + a3) == stored + a1 + a2 + a3
  {
  }

  lemma AddedElsewhere(chain: Chain, topic: Topic, stored: seq<EthEvent>, added: seq<EthEvent>, bound: int)
    requires Extends(chain, topic, stored, added, bound)
    ensures forall i | 0 <= i < |added| :: added[i].mainTopic == topic
  {
  }

  lemma {:induction false} OtherTopics(events: seq<EthEvent>, topic: Topic)
    requires forall i | 0 <= i < |events| :: events[i].mainTopic != topic
    ensures OfTopic(events, topic) == []
  {
    if events != [] {
      OtherTopics(events[..|events| - 1], topic);
    }
  }

  class Server {
    const provider: Provider
    const chain: Chain
    const logBatchSize: nat
    const logsDb: EthLogsDb

    ghost predicate Valid() {
      chain.Valid() && Honest(chain, provider) && logBatchSize >= 1
    }

    constructor (provider: Provider, chain: Chain, logBatchSize: nat, logsDb: EthLogsDb)
      ensures this.provider == provider && this.chain == chain && this.logBatchSize == logBatchSize
              && this.logsDb == logsDb
    {
      this.provider, this.chain, this.logBatchSize, this.logsDb := provider, chain, logBatchSize, logsDb;
    }

    method Retrieve(topic: Topic, latestBlock: nat, failures: Failures, store: EthLogsDb, faults: nat -> Faults,
                    ghost bounds: Bounds)
      returns (result: EventRetrieverErrors, ghost added: seq<EthEvent>, ghost newBound: int)
      requires Valid() && AllFollow(chain, logsDb.events, bounds)
      modifies store
      ensures store.events == old(store.events) + added
      ensures Extends(chain, topic, old(logsDb.events), added, newBound)
      ensures bounds.Of(topic) <= newBound <= Max(bounds.Of(topic), latestBlock)
      ensures result == NONE ==> newBound == Max(bounds.Of(topic), latestBlock)
      ensures result == STREAM ==> !Accepts(topic, None, chain.UpTo(topic, Max(bounds.Of(topic), latestBlock)))
      ensures result == PROVIDER ==> Unanswered(provider, topic, logBatchSize, chain.earliestBlock, latestBlock)
      ensures result == DB ==> failures.readFails(topic) || Unwritten(faults)
    {
      hide Follows, Extends, Accepts, Chain.UpTo, Chain.Valid, Honest, Unanswered, Unwritten;
      var retriever := new TopicEventRetriever(provider, chain, logBatchSize, topic);
      result, added, newBound := retriever.SyncToLatest(latestBlock, logsDb, failures.readFails(topic), store, faults,
                                                        bounds.Of(topic));
    }

    /** Reading a topic up to a block fails: its last event, or some window of the chain. */
    ghost predicate ReadFails(topic: Topic, latestBlock: int, failures: Failures) {
      failures.readFails(topic) || Unanswered(provider, topic, logBatchSize, chain.earliestBlock, latestBlock)
    }

    /** Something fails in an attempt at the initial sync: a read, or a write in all its attempts. */
    ghost predicate AttemptFails(blockNumber: int, failures: Failures) {
      exists topic :: ReadFails(topic, blockNumber, failures) || Unwritten(failures.writes(topic))
    }

    /** Something fails in a poll: a read, or the joint write in all its attempts. */
    ghost predicate PollFails(latestBlock: int, failures: Failures) {
      (exists topic :: ReadFails(topic, latestBlock, failures)) || AlwaysFaulty(failures.commit)
    }

    ghost predicate RollupsAccepted(to: int) {
      Accepts(ROLLUP_PROCESSED, None, chain.UpTo(ROLLUP_PROCESSED, to))
    }

    lemma OnlyRollupsAreValidated()
      ensures forall events :: Accepts(DEFI_BRIDGE, None, events)
      ensures forall events :: Accepts(OFFCHAIN_DATA, None, events)
    {
    }

    lemma FollowsAccepted(bounds: Bounds)
      requires AllFollow(chain, logsDb.events, bounds)
      ensures RollupsAccepted(bounds.rollup)
    {
      assert Follows(chain, ROLLUP_PROCESSED, logsDb.events, bounds.Of(ROLLUP_PROCESSED));
    }

    /**
     * One attempt at the initial sync. Each topic writes straight to the database, so an attempt
     * that fails may have moved some topics on; none loses or repeats an event. If nothing fails, it
     * succeeds exactly if the rollup ids are accepted.
     */
    method InitialSync(blockNumber: nat, failures: Failures, ghost bounds: Bounds)
      returns (success: bool, broken: bool, ghost after: Bounds)
      requires Valid() && AllFollow(chain, logsDb.events, bounds)
      modifies logsDb
      ensures AllFollow(chain, logsDb.events, after)
      ensures bounds.Below(after) && after.Below(bounds.RaisedTo(blockNumber))
      ensures success ==> !broken && after == bounds.RaisedTo(blockNumber)
      ensures broken || success ==> (success <==> RollupsAccepted(Max(bounds.rollup, blockNumber)))
      ensures !broken && !success ==> AttemptFails(blockNumber, failures)
    {
      hide AllFollow, Extends, Consecutive, Accepts, Chain.UpTo, Chain.Valid, Honest, Unanswered, Unwritten;
      OnlyRollupsAreValidated();
      var r1, r2, r3;
      ghost var added, bound;
      after := bounds;
      ghost var stored := logsDb.events;
      r1, added, bound := Retrieve(ROLLUP_PROCESSED, blockNumber, failures, logsDb, failures.writes(ROLLUP_PROCESSED),
                                   after);
      WritingOneTopic(chain, stored, after, ROLLUP_PROCESSED, added, bound, after.(rollup := bound));
      after := after.(rollup := bound);
      stored := logsDb.events;
      r2, added, bound := Retrieve(DEFI_BRIDGE, blockNumber, failures, logsDb, failures.writes(DEFI_BRIDGE), after);
      WritingOneTopic(chain, stored, after, DEFI_BRIDGE, added, bound, after.(defi := bound));
      after := after.(defi := bound);
      stored := logsDb.events;
      r3, added, bound := Retrieve(OFFCHAIN_DATA, blockNumber, failures, logsDb, failures.writes(OFFCHAIN_DATA), after);
      WritingOneTopic(chain, stored, after, OFFCHAIN_DATA, added, bound, after.(offchain := bound));
      after := after.(offchain := bound);
      broken := r1 == STREAM || r2 == STREAM || r3 == STREAM;
      success := r1 == NONE && r2 == NONE && r3 == NONE;
      FollowsAccepted(after);
      assert r1 == PROVIDER || r1 == DB ==>
               ReadFails(ROLLUP_PROCESSED, blockNumber, failures) || Unwritten(failures.writes(ROLLUP_PROCESSED));
      assert r2 == PROVIDER || r2 == DB ==>
               ReadFails(DEFI_BRIDGE, blockNumber, failures) || Unwritten(failures.writes(DEFI_BRIDGE));
      assert r3 == PROVIDER || r3 == DB ==>
               ReadFails(OFFCHAIN_DATA, blockNumber, failures) || Unwritten(failures.writes(OFFCHAIN_DATA));
    }

    /**
     * One poll. All topics move on to the same block in one transaction, or nothing changes; syncing
     * goes on unless the rollup stream is broken. If nothing fails, the topics move on exactly if
     * the rollup ids are accepted.
     */
    method RetrieveNewEvents(latestBlock: nat, failures: Failures, ghost bounds: Bounds)
      returns (success: bool, ghost after: Bounds)
      requires Valid() && AllFollow(chain, logsDb.events, bounds)
      modifies logsDb
      ensures AllFollow(chain, logsDb.events, after)
      ensures after == bounds.RaisedTo(latestBlock) || (after == bounds && logsDb.events == old(logsDb.events))
      ensures !success ==> !RollupsAccepted(Max(bounds.rollup, latestBlock))
      ensures !PollFails(latestBlock, failures) ==>
                && (success <==> RollupsAccepted(Max(bounds.rollup, latestBlock)))
                && (success ==> after == bounds.RaisedTo(latestBlock))
    {
      hide AllFollow, Extends, Consecutive, Accepts, Chain.UpTo, Chain.Valid, Honest, Unanswered, Unwritten,
           AlwaysFaulty;
      NoFaultsWrites();
      OnlyRollupsAreValidated();
      var events := new EthLogsDb();
      ghost var a1, a2, a3, b1, b2, b3;
      var r1, r2, r3;
      r1, a1, b1 := Retrieve(ROLLUP_PROCESSED, latestBlock, failures, events, NoFaults, bounds);
      r2, a2, b2 := Retrieve(DEFI_BRIDGE, latestBlock, failures, events, NoFaults, bounds);
      r3, a3, b3 := Retrieve(OFFCHAIN_DATA, latestBlock, failures, events, NoFaults, bounds);
      if r1 == STREAM || r2 == STREAM || r3 == STREAM {
        return false, bounds;
      }
      success, after := true, bounds;
      assert r1 == PROVIDER || r1 == DB ==> ReadFails(ROLLUP_PROCESSED, latestBlock, failures);
      assert r2 == PROVIDER || r2 == DB ==> ReadFails(DEFI_BRIDGE, latestBlock, failures);
      assert r3 == PROVIDER || r3 == DB ==> ReadFails(OFFCHAIN_DATA, latestBlock, failures);
      if r1 == NONE && r2 == NONE && r3 == NONE {
        JointCommit(logsDb.events, bounds, a1, b1, a2, b2, a3, b3);
        if |events.events| > 0 {
          var ok, _ := logsDb.AddEthLogs(events.events, failures.commit);
          if ok {
            after := Bounds(b1, b2, b3);
          }
        } else {
          assert logsDb.events + events.events == logsDb.events;
          after := Bounds(b1, b2, b3);
        }
      }
      FollowsAccepted(after);
    }

    lemma JointCommit(stored: seq<EthEvent>, bounds: Bounds, a1: seq<EthEvent>, b1: int, a2: seq<EthEvent>, b2: int,
                      a3: seq<EthEvent>, b3: int)
      requires AllFollow(chain, stored, bounds)
      requires Extends(chain, ROLLUP_PROCESSED, stored, a1, b1) && Extends(chain, DEFI_BRIDGE, stored, a2, b2)
      requires Extends(chain, OFFCHAIN_DATA, stored, a3, b3)
      ensures AllFollow(chain, stored + ([] + a1 + a2 + a3), Bounds(b1, b2, b3))
    {
      AddedElsewhere(chain, ROLLUP_PROCESSED, stored, a1, b1);
      AddedElsewhere(chain, DEFI_BRIDGE, stored, a2, b2);
      hide Extends, AllFollow;
      var after1, after2 := bounds.(rollup := b1), bounds.(rollup := b1, defi := b2);
      WritingOneTopic(chain, stored, bounds, ROLLUP_PROCESSED, a1, b1, after1);
      ExtendsAfterOthers(chain, DEFI_BRIDGE, stored, a1, a2, b2);
      WritingOneTopic(chain, stored + a1, after1, DEFI_BRIDGE, a2, b2, after2);
      ExtendsAfterOthers(chain, OFFCHAIN_DATA, stored, a1, a3, b3);
      ExtendsAfterOthers(chain, OFFCHAIN_DATA, stored + a1, a2, a3, b3);
      WritingOneTopic(chain, stored + a1 + a2, after2, OFFCHAIN_DATA, a3, b3, Bounds(b1, b2, b3));
      Regroup(stored, a1, a2, a3);
    }

    /**
     * A whole run: attempts at the initial sync until one succeeds, then polls until the server is
     * stopped or finds the stream broken, with any failures along the way. Throughout, every topic
     * is stored up to a bound; once ready, the bounds that were equal stay equal. The server gets
     * ready or finds the stream broken once nothing fails in some attempt, and every poll in which
     * nothing fails moves all topics on.
     */
    method Start(blockNumber: nat, attempts: seq<Failures>, polls: seq<Poll>, ghost bounds: Bounds)
      returns (ready: bool, broken: bool, ghost after: Bounds)
      requires Valid() && AllFollow(chain, logsDb.events, bounds)
      modifies logsDb
      ensures AllFollow(chain, logsDb.events, after) && bounds.Below(after)
      ensures ready ==> bounds.RaisedTo(blockNumber).Below(after)
      ensures ready && bounds.rollup <= blockNumber && bounds.defi <= blockNumber && bounds.offchain <= blockNumber ==>
                after.rollup == after.defi == after.offchain
      ensures !ready && !broken ==> forall i | 0 <= i < |attempts| :: AttemptFails(blockNumber, attempts[i])
      ensures !ready && broken ==> !RollupsAccepted(Max(bounds.rollup, blockNumber))
      ensures ready && broken ==> exists to: int :: !RollupsAccepted(to)
      ensures ready && !broken ==>
                forall j | 0 <= j < |polls| && !PollFails(polls[j].newBlockNumber, polls[j].failures) ::
                  bounds.RaisedTo(polls[j].newBlockNumber).Below(after)
    {
      hide AllFollow, Accepts, Consecutive, Chain.UpTo, Chain.Valid, Honest, AttemptFails, PollFails;
      ready, broken, after := false, false, bounds;
      var i := 0;
      while i < |attempts| && !ready
        invariant AllFollow(chain, logsDb.events, after)
        invariant bounds.Below(after) && after.Below(bounds.RaisedTo(blockNumber))
        invariant ready ==> after == bounds.RaisedTo(blockNumber)
        invariant !broken
        invariant i <= |attempts|
        invariant !ready ==> forall k | 0 <= k < i :: AttemptFails(blockNumber, attempts[k])
        decreases |attempts| - i, !ready
      {
        ghost var before := after;
        ready, broken, after := InitialSync(blockNumber, attempts[i], before);
        if broken {
          return false, true, after;
        }
        i := i + 1;
      }
      if !ready {
        return;
      }
      for j := 0 to |polls|
        invariant AllFollow(chain, logsDb.events, after)
        invariant bounds.RaisedTo(blockNumber).Below(after) && !broken
        invariant forall k | 0 <= k < j && !PollFails(polls[k].newBlockNumber, polls[k].failures) ::
                    bounds.RaisedTo(polls[k].newBlockNumber).Below(after)
        invariant bounds.rollup <= blockNumber && bounds.defi <= blockNumber && bounds.offchain <= blockNumber ==>
                    after.rollup == after.defi == after.offchain
      {
        var success;
        success, after := RetrieveNewEvents(polls[j].newBlockNumber, polls[j].failures, after);
        if !success {
          broken := true;
          break;
        }
      }
    }
  }
}
