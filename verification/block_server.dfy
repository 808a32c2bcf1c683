/**
 * block-server's server: a cache filled by polling for new blocks and by fetching the ranges that
 * readers find missing, and what a reader is given.
 */
module BlockServing {
  import opened Util
  import opened BlockCaching

  // ---- the cache agrees with the provider over every interleaving ----

  /** What is in the cache and what has been asked of the provider and not yet answered. */
  datatype State = State(cache: seq<Option<Block>>, polling: Option<nat>, fetching: multiset<BlockRequest>)

  datatype Event =
    | PollRequest
    | PollReply(received: nat)
    | ReadRequest(from: nat, take: nat)
    | FetchReply(request: BlockRequest, returned: nat)

  /** A poll may bring any number of blocks; a fetch at most as many as were asked for. */
  ghost predicate Possible(chain: seq<Block>, s: State, e: Event) {
    match e
    case PollRequest => s.polling.None?
    case PollReply(n) => s.polling.Some? && s.polling.value + n <= |chain|
    case ReadRequest(_, _) => true
    case FetchReply(r, n) => r in s.fetching && n <= r.take && r.from + n <= |chain|
  }

  ghost function Next(chain: seq<Block>, s: State, e: Event): State
    requires Possible(chain, s, e)
  {
    match e
    case PollRequest => s.(polling := Some(|s.cache|))
    case PollReply(n) =>
      s.(polling := None, cache := Added(s.cache, chain[s.polling.value..s.polling.value + n], None))
    case ReadRequest(from, take) =>
      s.(fetching := s.fetching + multiset(Runs(Cached(s.cache, from, take), from)))
    case FetchReply(r, n) =>
      State(Added(s.cache, chain[r.from..r.from + n], Some(r.from)), s.polling, s.fetching - multiset{r})
  }

  /** Each slot is empty or holds the provider's block. */
  ghost predicate Agrees(chain: seq<Block>, cache: seq<Option<Block>>) {
    && |cache| <= |chain|
    && forall i | 0 <= i < |cache| :: cache[i].None? || cache[i] == Some(chain[i])
  }

  ghost predicate Invariant(chain: seq<Block>, s: State) {
    && Agrees(chain, s.cache)
    && (s.polling.Some? ==> s.polling.value == |s.cache|)
    && forall r | r in s.fetching :: r.from + r.take <= |s.cache|
  }

  /** The same slots or more, and what was filled stays. */
  ghost predicate Keeps(before: seq<Option<Block>>, after: seq<Option<Block>>) {
    |before| <= |after| && forall i | 0 <= i < |before| && before[i].Some? :: after[i] == before[i]
  }

  lemma FillAgrees(chain: seq<Block>, cache: seq<Option<Block>>, from: nat, n: nat)
    requires Agrees(chain, cache) && from <= |cache| && from + n <= |chain|
    ensures var after := Added(cache, chain[from..from + n], Some(from)); Agrees(chain, after) && Keeps(cache, after)
    ensures from + n <= |cache| ==> |Added(cache, chain[from..from + n], Some(from))| == |cache|
  {
  }

  lemma PushAgrees(chain: seq<Block>, cache: seq<Option<Block>>, n: nat)
    requires Agrees(chain, cache) && |cache| + n <= |chain|
    ensures var after := Added(cache, chain[|cache|..|cache| + n], None); Agrees(chain, after) && Keeps(cache, after)
  {
  }

  lemma RunsAreInside(cache: seq<Option<Block>>, from: nat, take: nat)
    ensures forall r | r in Runs(Cached(cache, from, take), from) :: r.from + r.take <= |cache|
  {
    var items := Cached(cache, from, take);
    var rs := Runs(items, from);
    RunsAreMaximal(items, from);
    forall r | r in rs
      ensures r.from + r.take <= |cache|
    {
      var i :| 0 <= i < |rs| && rs[i] == r;
      assert IsRun(items, from, rs[i]);
    }
  }

  lemma StepKeepsInvariant(chain: seq<Block>, s: State, e: Event)
    requires Invariant(chain, s) && Possible(chain, s, e)
    ensures Invariant(chain, Next(chain, s, e)) && Keeps(s.cache, Next(chain, s, e).cache)
  {
    hide Added, Runs;
    match e
    case PollRequest =>
    case PollReply(n) => PushAgrees(chain, s.cache, n);
    case ReadRequest(from, take) => RunsAreInside(s.cache, from, take);
    case FetchReply(r, n) => FillAgrees(chain, s.cache, r.from, n);
  }

  /** The provider's blocks are in the slots from `from` on. */
  ghost predicate FilledFrom(chain: seq<Block>, cache: seq<Option<Block>>, from: nat, n: nat) {
    from + n <= |cache| && from + n <= |chain| && forall i | from <= i < from + n :: cache[i] == Some(chain[i])
  }

  /** A poll's answer makes the cache longer by its blocks, a fetch's fills the slots it has blocks for. */
  lemma RepliesFill(chain: seq<Block>, s: State, e: Event)
    requires Invariant(chain, s) && Possible(chain, s, e)
    ensures var after := Next(chain, s, e).cache;
            match e
            case PollReply(n) => |after| == |s.cache| + n && FilledFrom(chain, after, |s.cache|, n)
            case FetchReply(r, n) => |after| == |s.cache| && FilledFrom(chain, after, r.from, n)
            case _ => after == s.cache
  {
    hide Added, Agrees;
    match e
    case PollReply(n) => AddedFills(chain, s.cache, |s.cache|, n, None);
    case FetchReply(r, n) => AddedFills(chain, s.cache, r.from, n, Some(r.from));
    case _ =>
  }

  lemma AddedFills(chain: seq<Block>, cache: seq<Option<Block>>, from: nat, n: nat, startIndex: Option<nat>)
    requires from + n <= |chain| && from <= |cache|
    requires startIndex == (if from == |cache| && startIndex.None? then None else Some(from))
    requires startIndex.Some? ==> from + n <= |cache|
    ensures var after := Added(cache, chain[from..from + n], startIndex);
            FilledFrom(chain, after, from, n) && |after| == if startIndex.Some? then |cache| else |cache| + n
  {
  }

  ghost predicate PossibleRun(chain: seq<Block>, s: State, events: seq<Event>)
    decreases events
  {
    events == [] || (Possible(chain, s, events[0]) && PossibleRun(chain, Next(chain, s, events[0]), events[1..]))
  }

  ghost function End(chain: seq<Block>, s: State, events: seq<Event>): State
    requires PossibleRun(chain, s, events)
    decreases events
  {
    if events == [] then s else End(chain, Next(chain, s, events[0]), events[1..])
  }

  /**
   * However polls and fetches overlap and in whatever order they are answered, no slot ever holds
   * anything but the provider's block of that number, and no filled slot is lost.
   */
  lemma {:induction false} RunKeepsInvariant(chain: seq<Block>, s: State, events: seq<Event>)
    requires Invariant(chain, s) && PossibleRun(chain, s, events)
    ensures Invariant(chain, End(chain, s, events)) && Keeps(s.cache, End(chain, s, events).cache)
    decreases events
  {
    hide Invariant, Possible;
    if events != [] {
      StepKeepsInvariant(chain, s, events[0]);
      RunKeepsInvariant(chain, Next(chain, s, events[0]), events[1..]);
    }
  }

  // ---- one reader ----

  datatype Landing = Landing(request: BlockRequest, blocks: seq<Block>)

  /** The reader's result after replies have landed in this order. */
  function Landed(items: seq<Option<Block>>, from: nat, landings: seq<Landing>): seq<Option<Block>>
    requires forall i | 0 <= i < |landings| :: landings[i].request.from >= from
  {
    if landings == [] then items
    else
      var l := landings[|landings| - 1];
      Splice(Landed(items, from, landings[..|landings| - 1]), l.request.from - from, l.request.take, Somes(l.blocks))
  }

  function Requests(landings: seq<Landing>): (r: seq<BlockRequest>)
    ensures |r| == |landings| && forall i | 0 <= i < |r| :: r[i] == landings[i].request
  {
    seq(|landings|, i requires 0 <= i < |landings| => landings[i].request)
  }

  /** A reply is the provider's blocks from the one asked for on, at most as many as were asked for. */
  ghost predicate IsReply(chain: seq<Block>, l: Landing) {
    && |l.blocks| <= l.request.take && l.request.from + |l.blocks| <= |chain|
    && l.blocks == chain[l.request.from..l.request.from + |l.blocks|]
  }

  predicate Full(l: Landing) { |l.blocks| == l.request.take }

  ghost predicate Replies(chain: seq<Block>, items: seq<Option<Block>>, from: nat, landings: seq<Landing>) {
    forall i | 0 <= i < |landings| ::
      && IsReply(chain, landings[i])
      && from <= landings[i].request.from && landings[i].request.from + landings[i].request.take <= from + |items|
  }

  /** After full replies each place is right or still empty, and not empty where a reply has landed. */
  ghost predicate Filled(chain: seq<Block>, items: seq<Option<Block>>, from: nat, landings: seq<Landing>,
                         result: seq<Option<Block>>)
    requires from + |items| <= |chain|
  {
    && |result| == |items|
    && forall k | 0 <= k < |items| ::
         && (result[k].None? || result[k] == Some(chain[from + k]))
         && (items[k].Some? || (exists i :: 0 <= i < |landings| && In(landings[i].request, from + k)) ==>
             result[k].Some?)
  }

  lemma {:induction false} FullRepliesFill(chain: seq<Block>, items: seq<Option<Block>>, from: nat,
                                           landings: seq<Landing>)
    requires from + |items| <= |chain| && Replies(chain, items, from, landings)
    requires forall k | 0 <= k < |items| :: items[k].None? || items[k] == Some(chain[from + k])
    requires forall i | 0 <= i < |landings| :: Full(landings[i])
    ensures Filled(chain, items, from, landings, Landed(items, from, landings))
  {
    if landings == [] {
      assert Filled(chain, items, from, [], items);
    } else {
      hide Filled, Splice, IsReply;
      var n := |landings| - 1;
      FullRepliesFill(chain, items, from, landings[..n]);
      ReplyFills(chain, items, from, landings[..n], Landed(items, from, landings[..n]), landings[n]);
      assert landings == landings[..n] + [landings[n]];
    }
  }

  lemma ReplyFills(chain: seq<Block>, items: seq<Option<Block>>, from: nat, landings: seq<Landing>,
                   result: seq<Option<Block>>, l: Landing)
    requires from + |items| <= |chain| && Filled(chain, items, from, landings, result)
    requires IsReply(chain, l) && Full(l) && from <= l.request.from && l.request.from + l.request.take <= from + |items|
    ensures Filled(chain, items, from, landings + [l],
                   Splice(result, l.request.from - from, l.request.take, Somes(l.blocks)))
  {
    var after := Splice(result, l.request.from - from, l.request.take, Somes(l.blocks));
    forall k | 0 <= k < |items|
      ensures after[k] == if In(l.request, from + k) then Some(chain[from + k]) else result[k]
    {
    }
    forall k, i | 0 <= k < |items| && 0 <= i < |landings + [l]| && In((landings + [l])[i].request, from + k)
      ensures after[k].Some?
    {
      if i < |landings| {
        assert In(landings[i].request, from + k);
      }
    }
  }

  lemma {:induction false} CountSomeAppend(a: seq<Option<Block>>, b: seq<Option<Block>>)
    ensures CountSome(a + b) == CountSome(a) + CountSome(b)
  {
    if b == [] {
      assert a + b == a;
    } else {
      assert (a + b)[..|a + b| - 1] == a + b[..|b| - 1];
      CountSomeAppend(a, b[..|b| - 1]);
    }
  }

  lemma SpliceAddsAtMost(s: seq<Option<Block>>, start: nat, deleteCount: nat, items: seq<Option<Block>>)
    ensures CountSome(Splice(s, start, deleteCount, items)) <= CountSome(s) + |items|
  {
    var a, b := Min(start, |s|), Min(start + deleteCount, |s|);
    assert s == s[..a] + s[a..b] + s[b..];
    CountSomeAppend(s[..a] + s[a..b], s[b..]);
    CountSomeAppend(s[..a], s[a..b]);
    CountSomeAppend(s[..a] + items, s[b..]);
    CountSomeAppend(s[..a], items);
  }

  function TotalReceived(landings: seq<Landing>): nat {
    if landings == [] then 0 else TotalReceived(landings[..|landings| - 1]) + |landings[|landings| - 1].blocks|
  }

  lemma {:induction false} LandingsAddAtMost(items: seq<Option<Block>>, from: nat, landings: seq<Landing>)
    requires forall i | 0 <= i < |landings| :: landings[i].request.from >= from
    ensures CountSome(Landed(items, from, landings)) <= CountSome(items) + TotalReceived(landings)
  {
    hide CountSome, Splice;
    if landings != [] {
      var n := |landings| - 1;
      LandingsAddAtMost(items, from, landings[..n]);
      SpliceAddsAtMost(Landed(items, from, landings[..n]), landings[n].request.from - from, landings[n].request.take,
                       Somes(landings[n].blocks));
    }
  }

  lemma {:induction false} ShortRepliesLack(landings: seq<Landing>)
    requires forall i | 0 <= i < |landings| :: |landings[i].blocks| <= landings[i].request.take
    ensures TotalReceived(landings) <= TotalTake(Requests(landings))
    ensures TotalReceived(landings) == TotalTake(Requests(landings)) ==> forall i | 0 <= i < |landings| ::
              Full(landings[i])
  {
    if landings != [] {
      var n := |landings| - 1;
      ShortRepliesLack(landings[..n]);
      assert Requests(landings)[..n] == Requests(landings[..n]);
    }
  }

  lemma {:induction false} TakeWithout(rs: seq<BlockRequest>, i: nat)
    requires i < |rs|
    ensures TotalTake(rs) == TotalTake(rs[..i] + rs[i + 1..]) + rs[i].take
  {
    var n := |rs| - 1;
    if i < n {
      TakeWithout(rs[..n], i);
      assert rs[..n][..i] + rs[..n][i + 1..] == (rs[..i] + rs[i + 1..])[..n - 1];
    } else {
      assert rs[..i] + rs[i + 1..] == rs[..n];
    }
  }

  lemma MultisetWithout(rs: seq<BlockRequest>, i: nat)
    requires i < |rs|
    ensures multiset(rs[..i] + rs[i + 1..]) == multiset(rs) - multiset{rs[i]}
    ensures rs[i] in multiset(rs)
  {
    assert rs == rs[..i] + [rs[i]] + rs[i + 1..];
  }

  lemma {:induction false} TakeOfPermutation(a: seq<BlockRequest>, b: seq<BlockRequest>)
    requires multiset(a) == multiset(b)
    ensures TotalTake(a) == TotalTake(b)
  {
    if a == [] {
      assert multiset(b) == multiset{};
      assert |b| == |multiset(b)|;
    } else {
      var n := |a| - 1;
      MultisetWithout(a, n);
      assert a[..n] + a[n + 1..] == a[..n];
      var i :| 0 <= i < |b| && b[i] == a[n];
      MultisetWithout(b, i);
      TakeWithout(b, i);
      TakeOfPermutation(a[..n], b[..i] + b[i + 1..]);
    }
  }

  lemma {:induction false} CountSomeOfBlocks(items: seq<Option<Block>>)
    requires forall k | 0 <= k < |items| :: items[k].Some?
    ensures CountSome(items) == |items|
  {
    if items != [] {
      CountSomeOfBlocks(items[..|items| - 1]);
    }
  }

  /**
   * In whatever order the replies land, a reader gets exactly the provider's blocks if every reply
   * has the length asked for, and only then: after a shorter one, later blocks are in wrong places.
   */
  lemma ReadIsExactIffRepliesAreFull(chain: seq<Block>, items: seq<Option<Block>>, from: nat,
                                     requests: seq<BlockRequest>, landings: seq<Landing>)
    requires from + |items| <= |chain| && ProperRuns(items, from, requests)
    requires forall k | 0 <= k < |items| :: items[k].None? || items[k] == Some(chain[from + k])
    requires Replies(chain, items, from, landings) && multiset(Requests(landings)) == multiset(requests)
    ensures Landed(items, from, landings) == Somes(chain[from..from + |items|]) <==>
            forall i | 0 <= i < |landings| :: Full(landings[i])
  {
    var result, exact := Landed(items, from, landings), Somes(chain[from..from + |items|]);
    if forall i | 0 <= i < |landings| :: Full(landings[i]) {
      FullRepliesFill(chain, items, from, landings);
      AllCovered(items, from, requests, landings);
      assert result == exact;
    }
    if result == exact {
      CountSomeOfBlocks(exact);
      LandingsAddAtMost(items, from, landings);
      TakeOfPermutation(Requests(landings), requests);
      ShortRepliesLack(landings);
    }
  }

  predicate NoGaps(items: seq<Option<Block>>) { forall k | 0 <= k < |items| :: items[k].Some? }

  /** So it can be told from the result: it is exact if it has the length asked for and no empty slot. */
  lemma ReadIsExactIffNoGaps(chain: seq<Block>, items: seq<Option<Block>>, from: nat, requests: seq<BlockRequest>,
                             landings: seq<Landing>)
    requires from + |items| <= |chain| && ProperRuns(items, from, requests)
    requires forall k | 0 <= k < |items| :: items[k].None? || items[k] == Some(chain[from + k])
    requires Replies(chain, items, from, landings) && multiset(Requests(landings)) == multiset(requests)
    ensures var result := Landed(items, from, landings);
            result == Somes(chain[from..from + |items|]) <==> |result| == |items| && NoGaps(result)
  {
    ReadIsExactIffRepliesAreFull(chain, items, from, requests, landings);
    var result := Landed(items, from, landings);
    if |result| == |items| && NoGaps(result) {
      CountSomeOfBlocks(result);
      LandingsAddAtMost(items, from, landings);
      TakeOfPermutation(Requests(landings), requests);
      ShortRepliesLack(landings);
    }
  }

  lemma AllCovered(items: seq<Option<Block>>, from: nat, requests: seq<BlockRequest>, landings: seq<Landing>)
    requires Covers(items, from, requests) && multiset(Requests(landings)) == multiset(requests)
    ensures forall k | 0 <= k < |items| && items[k].None? :: exists i ::
              0 <= i < |landings| && In(landings[i].request, from + k)
  {
    forall k | 0 <= k < |items| && items[k].None?
      ensures exists i :: 0 <= i < |landings| && In(landings[i].request, from + k)
    {
      var i :| 0 <= i < |requests| && In(requests[i], from + k);
      assert requests[i] in multiset(requests);
      assert requests[i] in Requests(landings);
      var j :| 0 <= j < |landings| && Requests(landings)[j] == requests[i];
      assert In(landings[j].request, from + k);
    }
  }

  // ---- the server ----

  /** The provider: for a request, blocks from the one asked for on, and no more than were asked for. */
  ghost predicate Honest(chain: seq<Block>, getBlocks: BlockRequest -> seq<Block>) {
    forall r: BlockRequest | r.from + r.take <= |chain| :: IsReply(chain, Landing(r, getBlocks(r)))
  }

  class Server {
    const blockCache: BlockCache

    constructor (blockCache: BlockCache)
      ensures this.blockCache == blockCache
    {
      this.blockCache := blockCache;
    }

    /** Starts with only the last block, or with none if there is none yet. */
    method Start(latestRollupId: int, received: nat, ghost chain: seq<Block>, latestBlocks: seq<Block>)
      requires -1 <= latestRollupId < |chain|
      requires latestRollupId >= 0 ==>
                 latestRollupId + received <= |chain|
                   && latestBlocks == chain[latestRollupId..latestRollupId + received]
      modifies blockCache
      ensures Agrees(chain, blockCache.blockBufferCache)
      ensures |blockCache.blockBufferCache| >= latestRollupId + 1
      ensures latestRollupId >= 0 && received > 0 ==>
                blockCache.blockBufferCache[latestRollupId] == Some(chain[latestRollupId])
    {
      blockCache.Init(latestRollupId + 1);
      if latestRollupId != -1 {
        FillAgrees(chain, blockCache.blockBufferCache, latestRollupId, received);
        blockCache.AddBlocks(latestBlocks, Some(latestRollupId as nat));
      }
    }

    /**
     * A read, with its missing ranges fetched and landing in the order `next` picks. The result is
     * the provider's slice exactly when every reply was full, and exactly when it has no empty slot
     * and as many slots as the cache had of those asked for.
     */
    method GetBlockBuffers(from: nat, take: nat, getBlocks: BlockRequest -> seq<Block>, next: nat -> nat,
                           ghost chain: seq<Block>)
      returns (blocks: seq<Option<Block>>, complete: bool, ghost missing: seq<BlockRequest>)
      requires Agrees(chain, blockCache.blockBufferCache) && Honest(chain, getBlocks)
      modifies blockCache
      ensures Agrees(chain, blockCache.blockBufferCache)
              && Keeps(old(blockCache.blockBufferCache), blockCache.blockBufferCache)
      ensures ReadResult(chain, Cached(old(blockCache.blockBufferCache), from, take), from, missing, getBlocks, blocks)
      ensures complete <==> |blocks| == take
    {
      hide *;
      var requests;
      blocks, requests := blockCache.GetBlocks(from, take);
      missing := requests;
      ghost var asked, landings := blocks, [];
      ReadingStarts(chain, blockCache.blockBufferCache, asked, from, take, missing, getBlocks);
      ghost var cache := blockCache.blockBufferCache;
      var step := 0;
      while |requests| > 0
        invariant Reading(chain, blockCache.blockBufferCache, asked, from, landings, blocks, requests, missing,
                          getBlocks)
        invariant Keeps(cache, blockCache.blockBufferCache)
        decreases |requests|
      {
        var j := next(step) % |requests|;
        var r := requests[j];
        var blocksRes := getBlocks(r);
        ReadingGoesOn(chain, blockCache.blockBufferCache, asked, from, landings, blocks, requests, missing, getBlocks,
                      j);
        KeepsOn(cache, blockCache.blockBufferCache, Added(blockCache.blockBufferCache, blocksRes, Some(r.from)));
        blockCache.AddBlocks(blocksRes, Some(r.from));
        blocks := Splice(blocks, r.from - from, r.take, Somes(blocksRes));
        requests := requests[..j] + requests[j + 1..];
        landings := landings + [Landing(r, blocksRes)];
        step := step + 1;
      }
      ReadingEnds(chain, blockCache.blockBufferCache, asked, from, landings, blocks, requests, missing, getBlocks);
      complete := |blocks| == take;
    }
  }

  ghost predicate ReadResult(chain: seq<Block>, asked: seq<Option<Block>>, from: nat, missing: seq<BlockRequest>,
                             getBlocks: BlockRequest -> seq<Block>, blocks: seq<Option<Block>>) {
    && ProperRuns(asked, from, missing)
    && (asked == [] ==> blocks == [])
    && (asked != [] ==>
          && from + |asked| <= |chain|
          && (blocks == Somes(chain[from..from + |asked|]) <==> forall r | r in missing :: |getBlocks(r)| == r.take)
          && (blocks == Somes(chain[from..from + |asked|]) <==> |blocks| == |asked| && NoGaps(blocks)))
  }

  /** A read under way: some requests have landed and the others are still out. */
  ghost predicate Reading(chain: seq<Block>, cache: seq<Option<Block>>, asked: seq<Option<Block>>, from: nat,
                          landings: seq<Landing>, blocks: seq<Option<Block>>, requests: seq<BlockRequest>,
                          missing: seq<BlockRequest>, getBlocks: BlockRequest -> seq<Block>) {
    && Honest(chain, getBlocks) && Agrees(chain, cache) && ProperRuns(asked, from, missing)
    && SlotsAsked(chain, cache, asked, from)
    && Within(requests, from, |asked|)
    && Received(chain, asked, from, landings, blocks, getBlocks)
    && multiset(Requests(landings)) + multiset(requests) == multiset(missing)
  }

  ghost predicate SlotsAsked(chain: seq<Block>, cache: seq<Option<Block>>, asked: seq<Option<Block>>, from: nat) {
    && (asked != [] ==> from + |asked| <= |cache| <= |chain|)
    && (forall k | 0 <= k < |asked| :: asked[k].None? || asked[k] == Some(chain[from + k]))
  }

  ghost predicate Within(requests: seq<BlockRequest>, from: nat, n: nat) {
    forall i | 0 <= i < |requests| ::
      from <= requests[i].from && requests[i].from + requests[i].take <= from + n && requests[i].take > 0
  }

  ghost predicate Received(chain: seq<Block>, asked: seq<Option<Block>>, from: nat, landings: seq<Landing>,
                           blocks: seq<Option<Block>>, getBlocks: BlockRequest -> seq<Block>) {
    && Replies(chain, asked, from, landings)
    && (forall i | 0 <= i < |landings| :: landings[i].blocks == getBlocks(landings[i].request))
    && blocks == Landed(asked, from, landings)
  }

  lemma ReadingStarts(chain: seq<Block>, cache: seq<Option<Block>>, asked: seq<Option<Block>>, from: nat, take: nat,
                      missing: seq<BlockRequest>, getBlocks: BlockRequest -> seq<Block>)
    requires Agrees(chain, cache) && Honest(chain, getBlocks)
    requires asked == Cached(cache, from, take) && missing == Runs(asked, from)
    ensures Reading(chain, cache, asked, from, [], asked, missing, missing, getBlocks) && Keeps(cache, cache)
  {
    RunsAreMaximal(asked, from);
    RunsAreWithin(asked, from);
    NothingOut(missing);
    NothingReceived(chain, cache, asked, from, take, getBlocks);
    hide Honest, Agrees, ProperRuns, SlotsAsked, Received, Within, Cached, Runs, Keeps;
  }

  lemma NothingOut(missing: seq<BlockRequest>)
    ensures multiset(Requests([])) + multiset(missing) == multiset(missing)
  {
  }

  lemma NothingReceived(chain: seq<Block>, cache: seq<Option<Block>>, asked: seq<Option<Block>>, from: nat, take: nat,
                        getBlocks: BlockRequest -> seq<Block>)
    requires Agrees(chain, cache) && asked == Cached(cache, from, take)
    ensures Received(chain, asked, from, [], asked, getBlocks) && SlotsAsked(chain, cache, asked, from)
            && Keeps(cache, cache)
  {
  }

  lemma RunsAreWithin(items: seq<Option<Block>>, from: nat)
    ensures Within(Runs(items, from), from, |items|)
  {
    var rs := Runs(items, from);
    RunsAreMaximal(items, from);
    forall i | 0 <= i < |rs|
      ensures from <= rs[i].from && rs[i].from + rs[i].take <= from + |items| && rs[i].take > 0
    {
      assert IsRun(items, from, rs[i]);
    }
  }

  lemma ReadingGoesOn(chain: seq<Block>, cache: seq<Option<Block>>, asked: seq<Option<Block>>, from: nat,
                      landings: seq<Landing>, blocks: seq<Option<Block>>, requests: seq<BlockRequest>,
                      missing: seq<BlockRequest>, getBlocks: BlockRequest -> seq<Block>, j: nat)
    requires Reading(chain, cache, asked, from, landings, blocks, requests, missing, getBlocks) && j < |requests|
    ensures var r := requests[j]; var res := getBlocks(r);
            && r.from >= from
            && Reading(chain, Added(cache, res, Some(r.from)), asked, from, landings + [Landing(r, res)],
                       Splice(blocks, r.from - from, r.take, Somes(res)), requests[..j] + requests[j + 1..], missing,
                       getBlocks)
            && Keeps(cache, Added(cache, res, Some(r.from)))
  {
    hide Honest, ProperRuns, Splice, Landed, Keeps, Agrees, Added, IsReply, Within, Received, SlotsAsked, Requests,
         Replies;
    var r := requests[j];
    RequestInRange(chain, cache, asked, from, requests, getBlocks, j);
    FetchAgrees(chain, cache, asked, from, r, getBlocks(r));
    OneMoreReceived(chain, asked, from, landings, blocks, getBlocks, r);
    OneLessOut(landings, requests, missing, j, getBlocks(r));
    OthersWithin(requests, j, from, |asked|);
  }

  lemma RequestInRange(chain: seq<Block>, cache: seq<Option<Block>>, asked: seq<Option<Block>>, from: nat,
                       requests: seq<BlockRequest>, getBlocks: BlockRequest -> seq<Block>, j: nat)
    requires Honest(chain, getBlocks) && SlotsAsked(chain, cache, asked, from) && Within(requests, from, |asked|)
             && j < |requests|
    ensures asked != [] && from <= requests[j].from && requests[j].from + requests[j].take <= from + |asked|
    ensures IsReply(chain, Landing(requests[j], getBlocks(requests[j])))
  {
    hide IsReply;
    assert from <= requests[j].from;
  }

  lemma OthersWithin(requests: seq<BlockRequest>, j: nat, from: nat, n: nat)
    requires j < |requests| && Within(requests, from, n)
    ensures Within(requests[..j] + requests[j + 1..], from, n)
  {
    var others := requests[..j] + requests[j + 1..];
    assert forall i | 0 <= i < |others| :: others[i] == if i < j then requests[i] else requests[i + 1];
  }

  lemma OneLessOut(landings: seq<Landing>, requests: seq<BlockRequest>, missing: seq<BlockRequest>, j: nat,
                   res: seq<Block>)
    requires j < |requests| && multiset(Requests(landings)) + multiset(requests) == multiset(missing)
    ensures multiset(Requests(landings + [Landing(requests[j], res)]))
            + multiset(requests[..j] + requests[j + 1..]) == multiset(missing)
  {
    MultisetWithout(requests, j);
    assert Requests(landings + [Landing(requests[j], res)]) == Requests(landings) + [requests[j]];
  }

  lemma FetchAgrees(chain: seq<Block>, cache: seq<Option<Block>>, asked: seq<Option<Block>>, from: nat, r: BlockRequest,
                    res: seq<Block>)
    requires Agrees(chain, cache) && SlotsAsked(chain, cache, asked, from) && asked != []
    requires IsReply(chain, Landing(r, res)) && r.from + r.take <= from + |asked|
    ensures var after := Added(cache, res, Some(r.from));
            Agrees(chain, after) && SlotsAsked(chain, after, asked, from) && Keeps(cache, after)
  {
    FillAgrees(chain, cache, r.from, |res|);
  }

  lemma OneMoreReceived(chain: seq<Block>, asked: seq<Option<Block>>, from: nat, landings: seq<Landing>,
                        blocks: seq<Option<Block>>, getBlocks: BlockRequest -> seq<Block>, r: BlockRequest)
    requires Received(chain, asked, from, landings, blocks, getBlocks) && IsReply(chain, Landing(r, getBlocks(r)))
    requires from <= r.from && r.from + r.take <= from + |asked|
    ensures var l := Landing(r, getBlocks(r));
            Received(chain, asked, from, landings + [l], Splice(blocks, r.from - from, r.take, Somes(l.blocks)),
                     getBlocks)
  {
    assert (landings + [Landing(r, getBlocks(r))])[..|landings|] == landings;
  }

  lemma KeepsOn(a: seq<Option<Block>>, b: seq<Option<Block>>, c: seq<Option<Block>>)
    requires Keeps(a, b) && Keeps(b, c)
    ensures Keeps(a, c)
  {
  }

  lemma ReadingEnds(chain: seq<Block>, cache: seq<Option<Block>>, asked: seq<Option<Block>>, from: nat,
                    landings: seq<Landing>, blocks: seq<Option<Block>>, requests: seq<BlockRequest>,
                    missing: seq<BlockRequest>, getBlocks: BlockRequest -> seq<Block>)
    requires Reading(chain, cache, asked, from, landings, blocks, requests, missing, getBlocks) && requests == []
    ensures ReadResult(chain, asked, from, missing, getBlocks, blocks) && Agrees(chain, cache)
  {
    assert multiset(Requests(landings)) == multiset(missing);
    if asked == [] {
      NothingMissing(asked, from, missing, landings);
    } else {
      hide Honest, Agrees, ProperRuns, Landed, Replies;
      ReadIsExactIffRepliesAreFull(chain, asked, from, missing, landings);
      ReadIsExactIffNoGaps(chain, asked, from, missing, landings);
      SameReplies(landings, missing, getBlocks);
    }
  }

  lemma NothingMissing(asked: seq<Option<Block>>, from: nat, missing: seq<BlockRequest>, landings: seq<Landing>)
    requires asked == [] && ProperRuns(asked, from, missing) && multiset(Requests(landings)) == multiset(missing)
    requires forall i | 0 <= i < |landings| :: landings[i].request.from >= from
    ensures Landed(asked, from, landings) == []
  {
    RunsTakeSome(asked, from, missing);
    AtMostTotalTake(missing);
    assert |Requests(landings)| == |multiset(Requests(landings))|;
  }

  lemma RunsTakeSome(items: seq<Option<Block>>, from: nat, rs: seq<BlockRequest>)
    requires AllRuns(items, from, rs)
    ensures forall i | 0 <= i < |rs| :: rs[i].take >= 1
  {
  }

  lemma {:induction false} AtMostTotalTake(rs: seq<BlockRequest>)
    requires forall i | 0 <= i < |rs| :: rs[i].take >= 1
    ensures |rs| <= TotalTake(rs)
  {
    if rs != [] {
      AtMostTotalTake(rs[..|rs| - 1]);
    }
  }

  lemma SameReplies(landings: seq<Landing>, missing: seq<BlockRequest>, getBlocks: BlockRequest -> seq<Block>)
    requires multiset(Requests(landings)) == multiset(missing)
    requires forall i | 0 <= i < |landings| :: landings[i].blocks == getBlocks(landings[i].request)
    ensures (forall i | 0 <= i < |landings| :: Full(landings[i])) <==>
              forall r | r in missing :: |getBlocks(r)| == r.take
  {
    if forall i | 0 <= i < |landings| :: Full(landings[i]) {
      forall r | r in missing
        ensures |getBlocks(r)| == r.take
      {
        assert r in multiset(missing);
        assert r in multiset(Requests(landings));
      }
    }
    if forall r | r in missing :: |getBlocks(r)| == r.take {
      forall i | 0 <= i < |landings|
        ensures Full(landings[i])
      {
        assert Requests(landings)[i] in multiset(missing);
      }
    }
  }
}
