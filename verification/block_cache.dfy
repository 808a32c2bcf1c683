/** block-server's sparse cache of the rollup provider's blocks, and the ranges missing from it. */
module BlockCaching {
  import opened Util

  type Block = nat

  datatype BlockRequest = BlockRequest(from: nat, take: nat)

  /** JavaScript's `splice`: removes up to `deleteCount` items from `start` on and puts `items` there. */
  function Splice<T>(s: seq<T>, start: nat, deleteCount: nat, items: seq<T>): seq<T> {
    var from := Min(start, |s|);
    var to := Min(start + deleteCount, |s|);
    s[..from] + items + s[to..]
  }

  function Somes(blocks: seq<Block>): (r: seq<Option<Block>>)
    ensures |r| == |blocks| && forall i | 0 <= i < |r| :: r[i] == Some(blocks[i])
  {
    seq(|blocks|, i requires 0 <= i < |blocks| => Some(blocks[i]))
  }

  // ---- missing ranges ----

  /** The requests are the maximal runs of empty slots, in order; `items[0]` is slot `from`. */
  ghost predicate MaximalRuns(items: seq<Option<Block>>, from: nat, requests: seq<BlockRequest>) {
    AllRuns(items, from, requests) && Apart(requests) && Covers(items, from, requests)
  }

  ghost predicate AllRuns(items: seq<Option<Block>>, from: nat, requests: seq<BlockRequest>) {
    forall i | 0 <= i < |requests| :: IsRun(items, from, requests[i])
  }

  ghost predicate Apart(requests: seq<BlockRequest>) {
    forall i | 0 <= i < |requests| - 1 :: requests[i].from + requests[i].take < requests[i + 1].from
  }

  ghost predicate Covers(items: seq<Option<Block>>, from: nat, requests: seq<BlockRequest>) {
    forall k | 0 <= k < |items| && items[k].None? :: exists i :: 0 <= i < |requests| && In(requests[i], from + k)
  }

  predicate In(r: BlockRequest, slot: nat) { r.from <= slot < r.from + r.take }

  /** A run of empty slots that cannot be made longer on either side. */
  ghost predicate IsRun(items: seq<Option<Block>>, from: nat, r: BlockRequest) {
    && r.take >= 1 && from <= r.from && r.from + r.take <= from + |items|
    && (forall k | 0 <= k < |items| && In(r, from + k) :: items[k].None?)
    && (r.from > from ==> items[r.from - 1 - from].Some?)
    && (r.from + r.take < from + |items| ==> items[r.from + r.take - from].Some?)
  }

  /** The runs of a prefix, where the last may still be growing. */
  function Runs(items: seq<Option<Block>>, from: nat): seq<BlockRequest> {
    if items == [] then []
    else
      var n := |items| - 1;
      var before := Runs(items[..n], from);
      if items[n].Some? then before
      else if n > 0 && items[n - 1].None? && before != [] then
        Longer(before)
      else before + [BlockRequest(from + n, 1)]
  }

  /** Where the last request ends: at the end of the items exactly if they end with an empty slot. */
  ghost predicate EndsWell(items: seq<Option<Block>>, from: nat, requests: seq<BlockRequest>) {
    && (items != [] && items[|items| - 1].None? ==>
        requests != [] && Last(requests).from + Last(requests).take == from + |items|)
    && (items == [] || items[|items| - 1].Some? ==>
        requests == [] || Last(requests).from + Last(requests).take < from + |items|)
  }

  function Last(requests: seq<BlockRequest>): BlockRequest
    requires requests != []
  {
    requests[|requests| - 1]
  }

  /** Exactly the empty slots are asked for: as maximal runs, and as many as there are. */
  ghost predicate ProperRuns(items: seq<Option<Block>>, from: nat, requests: seq<BlockRequest>) {
    && MaximalRuns(items, from, requests) && EndsWell(items, from, requests)
    && TotalTake(requests) == |items| - CountSome(items)
  }

  lemma {:induction false} RunsAreMaximal(items: seq<Option<Block>>, from: nat)
    ensures ProperRuns(items, from, Runs(items, from))
  {
    hide ProperRuns, Runs;
    if items == [] {
      NoRuns(from);
    } else {
      var n := |items| - 1;
      RunsAreMaximal(items[..n], from);
      RunsStep(items[..n], items[n], from);
      assert items == items[..n] + [items[n]];
    }
  }

  lemma NoRuns(from: nat)
    ensures ProperRuns([], from, Runs([], from))
  {
  }

  lemma RunsStep(items: seq<Option<Block>>, x: Option<Block>, from: nat)
    requires ProperRuns(items, from, Runs(items, from))
    ensures ProperRuns(items + [x], from, Runs(items + [x], from))
  {
    var n, before := |items|, Runs(items, from);
    RunsOfMore(items, x, from);
    if n > 0 && items[n - 1].None? {
      assert before != [];
    }
    hide Runs, CountSome, IsRun, MaximalRuns;
    if x.Some? {
      FilledSlot(items, from, before, x);
    } else if n > 0 && items[n - 1].None? {
      LongerRun(items, from, before);
    } else {
      NewRun(items, from, before);
    }
  }

  lemma RunsOfMore(items: seq<Option<Block>>, x: Option<Block>, from: nat)
    ensures var before := Runs(items, from);
            Runs(items + [x], from) ==
              if x.Some? then before
              else if items != [] && items[|items| - 1].None? && before != [] then Longer(before)
              else before + [BlockRequest(from + |items|, 1)]
    ensures CountSome(items + [x]) == CountSome(items) + if x.Some? then 1 else 0
  {
    assert (items + [x])[..|items|] == items;
  }

  lemma SameRun(items: seq<Option<Block>>, from: nat, r: BlockRequest, x: Option<Block>)
    requires IsRun(items, from, r) && (r.from + r.take == from + |items| ==> x.Some?)
    ensures IsRun(items + [x], from, r)
  {
    var more := items + [x];
    forall k | 0 <= k < |more| && In(r, from + k)
      ensures more[k].None?
    {
      assert more[k] == items[k];
    }
  }

  /** All but the last run end before the end. */
  lemma InnerRunsEnd(items: seq<Option<Block>>, from: nat, requests: seq<BlockRequest>, i: nat)
    requires MaximalRuns(items, from, requests) && i < |requests| - 1
    ensures requests[i].from + requests[i].take < from + |items|
  {
    assert IsRun(items, from, requests[i + 1]);
  }

  lemma FilledSlot(items: seq<Option<Block>>, from: nat, requests: seq<BlockRequest>, x: Option<Block>)
    requires MaximalRuns(items, from, requests) && EndsWell(items, from, requests) && x.Some?
    ensures MaximalRuns(items + [x], from, requests) && EndsWell(items + [x], from, requests)
  {
    forall i | 0 <= i < |requests|
      ensures IsRun(items + [x], from, requests[i])
    {
      SameRun(items, from, requests[i], x);
    }
    assert forall k | 0 <= k < |items + [x]| && (items + [x])[k].None? :: items[k].None?;
  }

  function Longer(requests: seq<BlockRequest>): seq<BlockRequest>
    requires requests != []
  {
    requests[..|requests| - 1] + [Last(requests).(take := Last(requests).take + 1)]
  }

  lemma LongerRun(items: seq<Option<Block>>, from: nat, requests: seq<BlockRequest>)
    requires MaximalRuns(items, from, requests) && EndsWell(items, from, requests)
    requires items != [] && items[|items| - 1].None?
    ensures var rs := Longer(requests);
            MaximalRuns(items + [None], from, rs) && EndsWell(items + [None], from, rs)
              && TotalTake(rs) == TotalTake(requests) + 1
  {
    var n, rs := |requests| - 1, Longer(requests);
    assert rs[..n] == requests[..n];
    assert IsRun(items, from, Last(requests));
    LastRunGrows(items, from, Last(requests));
    forall i | 0 <= i < n
      ensures IsRun(items + [None], from, rs[i])
    {
      InnerRunsEnd(items, from, requests, i);
      SameRun(items, from, requests[i], None);
    }
    StillCovers(items, from, requests, rs);
  }

  lemma LastRunGrows(items: seq<Option<Block>>, from: nat, r: BlockRequest)
    requires IsRun(items, from, r) && r.from + r.take == from + |items|
    ensures IsRun(items + [None], from, r.(take := r.take + 1))
  {
    var more := items + [None];
    forall k | 0 <= k < |more| && In(r.(take := r.take + 1), from + k)
      ensures more[k].None?
    {
      if k < |items| {
        assert In(r, from + k);
      }
    }
  }

  /** Requests that cover what they did and the new slot. */
  lemma StillCovers(items: seq<Option<Block>>, from: nat, requests: seq<BlockRequest>, rs: seq<BlockRequest>)
    requires Covers(items, from, requests) && rs != [] && |rs| >= |requests|
    requires forall i | 0 <= i < |requests| :: rs[i].from == requests[i].from && rs[i].take >= requests[i].take
    requires In(Last(rs), from + |items|)
    ensures Covers(items + [None], from, rs)
  {
    var more := items + [None];
    forall k | 0 <= k < |more| && more[k].None?
      ensures exists i :: 0 <= i < |rs| && In(rs[i], from + k)
    {
      if k < |items| {
        var i :| 0 <= i < |requests| && In(requests[i], from + k);
        assert In(rs[i], from + k);
      } else {
        assert In(rs[|rs| - 1], from + k);
      }
    }
  }

  lemma NewRun(items: seq<Option<Block>>, from: nat, requests: seq<BlockRequest>)
    requires MaximalRuns(items, from, requests) && EndsWell(items, from, requests)
    requires items == [] || items[|items| - 1].Some?
    ensures var rs := requests + [BlockRequest(from + |items|, 1)];
            MaximalRuns(items + [None], from, rs) && EndsWell(items + [None], from, rs)
              && TotalTake(rs) == TotalTake(requests) + 1
  {
    var lone := BlockRequest(from + |items|, 1);
    StillRuns(items, from, requests);
    LoneRun(items, from);
    OneMoreRun(items + [None], from, requests, lone);
    LoneIsApart(items, from, requests);
    StillCovers(items, from, requests, requests + [lone]);
    hide IsRun, Covers, AllRuns, Apart, EndsWell, TotalTake;
  }

  lemma LoneIsApart(items: seq<Option<Block>>, from: nat, requests: seq<BlockRequest>)
    requires Apart(requests) && EndsWell(items, from, requests) && (items == [] || items[|items| - 1].Some?)
    ensures var rs := requests + [BlockRequest(from + |items|, 1)];
            Apart(rs) && EndsWell(items + [None], from, rs) && TotalTake(rs) == TotalTake(requests) + 1
  {
    var rs := requests + [BlockRequest(from + |items|, 1)];
    assert rs[..|requests|] == requests;
    forall i | 0 <= i < |rs| - 1
      ensures rs[i].from + rs[i].take < rs[i + 1].from
    {
      if i < |requests| - 1 {
        assert rs[i + 1] == requests[i + 1];
      }
    }
  }

  lemma StillRuns(items: seq<Option<Block>>, from: nat, requests: seq<BlockRequest>)
    requires MaximalRuns(items, from, requests) && EndsWell(items, from, requests)
    requires items == [] || items[|items| - 1].Some?
    ensures AllRuns(items + [None], from, requests)
  {
    forall i | 0 <= i < |requests|
      ensures IsRun(items + [None], from, requests[i])
    {
      if i < |requests| - 1 {
        InnerRunsEnd(items, from, requests, i);
      }
      SameRun(items, from, requests[i], None);
    }
  }

  lemma OneMoreRun(items: seq<Option<Block>>, from: nat, requests: seq<BlockRequest>, r: BlockRequest)
    requires AllRuns(items, from, requests) && IsRun(items, from, r)
    ensures AllRuns(items, from, requests + [r])
  {
    hide IsRun;
  }

  lemma LoneRun(items: seq<Option<Block>>, from: nat)
    requires items == [] || items[|items| - 1].Some?
    ensures IsRun(items + [None], from, BlockRequest(from + |items|, 1))
  {
  }

  function TotalTake(requests: seq<BlockRequest>): nat {
    if requests == [] then 0 else TotalTake(requests[..|requests| - 1]) + requests[|requests| - 1].take
  }

  function CountSome(items: seq<Option<Block>>): (r: nat)
    ensures r <= |items|
  {
    if items == [] then 0 else CountSome(items[..|items| - 1]) + if items[|items| - 1].Some? then 1 else 0
  }

  class BlockCache {
    var blockBufferCache: seq<Option<Block>>

    constructor ()
      ensures blockBufferCache == []
    {
      blockBufferCache := [];
    }

    method Init(cacheLength: nat)
      modifies this
      ensures blockBufferCache == seq(cacheLength, _ => None)
    {
      blockBufferCache := seq(cacheLength, _ => None);
    }

    method AddBlocks(blocks: seq<Block>, startIndex: Option<nat>)
      modifies this
      ensures blockBufferCache == Added(old(blockBufferCache), blocks, startIndex)
    {
      if startIndex.Some? {
        blockBufferCache := Splice(blockBufferCache, startIndex.value, |blocks|, Somes(blocks));
      } else {
        blockBufferCache := blockBufferCache + Somes(blocks);
      }
    }

    /** The cached slots asked for, and the maximal runs of empty ones among them. */
    method GetBlocks(from: nat, take: nat) returns (blocks: seq<Option<Block>>, missing: seq<BlockRequest>)
      ensures blocks == Cached(blockBufferCache, from, take)
      ensures missing == Runs(blocks, from) && ProperRuns(blocks, from, missing)
    {
      hide ProperRuns, Cached;
      CachedIs(blockBufferCache, from, take);
      blocks, missing := [], [];
      if from > |blockBufferCache| - 1 {
        RunsAreMaximal([], from);
        return;
      }
      var ourBlocks := blockBufferCache[from..Min(from + take, |blockBufferCache|)];
      var cont := false;
      for index := 0 to |ourBlocks|
        invariant blocks == ourBlocks[..index]
        invariant missing == Runs(blocks, from)
        invariant cont <==> index > 0 && ourBlocks[index - 1].None?
      {
        var item := ourBlocks[index];
        assert (blocks + [item])[..index] == blocks;
        if item.None? {
          if |missing| == 0 || !cont {
            missing := missing + [BlockRequest(from + index, 1)];
            cont := true;
          } else {
            var latest := missing[|missing| - 1];
            missing := missing[|missing| - 1 := latest.(take := latest.take + 1)];
          }
        } else {
          cont := false;
        }
        blocks := blocks + [item];
      }
      RunsAreMaximal(blocks, from);
    }
  }

  lemma CachedIs(cache: seq<Option<Block>>, from: nat, take: nat)
    ensures Cached(cache, from, take) == if from > |cache| - 1 then [] else cache[from..Min(from + take, |cache|)]
  {
  }

  function Added(cache: seq<Option<Block>>, blocks: seq<Block>, startIndex: Option<nat>): seq<Option<Block>> {
    if startIndex.Some? then Splice(cache, startIndex.value, |blocks|, Somes(blocks)) else cache + Somes(blocks)
  }

  /** Nothing beyond the end; a request that starts beyond it gets an empty answer. */
  function Cached(cache: seq<Option<Block>>, from: nat, take: nat): (r: seq<Option<Block>>)
    ensures |r| == Max(0, Min(take, |cache| - from))
    ensures forall i | 0 <= i < |r| :: r[i] == cache[from + i]
  {
    if from > |cache| - 1 then [] else cache[from..Min(from + take, |cache|)]
  }
}
