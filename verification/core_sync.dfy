/**
 * alpha-sdk's CoreSdk: one synchronisation step, which either lets lagging accounts catch up with
 * the core or moves both on, and what any run of such steps keeps.
 */
module CoreSync {
  import opened Util
  import opened BlockDecryption
  import opened BlockProcessing
  import opened AccountSync
  import AccountTables
  import AccountBatches

  /** A user's account with its keys; its state is AccountState's. */
  datatype Account = Account(keys: Keys, id: nat, state: State)

  function Accept(a: Account, blocks: seq<Block>): (r: Account)
    requires AllWellFormed(blocks) && ClaimsHaveDeposits(a.state.db)
    ensures ClaimsHaveDeposits(r.state.db)
  {
    a.(state := Receive(a.keys, a.id, a.state, blocks))
  }

  /** Where an account started and the slices of the chain it has been given since. */
  datatype History = History(start: State, slices: seq<Slice>)

  function Told(h: History, slice: Slice): History { h.(slices := h.slices + [slice]) }

  /** The account has reached its state by receiving the slices of its history. */
  ghost predicate Reached(chain: seq<Block>, h: History, a: Account)
    requires IsChain(chain)
  {
    && -1 <= h.start.syncedToRollup && ClaimsHaveDeposits(h.start.db) && SlicesOf(chain, h.slices)
    && a.state == ReceiveAll(a.keys, a.id, h.start, chain, h.slices)
  }

  /** The provider answers with consecutive blocks from the one asked for, as few or many as it likes. */
  ghost predicate Honest(chain: seq<Block>, getBlocks: (nat, nat) -> seq<Block>) {
    forall from: nat, take: nat ::
      if from <= |chain| then getBlocks(from, take) <= chain[from..] else getBlocks(from, take) == []
  }

  /** `Math.min` over the accounts and, where there are none, infinity. */
  function UserSynced(accounts: seq<Account>): (r: Option<int>)
    ensures r.None? <==> accounts == []
    ensures r.Some? ==> exists i :: 0 <= i < |accounts| && accounts[i].state.syncedToRollup == r.value
    ensures r.Some? ==> forall i | 0 <= i < |accounts| :: r.value <= accounts[i].state.syncedToRollup
  {
    if accounts == [] then None
    else
      var rest := UserSynced(accounts[1..]);
      assert accounts[0] == accounts[0];
      assert forall i | 1 <= i < |accounts| :: accounts[i] == accounts[1..][i - 1];
      if rest.None? || accounts[0].state.syncedToRollup <= rest.value then Some(accounts[0].state.syncedToRollup)
      else
        assert exists i ::
          && 0 <= i < |accounts[1..]| && accounts[1..][i].state.syncedToRollup == rest.value
          && accounts[i + 1] == accounts[1..][i];
        rest
  }

  /** The lowest of the core's and the accounts' cursors. */
  function Lowest(core: int, accounts: seq<Account>): int {
    var user := UserSynced(accounts);
    if user.None? then core else Min(core, user.value)
  }

  function FirstTake(initialTreeSize: nat): nat { 128 - initialTreeSize % 128 }

  /** How many blocks are asked for from block `from` on. */
  function Take(initialTreeSize: nat, from: nat): nat {
    var firstTake := FirstTake(initialTreeSize);
    if from < firstTake then firstTake - from else 128 - (from - firstTake) % 128
  }

  predicate EndsOnBoundary(initialTreeSize: nat, from: nat, take: nat) { (initialTreeSize + from + take) % 128 == 0 }

  /** Requests are of 1 to 128 blocks and end where the data tree has a multiple of 128 rollups. */
  lemma RequestsEndOnBoundaries(initialTreeSize: nat, from: nat)
    ensures 1 <= Take(initialTreeSize, from) <= 128
    ensures EndsOnBoundary(initialTreeSize, from, Take(initialTreeSize, from))
  {
    var q := initialTreeSize / 128;
    assert initialTreeSize + FirstTake(initialTreeSize) == 128 * (q + 1);
    if from >= FirstTake(initialTreeSize) {
      var d := from - FirstTake(initialTreeSize);
      assert d == 128 * (d / 128) + d % 128;
      assert initialTreeSize + from + Take(initialTreeSize, from) == 128 * (q + 1 + d / 128 + 1);
    }
  }

  function BelowId(blocks: seq<Block>, id: int): seq<Block> {
    if blocks == [] then []
    else BelowId(blocks[..|blocks| - 1], id) + if blocks[|blocks| - 1].rollupId < id then [blocks[|blocks| - 1]] else []
  }

  lemma {:induction false} BelowIdAll(kept: seq<Block>, id: int)
    requires forall i | 0 <= i < |kept| :: kept[i].rollupId < id
    ensures BelowId(kept, id) == kept
  {
    if kept != [] {
      assert kept == kept[..|kept| - 1] + [kept[|kept| - 1]];
      BelowIdAll(kept[..|kept| - 1], id);
    }
  }

  lemma BelowIdNext(blocks: seq<Block>, b: Block, id: int)
    ensures BelowId(blocks + [b], id) == BelowId(blocks, id) + if b.rollupId < id then [b] else []
  {
    assert (blocks + [b])[..|blocks|] == blocks;
  }

  lemma {:induction false} BelowIdPrefix(kept: seq<Block>, dropped: seq<Block>, id: int)
    requires BelowId(kept, id) == kept
    requires forall i | 0 <= i < |dropped| :: dropped[i].rollupId >= id
    ensures BelowId(kept + dropped, id) == kept
  {
    hide BelowId;
    if dropped == [] {
      assert kept + dropped == kept;
    } else {
      var n := |dropped| - 1;
      BelowIdPrefix(kept, dropped[..n], id);
      BelowIdNext(kept + dropped[..n], dropped[n], id);
      assert kept + dropped == kept + dropped[..n] + [dropped[n]];
    }
  }

  lemma BelowIdOfChain(chain: seq<Block>, from: nat, to: nat, id: nat)
    requires from <= to <= |chain| && from <= id && IsChain(chain)
    ensures BelowId(chain[from..to], id) == chain[from..Min(to, id)]
  {
    var split := Min(to, id);
    JoinSlices(chain, from, split, to);
    hide WellFormed;
    BelowIdAll(chain[from..split], id);
    BelowIdPrefix(chain[from..split], chain[split..to], id);
  }

  lemma ReachedCursor(chain: seq<Block>, h: History, a: Account)
    requires IsChain(chain) && Reached(chain, h, a)
    ensures ClaimsHaveDeposits(a.state.db)
    ensures h.start.syncedToRollup <= a.state.syncedToRollup
    ensures a.state.syncedToRollup == h.start.syncedToRollup || a.state.syncedToRollup < |chain|
  {
    CursorOfRun(a.keys, a.id, h.start, chain, h.slices);
    hide IsChain, ClaimsHaveDeposits;
  }

  /** Consecutive blocks advance an account that is within or just before them, and no other. */
  lemma AcceptOfChain(chain: seq<Block>, h: History, a: Account, from: nat, to: nat)
    requires IsChain(chain) && from <= to <= |chain| && Reached(chain, h, a) && ClaimsHaveDeposits(a.state.db)
    ensures AllWellFormed(chain[from..to])
    ensures var r := Accept(a, chain[from..to]);
            && Reached(chain, Told(h, Slice(from, to)), r)
            && r.state.syncedToRollup ==
                 if from <= a.state.syncedToRollup + 1 < to then to - 1 else a.state.syncedToRollup
  {
    hide AllWellFormed, Numbered, ClaimsHaveDeposits, Receive, ReceiveSlice, AccountTables.ApplyAll, Process;
    ReachedCursor(chain, h, a);
    SliceWellFormed(chain, from, to);
    ReceiveOfChain(a.keys, a.id, chain, a.state, Slice(from, to));
    ReceivedIsReached(chain, h, a, Slice(from, to));
  }

  lemma ReceivedIsReached(chain: seq<Block>, h: History, a: Account, slice: Slice)
    requires IsChain(chain) && Reached(chain, h, a) && ClaimsHaveDeposits(a.state.db)
    requires slice.from <= slice.to <= |chain| && AllWellFormed(chain[slice.from..slice.to])
    ensures Accept(a, chain[slice.from..slice.to]).state == ReceiveSlice(a.keys, a.id, a.state, chain, slice)
    ensures Reached(chain, Told(h, slice), Accept(a, chain[slice.from..slice.to]))
  {
    hide AllWellFormed, Numbered, ClaimsHaveDeposits, Receive;
    var slices := h.slices + [slice];
    assert slices[..|slices| - 1] == h.slices;
  }

  ghost predicate HaveDeposits(accounts: seq<Account>) {
    forall i | 0 <= i < |accounts| :: ClaimsHaveDeposits(accounts[i].state.db)
  }

  function AcceptAll(accounts: seq<Account>, blocks: seq<Block>): (r: seq<Account>)
    requires AllWellFormed(blocks) && HaveDeposits(accounts)
    ensures |r| == |accounts| && forall i | 0 <= i < |r| :: r[i] == Accept(accounts[i], blocks)
  {
    seq(|accounts|, i requires 0 <= i < |accounts| => Accept(accounts[i], blocks))
  }

  function TellAll(histories: seq<History>, slice: Slice): (r: seq<History>)
    ensures |r| == |histories| && forall i | 0 <= i < |r| :: r[i] == Told(histories[i], slice)
  {
    seq(|histories|, i requires 0 <= i < |histories| => Told(histories[i], slice))
  }

  ghost predicate AllReached(chain: seq<Block>, histories: seq<History>, accounts: seq<Account>)
    requires IsChain(chain)
  {
    |histories| == |accounts| && forall i | 0 <= i < |accounts| :: Reached(chain, histories[i], accounts[i])
  }

  lemma AllReachedCursors(chain: seq<Block>, histories: seq<History>, accounts: seq<Account>)
    requires IsChain(chain) && AllReached(chain, histories, accounts)
    ensures HaveDeposits(accounts) && forall i | 0 <= i < |accounts| :: -1 <= accounts[i].state.syncedToRollup
  {
    hide IsChain, ClaimsHaveDeposits, Reached;
    forall i | 0 <= i < |accounts|
      ensures ClaimsHaveDeposits(accounts[i].state.db) && -1 <= accounts[i].state.syncedToRollup
    {
      ReachedStart(chain, histories[i], accounts[i]);
      ReachedCursor(chain, histories[i], accounts[i]);
    }
  }

  lemma ReachedStart(chain: seq<Block>, h: History, a: Account)
    requires IsChain(chain) && Reached(chain, h, a)
    ensures -1 <= h.start.syncedToRollup
  {
  }

  /** Each account has been given blocks [from, from + n) of the chain. */
  ghost predicate Accepted(before: seq<Account>, after: seq<Account>, chain: seq<Block>, from: nat, n: nat)
    requires from + n <= |chain|
  {
    && AllWellFormed(chain[from..from + n]) && HaveDeposits(before)
    && after == AcceptAll(before, chain[from..from + n])
  }

  ghost predicate Raised(before: seq<Account>, after: seq<Account>, to: nat) {
    && |after| == |before|
    && forall i | 0 <= i < |before| :: after[i].state.syncedToRollup == Max(to - 1, before[i].state.syncedToRollup)
  }

  /** Blocks from the lowest cursor on bring every lower account to their end, and leave the others. */
  lemma AcceptAllRaises(chain: seq<Block>, histories: seq<History>, accounts: seq<Account>, from: nat, to: nat)
    requires IsChain(chain) && from < to <= |chain| && AllReached(chain, histories, accounts)
    requires forall i | 0 <= i < |accounts| :: from <= accounts[i].state.syncedToRollup + 1
    ensures AllWellFormed(chain[from..to]) && HaveDeposits(accounts)
    ensures var r := AcceptAll(accounts, chain[from..to]);
            && AllReached(chain, TellAll(histories, Slice(from, to)), r)
            && Raised(accounts, r, to)
  {
    SliceWellFormed(chain, from, to);
    AllReachedCursors(chain, histories, accounts);
    hide IsChain, ClaimsHaveDeposits, Reached, Accept, AllWellFormed;
    forall i | 0 <= i < |accounts|
      ensures var r := AcceptAll(accounts, chain[from..to])[i];
              && Reached(chain, TellAll(histories, Slice(from, to))[i], r)
              && r.state.syncedToRollup == Max(to - 1, accounts[i].state.syncedToRollup)
    {
      AcceptOfChain(chain, histories[i], accounts[i], from, to);
    }
  }

  /** Each account's tables follow the chain, unless what it was given at once could not be one batch. */
  lemma AccountsFollowChain(chain: seq<Block>, histories: seq<History>, accounts: seq<Account>)
    requires IsChain(chain) && AllReached(chain, histories, accounts)
    ensures forall i | 0 <= i < |accounts| :: TablesFollowChain(chain, histories[i], accounts[i])
  {
    hide IsChain, ClaimsHaveDeposits, AccountBatches.RegularBlocks, RunApart, FollowsChain, ReceiveAll;
    forall i | 0 <= i < |accounts|
      ensures TablesFollowChain(chain, histories[i], accounts[i])
    {
      var h, a := histories[i], accounts[i];
      assert Reached(chain, h, a);
      if StartsOn(a.keys, a.id, h.start, chain) && AccountTables.Injective(a.keys)
        && RunApart(a.keys, a.id, h.start, chain, h.slices) {
        EveryRunFollowsChain(a.keys, a.id, h.start, chain, h.slices);
      }
    }
  }

  ghost predicate TablesFollowChain(chain: seq<Block>, h: History, a: Account)
    requires IsChain(chain) && Reached(chain, h, a)
  {
    StartsOn(a.keys, a.id, h.start, chain) && AccountTables.Injective(a.keys)
      && RunApart(a.keys, a.id, h.start, chain, h.slices) ==>
      FollowsChain(a.keys, a.id, h.start, chain, a.state)
  }

  /** Then the lowest cursor is the end of those blocks. */
  lemma RaisedLowest(before: seq<Account>, after: seq<Account>, core: int, to: nat, coreAfter: int)
    requires Raised(before, after, to) && Lowest(core, before) < to - 1
    requires coreAfter == to - 1
             || (coreAfter == core >= to - 1 && UserSynced(before).Some? && UserSynced(before).value < core)
    ensures Lowest(coreAfter, after) == to - 1
  {
    if before != [] {
      var i :| 0 <= i < |before| && before[i].state.syncedToRollup == UserSynced(before).value;
      var j :| 0 <= j < |after| && after[j].state.syncedToRollup == UserSynced(after).value;
      assert after[i].state.syncedToRollup == Max(to - 1, before[i].state.syncedToRollup);
      assert after[j].state.syncedToRollup == Max(to - 1, before[j].state.syncedToRollup);
    }
  }

  lemma AcceptLowest(chain: seq<Block>, histories: seq<History>, accounts: seq<Account>, core: int, from: nat, n: nat,
                     coreAfter: int)
    requires IsChain(chain) && 0 < n && from + n <= |chain| && AllReached(chain, histories, accounts)
    requires from == Lowest(core, accounts) + 1
    requires coreAfter == from + n - 1
             || (coreAfter == core >= from + n - 1 && UserSynced(accounts).Some? && UserSynced(accounts).value < core)
    ensures AllWellFormed(chain[from..from + n]) && HaveDeposits(accounts)
    ensures var r := AcceptAll(accounts, chain[from..from + n]);
            && Accepted(accounts, r, chain, from, n)
            && AllReached(chain, TellAll(histories, Slice(from, from + n)), r)
            && Lowest(coreAfter, r) == from + n - 1
  {
    hide AllReached, Accept, IsChain, HaveDeposits, AllWellFormed, TellAll, AcceptAll;
    assert forall i | 0 <= i < |accounts| :: from <= accounts[i].state.syncedToRollup + 1;
    hide Lowest, UserSynced;
    AcceptAllRaises(chain, histories, accounts, from, from + n);
    RaisedLowest(accounts, AcceptAll(accounts, chain[from..from + n]), core, from + n, coreAfter);
  }

  lemma AnswerOf(chain: seq<Block>, getBlocks: (nat, nat) -> seq<Block>, from: nat, take: nat)
    requires Honest(chain, getBlocks) && from <= |chain|
    ensures var n := |getBlocks(from, take)|; from + n <= |chain| && getBlocks(from, take) == chain[from..from + n]
  {
    assert getBlocks(from, take) == chain[from..][..|getBlocks(from, take)|];
  }

  class CoreSdk {
    const initialTreeSize: nat
    var syncedToRollup: int
    var accountStates: seq<Account>
    /** What each account has been given. */
    ghost var histories: seq<History>

    ghost predicate Valid(chain: seq<Block>)
      reads this
      requires IsChain(chain)
    {
      -1 <= syncedToRollup < |chain| && AllReached(chain, histories, accountStates)
    }

    constructor (initialTreeSize: nat)
      ensures this.initialTreeSize == initialTreeSize
      ensures forall chain | IsChain(chain) :: Valid(chain)
    {
      this.initialTreeSize := initialTreeSize;
      syncedToRollup, accountStates, histories := -1, [], [];
    }

    method AddAccount(keys: Keys, id: nat, start: State, ghost chain: seq<Block>)
      requires IsChain(chain) && Valid(chain) && -1 <= start.syncedToRollup && ClaimsHaveDeposits(start.db)
      modifies this`accountStates, this`histories
      ensures Valid(chain)
      ensures accountStates == old(accountStates) + [Account(keys, id, start)]
      ensures histories == old(histories) + [History(start, [])]
    {
      hide IsChain, ClaimsHaveDeposits;
      accountStates := accountStates + [Account(keys, id, start)];
      histories := histories + [History(start, [])];
    }

    /**
     * One step. With n blocks to use, the lowest cursor goes up by exactly n, unless the tree's new
     * root is wrong: then the core starts over and the accounts are untouched. A step that lets
     * accounts catch up leaves the core where it is and stays at or below it.
     */
    method Sync(getBlocks: (nat, nat) -> seq<Block>, rootMatches: bool, ghost chain: seq<Block>)
      returns (from: nat, take: nat, n: nat)
      requires IsChain(chain) && Valid(chain) && Honest(chain, getBlocks)
      modifies this
      ensures Valid(chain)
      ensures from == old(Lowest(syncedToRollup, accountStates)) + 1 && 1 <= take <= 128
      ensures from <= old(syncedToRollup) ==>
                && from + take <= old(syncedToRollup) + 1 && syncedToRollup == old(syncedToRollup)
                && n == Min(|getBlocks(from, take)|, take)
      ensures from > old(syncedToRollup) ==> EndsOnBoundary(initialTreeSize, from, take) && n == |getBlocks(from, take)|
      ensures from > old(syncedToRollup) && n > 0 && !rootMatches ==>
                syncedToRollup == -1 && accountStates == old(accountStates) && histories == old(histories)
      ensures n == 0 ==>
                syncedToRollup == old(syncedToRollup) && accountStates == old(accountStates)
                  && histories == old(histories)
      ensures from + n <= |chain|
      ensures n > 0 && (from <= old(syncedToRollup) || rootMatches) ==>
                && Accepted(old(accountStates), accountStates, chain, from, n)
                && histories == TellAll(old(histories), Slice(from, from + n))
                && Lowest(syncedToRollup, accountStates) == from + n - 1
    {
      hide Honest, IsChain, Accepted, Accept, AcceptAll, AllReached, Take, FirstTake, EndsOnBoundary, HaveDeposits,
           AllWellFormed, TellAll;
      LowestIsCursor(chain);
      from := Lowest(syncedToRollup, accountStates) + 1;
      take := Take(initialTreeSize, from);
      RequestsEndOnBoundaries(initialTreeSize, from);
      var user := UserSynced(accountStates);
      if user.Some? && user.value < syncedToRollup {
        take := Min(take, syncedToRollup - user.value);
        n := SyncUserStates(from, take, getBlocks, chain);
      } else {
        n := SyncBoth(from, take, getBlocks, rootMatches, chain);
      }
    }

    lemma LowestIsCursor(chain: seq<Block>)
      requires IsChain(chain) && Valid(chain)
      ensures -1 <= Lowest(syncedToRollup, accountStates) <= syncedToRollup
    {
      AllReachedCursors(chain, histories, accountStates);
      hide IsChain, AllReached;
    }

    method SyncUserStates(from: nat, take: nat, getBlocks: (nat, nat) -> seq<Block>, ghost chain: seq<Block>)
      returns (n: nat)
      requires IsChain(chain) && Valid(chain) && Honest(chain, getBlocks)
      requires from == Lowest(syncedToRollup, accountStates) + 1 && UserSynced(accountStates) == Some(from - 1)
      requires 0 < take && from + take <= syncedToRollup + 1
      modifies this`accountStates, this`histories
      ensures Valid(chain) && n == Min(|getBlocks(from, take)|, take)
      ensures from + n <= |chain|
      ensures if n == 0 then accountStates == old(accountStates) && histories == old(histories)
              else && Accepted(old(accountStates), accountStates, chain, from, n)
                   && histories == TellAll(old(histories), Slice(from, from + n))
      ensures Lowest(syncedToRollup, accountStates) == old(Lowest(syncedToRollup, accountStates)) + n
    {
      hide Honest, IsChain, Lowest, UserSynced, Accept, Accepted, AcceptAll, AllReached, BelowId, HaveDeposits,
           AllWellFormed, TellAll;
      var userBlocks := getBlocks(from, take);
      AnswerOf(chain, getBlocks, from, take);
      BelowIdOfChain(chain, from, from + |userBlocks|, from + take);
      userBlocks := BelowId(userBlocks, from + take);
      n := |userBlocks|;
      if |userBlocks| == 0 {
        return;
      }
      AcceptLowest(chain, histories, accountStates, syncedToRollup, from, n, syncedToRollup);
      accountStates := AcceptAll(accountStates, userBlocks);
      histories := TellAll(histories, Slice(from, from + n));
    }

    method SyncBoth(from: nat, take: nat, getBlocks: (nat, nat) -> seq<Block>, rootMatches: bool,
                    ghost chain: seq<Block>)
      returns (n: nat)
      requires IsChain(chain) && Valid(chain) && Honest(chain, getBlocks)
      requires from == syncedToRollup + 1 == Lowest(syncedToRollup, accountStates) + 1
      modifies this
      ensures Valid(chain) && n == |getBlocks(from, take)|
      ensures from + n <= |chain|
      ensures if n == 0 then
                syncedToRollup == old(syncedToRollup) && accountStates == old(accountStates)
                  && histories == old(histories)
              else if !rootMatches then
                syncedToRollup == -1 && accountStates == old(accountStates) && histories == old(histories)
              else && Accepted(old(accountStates), accountStates, chain, from, n)
                   && histories == TellAll(old(histories), Slice(from, from + n))
                   && Lowest(syncedToRollup, accountStates) == old(Lowest(syncedToRollup, accountStates)) + n
    {
      var coreBlocks := getBlocks(from, take);
      AnswerOf(chain, getBlocks, from, take);
      n := |coreBlocks|;
      if |coreBlocks| == 0 {
        return;
      }
      AheadStartsAt(chain, from, from + n);
      hide Honest, IsChain, Lowest, UserSynced, Accept, Accepted, AcceptAll, AllReached, HaveDeposits, AllWellFormed,
           TellAll;
      syncedToRollup := coreBlocks[|coreBlocks| - 1].rollupId;
      if !rootMatches {
        syncedToRollup := -1;
        return;
      }
      AcceptLowest(chain, histories, accountStates, from - 1, from, n, syncedToRollup);
      accountStates := AcceptAll(accountStates, coreBlocks);
      histories := TellAll(histories, Slice(from, from + n));
    }
  }
}
