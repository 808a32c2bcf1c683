/**
 * alpha-sdk's AccountState: applying blocks to one account's tables, in batches, and the proof that
 * every run over a chain leaves what its proofs and results leave one at a time.
 */
module AccountSync {
  import opened Rollup
  import opened Util
  import opened BlockDecryption
  import opened BlockProcessing
  import opened AccountTables
  import opened AccountBatches

  /** Every note a tx of a batch destroys is in the note table by the time it is nullified. */
  lemma DestroyedNotesExist(k: Keys, account: nat, db: Db, txs: seq<ProcessedTx>, p: InnerProofData)
    requires Injective(k) && Consistent(k, account, db.notes) && AllProper(k, txs)
    ensures forall n | n in Destroyed(account, db, txs, p) ::
              var rows := ApplyAll(db, account, txs).notes;
              FindRow(rows, n) >= 0 && rows[FindRow(rows, n)].owner == account
  {
    forall n | n in Destroyed(account, db, txs, p)
      ensures var rows := ApplyAll(db, account, txs).notes;
              FindRow(rows, n) >= 0 && rows[FindRow(rows, n)].owner == account
    {
      FoundHasNullifier(account, db, txs, p.nullifier1);
      FoundHasNullifier(account, db, txs, p.nullifier2);
      FoundIffInTable(k, account, db, txs, n);
      RowFound(k, account, ApplyAll(db, account, txs).notes, n);
    }
  }

  // ---- a claim always has its deposit ----

  ghost predicate Carried(txs: seq<ProcessedTx>) {
    forall i | 0 <= i < |txs| && txs[i].claimTx.Some? ::
      txs[i].defiTx.Some? && txs[i].defiTx.value.txId == txs[i].claimTx.value.defiTxId
  }

  lemma {:induction false} InnersCarried(k: Keys, account: nat, db: Db, b: Block, n: nat, txs: seq<ProcessedTx>)
    requires WellFormed(b) && n <= |b.innerProofData| && ClaimsHaveDeposits(db) && Carried(txs)
    ensures Carried(ProcessInners(k, account, db, b, n, txs))
  {
    hide NotesOf, Destroyed, FindDefi, InteractionNonce;
    if n > 0 {
      InnersCarried(k, account, db, b, n - 1, txs);
    }
  }

  lemma {:induction false} ProcessCarried(k: Keys, account: nat, db: Db, blocks: seq<Block>)
    requires AllWellFormed(blocks) && ClaimsHaveDeposits(db)
    ensures Carried(Process(k, account, db, blocks, []))
  {
    if blocks != [] {
      var b := blocks[|blocks| - 1];
      var front := Process(k, account, db, blocks[..|blocks| - 1], []);
      ProcessCarried(k, account, db, blocks[..|blocks| - 1]);
      InnersCarried(k, account, db, b, |b.innerProofData|, front);
      FinaliseOnlyRecords(account, db, b.interactionResult,
                          ProcessInners(k, account, db, b, |b.innerProofData|, front));
    }
  }

  lemma {:induction false} ApplyKeepsDeposits(db: Db, account: nat, txs: seq<ProcessedTx>)
    requires ClaimsHaveDeposits(db) && Carried(txs)
    ensures ClaimsHaveDeposits(ApplyAll(db, account, txs))
  {
    if txs != [] {
      var front, tx := ApplyAll(db, account, txs[..|txs| - 1]), txs[|txs| - 1];
      ApplyKeepsDeposits(db, account, txs[..|txs| - 1]);
      var after := Apply(front, account, tx);
      forall n | n in after.claimTxs
        ensures FindDefi(after.defiTxs, after.claimTxs[n].defiTxId).Some?
      {
        if n !in front.claimTxs || after.claimTxs[n] != front.claimTxs[n] {
          assert tx.defiTx.value in after.defiTxs;
        }
      }
    }
  }

  // ---- the account's state machine ----

  datatype State = State(db: Db, syncedToRollup: int)

  function Unprocessed(blocks: seq<Block>, syncedToRollup: int): seq<Block> {
    if blocks == [] then []
    else
      Unprocessed(blocks[..|blocks| - 1], syncedToRollup)
      + if blocks[|blocks| - 1].rollupId > syncedToRollup then [blocks[|blocks| - 1]] else []
  }

  /** The state after some blocks were received. */
  function Receive(k: Keys, account: nat, s: State, blocks: seq<Block>): (r: State)
    requires AllWellFormed(blocks) && ClaimsHaveDeposits(s.db)
    ensures ClaimsHaveDeposits(r.db)
  {
    var ahead := Unprocessed(blocks, s.syncedToRollup);
    if ahead == [] || ahead[0].rollupId != s.syncedToRollup + 1 then s
    else
      AheadWellFormed(blocks, s.syncedToRollup);
      ProcessCarried(k, account, s.db, ahead);
      ApplyKeepsDeposits(s.db, account, Process(k, account, s.db, ahead, []));
      State(ApplyAll(s.db, account, Process(k, account, s.db, ahead, [])), ahead[|ahead| - 1].rollupId)
  }

  lemma {:induction false} AheadWellFormed(blocks: seq<Block>, syncedToRollup: int)
    requires AllWellFormed(blocks)
    ensures AllWellFormed(Unprocessed(blocks, syncedToRollup))
  {
    hide WellFormed;
    if blocks != [] {
      assert WellFormed(blocks[|blocks| - 1]);
      AheadWellFormed(blocks[..|blocks| - 1], syncedToRollup);
    }
  }

  class AccountState {
    const keys: Keys
    const account: nat
    var db: Db
    var syncedToRollup: int

    constructor (keys: Keys, account: nat, db: Db, syncedToRollup: int)
      ensures this.keys == keys && this.account == account && this.db == db && this.syncedToRollup == syncedToRollup
    {
      this.keys, this.account, this.db, this.syncedToRollup := keys, account, db, syncedToRollup;
    }

    method ProcessBlocks(blocks: seq<Block>)
      requires AllWellFormed(blocks) && ClaimsHaveDeposits(db)
      modifies this
      ensures ClaimsHaveDeposits(db)
      ensures State(db, syncedToRollup) == Receive(keys, account, old(State(db, syncedToRollup)), blocks)
    {
      hide ClaimsHaveDeposits, Unprocessed, Process, ApplyAll, Apply, AllItems, Decrypted;
      var ahead := Unprocessed(blocks, syncedToRollup);
      AheadWellFormed(blocks, syncedToRollup);
      if |ahead| == 0 || ahead[0].rollupId != syncedToRollup + 1 {
        return;
      }
      var toRollupId := ahead[|ahead| - 1].rollupId;
      var decryptor := new BlockDecryptor(keys);
      var data := decryptor.DecryptBlocks(ahead);
      var processor := new BlockProcessor(keys, db);
      var processedTxData, _ := processor.ProcessBlocks(account, ahead, data);
      ghost var before := db;
      NothingApplied(before, account);
      for i := 0 to |processedTxData|
        invariant syncedToRollup == old(syncedToRollup)
        invariant db == ApplyAll(before, account, processedTxData[..i])
      {
        ApplyNext(before, account, processedTxData, i);
        ApplyTx(processedTxData[i]);
      }
      assert processedTxData[..|processedTxData|] == processedTxData;
      syncedToRollup := toRollupId;
      assert State(db, syncedToRollup) == Receive(keys, account, old(State(db, syncedToRollup)), blocks);
    }

    method ApplyTx(tx: ProcessedTx)
      modifies this`db
      ensures db == Apply(old(db), account, tx)
    {
      hide NullifyAll, Nullify, PutNotes, PutNote, PutDefi;
      ghost var rows := db.notes;
      NothingNullified(rows);
      for i := 0 to |tx.nullifiers|
        invariant db == old(db).(notes := NullifyAll(rows, tx.nullifiers[..i]))
      {
        NullifyNext(rows, tx.nullifiers, i);
        db := db.(notes := Nullify(db.notes, tx.nullifiers[i]));
      }
      assert tx.nullifiers[..|tx.nullifiers|] == tx.nullifiers;
      rows := db.notes;
      NothingPut(rows, account);
      for i := 0 to |tx.outputNotes|
        invariant db == old(db).(notes := PutNotes(rows, account, tx.outputNotes[..i]))
      {
        PutNext(rows, account, tx.outputNotes, i);
        db := db.(notes := PutNote(db.notes, account, tx.outputNotes[i]));
      }
      assert tx.outputNotes[..|tx.outputNotes|] == tx.outputNotes;
      if tx.claimTx.Some? {
        db := db.(claimTxs := db.claimTxs[tx.claimTx.value.nullifier := tx.claimTx.value]);
      }
      if tx.defiTx.Some? {
        db := db.(defiTxs := PutDefi(db.defiTxs, tx.defiTx.value));
      }
    }
  }

  lemma NothingApplied(db: Db, account: nat)
    ensures ApplyAll(db, account, []) == db
  {
  }

  lemma NothingNullified(rows: seq<Row>)
    ensures NullifyAll(rows, []) == rows
  {
  }

  lemma ApplyNext(db: Db, account: nat, txs: seq<ProcessedTx>, i: nat)
    requires i < |txs|
    ensures ApplyAll(db, account, txs[..i + 1]) == Apply(ApplyAll(db, account, txs[..i]), account, txs[i])
  {
    assert txs[..i + 1][..i] == txs[..i];
  }

  lemma NullifyNext(rows: seq<Row>, nullifiers: seq<nat>, i: nat)
    requires i < |nullifiers|
    ensures NullifyAll(rows, nullifiers[..i + 1]) == Nullify(NullifyAll(rows, nullifiers[..i]), nullifiers[i])
  {
    assert nullifiers[..i + 1][..i] == nullifiers[..i];
  }

  lemma PutNext(rows: seq<Row>, account: nat, notes: seq<UserNote>, i: nat)
    requires i < |notes|
    ensures PutNotes(rows, account, notes[..i + 1]) == PutNote(PutNotes(rows, account, notes[..i]), account, notes[i])
  {
    assert notes[..i + 1][..i] == notes[..i];
  }

  // ---- every run over a chain ----

  ghost predicate IsChain(chain: seq<Block>) { AllWellFormed(chain) && Numbered(chain) }

  ghost predicate Numbered(chain: seq<Block>) {
    forall i | 0 <= i < |chain| :: chain[i].rollupId == i
  }

  /** Blocks [from, to) of a chain: whatever a provider answers with. */
  datatype Slice = Slice(from: nat, to: nat)

  ghost predicate SlicesOf(chain: seq<Block>, slices: seq<Slice>) {
    forall i | 0 <= i < |slices| :: slices[i].from <= slices[i].to <= |chain|
  }

  function ReceiveSlice(k: Keys, account: nat, s: State, chain: seq<Block>, slice: Slice): (r: State)
    requires AllWellFormed(chain) && slice.from <= slice.to <= |chain| && ClaimsHaveDeposits(s.db)
    ensures ClaimsHaveDeposits(r.db)
  {
    Receive(k, account, s, chain[slice.from..slice.to])
  }

  function ReceiveAll(k: Keys, account: nat, s: State, chain: seq<Block>, slices: seq<Slice>): (r: State)
    requires IsChain(chain) && SlicesOf(chain, slices) && ClaimsHaveDeposits(s.db)
    ensures ClaimsHaveDeposits(r.db)
  {
    if slices == [] then s
    else
      ReceiveSlice(k, account, ReceiveAll(k, account, s, chain, slices[..|slices| - 1]), chain, slices[|slices| - 1])
  }

  lemma {:induction false} UnprocessedNone(done: seq<Block>, synced: int)
    requires forall i | 0 <= i < |done| :: done[i].rollupId <= synced
    ensures Unprocessed(done, synced) == []
  {
    if done != [] {
      UnprocessedNone(done[..|done| - 1], synced);
    }
  }

  lemma {:induction false} UnprocessedSplit(done: seq<Block>, ahead: seq<Block>, synced: int)
    requires Unprocessed(done, synced) == []
    requires forall i | 0 <= i < |ahead| :: ahead[i].rollupId > synced
    ensures Unprocessed(done + ahead, synced) == ahead
  {
    if ahead == [] {
      assert done + ahead == done;
    } else {
      var n := |ahead| - 1;
      UnprocessedSplit(done, ahead[..n], synced);
      assert (done + ahead)[..|done + ahead| - 1] == done + ahead[..n];
    }
  }

  /** The unprocessed part of a slice of the chain is what lies after the last block processed. */
  lemma UnprocessedOfChain(chain: seq<Block>, slice: Slice, synced: int, split: nat)
    requires slice.from <= split <= slice.to <= |chain| && Numbered(chain)
    requires split == slice.from || split <= synced + 1
    requires split == slice.to || split > synced
    ensures Unprocessed(chain[slice.from..slice.to], synced) == chain[split..slice.to]
  {
    JoinSlices(chain, slice.from, split, slice.to);
    UnprocessedNone(chain[slice.from..split], synced);
    UnprocessedSplit(chain[slice.from..split], chain[split..slice.to], synced);
  }

  lemma JoinSlices<T>(s: seq<T>, a: nat, b: nat, c: nat)
    requires a <= b <= c <= |s|
    ensures s[a..b] + s[b..c] == s[a..c]
  {
  }

  /** A slice advances the account if it holds the next block, and else does nothing. */
  lemma ReceiveOfChain(k: Keys, account: nat, chain: seq<Block>, s: State, slice: Slice)
    requires AllWellFormed(chain) && ClaimsHaveDeposits(s.db) && Numbered(chain)
    requires slice.from <= slice.to <= |chain| && -1 <= s.syncedToRollup
    ensures ReceiveSlice(k, account, s, chain, slice) ==
            if slice.from <= s.syncedToRollup + 1 < slice.to then
              State(ApplyAll(s.db, account, Process(k, account, s.db, chain[s.syncedToRollup + 1..slice.to], [])),
                    slice.to - 1)
            else s
  {
    var next := s.syncedToRollup + 1;
    var split := if next < slice.from then slice.from else if next < slice.to then next else slice.to;
    UnprocessedOfChain(chain, slice, s.syncedToRollup, split);
    AheadStartsAt(chain, split, slice.to);
    hide Unprocessed, ApplyAll, Process, ClaimsHaveDeposits, WellFormed, Numbered;
  }

  lemma AheadStartsAt(chain: seq<Block>, from: nat, to: nat)
    requires from <= to <= |chain| && Numbered(chain)
    ensures |chain[from..to]| == to - from
    ensures from < to ==> chain[from..to][0].rollupId == from && chain[from..to][to - from - 1].rollupId == to - 1
  {
  }

  /** The first of a chain's blocks that an account has not processed. */
  function Next(chain: seq<Block>, s: State): nat
    requires -1 <= s.syncedToRollup
  {
    Min(s.syncedToRollup + 1, |chain|)
  }

  /** What the chain holds for the account after its starting point is regular, and it starts out sound. */
  ghost predicate StartsOn(k: Keys, account: nat, start: State, chain: seq<Block>) {
    && IsChain(chain) && -1 <= start.syncedToRollup && Sound(k, account, start.syncedToRollup + 1, start.db)
    && RegularBlocks(k, account, start.db, chain[Next(chain, start)..])
  }

  /** What a slice makes the account process, if anything, can be one batch. */
  ghost predicate SliceApart(k: Keys, account: nat, s: State, chain: seq<Block>, slice: Slice)
    requires AllWellFormed(chain) && slice.from <= slice.to <= |chain|
  {
    -1 <= s.syncedToRollup && slice.from <= s.syncedToRollup + 1 < slice.to ==>
      BatchApart(k, account, s.db, chain[s.syncedToRollup + 1..slice.to])
  }

  ghost predicate RunApart(k: Keys, account: nat, start: State, chain: seq<Block>, slices: seq<Slice>)
    requires IsChain(chain) && SlicesOf(chain, slices) && ClaimsHaveDeposits(start.db)
  {
    slices == [] ||
    (&& RunApart(k, account, start, chain, slices[..|slices| - 1])
     && SliceApart(k, account, ReceiveAll(k, account, start, chain, slices[..|slices| - 1]), chain,
                   slices[|slices| - 1]))
  }

  /** The tables follow the chain: proof by proof, from where the account started to where it is synced. */
  ghost predicate FollowsChain(k: Keys, account: nat, start: State, chain: seq<Block>, s: State)
    requires IsChain(chain)
  {
    && -1 <= start.syncedToRollup <= s.syncedToRollup
    && (s.syncedToRollup == start.syncedToRollup || s.syncedToRollup < |chain|)
    && Sound(k, account, s.syncedToRollup + 1, s.db)
    && s.db == StepBlocks(k, account, start.db, chain[Next(chain, start)..Next(chain, s)])
  }

  lemma {:induction false} RegularSplit(k: Keys, account: nat, db: Db, a: seq<Block>, b: seq<Block>)
    requires AllWellFormed(a) && AllWellFormed(b)
    ensures RegularBlocks(k, account, db, a + b) <==>
            RegularBlocks(k, account, db, a) && RegularBlocks(k, account, StepBlocks(k, account, db, a), b)
  {
    hide RegularBlock, StepBlock;
    if b == [] {
      assert a + b == a;
    } else {
      assert (a + b)[..|a + b| - 1] == a + b[..|b| - 1];
      RegularSplit(k, account, db, a, b[..|b| - 1]);
      StepAppend(k, account, db, a, b[..|b| - 1]);
    }
  }

  /** The next blocks of the chain are regular for tables that follow it. */
  lemma NextIsRegular(k: Keys, account: nat, start: State, chain: seq<Block>, s: State, to: nat)
    requires StartsOn(k, account, start, chain) && FollowsChain(k, account, start, chain, s)
    requires s.syncedToRollup + 1 < to <= |chain|
    ensures RegularBlocks(k, account, s.db, chain[s.syncedToRollup + 1..to])
  {
    hide StepBlocks, RegularBlocks, Sound, WellFormed, Numbered;
    var lo, mid := start.syncedToRollup + 1, s.syncedToRollup + 1;
    JoinSlices(chain, lo, mid, |chain|);
    JoinSlices(chain, mid, to, |chain|);
    assert chain[lo..|chain|] == chain[lo..] && chain[mid..|chain|] == chain[mid..];
    RegularSplit(k, account, start.db, chain[lo..mid], chain[mid..|chain|]);
    RegularSplit(k, account, s.db, chain[mid..to], chain[to..|chain|]);
  }

  /** Processing more blocks that can be one batch steps on through them. */
  lemma BatchStepsOn(k: Keys, account: nat, base: nat, next: nat, start: Db, done: seq<Block>, db: Db,
                     ahead: seq<Block>)
    requires AllWellFormed(done) && AllWellFormed(ahead) && Injective(k) && db == StepBlocks(k, account, start, done)
    requires Sound(k, account, base, db) && Between(ahead, base, next)
    requires RegularBlocks(k, account, db, ahead) && BatchApart(k, account, db, ahead)
    ensures ClaimsHaveDeposits(db)
    ensures ApplyAll(db, account, Process(k, account, db, ahead, [])) == StepBlocks(k, account, start, done + ahead)
    ensures Sound(k, account, next, StepBlocks(k, account, start, done + ahead))
  {
    hide Injective, Sound, Between, RegularBlocks, BatchApart, WellFormed, StepBlocks, Process, ApplyAll,
         ClaimsHaveDeposits;
    BatchApplied(k, account, base, next, db, ahead);
    StepAppend(k, account, start, done, ahead);
  }

  lemma NextBlocksFollowChain(k: Keys, account: nat, start: State, chain: seq<Block>, s: State, to: nat)
    requires StartsOn(k, account, start, chain) && Injective(k) && FollowsChain(k, account, start, chain, s)
    requires s.syncedToRollup + 1 < to <= |chain| && BatchApart(k, account, s.db, chain[s.syncedToRollup + 1..to])
    ensures ClaimsHaveDeposits(s.db)
    ensures var txs := Process(k, account, s.db, chain[s.syncedToRollup + 1..to], []);
            FollowsChain(k, account, start, chain, State(ApplyAll(s.db, account, txs), to - 1))
  {
    NextIsRegular(k, account, start, chain, s, to);
    NextIsBetween(chain, s.syncedToRollup + 1, to);
    var lo, mid := start.syncedToRollup + 1, s.syncedToRollup + 1;
    JoinSlices(chain, lo, mid, to);
    SliceWellFormed(chain, lo, mid);
    SliceWellFormed(chain, mid, to);
    assert Next(chain, start) == lo && Next(chain, s) == mid;
    hide StepBlocks, RegularBlocks, BatchApart, Sound, AllWellFormed, Process, ApplyAll, Injective, Numbered,
         ClaimsHaveDeposits, Between;
    BatchStepsOn(k, account, mid, to, start.db, chain[lo..mid], s.db, chain[mid..to]);
  }

  lemma SliceWellFormed(chain: seq<Block>, from: nat, to: nat)
    requires AllWellFormed(chain) && from <= to <= |chain|
    ensures AllWellFormed(chain[from..to])
  {
  }

  lemma NextIsBetween(chain: seq<Block>, from: nat, to: nat)
    requires from <= to <= |chain| && Numbered(chain)
    ensures Between(chain[from..to], from, to)
  {
  }

  lemma ReceiveFollowsChain(k: Keys, account: nat, start: State, chain: seq<Block>, s: State, slice: Slice)
    requires StartsOn(k, account, start, chain) && Injective(k) && slice.from <= slice.to <= |chain|
    requires FollowsChain(k, account, start, chain, s) && ClaimsHaveDeposits(s.db)
             && SliceApart(k, account, s, chain, slice)
    ensures FollowsChain(k, account, start, chain, ReceiveSlice(k, account, s, chain, slice))
  {
    hide Receive, StepBlocks, Process, ApplyAll, WellFormed, Numbered, Sound, Injective, ReceiveSlice, RegularBlocks,
         BatchApart, ClaimsHaveDeposits;
    ReceiveOfChain(k, account, chain, s, slice);
    if slice.from <= s.syncedToRollup + 1 < slice.to {
      NextBlocksFollowChain(k, account, start, chain, s, slice.to);
    }
  }

  /**
   * Whatever slices of the chain an account receives, in whatever order and with whatever overlaps
   * and gaps, as long as what it processes at once can be one batch, its tables are those of every
   * proof and result after its starting point, up to the block it is synced to, one at a time.
   */
  lemma {:induction false} EveryRunFollowsChain(k: Keys, account: nat, start: State, chain: seq<Block>,
                                                slices: seq<Slice>)
    requires StartsOn(k, account, start, chain) && Injective(k) && SlicesOf(chain, slices)
             && ClaimsHaveDeposits(start.db)
    requires RunApart(k, account, start, chain, slices)
    ensures FollowsChain(k, account, start, chain, ReceiveAll(k, account, start, chain, slices))
  {
    if slices == [] {
      StartFollowsChain(k, account, start, chain);
    } else {
      hide FollowsChain, Injective, StartsOn, ClaimsHaveDeposits, ReceiveSlice, IsChain, SliceApart;
      var front := slices[..|slices| - 1];
      EveryRunFollowsChain(k, account, start, chain, front);
      ReceiveFollowsChain(k, account, start, chain, ReceiveAll(k, account, start, chain, front), slices[|slices| - 1]);
    }
  }

  lemma StartFollowsChain(k: Keys, account: nat, start: State, chain: seq<Block>)
    requires StartsOn(k, account, start, chain)
    ensures FollowsChain(k, account, start, chain, start)
  {
    hide RegularBlocks, Sound, WellFormed;
  }

  /** So two such runs that reach the same rollup leave the same tables, however they were batched. */
  lemma BatchingDoesNotMatter(k: Keys, account: nat, start: State, chain: seq<Block>, slices1: seq<Slice>,
                              slices2: seq<Slice>)
    requires StartsOn(k, account, start, chain) && Injective(k) && ClaimsHaveDeposits(start.db)
    requires SlicesOf(chain, slices1) && RunApart(k, account, start, chain, slices1)
    requires SlicesOf(chain, slices2) && RunApart(k, account, start, chain, slices2)
    requires ReceiveAll(k, account, start, chain, slices1).syncedToRollup ==
             ReceiveAll(k, account, start, chain, slices2).syncedToRollup
    ensures ReceiveAll(k, account, start, chain, slices1) == ReceiveAll(k, account, start, chain, slices2)
  {
    hide ReceiveAll, StartsOn, Injective, ClaimsHaveDeposits, StepBlocks, RunApart, Sound;
    EveryRunFollowsChain(k, account, start, chain, slices1);
    EveryRunFollowsChain(k, account, start, chain, slices2);
  }

  // ---- cursors, whatever is in the blocks ----

  /** The cursor goes up only to blocks of the chain, and a slice moves it exactly if it holds the next one. */
  lemma {:induction false} CursorOfRun(k: Keys, account: nat, start: State, chain: seq<Block>, slices: seq<Slice>)
    requires IsChain(chain) && SlicesOf(chain, slices) && ClaimsHaveDeposits(start.db) && -1 <= start.syncedToRollup
    ensures var synced := ReceiveAll(k, account, start, chain, slices).syncedToRollup;
            start.syncedToRollup <= synced && (synced == start.syncedToRollup || synced < |chain|)
  {
    if slices != [] {
      hide ClaimsHaveDeposits, ReceiveSlice, WellFormed, Numbered;
      var front := slices[..|slices| - 1];
      CursorOfRun(k, account, start, chain, front);
      ReceiveOfChain(k, account, chain, ReceiveAll(k, account, start, chain, front), slices[|slices| - 1]);
    }
  }
}
