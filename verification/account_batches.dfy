/**
 * Batches of blocks against proofs one at a time: when an account's tables do not depend on how the
 * blocks were batched, and exactly when a claim does.
 */
module AccountBatches {
  import opened Rollup
  import opened Util
  import opened DefiPayouts
  import opened BlockDecryption
  import opened BlockProcessing
  import opened AccountTables

  // ---- one proof at a time ----

  /** Destroying the account's notes that have one of a proof's nullifiers. */
  function Spend(rows: seq<Row>, account: nat, p: InnerProofData): (r: seq<Row>)
    ensures |r| == |rows|
  {
    seq(|rows|, i requires 0 <= i < |rows| =>
      var mine := rows[i].owner == account && rows[i].note.nullifier in [p.nullifier1, p.nullifier2];
      rows[i].(nullified := rows[i].nullified || mine))
  }

  /** What the database knows about an account's claim: its claim tx and the record of its deposit. */
  function KnownClaim(account: nat, db: Db, nullifier: nat): Option<(ClaimTx, DefiTx)> {
    if nullifier !in db.claimTxs || db.claimTxs[nullifier].accountPublicKey != account then None
    else
      var record := FindDefi(db.defiTxs, db.claimTxs[nullifier].defiTxId);
      if record.None? then None else Some((db.claimTxs[nullifier], record.value))
  }

  /** What a proof does to the tables as they are at its turn, with no batch in sight. */
  function StepItem(k: Keys, account: nat, db: Db, b: Block, it: Item, index: nat): Db {
    var p, notes := it.proof, NotesOf(k, it);
    var nullifier1, nullifier2 := k.valueNoteNullifier(p.noteCommitment1), k.valueNoteNullifier(p.noteCommitment2);
    if IsPayment(p.proofId) && (notes[0].Some? || notes[1].Some?) then
      var outputs := NoteIf(notes[0], p.noteCommitment1, nullifier1, index)
                     + NoteIf(notes[1], p.noteCommitment2, nullifier2, index + 1);
      db.(notes := PutNotes(Spend(db.notes, account, p), account, outputs))
    else if p.proofId == DEFI_DEPOSIT && notes[0].Some? then
      var change := UserNote(notes[0].value, p.noteCommitment2, nullifier2, index + 1);
      var claim := DepositClaim(k, account, b, it);
      Db(PutNotes(Spend(db.notes, account, p), account, [change]), db.claimTxs[claim.nullifier := claim],
         PutDefi(db.defiTxs, DepositRecord(k, account, b, it)))
    else if p.proofId == DEFI_CLAIM && KnownClaim(account, db, p.nullifier1).Some? then
      var (claim, record) := KnownClaim(account, db, p.nullifier1).value;
      var outputs := DefiClaimTx(claim, record, p, index, nullifier1, nullifier2).outputNotes;
      db.(notes := PutNotes(db.notes, account, outputs), defiTxs := PutDefi(db.defiTxs, record.(claimSettled := true)))
    else db
  }

  /** What is kept of a deposit to be claimed later. */
  function DepositClaim(k: Keys, account: nat, b: Block, it: Item): ClaimTx {
    var nonce := InteractionNonce(b.rollupId, b.bridgeCallDatas, k.bridgeCallData(it.offchain).id);
    var secret := k.deriveNoteSecret(k.partialStateSecretKey(it.offchain));
    ClaimTx(k.txId(it.proof), account, secret, k.claimNoteNullifier(it.proof.noteCommitment1), nonce)
  }

  function DepositRecord(k: Keys, account: nat, b: Block, it: Item): DefiTx {
    var bridge := k.bridgeCallData(it.offchain);
    var nonce := InteractionNonce(b.rollupId, b.bridgeCallDatas, bridge.id);
    var isAsync := FindNonce(b.interactionResult, nonce) == -1;
    DefiTx(k.txId(it.proof), account, bridge, k.depositValue(it.offchain), Some(nonce), isAsync, false, 0, 0, false,
           false)
  }

  function FinaliseTxs(txs: seq<DefiTx>, event: DefiInteractionEvent): (r: seq<DefiTx>)
    requires Payable(event)
    ensures |r| == |txs| && forall i | 0 <= i < |r| :: r[i] == Finalise(txs[i], event)
  {
    seq(|txs|, i requires 0 <= i < |txs| => Finalise(txs[i], event))
  }

  /** Each result finalises the account's stored deposits that have its nonce. */
  function StepResults(account: nat, txs: seq<DefiTx>, events: seq<DefiInteractionEvent>): seq<DefiTx>
    requires AllPayable(events)
  {
    if events == [] then txs
    else
      var n := |events| - 1;
      var before := StepResults(account, txs, events[..n]);
      PutRecords(before, FinaliseTxs(SavedDefiTxs(before, account, events[n].nonce), events[n]))
  }

  function StepInners(k: Keys, account: nat, db: Db, b: Block, n: nat): Db
    requires WellFormed(b) && n <= |b.innerProofData|
  {
    if n == 0 then db
    else
      var before := StepInners(k, account, db, b, n - 1);
      if b.innerProofData[n - 1].IsPadding() then before
      else StepItem(k, account, before, b, ItemAt(b, n - 1), b.dataStartIndex + (n - 1) * 2)
  }

  function StepBlock(k: Keys, account: nat, db: Db, b: Block): Db
    requires WellFormed(b)
  {
    var after := StepInners(k, account, db, b, |b.innerProofData|);
    after.(defiTxs := StepResults(account, after.defiTxs, b.interactionResult))
  }

  function StepBlocks(k: Keys, account: nat, db: Db, blocks: seq<Block>): Db
    requires AllWellFormed(blocks)
  {
    if blocks == [] then db
    else StepBlock(k, account, StepBlocks(k, account, db, blocks[..|blocks| - 1]), blocks[|blocks| - 1])
  }

  lemma {:induction false} StepAppend(k: Keys, account: nat, db: Db, a: seq<Block>, b: seq<Block>)
    requires AllWellFormed(a) && AllWellFormed(b)
    ensures StepBlocks(k, account, db, a + b) == StepBlocks(k, account, StepBlocks(k, account, db, a), b)
  {
    if b == [] {
      assert a + b == a;
    } else {
      assert (a + b)[..|a + b| - 1] == a + b[..|b| - 1];
      StepAppend(k, account, db, a, b[..|b| - 1]);
    }
  }

  // ---- what of a batch a claim depends on ----

  /**
   * What has gone by in a batch: the claim notes of the account's deposits, the nonces of its claims
   * that were known before the batch, and the interaction results.
   */
  datatype Seen = Seen(made: set<nat>, claimed: set<int>, results: seq<DefiInteractionEvent>)

  const NOTHING_SEEN := Seen({}, {}, [])

  function SeeItem(k: Keys, account: nat, db: Db, seen: Seen, it: Item): Seen {
    var p := it.proof;
    if p.proofId == DEFI_DEPOSIT && NotesOf(k, it)[0].Some? then
      seen.(made := seen.made + {k.claimNoteNullifier(p.noteCommitment1)})
    else if p.proofId == DEFI_CLAIM && KnownClaim(account, db, p.nullifier1).Some? then
      seen.(claimed := seen.claimed + {KnownClaim(account, db, p.nullifier1).value.0.interactionNonce})
    else seen
  }

  function SeeInners(k: Keys, account: nat, db: Db, seen: Seen, b: Block, n: nat): Seen
    requires WellFormed(b) && n <= |b.innerProofData|
  {
    if n == 0 then seen
    else
      var before := SeeInners(k, account, db, seen, b, n - 1);
      if b.innerProofData[n - 1].IsPadding() then before else SeeItem(k, account, db, before, ItemAt(b, n - 1))
  }

  function SeeBlock(k: Keys, account: nat, db: Db, seen: Seen, b: Block): Seen
    requires WellFormed(b)
  {
    var after := SeeInners(k, account, db, seen, b, |b.innerProofData|);
    after.(results := after.results + b.interactionResult)
  }

  function SeeBlocks(k: Keys, account: nat, db: Db, blocks: seq<Block>): Seen
    requires AllWellFormed(blocks)
  {
    if blocks == [] then NOTHING_SEEN
    else SeeBlock(k, account, db, SeeBlocks(k, account, db, blocks[..|blocks| - 1]), blocks[|blocks| - 1])
  }

  function LastResult(results: seq<DefiInteractionEvent>, nonce: int): (r: Option<DefiInteractionEvent>)
    ensures r.Some? ==> r.value in results
  {
    if results == [] then None
    else
      var n := |results| - 1;
      if results[n].nonce == nonce then Some(results[n]) else LastResult(results[..n], nonce)
  }

  function Updated(record: DefiTx, result: Option<DefiInteractionEvent>): DefiTx {
    if result.Some? && Payable(result.value) then Finalise(record, result.value) else record
  }

  /** Equal but for whether the claim has been settled, which is what a claim itself changes. */
  predicate SettledAs(a: DefiTx, b: DefiTx) { a.(claimSettled := true) == b.(claimSettled := true) }

  /**
   * A claim does not depend on the batch it is in: its deposit is not earlier in the batch, and if
   * the database knows it, no earlier result says anything new about that deposit.
   */
  predicate ClaimApart(account: nat, db: Db, seen: Seen, nullifier: nat) {
    var known := KnownClaim(account, db, nullifier);
    && nullifier !in seen.made
    && (known.Some? ==>
          var (claim, record) := known.value;
          SettledAs(Updated(record, LastResult(seen.results, claim.interactionNonce)), record))
  }

  ghost predicate ItemApart(account: nat, db: Db, seen: Seen, it: Item) {
    it.proof.proofId == DEFI_CLAIM ==> ClaimApart(account, db, seen, it.proof.nullifier1)
  }

  ghost predicate InnersApart(k: Keys, account: nat, db: Db, seen: Seen, b: Block, n: nat)
    requires WellFormed(b) && n <= |b.innerProofData|
  {
    n == 0 ||
    (&& InnersApart(k, account, db, seen, b, n - 1)
     && (b.innerProofData[n - 1].IsPadding()
         || ItemApart(account, db, SeeInners(k, account, db, seen, b, n - 1), ItemAt(b, n - 1))))
  }

  /** A result does not come after one of the account's claims of its interaction. */
  ghost predicate ResultsApart(claimed: set<int>, events: seq<DefiInteractionEvent>) {
    forall i | 0 <= i < |events| :: events[i].nonce !in claimed
  }

  ghost predicate BlockApart(k: Keys, account: nat, db: Db, seen: Seen, b: Block)
    requires WellFormed(b)
  {
    && InnersApart(k, account, db, seen, b, |b.innerProofData|)
    && ResultsApart(SeeInners(k, account, db, seen, b, |b.innerProofData|).claimed, b.interactionResult)
  }

  /** Whether blocks can be one batch, as can be told from them and the database before they are processed. */
  ghost predicate BatchApart(k: Keys, account: nat, db: Db, blocks: seq<Block>)
    requires AllWellFormed(blocks)
  {
    blocks == [] ||
    (&& BatchApart(k, account, db, blocks[..|blocks| - 1])
     && BlockApart(k, account, db, SeeBlocks(k, account, db, blocks[..|blocks| - 1]), blocks[|blocks| - 1]))
  }

  // ---- what the chain and the database are like ----

  /**
   * At its turn a proof's two output notes are different notes, and a deposit of the account has a
   * listed bridge call and is new, or pending without a nonce.
   */
  ghost predicate RegularItem(k: Keys, account: nat, db: Db, b: Block, it: Item) {
    var p := it.proof;
    && (IsPayment(p.proofId) || p.proofId == DEFI_CLAIM ==> p.noteCommitment1 != p.noteCommitment2)
    && (p.proofId == DEFI_DEPOSIT && NotesOf(k, it)[0].Some? ==>
          && k.bridgeCallData(it.offchain).id in b.bridgeCallDatas
          && var record := FindDefi(db.defiTxs, k.txId(p));
             record.Some? ==> record.value.userId == account && record.value.interactionNonce.None?)
  }

  ghost predicate RegularInners(k: Keys, account: nat, db: Db, b: Block, n: nat)
    requires WellFormed(b) && n <= |b.innerProofData|
  {
    n == 0 ||
    (&& RegularInners(k, account, db, b, n - 1)
     && (b.innerProofData[n - 1].IsPadding()
         || RegularItem(k, account, StepInners(k, account, db, b, n - 1), b, ItemAt(b, n - 1))))
  }

  ghost predicate RegularBlock(k: Keys, account: nat, db: Db, b: Block)
    requires WellFormed(b)
  {
    |b.bridgeCallDatas| <= NUM_BRIDGE_CALLS_PER_BLOCK && RegularInners(k, account, db, b, |b.innerProofData|)
  }

  ghost predicate RegularBlocks(k: Keys, account: nat, db: Db, blocks: seq<Block>)
    requires AllWellFormed(blocks)
  {
    blocks == [] ||
    (&& RegularBlocks(k, account, db, blocks[..|blocks| - 1])
     && RegularBlock(k, account, StepBlocks(k, account, db, blocks[..|blocks| - 1]), blocks[|blocks| - 1]))
  }

  /** A stored claim has its deposit's record, with its owner and nonce. */
  ghost predicate ClaimsMatch(db: Db) {
    forall c | c in db.claimTxs ::
      var record := FindDefi(db.defiTxs, db.claimTxs[c].defiTxId);
      && record.Some?
      && record.value.userId == db.claimTxs[c].accountPublicKey
      && record.value.interactionNonce == Some(db.claimTxs[c].interactionNonce)
  }

  /** Of a deposit that did not succeed there are no outputs; nonces are of rollups before `next`. */
  ghost predicate SoundRecord(account: nat, next: nat, record: DefiTx) {
    && (!record.success ==> record.outputValueA == 0 && record.outputValueB == 0)
    && (record.userId == account && record.interactionNonce.Some? ==>
          record.interactionNonce.value < next * NUM_BRIDGE_CALLS_PER_BLOCK)
  }

  ghost predicate SoundRecords(account: nat, next: nat, txs: seq<DefiTx>) {
    && DefiSorted(txs)
    && forall id | FindDefi(txs, id).Some? :: SoundRecord(account, next, FindDefi(txs, id).value)
  }

  /** The tables of an account that has processed the rollups before `next`. */
  ghost predicate Sound(k: Keys, account: nat, next: nat, db: Db) {
    Consistent(k, account, db.notes) && ClaimsMatch(db) && SoundRecords(account, next, db.defiTxs)
  }

  // ---- what a batch keeps ----

  ghost predicate Settled(txs: seq<DefiTx>, id: nat) {
    FindDefi(txs, id).Some? && FindDefi(txs, id).value.interactionNonce.Some?
  }

  /** Claims are as before the batch, but for those of its own deposits. */
  ghost predicate ClaimsKept(account: nat, before: Db, made: set<nat>, after: Db) {
    && (forall c | c !in made ::
          && (c in after.claimTxs <==> c in before.claimTxs)
          && (c in after.claimTxs ==> after.claimTxs[c] == before.claimTxs[c]))
    && (forall c | c in made ::
          && c in after.claimTxs && after.claimTxs[c].accountPublicKey == account
          && !Settled(before.defiTxs, after.claimTxs[c].defiTxId))
  }

  ghost predicate SameKey(a: DefiTx, b: DefiTx) {
    a.txId == b.txId && a.userId == b.userId && a.interactionNonce == b.interactionNonce
  }

  /** Records put by the batch are the account's, and the tx still has one with that nonce. */
  ghost predicate OwnPuts(account: nat, records: seq<DefiTx>, after: seq<DefiTx>) {
    forall x | x in records ::
      && x.userId == account && x.interactionNonce.Some?
      && FindDefi(after, x.txId).Some? && SameKey(FindDefi(after, x.txId).value, x)
  }

  /** A deposit settled before the batch is recorded as before it, with what the results have said since. */
  ghost predicate RecordKept(account: nat, before: DefiTx, results: seq<DefiInteractionEvent>, after: Option<DefiTx>)
    requires before.interactionNonce.Some?
  {
    && after.Some? && SameKey(before, after.value)
    && (before.userId == account ==>
          SettledAs(after.value, Updated(before, LastResult(results, before.interactionNonce.value))))
  }

  ghost predicate RecordsKept(account: nat, before: seq<DefiTx>, results: seq<DefiInteractionEvent>, after: seq<DefiTx>)
  {
    forall id | Settled(before, id) :: RecordKept(account, FindDefi(before, id).value, results, FindDefi(after, id))
  }

  /** Deposits settled in the batch have nonces of rollups from `base` on. */
  ghost predicate NewNonces(account: nat, base: nat, before: seq<DefiTx>, after: seq<DefiTx>) {
    forall id | Settled(after, id) && FindDefi(after, id).value.userId == account && !Settled(before, id) ::
      FindDefi(after, id).value.interactionNonce.value >= base * NUM_BRIDGE_CALLS_PER_BLOCK
  }

  ghost predicate IsOf(account: nat, nonce: int, record: Option<DefiTx>) {
    record.Some? && record.value.userId == account && record.value.interactionNonce == Some(nonce)
  }

  /** If the batch has put records with a nonce, it has put one for every stored deposit with it. */
  ghost predicate Covered(account: nat, before: seq<DefiTx>, claimed: set<int>, txs: seq<ProcessedTx>) {
    forall nonce: int, id | nonce !in claimed && CurrentDefiTxs(txs, nonce) != []
      && IsOf(account, nonce, FindDefi(before, id)) ::
      LastOf(CurrentDefiTxs(txs, nonce), id).Some?
  }

  /** What is put last is what is there. */
  ghost predicate LastPuts(before: seq<DefiTx>, records: seq<DefiTx>, after: seq<DefiTx>) {
    forall id :: FindDefi(after, id) == if LastOf(records, id).Some? then LastOf(records, id) else FindDefi(before, id)
  }

  ghost predicate RecordsInvariant(account: nat, base: nat, before: seq<DefiTx>, seen: Seen, txs: seq<ProcessedTx>,
                                   after: seq<DefiTx>)
  {
    && OwnPuts(account, Records(txs), after)
    && RecordsKept(account, before, seen.results, after)
    && NewNonces(account, base, before, after)
    && Covered(account, before, seen.claimed, txs)
    && LastPuts(before, Records(txs), after)
  }

  /** Part way through a batch: `txs` are processed, and would leave the tables `after`. */
  ghost predicate Batch(k: Keys, account: nat, base: nat, next: nat, db: Db, seen: Seen, txs: seq<ProcessedTx>,
                        after: Db) {
    && base <= next && after == ApplyAll(db, account, txs)
    && Sound(k, account, base, db) && Sound(k, account, next, after)
    && AllProper(k, txs) && AllPayable(seen.results)
    && ClaimsKept(account, db, seen.made, after)
    && RecordsInvariant(account, base, db.defiTxs, seen, txs, after.defiTxs)
  }

  // ---- one more processed tx ----

  lemma RecordsOfMore(txs: seq<ProcessedTx>, tx: ProcessedTx, nonce: int)
    ensures Records(txs + [tx]) == Records(txs) + if tx.defiTx.Some? then [tx.defiTx.value] else []
    ensures CurrentDefiTxs(txs + [tx], nonce) ==
            CurrentDefiTxs(txs, nonce)
            + if tx.defiTx.Some? && tx.defiTx.value.interactionNonce == Some(nonce) then [tx.defiTx.value] else []
  {
    assert (txs + [tx])[..|txs|] == txs;
  }

  lemma LastOfMore(records: seq<DefiTx>, x: DefiTx, id: nat)
    ensures LastOf(records + [x], id) == if x.txId == id then Some(x) else LastOf(records, id)
  {
    assert (records + [x])[..|records|] == records;
  }

  lemma NoRecordMore(account: nat, base: nat, before: seq<DefiTx>, seen: Seen, seen': Seen, txs: seq<ProcessedTx>,
                     after: seq<DefiTx>, tx: ProcessedTx)
    requires RecordsInvariant(account, base, before, seen, txs, after) && tx.defiTx.None?
    requires seen'.claimed == seen.claimed && seen'.results == seen.results
    ensures RecordsInvariant(account, base, before, seen', txs + [tx], after)
  {
    hide Records, CurrentDefiTxs;
    forall nonce: int
      ensures Records(txs + [tx]) == Records(txs) && CurrentDefiTxs(txs + [tx], nonce) == CurrentDefiTxs(txs, nonce)
    {
      RecordsOfMore(txs, tx, nonce);
    }
    assert Records(txs + [tx]) == Records(txs) by { RecordsOfMore(txs, tx, 0); }
    hide OwnPuts, RecordsKept, NewNonces, IsOf, LastOf;
  }

  /** `put` is `after` with x put. */
  ghost predicate PutAt(after: seq<DefiTx>, x: DefiTx, put: seq<DefiTx>) {
    forall id :: FindDefi(put, id) == if id == x.txId then Some(x) else FindDefi(after, id)
  }

  lemma PutIsAt(after: seq<DefiTx>, x: DefiTx)
    requires DefiSorted(after)
    requires FindDefi(after, x.txId).Some? ==> FindDefi(after, x.txId).value.userId == x.userId
    ensures PutAt(after, x, PutDefi(after, x))
  {
    forall id
      ensures FindDefi(PutDefi(after, x), id) == if id == x.txId then Some(x) else FindDefi(after, id)
    {
      PutDefiLookup(after, x, id);
    }
  }

  lemma OwnPutsMore(account: nat, records: seq<DefiTx>, after: seq<DefiTx>, x: DefiTx, put: seq<DefiTx>)
    requires OwnPuts(account, records, after) && PutAt(after, x, put)
    requires x.userId == account && x.interactionNonce.Some?
    requires Settled(after, x.txId) ==> SameKey(FindDefi(after, x.txId).value, x)
    ensures OwnPuts(account, records + [x], put)
  {
    hide FindDefi;
  }

  lemma RecordsKeptMore(account: nat, before: seq<DefiTx>, results: seq<DefiInteractionEvent>, after: seq<DefiTx>,
                        x: DefiTx, put: seq<DefiTx>)
    requires RecordsKept(account, before, results, after) && PutAt(after, x, put)
    requires Settled(after, x.txId) ==>
               SameKey(FindDefi(after, x.txId).value, x) && SettledAs(FindDefi(after, x.txId).value, x)
    ensures RecordsKept(account, before, results, put)
  {
    hide FindDefi, Updated, LastResult;
    forall id | Settled(before, id)
      ensures RecordKept(account, FindDefi(before, id).value, results, FindDefi(put, id))
    {
      assert RecordKept(account, FindDefi(before, id).value, results, FindDefi(after, id));
      assert Settled(after, id);
    }
  }

  lemma NewNoncesMore(account: nat, base: nat, before: seq<DefiTx>, after: seq<DefiTx>, x: DefiTx, put: seq<DefiTx>)
    requires NewNonces(account, base, before, after) && PutAt(after, x, put)
    requires x.interactionNonce.Some?
    requires x.interactionNonce.value >= base * NUM_BRIDGE_CALLS_PER_BLOCK
             || (Settled(after, x.txId) && SameKey(FindDefi(after, x.txId).value, x))
    ensures NewNonces(account, base, before, put)
  {
    hide FindDefi;
  }

  lemma LastPutsMore(before: seq<DefiTx>, records: seq<DefiTx>, after: seq<DefiTx>, x: DefiTx, put: seq<DefiTx>)
    requires LastPuts(before, records, after) && PutAt(after, x, put)
    ensures LastPuts(before, records + [x], put)
  {
    hide FindDefi, LastOf;
    forall id
      ensures FindDefi(put, id) ==
                if LastOf(records + [x], id).Some? then LastOf(records + [x], id) else FindDefi(before, id)
    {
      LastOfMore(records, x, id);
    }
  }

  /** A new deposit's record. */
  lemma NewRecord(account: nat, base: nat, before: seq<DefiTx>, seen: Seen, txs: seq<ProcessedTx>, after: seq<DefiTx>,
                  tx: ProcessedTx, x: DefiTx)
    requires RecordsInvariant(account, base, before, seen, txs, after) && DefiSorted(after)
    requires SoundRecords(account, base, before)
    requires tx.defiTx == Some(x) && x.userId == account && x.interactionNonce.Some?
    requires x.interactionNonce.value >= base * NUM_BRIDGE_CALLS_PER_BLOCK && !Settled(after, x.txId)
    requires FindDefi(after, x.txId).Some? ==> FindDefi(after, x.txId).value.userId == account
    ensures RecordsInvariant(account, base, before, seen, txs + [tx], PutDefi(after, x))
  {
    var put := PutDefi(after, x);
    PutIsAt(after, x);
    RecordsOfMore(txs, tx, 0);
    hide PutDefi, PutAt;
    OwnPutsMore(account, Records(txs), after, x, put);
    RecordsKeptMore(account, before, seen.results, after, x, put);
    NewNoncesMore(account, base, before, after, x, put);
    CoveredByNew(account, base, before, seen.claimed, txs, tx);
    LastPutsMore(before, Records(txs), after, x, put);
    hide LastPuts, Settled, OwnPuts, RecordsKept, NewNonces, Covered, Records;
  }

  lemma CoveredByNew(account: nat, base: nat, before: seq<DefiTx>, claimed: set<int>, txs: seq<ProcessedTx>,
                     tx: ProcessedTx)
    requires Covered(account, before, claimed, txs) && SoundRecords(account, base, before)
    requires tx.defiTx.Some? && tx.defiTx.value.interactionNonce.Some?
    requires tx.defiTx.value.interactionNonce.value >= base * NUM_BRIDGE_CALLS_PER_BLOCK
    ensures Covered(account, before, claimed, txs + [tx])
  {
    hide CurrentDefiTxs, FindDefi, LastOf, DefiSorted;
    forall nonce: int, id | nonce !in claimed && CurrentDefiTxs(txs + [tx], nonce) != []
      && IsOf(account, nonce, FindDefi(before, id))
      ensures LastOf(CurrentDefiTxs(txs + [tx], nonce), id).Some?
    {
      RecordsOfMore(txs, tx, nonce);
      assert SoundRecord(account, base, FindDefi(before, id).value);
      assert CurrentDefiTxs(txs + [tx], nonce) == CurrentDefiTxs(txs, nonce);
    }
  }

  lemma CoveredByClaim(account: nat, before: seq<DefiTx>, claimed: set<int>, txs: seq<ProcessedTx>, tx: ProcessedTx,
                       nonce: int)
    requires Covered(account, before, claimed, txs)
    requires tx.defiTx.Some? && tx.defiTx.value.interactionNonce == Some(nonce)
    ensures Covered(account, before, claimed + {nonce}, txs + [tx])
  {
    hide CurrentDefiTxs, FindDefi, LastOf;
    forall other: int, id | other !in claimed + {nonce} && CurrentDefiTxs(txs + [tx], other) != []
      && IsOf(account, other, FindDefi(before, id))
      ensures LastOf(CurrentDefiTxs(txs + [tx], other), id).Some?
    {
      RecordsOfMore(txs, tx, other);
      assert CurrentDefiTxs(txs + [tx], other) == CurrentDefiTxs(txs, other);
    }
  }

  /** A claim's record, which is its deposit's but for being settled. */
  lemma ClaimedRecord(account: nat, base: nat, before: seq<DefiTx>, seen: Seen, txs: seq<ProcessedTx>,
                      after: seq<DefiTx>, tx: ProcessedTx, x: DefiTx, nonce: int)
    requires RecordsInvariant(account, base, before, seen, txs, after) && DefiSorted(after)
    requires tx.defiTx == Some(x) && x.userId == account && x.interactionNonce == Some(nonce)
    requires FindDefi(after, x.txId).Some?
    requires SameKey(FindDefi(after, x.txId).value, x) && SettledAs(FindDefi(after, x.txId).value, x)
    ensures RecordsInvariant(account, base, before, seen.(claimed := seen.claimed + {nonce}), txs + [tx],
                             PutDefi(after, x))
  {
    var put := PutDefi(after, x);
    PutIsAt(after, x);
    RecordsOfMore(txs, tx, 0);
    hide PutDefi, PutAt;
    OwnPutsMore(account, Records(txs), after, x, put);
    RecordsKeptMore(account, before, seen.results, after, x, put);
    NewNoncesMore(account, base, before, after, x, put);
    CoveredByClaim(account, before, seen.claimed, txs, tx, nonce);
    LastPutsMore(before, Records(txs), after, x, put);
    hide LastPuts, OwnPuts, RecordsKept, NewNonces, Covered, Records;
  }

  // ---- results ----

  lemma {:induction false} RecordsAppend(a: seq<ProcessedTx>, b: seq<ProcessedTx>)
    ensures Records(a + b) == Records(a) + Records(b)
  {
    if b == [] {
      assert a + b == a;
    } else {
      assert (a + b)[..|a + b| - 1] == a + b[..|b| - 1];
      RecordsAppend(a, b[..|b| - 1]);
    }
  }

  lemma {:induction false} CurrentAppend(a: seq<ProcessedTx>, b: seq<ProcessedTx>, nonce: int)
    ensures CurrentDefiTxs(a + b, nonce) == CurrentDefiTxs(a, nonce) + CurrentDefiTxs(b, nonce)
  {
    if b == [] {
      assert a + b == a;
    } else {
      assert (a + b)[..|a + b| - 1] == a + b[..|b| - 1];
      CurrentAppend(a, b[..|b| - 1], nonce);
    }
  }

  lemma {:induction false} PutAppend(txs: seq<DefiTx>, a: seq<DefiTx>, b: seq<DefiTx>)
    ensures PutRecords(txs, a + b) == PutRecords(PutRecords(txs, a), b)
  {
    if b == [] {
      assert a + b == a;
    } else {
      assert (a + b)[..|a + b| - 1] == a + b[..|b| - 1];
      PutAppend(txs, a, b[..|b| - 1]);
    }
  }

  lemma {:induction false} LastOfAppend(a: seq<DefiTx>, b: seq<DefiTx>, id: nat)
    ensures LastOf(a + b, id) == if LastOf(b, id).Some? then LastOf(b, id) else LastOf(a, id)
  {
    if b == [] {
      assert a + b == a;
    } else {
      assert (a + b)[..|a + b| - 1] == a + b[..|b| - 1];
      LastOfAppend(a, b[..|b| - 1], id);
    }
  }

  lemma {:induction false} LastOfFinalised(txs: seq<DefiTx>, event: DefiInteractionEvent, id: nat)
    requires Payable(event)
    ensures LastOf(FinaliseTxs(txs, event), id) ==
            if LastOf(txs, id).Some? then Some(Finalise(LastOf(txs, id).value, event)) else None
  {
    hide GetOutputValues, Payable;
    if txs != [] {
      var n := |txs| - 1;
      LastOfFinalised(txs[..n], event, id);
      assert FinaliseTxs(txs, event)[..n] == FinaliseTxs(txs[..n], event);
    }
  }

  lemma {:induction false} RecordsOfFinalised(txs: seq<DefiTx>, event: DefiInteractionEvent, nonce: int)
    requires Payable(event)
    requires forall i | 0 <= i < |txs| :: txs[i].interactionNonce == Some(event.nonce)
    ensures Records(Finalised(txs, event)) == FinaliseTxs(txs, event)
    ensures CurrentDefiTxs(Finalised(txs, event), nonce) == if nonce == event.nonce then FinaliseTxs(txs, event) else []
  {
    hide GetOutputValues, Payable;
    if txs == [] {
      assert Finalised(txs, event) == [];
    } else {
      var n := |txs| - 1;
      RecordsOfFinalised(txs[..n], event, nonce);
      assert Finalised(txs, event)[..n] == Finalised(txs[..n], event);
      assert FinaliseTxs(txs, event) == FinaliseTxs(txs[..n], event) + [Finalise(txs[n], event)];
    }
  }

  /** A table's deposits with a nonce are found by looking their txs up. */
  lemma SavedLookup(txs: seq<DefiTx>, account: nat, nonce: int, id: nat)
    requires DefiSorted(txs)
    ensures LastOf(SavedDefiTxs(txs, account, nonce), id) ==
            if IsOf(account, nonce, FindDefi(txs, id)) then FindDefi(txs, id) else None
  {
    SavedAre(txs, account, nonce);
    var saved, last := SavedDefiTxs(txs, account, nonce), LastOf(SavedDefiTxs(txs, account, nonce), id);
    hide SavedDefiTxs, LastOf;
    if last.Some? {
      assert last.value in txs;
      var i :| 0 <= i < |txs| && txs[i] == last.value;
      FindSorted(txs, i);
    }
    if IsOf(account, nonce, FindDefi(txs, id)) {
      assert FindDefi(txs, id).value in saved;
    }
  }

  ghost predicate HaveKey(records: seq<DefiTx>, id: nat, key: Option<int>) {
    forall i | 0 <= i < |records| && records[i].txId == id :: records[i].interactionNonce == key
  }

  lemma HaveKeyBefore(records: seq<DefiTx>, more: seq<DefiTx>, id: nat, key: Option<int>)
    requires HaveKey(records + more, id, key)
    ensures HaveKey(records, id, key) && HaveKey(more, id, key)
  {
    forall i | 0 <= i < |records| ensures records[i] == (records + more)[i] {}
    forall i | 0 <= i < |more| ensures more[i] == (records + more)[|records| + i] {}
  }

  lemma {:induction false} CurrentLast(txs: seq<ProcessedTx>, nonce: int, id: nat, key: Option<int>)
    requires HaveKey(Records(txs), id, key)
    ensures LastOf(CurrentDefiTxs(txs, nonce), id) == if key == Some(nonce) then LastOf(Records(txs), id) else None
  {
    if txs != [] {
      var n := |txs| - 1;
      var front, current := Records(txs[..n]), CurrentDefiTxs(txs[..n], nonce);
      if txs[n].defiTx.None? {
        assert Records(txs) == front && CurrentDefiTxs(txs, nonce) == current;
        CurrentLast(txs[..n], nonce, id, key);
      } else {
        var x := txs[n].defiTx.value;
        HaveKeyBefore(front, [x], id, key);
        CurrentLast(txs[..n], nonce, id, key);
        assert Records(txs) == front + [x];
        assert CurrentDefiTxs(txs, nonce) == if x.interactionNonce == Some(nonce) then current + [x] else current;
        hide Records, CurrentDefiTxs, LastOf;
        LastOfMore(front, x, id);
        LastOfMore(current, x, id);
        assert [x][0].txId == id ==> [x][0].interactionNonce == key;
      }
    }
  }

  /** The deposits of a result, picked from the batch or else from the database, are those the tables hold. */
  lemma PickedAreSaved(account: nat, base: nat, db: Db, seen: Seen, txs: seq<ProcessedTx>, after: seq<DefiTx>,
                       nonce: int, id: nat)
    requires RecordsInvariant(account, base, db.defiTxs, seen, txs, after) && nonce !in seen.claimed
    requires DefiSorted(db.defiTxs) && DefiSorted(after)
    ensures LastOf(DefiTxsByNonce(account, db, txs, nonce), id) ==
            if IsOf(account, nonce, FindDefi(after, id)) then FindDefi(after, id) else None
  {
    SavedLookup(db.defiTxs, account, nonce, id);
    var current := CurrentDefiTxs(txs, nonce);
    var last := LastOf(Records(txs), id);
    var key := if FindDefi(after, id).Some? then FindDefi(after, id).value.interactionNonce else None;
    assert forall i | 0 <= i < |Records(txs)| :: Records(txs)[i] in Records(txs);
    CurrentLast(txs, nonce, id, key);
    hide Records, CurrentDefiTxs, FindDefi, SavedDefiTxs, DefiSorted, NewNonces, Updated, LastResult;
    assert FindDefi(after, id) == if last.Some? then last else FindDefi(db.defiTxs, id);
    if last.None? && IsOf(account, nonce, FindDefi(db.defiTxs, id)) {
      assert current == [] || LastOf(current, id).Some?;
    }
    if last.Some? && IsOf(account, nonce, FindDefi(db.defiTxs, id)) {
      assert Settled(db.defiTxs, id);
    }
    if current == [] {
      assert LastOf(current, id).None?;
    }
  }

  /** Equal but for what a result says. */
  predicate SameButResult(a: DefiTx, b: DefiTx) {
    a == b.(success := a.success, outputValueA := a.outputValueA, outputValueB := a.outputValueB,
            finalised := a.finalised)
  }

  lemma FinaliseOverrides(a: DefiTx, b: DefiTx, event: DefiInteractionEvent)
    requires Payable(event) && SameButResult(a, b)
    ensures Finalise(a, event) == Finalise(b, event)
    ensures SameButResult(Finalise(a, event), b)
  {
  }

  /** The table `now` holds what `start` held, with what some results have said since. */
  ghost predicate UpdatedBy(account: nat, start: seq<DefiTx>, events: seq<DefiInteractionEvent>, now: seq<DefiTx>) {
    forall id :: FindDefi(now, id) == Said(account, FindDefi(start, id), events)
  }

  function Said(account: nat, record: Option<DefiTx>, events: seq<DefiInteractionEvent>): Option<DefiTx> {
    if record.None? || record.value.userId != account || record.value.interactionNonce.None? then record
    else Some(Updated(record.value, LastResult(events, record.value.interactionNonce.value)))
  }

  lemma SaidOneMore(account: nat, record: Option<DefiTx>, events: seq<DefiInteractionEvent>,
                    event: DefiInteractionEvent)
    requires AllPayable(events) && Payable(event)
    ensures Said(account, record, events + [event]) ==
            if IsOf(account, event.nonce, record) then Some(Finalise(record.value, event))
            else Said(account, record, events)
    ensures Said(account, record, events).Some? <==> record.Some?
    ensures record.Some? ==> SameButResult(Said(account, record, events).value, record.value)
    ensures IsOf(account, event.nonce, Said(account, record, events)) <==> IsOf(account, event.nonce, record)
  {
    assert (events + [event])[..|events|] == events;
    if record.Some? && record.value.interactionNonce.Some? {
      var last := LastResult(events, record.value.interactionNonce.value);
      if last.Some? {
        FinaliseOverrides(record.value, record.value, last.value);
      }
    }
  }

  /** A list of the tables' deposits with a nonce, however it is ordered and whatever it repeats. */
  ghost predicate Picks(account: nat, start: seq<DefiTx>, nonce: int, picked: seq<DefiTx>) {
    && (forall id ::
          LastOf(picked, id) == if IsOf(account, nonce, FindDefi(start, id)) then FindDefi(start, id) else None)
    && (forall i | 0 <= i < |picked| :: picked[i].userId == account && picked[i].interactionNonce == Some(nonce))
  }

  /** Finalising such a list leaves the same records as finalising the ones that are stored now. */
  lemma PickedResult(account: nat, start: seq<DefiTx>, events: seq<DefiInteractionEvent>, now: seq<DefiTx>,
                     picked: seq<DefiTx>, event: DefiInteractionEvent)
    requires DefiSorted(now) && UpdatedBy(account, start, events, now) && AllPayable(events) && Payable(event)
    requires Picks(account, start, event.nonce, picked)
    ensures var put := PutRecords(now, FinaliseTxs(picked, event));
            && put == PutRecords(now, FinaliseTxs(SavedDefiTxs(now, account, event.nonce), event))
            && DefiSorted(put) && UpdatedBy(account, start, events + [event], put)
  {
    var saved := SavedDefiTxs(now, account, event.nonce);
    SavedIsPicked(account, now, event.nonce);
    PutOfPicked(account, start, events, now, picked, event);
    PutOfPickedNow(account, start, events, now, event);
    var put, step := PutRecords(now, FinaliseTxs(picked, event)), PutRecords(now, FinaliseTxs(saved, event));
    hide PutRecords, FinaliseTxs, SavedDefiTxs, FindDefi, Said, DefiSorted;
    forall id
      ensures FindDefi(put, id) == FindDefi(step, id)
    {
      assert FindDefi(put, id) == Said(account, FindDefi(start, id), events + [event]);
    }
    SameLookups(put, step);
  }

  lemma SavedIsPicked(account: nat, now: seq<DefiTx>, nonce: int)
    requires DefiSorted(now)
    ensures Picks(account, now, nonce, SavedDefiTxs(now, account, nonce))
  {
    var saved := SavedDefiTxs(now, account, nonce);
    SavedAre(now, account, nonce);
    hide SavedDefiTxs, DefiSorted, FindDefi, LastOf;
    forall id
      ensures LastOf(saved, id) == if IsOf(account, nonce, FindDefi(now, id)) then FindDefi(now, id) else None
    {
      SavedLookup(now, account, nonce, id);
    }
    assert forall i | 0 <= i < |saved| :: saved[i] in saved;
  }

  lemma PutOfPicked(account: nat, start: seq<DefiTx>, events: seq<DefiInteractionEvent>, now: seq<DefiTx>,
                    picked: seq<DefiTx>, event: DefiInteractionEvent)
    requires DefiSorted(now) && UpdatedBy(account, start, events, now) && AllPayable(events) && Payable(event)
    requires Picks(account, start, event.nonce, picked)
    ensures var put := PutRecords(now, FinaliseTxs(picked, event));
            DefiSorted(put) && UpdatedBy(account, start, events + [event], put)
  {
    var records := FinaliseTxs(picked, event);
    hide DefiSorted, FindDefi, Said, GetOutputValues, LastOf, PutRecords;
    forall i | 0 <= i < |records|
      ensures records[i].userId == account
      ensures FindDefi(now, records[i].txId).Some? ==> FindDefi(now, records[i].txId).value.userId == account
    {
      PickedIsOwn(account, start, event.nonce, picked, i);
      SaidOneMore(account, FindDefi(start, picked[i].txId), events, event);
    }
    PutRecordsLookup(account, now, records);
    forall id
      ensures FindDefi(PutRecords(now, records), id) == Said(account, FindDefi(start, id), events + [event])
    {
      SaidOneMore(account, FindDefi(start, id), events, event);
      LastOfFinalised(picked, event, id);
    }
  }

  lemma PickedIsOwn(account: nat, start: seq<DefiTx>, nonce: int, picked: seq<DefiTx>, i: nat)
    requires Picks(account, start, nonce, picked) && i < |picked|
    ensures FindDefi(start, picked[i].txId).Some? && FindDefi(start, picked[i].txId).value.userId == account
    ensures picked[i].userId == account
  {
    hide FindDefi;
    assert LastOf(picked, picked[i].txId).Some?;
  }

  lemma PutOfPickedNow(account: nat, start: seq<DefiTx>, events: seq<DefiInteractionEvent>, now: seq<DefiTx>,
                       event: DefiInteractionEvent)
    requires DefiSorted(now) && UpdatedBy(account, start, events, now) && AllPayable(events) && Payable(event)
    ensures var put := PutRecords(now, FinaliseTxs(SavedDefiTxs(now, account, event.nonce), event));
            DefiSorted(put) && UpdatedBy(account, start, events + [event], put)
  {
    var saved := SavedDefiTxs(now, account, event.nonce);
    var put := PutRecords(now, FinaliseTxs(saved, event));
    SavedIsPicked(account, now, event.nonce);
    hide DefiSorted, FindDefi, Said, SavedDefiTxs, PutRecords, GetOutputValues, Finalise;
    NothingSaid(account, now);
    PutOfPicked(account, now, [], now, saved, event);
    assert [] + [event] == [event];
    forall id
      ensures FindDefi(put, id) == Said(account, FindDefi(start, id), events + [event])
    {
      SaidOneMore(account, FindDefi(start, id), events, event);
      SaidOneMore(account, FindDefi(now, id), [], event);
      NothingSaidOf(account, FindDefi(now, id));
      if IsOf(account, event.nonce, FindDefi(start, id)) {
        FinaliseOverrides(FindDefi(now, id).value, FindDefi(start, id).value, event);
      }
    }
  }

  lemma NothingSaidOf(account: nat, record: Option<DefiTx>)
    ensures Said(account, record, []) == record
  {
  }

  lemma NothingSaid(account: nat, txs: seq<DefiTx>)
    ensures UpdatedBy(account, txs, [], txs)
  {
    forall id
      ensures FindDefi(txs, id) == Said(account, FindDefi(txs, id), [])
    {
      NothingSaidOf(account, FindDefi(txs, id));
    }
  }

  lemma PickedFromBatch(account: nat, base: nat, db: Db, seen: Seen, txs: seq<ProcessedTx>, after: seq<DefiTx>,
                        nonce: int)
    requires RecordsInvariant(account, base, db.defiTxs, seen, txs, after) && nonce !in seen.claimed
    requires DefiSorted(db.defiTxs) && DefiSorted(after)
    ensures Picks(account, after, nonce, DefiTxsByNonce(account, db, txs, nonce))
  {
    var picked := DefiTxsByNonce(account, db, txs, nonce);
    SavedAre(db.defiTxs, account, nonce);
    CurrentAre(txs, nonce);
    hide Records, CurrentDefiTxs, SavedDefiTxs, DefiSorted, FindDefi, LastOf, LastPuts, NewNonces, RecordsKept, Covered;
    forall id
      ensures LastOf(picked, id) == if IsOf(account, nonce, FindDefi(after, id)) then FindDefi(after, id) else None
    {
      PickedAreSaved(account, base, db, seen, txs, after, nonce, id);
    }
    assert forall i | 0 <= i < |picked| :: picked[i] in picked;
  }

  /** What the results of a block do to the records, as the batch does it and one at a time. */
  lemma {:induction false} ResultsMatch(account: nat, base: nat, db: Db, seen: Seen, txs: seq<ProcessedTx>,
                                        after: seq<DefiTx>, events: seq<DefiInteractionEvent>)
    requires RecordsInvariant(account, base, db.defiTxs, seen, txs, after)
    requires DefiSorted(db.defiTxs) && DefiSorted(after)
    requires AllPayable(events) && ResultsApart(seen.claimed, events)
    ensures PutRecords(after, Records(FinaliseAll(account, db, events, txs))) == StepResults(account, after, events)
    ensures DefiSorted(StepResults(account, after, events))
            && UpdatedBy(account, after, events, StepResults(account, after, events))
  {
    if events == [] {
      NothingSaid(account, after);
    } else {
      hide RecordsInvariant, DefiSorted, LastPuts, UpdatedBy, Picks, DefiTxsByNonce, Records, PutRecords, FinaliseAll,
           StepResults, Payable;
      var n := |events| - 1;
      assert Payable(events[n]) && events[n].nonce !in seen.claimed;
      ResultsMatch(account, base, db, seen, txs, after, events[..n]);
      PickedFromBatch(account, base, db, seen, txs, after, events[n].nonce);
      LastResultMatches(account, db, txs, after, events);
    }
  }

  lemma LastResultMatches(account: nat, db: Db, txs: seq<ProcessedTx>, after: seq<DefiTx>,
                          events: seq<DefiInteractionEvent>)
    requires AllPayable(events) && events != []
    requires var n := |events| - 1; var now := StepResults(account, after, events[..n]);
             && PutRecords(after, Records(FinaliseAll(account, db, events[..n], txs))) == now
             && DefiSorted(now) && UpdatedBy(account, after, events[..n], now)
             && Picks(account, after, events[n].nonce, DefiTxsByNonce(account, db, txs, events[n].nonce))
    ensures PutRecords(after, Records(FinaliseAll(account, db, events, txs))) == StepResults(account, after, events)
    ensures DefiSorted(StepResults(account, after, events))
            && UpdatedBy(account, after, events, StepResults(account, after, events))
  {
    hide DefiSorted, UpdatedBy, Picks, DefiTxsByNonce, Records, PutRecords, SavedDefiTxs, Payable, FinaliseAll;
    var n := |events| - 1;
    var now, picked := StepResults(account, after, events[..n]), DefiTxsByNonce(account, db, txs, events[n].nonce);
    assert Payable(events[n]);
    PickedResult(account, after, events[..n], now, picked, events[n]);
    assert events == events[..n] + [events[n]];
    RecordsOfLastResult(account, db, txs, after, events);
    PutAppend(after, Records(FinaliseAll(account, db, events[..n], txs)), FinaliseTxs(picked, events[n]));
  }

  lemma RecordsOfLastResult(account: nat, db: Db, txs: seq<ProcessedTx>, after: seq<DefiTx>,
                            events: seq<DefiInteractionEvent>)
    requires AllPayable(events) && events != []
    requires var nonce := events[|events| - 1].nonce;
             Picks(account, after, nonce, DefiTxsByNonce(account, db, txs, nonce))
    ensures var n := |events| - 1; var picked := DefiTxsByNonce(account, db, txs, events[n].nonce);
            && Payable(events[n])
            && Records(FinaliseAll(account, db, events, txs)) ==
               Records(FinaliseAll(account, db, events[..n], txs)) + FinaliseTxs(picked, events[n])
  {
    var n := |events| - 1;
    var picked, front := DefiTxsByNonce(account, db, txs, events[n].nonce), FinaliseAll(account, db, events[..n], txs);
    assert Payable(events[n]);
    assert FinaliseAll(account, db, events, txs) == front + Finalised(picked, events[n]);
    hide Records, FinaliseAll, DefiTxsByNonce, Payable, LastOf, FindDefi;
    RecordsAppend(front, Finalised(picked, events[n]));
    RecordsOfFinalised(picked, events[n], 0);
  }

  lemma CurrentOfLastResult(account: nat, db: Db, txs: seq<ProcessedTx>, after: seq<DefiTx>,
                            events: seq<DefiInteractionEvent>, nonce: int)
    requires AllPayable(events) && events != []
    requires var key := events[|events| - 1].nonce; Picks(account, after, key, DefiTxsByNonce(account, db, txs, key))
    ensures var n := |events| - 1; var picked := DefiTxsByNonce(account, db, txs, events[n].nonce);
            && Payable(events[n])
            && CurrentDefiTxs(FinaliseAll(account, db, events, txs), nonce) ==
               CurrentDefiTxs(FinaliseAll(account, db, events[..n], txs), nonce)
               + (if nonce == events[n].nonce then FinaliseTxs(picked, events[n]) else [])
  {
    var n := |events| - 1;
    var picked, front := DefiTxsByNonce(account, db, txs, events[n].nonce), FinaliseAll(account, db, events[..n], txs);
    assert Payable(events[n]);
    assert FinaliseAll(account, db, events, txs) == front + Finalised(picked, events[n]);
    hide CurrentDefiTxs, FinaliseAll, DefiTxsByNonce, Payable, LastOf, FindDefi;
    CurrentAppend(front, Finalised(picked, events[n]), nonce);
    RecordsOfFinalised(picked, events[n], nonce);
  }

  lemma {:induction false} FinalisedAreOwn(account: nat, base: nat, db: Db, seen: Seen, txs: seq<ProcessedTx>,
                                           after: seq<DefiTx>, events: seq<DefiInteractionEvent>)
    requires RecordsInvariant(account, base, db.defiTxs, seen, txs, after)
    requires DefiSorted(db.defiTxs) && DefiSorted(after)
    requires AllPayable(events) && ResultsApart(seen.claimed, events)
    ensures OwnPuts(account, Records(FinaliseAll(account, db, events, txs)), after)
  {
    if events != [] {
      var n := |events| - 1;
      var nonce := events[n].nonce;
      var picked := DefiTxsByNonce(account, db, txs, nonce);
      hide RecordsInvariant, DefiSorted, LastPuts, Picks, DefiTxsByNonce, Records, FindDefi, Payable, GetOutputValues;
      assert nonce !in seen.claimed && Payable(events[n]);
      FinalisedAreOwn(account, base, db, seen, txs, after, events[..n]);
      PickedFromBatch(account, base, db, seen, txs, after, nonce);
      RecordsOfLastResult(account, db, txs, after, events);
      PutsOfPicked(account, after, nonce, picked, events[n]);
    }
  }

  lemma PutsOfPicked(account: nat, after: seq<DefiTx>, nonce: int, picked: seq<DefiTx>, event: DefiInteractionEvent)
    requires Picks(account, after, nonce, picked) && Payable(event)
    ensures OwnPuts(account, FinaliseTxs(picked, event), after)
  {
    var records := FinaliseTxs(picked, event);
    hide FindDefi, LastOf, GetOutputValues;
    forall i | 0 <= i < |records|
      ensures records[i].userId == account && records[i].interactionNonce.Some?
      ensures FindDefi(after, records[i].txId).Some? && SameKey(FindDefi(after, records[i].txId).value, records[i])
    {
      assert picked[i].interactionNonce == Some(nonce);
      assert LastOf(picked, picked[i].txId).Some?;
    }
  }

  lemma {:induction false} LastResultAppend(a: seq<DefiInteractionEvent>, b: seq<DefiInteractionEvent>, nonce: int)
    ensures LastResult(a + b, nonce) ==
              if LastResult(b, nonce).Some? then LastResult(b, nonce) else LastResult(a, nonce)
  {
    if b == [] {
      assert a + b == a;
    } else {
      assert (a + b)[..|a + b| - 1] == a + b[..|b| - 1];
      LastResultAppend(a, b[..|b| - 1], nonce);
    }
  }

  lemma RecordKeptByResults(account: nat, before: DefiTx, results: seq<DefiInteractionEvent>, after: Option<DefiTx>,
                            events: seq<DefiInteractionEvent>)
    requires before.interactionNonce.Some? && RecordKept(account, before, results, after)
    requires AllPayable(results) && AllPayable(events)
    ensures RecordKept(account, before, results + events, Said(account, after, events))
  {
    var nonce := before.interactionNonce.value;
    LastResultAppend(results, events, nonce);
    var last, earlier := LastResult(events, nonce), LastResult(results, nonce);
    hide LastResult, GetOutputValues;
    if before.userId == account && last.Some? {
      var event := last.value;
      assert Payable(event);
      if earlier.Some? {
        assert Payable(earlier.value);
      }
    }
  }

  lemma RecordsKeptByResults(account: nat, before: seq<DefiTx>, results: seq<DefiInteractionEvent>, after: seq<DefiTx>,
                             events: seq<DefiInteractionEvent>, now: seq<DefiTx>)
    requires RecordsKept(account, before, results, after) && UpdatedBy(account, after, events, now)
    requires AllPayable(results) && AllPayable(events)
    ensures RecordsKept(account, before, results + events, now)
  {
    hide FindDefi, RecordKept, Said;
    forall id | Settled(before, id)
      ensures RecordKept(account, FindDefi(before, id).value, results + events, FindDefi(now, id))
    {
      RecordKeptByResults(account, FindDefi(before, id).value, results, FindDefi(after, id), events);
    }
  }

  lemma SaidKeepsKey(account: nat, record: Option<DefiTx>, events: seq<DefiInteractionEvent>)
    ensures Said(account, record, events).Some? <==> record.Some?
    ensures record.Some? ==> SameKey(Said(account, record, events).value, record.value)
  {
  }

  lemma PutsAndNoncesKept(account: nat, base: nat, before: seq<DefiTx>, records: seq<DefiTx>, after: seq<DefiTx>,
                          events: seq<DefiInteractionEvent>, now: seq<DefiTx>)
    requires OwnPuts(account, records, after) && NewNonces(account, base, before, after)
    requires UpdatedBy(account, after, events, now)
    ensures OwnPuts(account, records, now) && NewNonces(account, base, before, now)
  {
    hide FindDefi, Said;
    forall id
      ensures FindDefi(now, id).Some? <==> FindDefi(after, id).Some?
      ensures FindDefi(after, id).Some? ==> SameKey(FindDefi(now, id).value, FindDefi(after, id).value)
    {
      SaidKeepsKey(account, FindDefi(after, id), events);
    }
  }

  /** Results put records with a nonce only if they put one for each stored deposit with it. */
  lemma {:induction false} ResultsCover(account: nat, base: nat, db: Db, seen: Seen, txs: seq<ProcessedTx>,
                                        after: seq<DefiTx>, events: seq<DefiInteractionEvent>, nonce: int, id: nat)
    requires RecordsInvariant(account, base, db.defiTxs, seen, txs, after)
    requires DefiSorted(db.defiTxs) && DefiSorted(after)
    requires AllPayable(events) && ResultsApart(seen.claimed, events)
    requires nonce !in seen.claimed && IsOf(account, nonce, FindDefi(db.defiTxs, id))
    ensures var more := CurrentDefiTxs(FinaliseAll(account, db, events, txs), nonce);
            more == [] || LastOf(more, id).Some?
  {
    if events != [] {
      var n := |events| - 1;
      var picked := DefiTxsByNonce(account, db, txs, events[n].nonce);
      assert events[n].nonce !in seen.claimed && Payable(events[n]);
      ResultsCover(account, base, db, seen, txs, after, events[..n], nonce, id);
      PickedFromBatch(account, base, db, seen, txs, after, events[n].nonce);
      CurrentOfLastResult(account, db, txs, after, events, nonce);
      var front := CurrentDefiTxs(FinaliseAll(account, db, events[..n], txs), nonce);
      StillStored(account, db.defiTxs, seen.results, after, nonce, id);
      hide RecordsInvariant, DefiSorted, LastPuts, DefiTxsByNonce, FindDefi, FinaliseAll, CurrentDefiTxs, LastOf,
           Payable;
      if nonce == events[n].nonce {
        LastOfFinalised(picked, events[n], id);
        LastOfAppend(front, FinaliseTxs(picked, events[n]), id);
      } else {
        assert front + [] == front;
      }
    }
  }

  lemma StillStored(account: nat, before: seq<DefiTx>, results: seq<DefiInteractionEvent>, after: seq<DefiTx>,
                    nonce: int, id: nat)
    requires RecordsKept(account, before, results, after) && IsOf(account, nonce, FindDefi(before, id))
    ensures IsOf(account, nonce, FindDefi(after, id))
  {
    assert Settled(before, id);
    assert RecordKept(account, FindDefi(before, id).value, results, FindDefi(after, id));
  }

  lemma CoveredByResults(account: nat, base: nat, db: Db, seen: Seen, txs: seq<ProcessedTx>, after: seq<DefiTx>,
                         events: seq<DefiInteractionEvent>)
    requires RecordsInvariant(account, base, db.defiTxs, seen, txs, after)
    requires DefiSorted(db.defiTxs) && DefiSorted(after)
    requires AllPayable(events) && ResultsApart(seen.claimed, events)
    ensures Covered(account, db.defiTxs, seen.claimed, txs + FinaliseAll(account, db, events, txs))
  {
    var more := FinaliseAll(account, db, events, txs);
    hide FinaliseAll, DefiSorted, LastPuts, OwnPuts, RecordsKept, NewNonces, CurrentDefiTxs, LastOf, FindDefi;
    forall nonce: int, id | nonce !in seen.claimed && CurrentDefiTxs(txs + more, nonce) != []
      && IsOf(account, nonce, FindDefi(db.defiTxs, id))
      ensures LastOf(CurrentDefiTxs(txs + more, nonce), id).Some?
    {
      CurrentAppend(txs, more, nonce);
      ResultsCover(account, base, db, seen, txs, after, events, nonce, id);
      LastOfAppend(CurrentDefiTxs(txs, nonce), CurrentDefiTxs(more, nonce), id);
      assert CurrentDefiTxs(txs, nonce) == [] ==> CurrentDefiTxs(txs + more, nonce) == CurrentDefiTxs(more, nonce);
    }
  }

  lemma ResultsKeepRecords(account: nat, base: nat, db: Db, seen: Seen, txs: seq<ProcessedTx>, after: seq<DefiTx>,
                           events: seq<DefiInteractionEvent>)
    requires RecordsInvariant(account, base, db.defiTxs, seen, txs, after)
    requires DefiSorted(db.defiTxs) && DefiSorted(after)
    requires AllPayable(seen.results) && AllPayable(events) && ResultsApart(seen.claimed, events)
    ensures RecordsInvariant(account, base, db.defiTxs, seen.(results := seen.results + events),
                             txs + FinaliseAll(account, db, events, txs), StepResults(account, after, events))
  {
    var more, now := FinaliseAll(account, db, events, txs), StepResults(account, after, events);
    ResultsMatch(account, base, db, seen, txs, after, events);
    FinalisedAreOwn(account, base, db, seen, txs, after, events);
    CoveredByResults(account, base, db, seen, txs, after, events);
    RecordsAppend(txs, more);
    assert OwnPuts(account, Records(txs) + Records(more), after);
    hide FinaliseAll, StepResults, DefiSorted, LastPuts, OwnPuts, RecordsKept, NewNonces, Covered, Records, UpdatedBy;
    PutsAndNoncesKept(account, base, db.defiTxs, Records(txs) + Records(more), after, events, now);
    RecordsKeptByResults(account, db.defiTxs, seen.results, after, events, now);
    LastPutsOfResults(account, db.defiTxs, Records(txs), after, Records(more));
  }

  lemma LastPutsOfResults(account: nat, before: seq<DefiTx>, records: seq<DefiTx>, after: seq<DefiTx>,
                          more: seq<DefiTx>)
    requires LastPuts(before, records, after) && DefiSorted(after) && OwnPuts(account, more, after)
    ensures LastPuts(before, records + more, PutRecords(after, more))
  {
    assert forall i | 0 <= i < |more| :: more[i] in more;
    hide FindDefi, LastOf, DefiSorted, PutRecords;
    PutRecordsLookup(account, after, more);
    forall id
      ensures FindDefi(PutRecords(after, more), id) ==
              if LastOf(records + more, id).Some? then LastOf(records + more, id) else FindDefi(before, id)
    {
      LastOfAppend(records, more, id);
    }
  }

  // ---- one more proof ----

  lemma SpendIsDestroyed(k: Keys, account: nat, rows: seq<Row>, p: InnerProofData, destroyed: seq<nat>)
    requires Injective(k) && Consistent(k, account, rows)
    requires destroyed == (if Owned(rows, account, p.nullifier1) then [p.nullifier1] else [])
                          + (if Owned(rows, account, p.nullifier2) then [p.nullifier2] else [])
    ensures NullifyAll(rows, destroyed) == Spend(rows, account, p)
  {
    NullifyTwo(rows, destroyed);
    forall i | 0 <= i < |rows|
      ensures rows[i].note.nullifier in destroyed <==>
              rows[i].owner == account && rows[i].note.nullifier in [p.nullifier1, p.nullifier2]
    {
      assert OwnNullifier(k, account, rows[i]);
      var n := rows[i].note.nullifier;
      if Owned(rows, account, n) {
        var j :| 0 <= j < |rows| && rows[j].owner == account && rows[j].note.nullifier == n;
        assert OwnNullifier(k, account, rows[j]);
      }
    }
  }

  lemma NullifyTwo(rows: seq<Row>, nullifiers: seq<nat>)
    requires |nullifiers| <= 2
    ensures |NullifyAll(rows, nullifiers)| == |rows|
    ensures forall i | 0 <= i < |rows| :: NullifyAll(rows, nullifiers)[i] ==
              rows[i].(nullified := rows[i].nullified || rows[i].note.nullifier in nullifiers)
  {
    if |nullifiers| == 2 {
      assert nullifiers[..1] == [nullifiers[0]] && nullifiers[..1][..0] == [];
      assert NullifyAll(rows, nullifiers[..1]) == Nullify(NullifyAll(rows, []), nullifiers[0]);
    } else if |nullifiers| == 1 {
      assert nullifiers[..0] == [];
    }
  }

  lemma DestroyedIsOwned(k: Keys, account: nat, db: Db, txs: seq<ProcessedTx>, p: InnerProofData)
    requires Injective(k) && Consistent(k, account, db.notes) && AllProper(k, txs)
    ensures var rows := ApplyAll(db, account, txs).notes;
            NullifyAll(rows, Destroyed(account, db, txs, p)) == Spend(rows, account, p)
  {
    var rows := ApplyAll(db, account, txs).notes;
    FoundIffInTable(k, account, db, txs, p.nullifier1);
    FoundIffInTable(k, account, db, txs, p.nullifier2);
    FoundHasNullifier(account, db, txs, p.nullifier1);
    FoundHasNullifier(account, db, txs, p.nullifier2);
    hide Owned, Consistent, UserNoteOf, NullifyAll, Spend, AllProper, Injective;
    SpendIsDestroyed(k, account, rows, p, Destroyed(account, db, txs, p));
  }

  lemma DestroyedInBatch(k: Keys, account: nat, base: nat, next: nat, db: Db, seen: Seen, txs: seq<ProcessedTx>,
                         after: Db, p: InnerProofData)
    requires Batch(k, account, base, next, db, seen, txs, after) && Injective(k)
    ensures NullifyAll(after.notes, Destroyed(account, db, txs, p)) == Spend(after.notes, account, p)
  {
    hide Consistent, ClaimsMatch, SoundRecords, AllProper, ClaimsKept, RecordsInvariant, ApplyAll, NullifyAll,
         Destroyed, Spend, Injective;
    DestroyedIsOwned(k, account, db, txs, p);
  }

  lemma FoundHasNullifier(account: nat, db: Db, txs: seq<ProcessedTx>, n: nat)
    ensures var note := UserNoteOf(account, db, txs, n); note.Some? ==> note.value.nullifier == n
  {
    ProcessedHasNullifier(txs, n);
  }

  lemma {:induction false} ProcessedHasNullifier(txs: seq<ProcessedTx>, n: nat)
    ensures var note := FindProcessed(txs, n); note.Some? ==> note.value.nullifier == n
  {
    if txs != [] {
      ProcessedHasNullifier(txs[1..], n);
    }
  }

  lemma ApplyLast(k: Keys, account: nat, db: Db, txs: seq<ProcessedTx>, tx: ProcessedTx)
    ensures ApplyAll(db, account, txs + [tx]) == Apply(ApplyAll(db, account, txs), account, tx)
    ensures AllProper(k, txs) && ProperOutputs(k, tx) ==> AllProper(k, txs + [tx])
  {
    assert (txs + [tx])[..|txs + [tx]| - 1] == txs;
  }

  lemma SoundHasDeposits(k: Keys, account: nat, next: nat, db: Db)
    requires Sound(k, account, next, db)
    ensures ClaimsHaveDeposits(db)
  {
  }

  lemma NotesAfter(k: Keys, account: nat, base: nat, next: nat, db: Db, seen: Seen, txs: seq<ProcessedTx>, after: Db,
                   tx: ProcessedTx)
    requires Batch(k, account, base, next, db, seen, txs, after) && Injective(k) && ProperOutputs(k, tx)
    ensures AllProper(k, txs + [tx]) && ApplyAll(db, account, txs + [tx]) == Apply(after, account, tx)
    ensures Consistent(k, account, Apply(after, account, tx).notes)
  {
    hide ClaimsMatch, SoundRecords, ClaimsKept, RecordsInvariant, ApplyAll, Apply, Injective, ProperOutputs, AllProper,
         Consistent;
    ApplyLast(k, account, db, txs, tx);
    FoundIffInTable(k, account, db, txs + [tx], 0);
  }

  /** A tx that keeps no claim and no record. */
  lemma NotesOnly(k: Keys, account: nat, base: nat, next: nat, db: Db, seen: Seen, txs: seq<ProcessedTx>, after: Db,
                  tx: ProcessedTx)
    requires Batch(k, account, base, next, db, seen, txs, after) && Injective(k)
    requires ProperOutputs(k, tx) && tx.claimTx.None? && tx.defiTx.None?
    ensures Batch(k, account, base, next, db, seen, txs + [tx], Apply(after, account, tx))
  {
    NotesAfter(k, account, base, next, db, seen, txs, after, tx);
    NoRecordMore(account, base, db.defiTxs, seen, seen, txs, after.defiTxs, tx);
    hide Consistent, AllProper, RecordsInvariant, SoundRecords, ApplyAll, NullifyAll, PutNotes, FindDefi, ProperOutputs,
         Injective;
  }

  /** Putting a record, new or with the key of the one it replaces, keeps the tables sound. */
  lemma SoundAfterPut(k: Keys, account: nat, next: nat, db: Db, after: Db, x: DefiTx)
    requires Sound(k, account, next, db) && Consistent(k, account, after.notes)
    requires SoundRecord(account, next, x)
    requires FindDefi(db.defiTxs, x.txId).Some? ==> FindDefi(db.defiTxs, x.txId).value.userId == x.userId
    requires Settled(db.defiTxs, x.txId) ==> SameKey(FindDefi(db.defiTxs, x.txId).value, x)
    requires after.defiTxs == PutDefi(db.defiTxs, x)
    requires forall c | c in after.claimTxs ::
               || (c in db.claimTxs && after.claimTxs[c] == db.claimTxs[c])
               || (&& after.claimTxs[c].defiTxId == x.txId && after.claimTxs[c].accountPublicKey == x.userId
                   && Some(after.claimTxs[c].interactionNonce) == x.interactionNonce)
    ensures Sound(k, account, next, after)
  {
    PutIsAt(db.defiTxs, x);
    PutDefiSorted(db.defiTxs, x);
    hide Consistent, PutDefi, FindDefi, DefiSorted, SoundRecord;
  }

  lemma KnownClaims(account: nat, k: Keys, base: nat, next: nat, db: Db, seen: Seen, txs: seq<ProcessedTx>, after: Db,
                    c: nat)
    requires Batch(k, account, base, next, db, seen, txs, after) && c !in seen.made
    ensures var known, now := KnownClaim(account, db, c), KnownClaim(account, after, c);
            && (known.Some? <==> now.Some?)
            && (known.Some? ==>
                  && known.value.0 == now.value.0 && SameKey(known.value.1, now.value.1)
                  && now.value.1.userId == account
                  && now.value.1.interactionNonce == Some(known.value.0.interactionNonce)
                  && SettledAs(now.value.1,
                               Updated(known.value.1, LastResult(seen.results, known.value.0.interactionNonce))))
  {
    hide Consistent, AllProper, SoundRecords, ApplyAll, OwnPuts, NewNonces, Covered, LastPuts, Updated, LastResult;
    var known := KnownClaim(account, db, c);
    if known.Some? {
      var id := known.value.0.defiTxId;
      assert Settled(db.defiTxs, id);
      assert RecordKept(account, known.value.1, seen.results, FindDefi(after.defiTxs, id));
    }
  }

  lemma ClaimTxOf(claim: ClaimTx, a: DefiTx, b: DefiTx, p: InnerProofData, index: nat, nullifier1: nat, nullifier2: nat)
    ensures DefiClaimTx(claim, a, p, index, nullifier1, nullifier2) ==
            DefiClaimTx(claim, b, p, index, nullifier1, nullifier2) <==>
            SettledAs(a, b)
  {
    var x := DefiClaimTx(claim, a, p, index, nullifier1, nullifier2);
    var y := DefiClaimTx(claim, b, p, index, nullifier1, nullifier2);
    assert x.defiTx == Some(a.(claimSettled := true)) && y.defiTx == Some(b.(claimSettled := true));
    if SettledAs(a, b) {
      assert x.outputNotes == y.outputNotes;
    }
  }

  /** What a batch makes of a claim it knows, after `txs`: it takes no notice of them. */
  lemma ClaimProcessed(k: Keys, account: nat, db: Db, b: Block, it: Item, index: nat, txs: seq<ProcessedTx>)
    requires it.proof.proofId == DEFI_CLAIM && ClaimsHaveDeposits(db)
    ensures var p := it.proof; var known := KnownClaim(account, db, p.nullifier1);
            ProcessItem(k, account, db, b, it, index, txs) ==
              if known.None? then []
              else [DefiClaimTx(known.value.0, known.value.1, p, index, k.valueNoteNullifier(p.noteCommitment1),
                                k.valueNoteNullifier(p.noteCommitment2))]
  {
    hide DefiClaimTx, FindDefi, NotesOf, PaymentTx, DefiDepositTx;
  }

  /** Claim notes made in the batch are claims of deposits that are new to it. */
  lemma MadeClaims(k: Keys, account: nat, base: nat, next: nat, db: Db, seen: Seen, txs: seq<ProcessedTx>, after: Db,
                   c: nat)
    requires Batch(k, account, base, next, db, seen, txs, after) && c in seen.made
    ensures var known, now := KnownClaim(account, db, c), KnownClaim(account, after, c);
            now.Some? && (known.Some? ==> known.value.1.txId != now.value.1.txId)
  {
    hide Consistent, AllProper, SoundRecords, ApplyAll, RecordsInvariant, Updated, LastResult;
    var known := KnownClaim(account, db, c);
    if known.Some? {
      assert Settled(db.defiTxs, known.value.0.defiTxId);
    }
  }

  /**
   * Exactly when a claim in a batch is processed as it would be with everything before it in the
   * batch applied: its deposit is not earlier in the batch, and no earlier result of its interaction
   * says anything about that deposit that the database did not say before the batch.
   */
  lemma ClaimMatchesIffApart(k: Keys, account: nat, base: nat, next: nat, db: Db, seen: Seen, txs: seq<ProcessedTx>,
                             after: Db, b: Block, it: Item, index: nat)
    requires Batch(k, account, base, next, db, seen, txs, after) && it.proof.proofId == DEFI_CLAIM
    ensures ClaimsHaveDeposits(db) && ClaimsHaveDeposits(after)
    ensures ProcessItem(k, account, db, b, it, index, txs) == ProcessItem(k, account, after, b, it, index, []) <==>
            ClaimApart(account, db, seen, it.proof.nullifier1)
  {
    SoundHasDeposits(k, account, base, db);
    SoundHasDeposits(k, account, next, after);
    var p, c := it.proof, it.proof.nullifier1;
    var n1, n2 := k.valueNoteNullifier(p.noteCommitment1), k.valueNoteNullifier(p.noteCommitment2);
    var known, now := KnownClaim(account, db, c), KnownClaim(account, after, c);
    ClaimProcessed(k, account, db, b, it, index, txs);
    ClaimProcessed(k, account, after, b, it, index, []);
    hide ProcessItem, KnownClaim, Updated, LastResult, DefiClaimTx;
    if c in seen.made {
      MadeClaims(k, account, base, next, db, seen, txs, after, c);
      if known.Some? {
        DifferentDeposits(known.value.0, now.value.0, known.value.1, now.value.1, p, index, n1, n2);
      }
    } else {
      KnownClaims(account, k, base, next, db, seen, txs, after, c);
      if known.Some? {
        ClaimTxOf(known.value.0, known.value.1, now.value.1, p, index, n1, n2);
      }
    }
  }

  lemma DifferentDeposits(claim: ClaimTx, other: ClaimTx, a: DefiTx, b: DefiTx, p: InnerProofData, index: nat,
                          nullifier1: nat, nullifier2: nat)
    requires a.txId != b.txId
    ensures DefiClaimTx(claim, a, p, index, nullifier1, nullifier2) != DefiClaimTx(other, b, p, index, nullifier1,
                                                                                   nullifier2)
  {
  }

  /** A claim of a claim note that is nobody's, or another account's, changes nothing. */
  lemma OthersClaimsChangeNothing(k: Keys, account: nat, db: Db, b: Block, it: Item, index: nat, txs: seq<ProcessedTx>)
    requires it.proof.proofId == DEFI_CLAIM && ClaimsHaveDeposits(db)
    requires it.proof.nullifier1 !in db.claimTxs || db.claimTxs[it.proof.nullifier1].accountPublicKey != account
    ensures ProcessItem(k, account, db, b, it, index, txs) == [] && StepItem(k, account, db, b, it, index) == db
  {
  }

  lemma ClaimOutputs(k: Keys, claim: ClaimTx, record: DefiTx, p: InnerProofData, index: nat)
    requires Injective(k) && p.noteCommitment1 != p.noteCommitment2
    requires !record.success ==> record.outputValueA == 0 && record.outputValueB == 0
    ensures ProperOutputs(k, DefiClaimTx(claim, record, p, index, k.valueNoteNullifier(p.noteCommitment1),
                                         k.valueNoteNullifier(p.noteCommitment2)))
  {
    hide OutputAssetId;
  }

  lemma RecordPut(db: Db, account: nat, tx: ProcessedTx, x: DefiTx)
    requires tx.claimTx.None? && tx.defiTx == Some(x)
    ensures Apply(db, account, tx).claimTxs == db.claimTxs && Apply(db, account, tx).defiTxs == PutDefi(db.defiTxs, x)
  {
    hide PutDefi;
  }

  lemma SettledSound(account: nat, next: nat, txs: seq<DefiTx>, x: DefiTx)
    requires SoundRecords(account, next, txs) && FindDefi(txs, x.txId).Some?
    requires SameKey(FindDefi(txs, x.txId).value, x) && SettledAs(FindDefi(txs, x.txId).value, x)
    ensures SoundRecord(account, next, x) && DefiSorted(txs)
  {
    hide DefiSorted, FindDefi;
    assert SoundRecord(account, next, FindDefi(txs, x.txId).value);
  }

  /** A claim's tx, which puts its deposit's record again. */
  lemma ClaimKept(k: Keys, account: nat, base: nat, next: nat, db: Db, seen: Seen, txs: seq<ProcessedTx>, after: Db,
                  tx: ProcessedTx, x: DefiTx, nonce: int)
    requires Batch(k, account, base, next, db, seen, txs, after) && Injective(k)
    requires ProperOutputs(k, tx) && tx.claimTx.None? && tx.defiTx == Some(x)
    requires x.userId == account && x.interactionNonce == Some(nonce)
    requires FindDefi(after.defiTxs, x.txId).Some?
    requires SameKey(FindDefi(after.defiTxs, x.txId).value, x) && SettledAs(FindDefi(after.defiTxs, x.txId).value, x)
    ensures Batch(k, account, base, next, db, seen.(claimed := seen.claimed + {nonce}), txs + [tx],
                  Apply(after, account, tx))
  {
    hide Consistent, AllProper, RecordsInvariant, ApplyAll, Apply, FindDefi, ProperOutputs, PutDefi, SoundRecords,
         ClaimsMatch, Injective, SoundRecord, DefiSorted, SettledAs, Settled, Payable;
    NotesAfter(k, account, base, next, db, seen, txs, after, tx);
    SettledSound(account, next, after.defiTxs, x);
    RecordPut(after, account, tx, x);
    var now := Apply(after, account, tx);
    ClaimedRecord(account, base, db.defiTxs, seen, txs, after.defiTxs, tx, x, nonce);
    SoundAfterPut(k, account, next, after, now, x);
  }

  /** A deposit's tx, which keeps a new claim and a new record. */
  lemma DepositKept(k: Keys, account: nat, base: nat, next: nat, db: Db, seen: Seen, txs: seq<ProcessedTx>, after: Db,
                    tx: ProcessedTx, claim: ClaimTx, x: DefiTx)
    requires Batch(k, account, base, next, db, seen, txs, after) && Injective(k)
    requires ProperOutputs(k, tx) && tx.claimTx == Some(claim) && tx.defiTx == Some(x)
    requires x.userId == account && claim.accountPublicKey == account && claim.defiTxId == x.txId
    requires x.interactionNonce == Some(claim.interactionNonce) && SoundRecord(account, next, x)
    requires base * NUM_BRIDGE_CALLS_PER_BLOCK <= claim.interactionNonce
    requires var stored := FindDefi(after.defiTxs, x.txId);
             stored.Some? ==> stored.value.userId == account && stored.value.interactionNonce.None?
    ensures Batch(k, account, base, next, db, seen.(made := seen.made + {claim.nullifier}), txs + [tx],
                  Apply(after, account, tx))
  {
    NotesAfter(k, account, base, next, db, seen, txs, after, tx);
    StillSettled(account, db.defiTxs, seen.results, after.defiTxs, x.txId);
    NewRecord(account, base, db.defiTxs, seen, txs, after.defiTxs, tx, x);
    var now := Apply(after, account, tx);
    assert now.claimTxs == after.claimTxs[claim.nullifier := claim] && now.defiTxs == PutDefi(after.defiTxs, x);
    hide Consistent, AllProper, RecordsInvariant, ApplyAll, Apply, FindDefi, ProperOutputs, PutDefi, SoundRecords,
         ClaimsMatch, Injective, SoundRecord;
    SoundAfterPut(k, account, next, after, now, x);
    ClaimsKeptMore(account, db, seen.made, after, claim, now);
    hide ClaimsKept;
    assert (seen.(made := seen.made + {claim.nullifier})).claimed == seen.claimed;
    SeenMadeOnly(account, base, db.defiTxs, seen, txs + [tx], now.defiTxs, seen.made + {claim.nullifier});
  }

  lemma SeenMadeOnly(account: nat, base: nat, before: seq<DefiTx>, seen: Seen, txs: seq<ProcessedTx>,
                     after: seq<DefiTx>, made: set<nat>)
    requires RecordsInvariant(account, base, before, seen, txs, after)
    ensures RecordsInvariant(account, base, before, seen.(made := made), txs, after)
  {
    hide OwnPuts, RecordsKept, NewNonces, Covered, LastPuts;
  }

  lemma StillSettled(account: nat, before: seq<DefiTx>, results: seq<DefiInteractionEvent>, after: seq<DefiTx>, id: nat)
    requires RecordsKept(account, before, results, after)
    ensures Settled(before, id) ==> Settled(after, id)
  {
    hide FindDefi;
    assert Settled(before, id) ==> RecordKept(account, FindDefi(before, id).value, results, FindDefi(after, id));
  }

  lemma ClaimsKeptMore(account: nat, before: Db, made: set<nat>, after: Db, claim: ClaimTx, now: Db)
    requires ClaimsKept(account, before, made, after) && now.claimTxs == after.claimTxs[claim.nullifier := claim]
    requires claim.accountPublicKey == account && !Settled(before.defiTxs, claim.defiTxId)
    ensures ClaimsKept(account, before, made + {claim.nullifier}, now)
  {
    hide Settled;
  }

  lemma KeepsClaim(k: Keys, account: nat, base: nat, next: nat, db: Db, seen: Seen, txs: seq<ProcessedTx>, after: Db,
                   b: Block, it: Item, index: nat)
    requires Batch(k, account, base, next, db, seen, txs, after) && Injective(k) && ClaimsHaveDeposits(db)
    requires it.proof.proofId == DEFI_CLAIM && it.proof.noteCommitment1 != it.proof.noteCommitment2
    requires ClaimApart(account, db, seen, it.proof.nullifier1)
    ensures Batch(k, account, base, next, db, SeeItem(k, account, db, seen, it),
                  txs + ProcessItem(k, account, db, b, it, index, txs), StepItem(k, account, after, b, it, index))
  {
    var p, c := it.proof, it.proof.nullifier1;
    var n1, n2 := k.valueNoteNullifier(p.noteCommitment1), k.valueNoteNullifier(p.noteCommitment2);
    var known, now := KnownClaim(account, db, c), KnownClaim(account, after, c);
    ClaimProcessed(k, account, db, b, it, index, txs);
    KnownClaims(account, k, base, next, db, seen, txs, after, c);
    if known.None? {
      assert txs + [] == txs;
      hide Batch, DefiClaimTx, NotesOf, InteractionNonce;
    } else {
      var (claim, record) := known.value;
      var tx := DefiClaimTx(claim, record, p, index, n1, n2);
      KnownRecord(k, account, base, db, c);
      ClaimOutputs(k, claim, record, p, index);
      ClaimTxOf(claim, record, now.value.1, p, index, n1, n2);
      KnownFound(account, after, c);
      ClaimStep(k, account, after, b, it, index, claim, record);
      hide Batch, DefiClaimTx, NotesOf, InteractionNonce, KnownClaim, Updated, LastResult, ProcessItem, StepItem,
           FindDefi, Apply;
      ClaimKept(k, account, base, next, db, seen, txs, after, tx, record.(claimSettled := true),
                claim.interactionNonce);
    }
  }

  lemma KnownRecord(k: Keys, account: nat, base: nat, db: Db, c: nat)
    requires Sound(k, account, base, db) && KnownClaim(account, db, c).Some?
    ensures var record := KnownClaim(account, db, c).value.1;
            !record.success ==> record.outputValueA == 0 && record.outputValueB == 0
  {
    hide Consistent, DefiSorted;
    var (claim, record) := KnownClaim(account, db, c).value;
    assert SoundRecord(account, base, FindDefi(db.defiTxs, claim.defiTxId).value);
  }

  lemma KnownFound(account: nat, db: Db, c: nat)
    requires KnownClaim(account, db, c).Some?
    ensures var (claim, record) := KnownClaim(account, db, c).value;
            FindDefi(db.defiTxs, record.txId) == Some(record) && record.txId == claim.defiTxId
  {
  }

  /** The step of a claim is applying its tx, whichever of two records alike it is made from. */
  lemma ClaimStep(k: Keys, account: nat, db: Db, b: Block, it: Item, index: nat, claim: ClaimTx, record: DefiTx)
    requires it.proof.proofId == DEFI_CLAIM && KnownClaim(account, db, it.proof.nullifier1).Some?
    requires claim == KnownClaim(account, db, it.proof.nullifier1).value.0
    requires SettledAs(record, KnownClaim(account, db, it.proof.nullifier1).value.1)
    ensures var p := it.proof;
            var tx := DefiClaimTx(claim, record, p, index, k.valueNoteNullifier(p.noteCommitment1),
                                  k.valueNoteNullifier(p.noteCommitment2));
            && StepItem(k, account, db, b, it, index) == Apply(db, account, tx)
            && tx.claimTx.None? && tx.defiTx == Some(record.(claimSettled := true))
  {
    var p, now := it.proof, KnownClaim(account, db, it.proof.nullifier1).value.1;
    var n1, n2 := k.valueNoteNullifier(p.noteCommitment1), k.valueNoteNullifier(p.noteCommitment2);
    ClaimTxOf(claim, record, now, p, index, n1, n2);
    KnownStep(k, account, db, b, it, index);
    hide StepItem, KnownClaim;
    var tx := DefiClaimTx(claim, record, p, index, n1, n2);
    assert tx.nullifiers == [] && tx.claimTx.None? && tx.defiTx == Some(record.(claimSettled := true));
    hide DefiClaimTx, PutNotes, PutDefi;
    assert NullifyAll(db.notes, []) == db.notes;
  }

  lemma KnownStep(k: Keys, account: nat, db: Db, b: Block, it: Item, index: nat)
    requires it.proof.proofId == DEFI_CLAIM && KnownClaim(account, db, it.proof.nullifier1).Some?
    ensures var p := it.proof; var (claim, now) := KnownClaim(account, db, p.nullifier1).value;
            var tx := DefiClaimTx(claim, now, p, index, k.valueNoteNullifier(p.noteCommitment1),
                                  k.valueNoteNullifier(p.noteCommitment2));
            StepItem(k, account, db, b, it, index) ==
            db.(notes := PutNotes(db.notes, account, tx.outputNotes),
                defiTxs := PutDefi(db.defiTxs, now.(claimSettled := true)))
  {
    hide DefiClaimTx, NotesOf, PutNotes, PutDefi, KnownClaim;
  }

  lemma KeepsDeposit(k: Keys, account: nat, base: nat, next: nat, db: Db, seen: Seen, txs: seq<ProcessedTx>, after: Db,
                     b: Block, it: Item, index: nat)
    requires Batch(k, account, base, next, db, seen, txs, after) && Injective(k) && ClaimsHaveDeposits(db)
    requires it.proof.proofId == DEFI_DEPOSIT && NotesOf(k, it)[0].Some?
    requires base <= b.rollupId < next && |b.bridgeCallDatas| <= NUM_BRIDGE_CALLS_PER_BLOCK
    requires RegularItem(k, account, after, b, it)
    ensures Batch(k, account, base, next, db, SeeItem(k, account, db, seen, it),
                  txs + ProcessItem(k, account, db, b, it, index, txs), StepItem(k, account, after, b, it, index))
  {
    hide *;
    var claim, x := DepositClaim(k, account, b, it), DepositRecord(k, account, b, it);
    DepositTx(k, account, db, after, b, it, index, txs);
    DestroyedInBatch(k, account, base, next, db, seen, txs, after, it.proof);
    DepositFacts(k, account, base, next, after, b, it);
    SeenDeposit(k, account, db, seen, it, b);
    var tx := ProcessItem(k, account, db, b, it, index, txs)[0];
    assert ProcessItem(k, account, db, b, it, index, txs) == [tx];
    DepositKept(k, account, base, next, db, seen, txs, after, tx, claim, x);
  }

  lemma SeenDeposit(k: Keys, account: nat, db: Db, seen: Seen, it: Item, b: Block)
    requires it.proof.proofId == DEFI_DEPOSIT && NotesOf(k, it)[0].Some?
    ensures SeeItem(k, account, db, seen, it) == seen.(made := seen.made + {DepositClaim(k, account, b, it).nullifier})
  {
  }

  lemma DepositFacts(k: Keys, account: nat, base: nat, next: nat, after: Db, b: Block, it: Item)
    requires it.proof.proofId == DEFI_DEPOSIT && NotesOf(k, it)[0].Some?
    requires base <= b.rollupId < next && |b.bridgeCallDatas| <= NUM_BRIDGE_CALLS_PER_BLOCK
    requires RegularItem(k, account, after, b, it)
    ensures var claim, x := DepositClaim(k, account, b, it), DepositRecord(k, account, b, it);
            var stored := FindDefi(after.defiTxs, x.txId);
            && x.userId == account && claim.accountPublicKey == account && claim.defiTxId == x.txId
            && x.interactionNonce == Some(claim.interactionNonce) && SoundRecord(account, next, x)
            && base * NUM_BRIDGE_CALLS_PER_BLOCK <= claim.interactionNonce
            && (stored.Some? ==> stored.value.userId == account && stored.value.interactionNonce.None?)
  {
    NonceInRange(b, k.bridgeCallData(it.offchain).id);
    DepositSound(k, account, next, b, it);
    hide InteractionNonce, FindDefi, NotesOf, SoundRecord;
  }

  lemma NonceInRange(b: Block, bridge: nat)
    requires bridge in b.bridgeCallDatas && |b.bridgeCallDatas| <= NUM_BRIDGE_CALLS_PER_BLOCK
    ensures var nonce := InteractionNonce(b.rollupId, b.bridgeCallDatas, bridge);
            b.rollupId * NUM_BRIDGE_CALLS_PER_BLOCK <= nonce < (b.rollupId + 1) * NUM_BRIDGE_CALLS_PER_BLOCK
  {
  }

  lemma DepositSound(k: Keys, account: nat, next: nat, b: Block, it: Item)
    requires b.rollupId < next && |b.bridgeCallDatas| <= NUM_BRIDGE_CALLS_PER_BLOCK
    requires k.bridgeCallData(it.offchain).id in b.bridgeCallDatas
    ensures SoundRecord(account, next, DepositRecord(k, account, b, it))
  {
    NonceInRange(b, k.bridgeCallData(it.offchain).id);
    hide InteractionNonce;
  }

  /** The step of a deposit is applying its tx, if the notes it destroys are those the tables hold. */
  lemma DepositTx(k: Keys, account: nat, db: Db, after: Db, b: Block, it: Item, index: nat, txs: seq<ProcessedTx>)
    requires it.proof.proofId == DEFI_DEPOSIT && NotesOf(k, it)[0].Some? && ClaimsHaveDeposits(db)
    ensures var more := ProcessItem(k, account, db, b, it, index, txs);
            && |more| == 1 && ProperOutputs(k, more[0])
            && more[0].claimTx == Some(DepositClaim(k, account, b, it))
            && more[0].defiTx == Some(DepositRecord(k, account, b, it))
            && (NullifyAll(after.notes, Destroyed(account, db, txs, it.proof)) ==
                Spend(after.notes, account, it.proof) ==>
                  StepItem(k, account, after, b, it, index) == Apply(after, account, more[0]))
  {
    hide NotesOf, Destroyed, InteractionNonce, ClaimsHaveDeposits, Spend, NullifyAll, PutNotes, PutDefi, KnownClaim,
         FindDefi;
  }

  lemma PaymentTxs(k: Keys, account: nat, db: Db, after: Db, b: Block, it: Item, index: nat, txs: seq<ProcessedTx>)
    requires it.proof.proofId != DEFI_CLAIM && it.proof.proofId != DEFI_DEPOSIT && ClaimsHaveDeposits(db)
             && Injective(k)
    requires IsPayment(it.proof.proofId) ==> it.proof.noteCommitment1 != it.proof.noteCommitment2
    ensures var more := ProcessItem(k, account, db, b, it, index, txs);
            && |more| <= 1
            && (|more| == 1 ==> ProperOutputs(k, more[0]) && more[0].claimTx.None? && more[0].defiTx.None?)
            && (NullifyAll(after.notes, Destroyed(account, db, txs, it.proof)) ==
                Spend(after.notes, account, it.proof) ==>
                  StepItem(k, account, after, b, it, index) ==
                    if more == [] then after else Apply(after, account, more[0]))
  {
    hide NotesOf, Destroyed, ClaimsHaveDeposits, Spend, PutNotes, PutDefi, KnownClaim, FindDefi;
    if it.proof.proofId == ACCOUNT {
      assert NullifyAll(after.notes, []) == after.notes;
      assert PutNotes(after.notes, account, []) == after.notes by { NothingPut(after.notes, account); }
    }
  }

  lemma NothingPut(rows: seq<Row>, account: nat)
    ensures PutNotes(rows, account, []) == rows
  {
  }

  lemma KeepsPayment(k: Keys, account: nat, base: nat, next: nat, db: Db, seen: Seen, txs: seq<ProcessedTx>, after: Db,
                     b: Block, it: Item, index: nat)
    requires Batch(k, account, base, next, db, seen, txs, after) && Injective(k) && ClaimsHaveDeposits(db)
    requires it.proof.proofId != DEFI_CLAIM && it.proof.proofId != DEFI_DEPOSIT
    requires IsPayment(it.proof.proofId) ==> it.proof.noteCommitment1 != it.proof.noteCommitment2
    ensures Batch(k, account, base, next, db, SeeItem(k, account, db, seen, it),
                  txs + ProcessItem(k, account, db, b, it, index, txs), StepItem(k, account, after, b, it, index))
  {
    var more := ProcessItem(k, account, db, b, it, index, txs);
    PaymentTxs(k, account, db, after, b, it, index, txs);
    DestroyedIsOwned(k, account, db, txs, it.proof);
    assert SeeItem(k, account, db, seen, it) == seen;
    hide Batch, ProcessItem, StepItem, Apply, NotesOf, SeeItem, NullifyAll, Spend, Destroyed, ProperOutputs;
    if more == [] {
      assert txs + [] == txs;
    } else {
      assert more == [more[0]];
      NotesOnly(k, account, base, next, db, seen, txs, after, more[0]);
    }
  }

  /** Processing one more proof in the batch is one more step, and keeps what a batch keeps. */
  lemma ItemKeepsBatch(k: Keys, account: nat, base: nat, next: nat, db: Db, seen: Seen, txs: seq<ProcessedTx>,
                       after: Db, b: Block, it: Item, index: nat)
    requires Batch(k, account, base, next, db, seen, txs, after) && Injective(k) && ClaimsHaveDeposits(db)
    requires base <= b.rollupId < next && |b.bridgeCallDatas| <= NUM_BRIDGE_CALLS_PER_BLOCK
    requires RegularItem(k, account, after, b, it) && ItemApart(account, db, seen, it)
    ensures Batch(k, account, base, next, db, SeeItem(k, account, db, seen, it),
                  txs + ProcessItem(k, account, db, b, it, index, txs), StepItem(k, account, after, b, it, index))
  {
    if it.proof.proofId == DEFI_CLAIM {
      KeepsClaim(k, account, base, next, db, seen, txs, after, b, it, index);
    } else if it.proof.proofId != DEFI_DEPOSIT {
      KeepsPayment(k, account, base, next, db, seen, txs, after, b, it, index);
    } else if NotesOf(k, it)[0].Some? {
      KeepsDeposit(k, account, base, next, db, seen, txs, after, b, it, index);
    } else {
      hide Batch, NotesOf, KnownClaim;
      assert txs + [] == txs;
    }
  }

  // ---- whole blocks ----

  lemma {:induction false} InnersKeepBatch(k: Keys, account: nat, base: nat, next: nat, db: Db, seen: Seen,
                                           txs: seq<ProcessedTx>, after: Db, b: Block, n: nat)
    requires WellFormed(b) && n <= |b.innerProofData| && ClaimsHaveDeposits(db) && Injective(k)
    requires Batch(k, account, base, next, db, seen, txs, after)
    requires base <= b.rollupId < next && |b.bridgeCallDatas| <= NUM_BRIDGE_CALLS_PER_BLOCK
    requires RegularInners(k, account, after, b, n) && InnersApart(k, account, db, seen, b, n)
    ensures Batch(k, account, base, next, db, SeeInners(k, account, db, seen, b, n),
                  ProcessInners(k, account, db, b, n, txs), StepInners(k, account, after, b, n))
  {
    hide Batch, ClaimsHaveDeposits, Injective, RegularItem, ItemApart, ProcessItem, StepItem, SeeItem, WellFormed,
         NumTxs;
    if n > 0 {
      InnersKeepBatch(k, account, base, next, db, seen, txs, after, b, n - 1);
      if !b.innerProofData[n - 1].IsPadding() {
        ItemKeepsBatch(k, account, base, next, db, SeeInners(k, account, db, seen, b, n - 1),
                       ProcessInners(k, account, db, b, n - 1, txs), StepInners(k, account, after, b, n - 1), b,
                       ItemAt(b, n - 1), b.dataStartIndex + (n - 1) * 2);
      }
    }
  }

  /** A finalised result only updates the record of its deposit. */
  ghost predicate OnlyRecords(txs: seq<ProcessedTx>) {
    forall i | 0 <= i < |txs| :: txs[i].nullifiers == [] && txs[i].outputNotes == [] && txs[i].claimTx.None?
  }

  lemma {:induction false} FinaliseOnlyRecords(account: nat, db: Db, events: seq<DefiInteractionEvent>,
                                               txs: seq<ProcessedTx>)
    requires AllPayable(events)
    ensures OnlyRecords(FinaliseAll(account, db, events, txs))
  {
    if events != [] {
      FinaliseOnlyRecords(account, db, events[..|events| - 1], txs);
    }
  }

  lemma {:induction false} RecordsKeepTables(k: Keys, account: nat, db: Db, txs: seq<ProcessedTx>)
    requires OnlyRecords(txs)
    ensures ApplyAll(db, account, txs).notes == db.notes && ApplyAll(db, account, txs).claimTxs == db.claimTxs
    ensures AllProper(k, txs)
  {
    if txs != [] {
      RecordsKeepTables(k, account, db, txs[..|txs| - 1]);
    }
  }

  lemma SoundAfterResults(k: Keys, account: nat, next: nat, after: Db, events: seq<DefiInteractionEvent>,
                          now: seq<DefiTx>)
    requires Sound(k, account, next, after) && AllPayable(events)
    requires DefiSorted(now) && UpdatedBy(account, after.defiTxs, events, now)
    ensures Sound(k, account, next, after.(defiTxs := now))
  {
    hide Consistent, DefiSorted, FindDefi, Said;
    forall id
      ensures FindDefi(now, id).Some? <==> FindDefi(after.defiTxs, id).Some?
      ensures FindDefi(now, id).Some? ==>
                SameKey(FindDefi(now, id).value, FindDefi(after.defiTxs, id).value)
                  && SoundRecord(account, next, FindDefi(now, id).value)
    {
      SaidKeepsKey(account, FindDefi(after.defiTxs, id), events);
      SaidIsSound(account, next, FindDefi(after.defiTxs, id), events);
    }
  }

  lemma SaidIsSound(account: nat, next: nat, record: Option<DefiTx>, events: seq<DefiInteractionEvent>)
    requires record.Some? ==> SoundRecord(account, next, record.value)
    ensures Said(account, record, events).Some? ==> SoundRecord(account, next, Said(account, record, events).value)
  {
    hide LastResult, Payout;
  }

  lemma ResultsKeepBatch(k: Keys, account: nat, base: nat, next: nat, db: Db, seen: Seen, txs: seq<ProcessedTx>,
                         after: Db, events: seq<DefiInteractionEvent>)
    requires Batch(k, account, base, next, db, seen, txs, after)
    requires AllPayable(events) && ResultsApart(seen.claimed, events)
    ensures Batch(k, account, base, next, db, seen.(results := seen.results + events),
                  txs + FinaliseAll(account, db, events, txs),
                  after.(defiTxs := StepResults(account, after.defiTxs, events)))
  {
    var more, now := FinaliseAll(account, db, events, txs), StepResults(account, after.defiTxs, events);
    ResultsMatch(account, base, db, seen, txs, after.defiTxs, events);
    ResultsKeepRecords(account, base, db, seen, txs, after.defiTxs, events);
    hide FinaliseAll, StepResults, RecordsInvariant, ApplyAll, Consistent, ClaimsMatch, SoundRecords, FindDefi,
         PutRecords, UpdatedBy, ResultsApart, DefiSorted, Settled, AllProper;
    ResultsApplied(k, account, db, txs, after, events);
    SoundAfterResults(k, account, next, after, events, now);
    assert AllPayable(seen.results + events);
    assert ClaimsKept(account, db, seen.made, after.(defiTxs := now));
  }

  lemma ResultsApplied(k: Keys, account: nat, db: Db, txs: seq<ProcessedTx>, after: Db,
                       events: seq<DefiInteractionEvent>)
    requires AllPayable(events) && after == ApplyAll(db, account, txs) && AllProper(k, txs)
    requires var more := FinaliseAll(account, db, events, txs);
             PutRecords(after.defiTxs, Records(more)) == StepResults(account, after.defiTxs, events)
    ensures var more := FinaliseAll(account, db, events, txs);
            && AllProper(k, txs + more)
            && ApplyAll(db, account, txs + more) == after.(defiTxs := StepResults(account, after.defiTxs, events))
  {
    var more := FinaliseAll(account, db, events, txs);
    FinaliseOnlyRecords(account, db, events, txs);
    hide FinaliseAll, StepResults, ApplyAll, ProperOutputs, Records, PutRecords, OnlyRecords;
    RecordsKeepTables(k, account, after, more);
    ApplyPutsRecords(after, account, more);
    ApplyAppend(db, account, txs, more);
  }

  lemma BlockKeepsBatch(k: Keys, account: nat, base: nat, next: nat, db: Db, seen: Seen, txs: seq<ProcessedTx>,
                        after: Db, b: Block)
    requires WellFormed(b) && ClaimsHaveDeposits(db) && Injective(k)
    requires Batch(k, account, base, next, db, seen, txs, after)
    requires base <= b.rollupId < next && RegularBlock(k, account, after, b) && BlockApart(k, account, db, seen, b)
    ensures Batch(k, account, base, next, db, SeeBlock(k, account, db, seen, b), ProcessOne(k, account, db, b, txs),
                  StepBlock(k, account, after, b))
  {
    InnersKeepBatch(k, account, base, next, db, seen, txs, after, b, |b.innerProofData|);
    hide Batch, InnersApart, RegularInners, SeeInners, ProcessInners, StepInners, FinaliseAll, StepResults,
         ClaimsHaveDeposits, Injective;
    ResultsKeepBatch(k, account, base, next, db, SeeInners(k, account, db, seen, b, |b.innerProofData|),
                     ProcessInners(k, account, db, b, |b.innerProofData|, txs),
                     StepInners(k, account, after, b, |b.innerProofData|),
                     b.interactionResult);
  }

  /** The rollups of the blocks are from `base` on and before `next`. */
  ghost predicate Between(blocks: seq<Block>, base: nat, next: nat) {
    base <= next && forall i | 0 <= i < |blocks| :: base <= blocks[i].rollupId < next
  }

  lemma BatchStarts(k: Keys, account: nat, base: nat, next: nat, db: Db)
    requires Sound(k, account, base, db) && base <= next
    ensures Batch(k, account, base, next, db, NOTHING_SEEN, [], db)
  {
    assert ApplyAll(db, account, []) == db;
    assert SoundRecords(account, next, db.defiTxs) by {
      forall id | FindDefi(db.defiTxs, id).Some?
        ensures SoundRecord(account, next, FindDefi(db.defiTxs, id).value)
      {
        assert SoundRecord(account, base, FindDefi(db.defiTxs, id).value);
      }
    }
    NothingPutYet(account, base, db.defiTxs);
    hide RecordsInvariant, SoundRecords, ClaimsMatch, Consistent;
  }

  lemma NothingPutYet(account: nat, base: nat, before: seq<DefiTx>)
    ensures RecordsInvariant(account, base, before, NOTHING_SEEN, [], before)
  {
  }

  /**
   * Blocks that can be one batch leave the tables that their proofs and results leave one at a time,
   * where notes, claims and records are looked up in the tables as they are at each one's turn.
   */
  lemma {:induction false} BatchMatchesSteps(k: Keys, account: nat, base: nat, next: nat, db: Db, blocks: seq<Block>)
    requires AllWellFormed(blocks) && Injective(k) && Sound(k, account, base, db) && Between(blocks, base, next)
    requires RegularBlocks(k, account, db, blocks) && BatchApart(k, account, db, blocks)
    ensures ClaimsHaveDeposits(db)
    ensures Batch(k, account, base, next, db, SeeBlocks(k, account, db, blocks), Process(k, account, db, blocks, []),
                  StepBlocks(k, account, db, blocks))
  {
    SoundHasDeposits(k, account, base, db);
    if blocks == [] {
      BatchStarts(k, account, base, next, db);
    } else {
      hide Batch, RegularBlock, BlockApart, SeeBlock, ProcessOne, StepBlock, ClaimsHaveDeposits, Sound, Injective,
           WellFormed;
      var n := |blocks| - 1;
      BatchMatchesSteps(k, account, base, next, db, blocks[..n]);
      assert WellFormed(blocks[n]) && base <= blocks[n].rollupId < next;
      BlockKeepsBatch(k, account, base, next, db, SeeBlocks(k, account, db, blocks[..n]),
                      Process(k, account, db, blocks[..n], []), StepBlocks(k, account, db, blocks[..n]), blocks[n]);
    }
  }

  /** So applying the batch leaves exactly those tables, sound for the rollups that follow. */
  lemma BatchApplied(k: Keys, account: nat, base: nat, next: nat, db: Db, blocks: seq<Block>)
    requires AllWellFormed(blocks) && Injective(k) && Sound(k, account, base, db) && Between(blocks, base, next)
    requires RegularBlocks(k, account, db, blocks) && BatchApart(k, account, db, blocks)
    ensures ClaimsHaveDeposits(db)
    ensures ApplyAll(db, account, Process(k, account, db, blocks, [])) == StepBlocks(k, account, db, blocks)
    ensures Sound(k, account, next, StepBlocks(k, account, db, blocks))
  {
    BatchMatchesSteps(k, account, base, next, db, blocks);
    hide Sound, AllProper, ClaimsKept, RecordsInvariant, ApplyAll, Process, StepBlocks;
  }
}
