/**
 * alpha-sdk's BlockProcessor: walking the blocks beside the decrypted streams, with one cursor per
 * stream, and turning each proof that concerns the account into a processed tx.
 */
module BlockProcessing {
  import opened Util
  import opened Rollup
  import opened DefiPayouts
  import opened BlockDecryption

  datatype UserNote = UserNote(treeNote: TreeNote, commitment: Buffer, nullifier: nat, index: nat) {
    function Value(): nat { treeNote.value }
  }

  datatype ClaimTx = ClaimTx(defiTxId: nat, accountPublicKey: nat, secret: nat, nullifier: nat, interactionNonce: int)

  /** `proofId` is the recorded tx's: a claim or a finalised result updates the record of its deposit. */
  datatype ProcessedTx = ProcessedTx(
    proofId: ProofId, nullifiers: seq<nat>, outputNotes: seq<UserNote>, claimTx: Option<ClaimTx>,
    defiTx: Option<DefiTx>)

  datatype Row = Row(note: UserNote, owner: nat, nullified: bool)

  /** The tables, each in the order of its primary key. */
  datatype Db = Db(notes: seq<Row>, claimTxs: map<nat, ClaimTx>, defiTxs: seq<DefiTx>)

  function FindRow(rows: seq<Row>, nullifier: nat): (r: int)
    ensures -1 <= r < |rows|
    ensures r >= 0 ==> rows[r].note.nullifier == nullifier
    ensures r == -1 <==> forall i | 0 <= i < |rows| :: rows[i].note.nullifier != nullifier
  {
    if rows == [] then -1
    else if rows[0].note.nullifier == nullifier then 0
    else
      var r := FindRow(rows[1..], nullifier);
      assert forall i | 1 <= i < |rows| :: rows[i] == rows[1..][i - 1];
      if r == -1 then -1 else r + 1
  }

  function FindNote(notes: seq<UserNote>, nullifier: nat): (r: Option<UserNote>)
    ensures r.Some? ==> r.value in notes && r.value.nullifier == nullifier
    ensures r.None? <==> forall i | 0 <= i < |notes| :: notes[i].nullifier != nullifier
  {
    if notes == [] then None
    else if notes[0].nullifier == nullifier then Some(notes[0])
    else
      assert forall i | 1 <= i < |notes| :: notes[i] == notes[1..][i - 1];
      FindNote(notes[1..], nullifier)
  }

  /** The note an earlier processed tx created under a nullifier; empty notes are passed over. */
  function FindProcessed(processed: seq<ProcessedTx>, nullifier: nat): Option<UserNote> {
    if processed == [] then None
    else
      var note := FindNote(processed[0].outputNotes, nullifier);
      if note.Some? && note.value.Value() > 0 then note else FindProcessed(processed[1..], nullifier)
  }

  /** The account's note with this nullifier: created in this batch, or in the database. */
  function UserNoteOf(account: nat, db: Db, processed: seq<ProcessedTx>, nullifier: nat): Option<UserNote> {
    var note := FindProcessed(processed, nullifier);
    if note.Some? then note
    else
      var r := FindRow(db.notes, nullifier);
      if r >= 0 && db.notes[r].owner == account then Some(db.notes[r].note) else None
  }

  function NullifierOf(note: Option<UserNote>): seq<nat> {
    if note.Some? then [note.value.nullifier] else []
  }

  function NoteIf(note: Option<TreeNote>, commitment: Buffer, nullifier: nat, index: nat): seq<UserNote> {
    if note.Some? then [UserNote(note.value, commitment, nullifier, index)] else []
  }

  /** The nullifiers of the account's notes that a proof destroys. */
  function Destroyed(account: nat, db: Db, processed: seq<ProcessedTx>, p: InnerProofData): seq<nat> {
    NullifierOf(UserNoteOf(account, db, processed, p.nullifier1))
      + NullifierOf(UserNoteOf(account, db, processed, p.nullifier2))
  }

  function PaymentTx(account: nat, db: Db, processed: seq<ProcessedTx>, p: InnerProofData, index: nat,
                     note1: Option<TreeNote>, nullifier1: nat, note2: Option<TreeNote>, nullifier2: nat): ProcessedTx {
    ProcessedTx(p.proofId, Destroyed(account, db, processed, p),
                NoteIf(note1, p.noteCommitment1, nullifier1, index)
                  + NoteIf(note2, p.noteCommitment2, nullifier2, index + 1),
                None, None)
  }

  function DefiDepositTx(k: Keys, account: nat, db: Db, processed: seq<ProcessedTx>, b: Block, it: Item, index: nat,
                         note2: TreeNote, nullifier2: nat, secret: nat): ProcessedTx {
    var p, id, bridge := it.proof, k.txId(it.proof), k.bridgeCallData(it.offchain);
    var nonce := InteractionNonce(b.rollupId, b.bridgeCallDatas, bridge.id);
    var isAsync := FindNonce(b.interactionResult, nonce) == -1;
    ProcessedTx(DEFI_DEPOSIT, Destroyed(account, db, processed, p),
                [UserNote(note2, p.noteCommitment2, nullifier2, index + 1)],
                Some(ClaimTx(id, account, secret, k.claimNoteNullifier(p.noteCommitment1), nonce)),
                Some(DefiTx(id, account, bridge, k.depositValue(it.offchain), Some(nonce), isAsync, false, 0, 0, false,
                            false)))
  }

  function OutputAssetId(assetId: nat, nonce: int): int {
    if assetId >= VIRTUAL_ASSET_ID_FLAG then VIRTUAL_ASSET_ID_FLAG + nonce else assetId
  }

  /** A claim pays out what its deposit's stored record says; an unsuccessful one is refunded. */
  function DefiClaimTx(claim: ClaimTx, defi: DefiTx, p: InnerProofData, index: nat, nullifier1: nat,
                       nullifier2: nat): ProcessedTx {
    var note := (value, asset, input) => TreeNote(value, asset, claim.secret, input);
    var first := (value, asset) => [UserNote(note(value, asset, p.nullifier1), p.noteCommitment1, nullifier1, index)];
    var second := (value, asset) =>
      [UserNote(note(value, asset, p.nullifier2), p.noteCommitment2, nullifier2, index + 1)];
    var bridge := defi.bridge;
    var refunds :=
      if defi.success then []
      else first(defi.depositValue, bridge.inputAssetIdA)
           + if bridge.inputAssetIdB.Some? then second(defi.depositValue, bridge.inputAssetIdB.value) else [];
    var assetB := if bridge.outputAssetIdB.Some? then bridge.outputAssetIdB.value else 0;
    var outputA :=
      if defi.outputValueA == 0 then []
      else first(defi.outputValueA, OutputAssetId(bridge.outputAssetIdA, claim.interactionNonce));
    var outputB :=
      if defi.outputValueB == 0 then [] else second(defi.outputValueB, OutputAssetId(assetB, claim.interactionNonce));
    ProcessedTx(DEFI_DEPOSIT, [], refunds + outputA + outputB, None, Some(defi.(claimSettled := true)))
  }

  function FindDefi(txs: seq<DefiTx>, txId: nat): (r: Option<DefiTx>)
    ensures r.Some? ==> r.value in txs && r.value.txId == txId
    ensures r.None? <==> forall i | 0 <= i < |txs| :: txs[i].txId != txId
  {
    if txs == [] then None
    else if txs[0].txId == txId then Some(txs[0])
    else
      assert forall i | 1 <= i < |txs| :: txs[i] == txs[1..][i - 1];
      FindDefi(txs[1..], txId)
  }

  ghost predicate ClaimsHaveDeposits(db: Db) {
    forall n | n in db.claimTxs :: FindDefi(db.defiTxs, db.claimTxs[n].defiTxId).Some?
  }

  // ---- finalised interactions ----

  /** Deposits with this nonce among the processed txs. */
  function CurrentDefiTxs(processed: seq<ProcessedTx>, nonce: int): seq<DefiTx> {
    if processed == [] then []
    else
      var n := |processed| - 1;
      CurrentDefiTxs(processed[..n], nonce)
      + if processed[n].defiTx.Some? && processed[n].defiTx.value.interactionNonce == Some(nonce)
        then [processed[n].defiTx.value] else []
  }

  function SavedDefiTxs(txs: seq<DefiTx>, account: nat, nonce: int): seq<DefiTx> {
    if txs == [] then []
    else
      var n := |txs| - 1;
      SavedDefiTxs(txs[..n], account, nonce)
      + if txs[n].userId == account && txs[n].interactionNonce == Some(nonce) then [txs[n]] else []
  }

  /** The deposits of an interaction are all being processed, or all saved. */
  function DefiTxsByNonce(account: nat, db: Db, processed: seq<ProcessedTx>, nonce: int): seq<DefiTx> {
    var current := CurrentDefiTxs(processed, nonce);
    if current != [] then current else SavedDefiTxs(db.defiTxs, account, nonce)
  }

  /** The record of a deposit with what the sequencer's own division gives it. */
  function Finalise(tx: DefiTx, event: DefiInteractionEvent): DefiTx
    requires Payable(event)
  {
    var outputs := GetOutputValues(tx.depositValue, event).value;
    tx.(success := event.result, outputValueA := outputs.0, outputValueB := outputs.1, finalised := true)
  }

  function Finalised(txs: seq<DefiTx>, event: DefiInteractionEvent): (r: seq<ProcessedTx>)
    requires Payable(event)
    ensures |r| == |txs| && forall i | 0 <= i < |r| ::
              r[i] == ProcessedTx(DEFI_DEPOSIT, [], [], None, Some(Finalise(txs[i], event)))
  {
    seq(|txs|, i requires 0 <= i < |txs| => ProcessedTx(DEFI_DEPOSIT, [], [], None, Some(Finalise(txs[i], event))))
  }

  function FinaliseAll(account: nat, db: Db, events: seq<DefiInteractionEvent>,
                       processed: seq<ProcessedTx>): seq<ProcessedTx>
    requires AllPayable(events)
  {
    if events == [] then []
    else
      var n := |events| - 1;
      FinaliseAll(account, db, events[..n], processed)
      + Finalised(DefiTxsByNonce(account, db, processed, events[n].nonce), events[n])
  }

  ghost predicate AllPayable(events: seq<DefiInteractionEvent>) {
    forall i | 0 <= i < |events| :: Payable(events[i])
  }

  /**
   * What a proof means for the account, computed from the proof and its own off-chain data only:
   * no stream and no cursor. This is what the cursor walk below is proved to compute.
   */
  function ProcessItem(k: Keys, account: nat, db: Db, b: Block, it: Item, index: nat, processed: seq<ProcessedTx>)
    : seq<ProcessedTx>
    requires ClaimsHaveDeposits(db)
  {
    var p, notes := it.proof, NotesOf(k, it);
    if IsPayment(p.proofId) then
      if notes[0].None? && notes[1].None? then []
      else [PaymentTx(account, db, processed, p, index, notes[0], k.valueNoteNullifier(p.noteCommitment1),
                      notes[1], k.valueNoteNullifier(p.noteCommitment2))]
    else if p.proofId == ACCOUNT then
      if k.accountOf(it.offchain) != account then [] else [ProcessedTx(ACCOUNT, [], [], None, None)]
    else if p.proofId == DEFI_DEPOSIT then
      if notes[0].None? then []
      else [DefiDepositTx(k, account, db, processed, b, it, index, notes[0].value,
                          k.valueNoteNullifier(p.noteCommitment2),
                          k.deriveNoteSecret(k.partialStateSecretKey(it.offchain)))]
    else if p.proofId == DEFI_CLAIM then
      if p.nullifier1 !in db.claimTxs || db.claimTxs[p.nullifier1].accountPublicKey != account then []
      else
        var claim := db.claimTxs[p.nullifier1];
        [DefiClaimTx(claim, FindDefi(db.defiTxs, claim.defiTxId).value, p, index,
                     k.valueNoteNullifier(p.noteCommitment1), k.valueNoteNullifier(p.noteCommitment2))]
    else []
  }

  /** `processed` and then the first n inner proofs of b. */
  function ProcessInners(k: Keys, account: nat, db: Db, b: Block, n: nat, processed: seq<ProcessedTx>): seq<ProcessedTx>
    requires WellFormed(b) && n <= |b.innerProofData| && ClaimsHaveDeposits(db)
  {
    if n == 0 then processed
    else
      var before := ProcessInners(k, account, db, b, n - 1, processed);
      if b.innerProofData[n - 1].IsPadding() then before
      else before + ProcessItem(k, account, db, b, ItemAt(b, n - 1), b.dataStartIndex + (n - 1) * 2, before)
  }

  /** The proof at slot i of b with its own off-chain data. */
  function ItemAt(b: Block, i: nat): Item
    requires WellFormed(b) && i < |b.innerProofData| && !b.innerProofData[i].IsPadding()
  {
    Item(b.innerProofData[i], OffchainAt(b, i))
  }

  /** `processed`, then the inner proofs of b, then the deposits its interaction results finalise. */
  function ProcessOne(k: Keys, account: nat, db: Db, b: Block, processed: seq<ProcessedTx>): seq<ProcessedTx>
    requires WellFormed(b) && ClaimsHaveDeposits(db)
  {
    var inner := ProcessInners(k, account, db, b, |b.innerProofData|, processed);
    inner + FinaliseAll(account, db, b.interactionResult, inner)
  }

  function Process(k: Keys, account: nat, db: Db, blocks: seq<Block>, processed: seq<ProcessedTx>): seq<ProcessedTx>
    requires AllWellFormed(blocks)
    requires ClaimsHaveDeposits(db)
  {
    if blocks == [] then processed
    else
      var n := |blocks| - 1;
      ProcessOne(k, account, db, blocks[n], Process(k, account, db, blocks[..n], processed))
  }

  // ---- the cursor walk ----

  datatype Cursors = Cursors(treeNote: nat, treeNoteNullifier: nat, partialStateSecret: nat, claimOutputNote: nat)

  /** The cursors after the first m proofs. */
  function CursorsAt(k: Keys, items: seq<Item>, m: nat): Cursors
    requires m <= |items|
  {
    Cursors(|AllNotes(k, items[..m])|, |AllNullifiers(k, items[..m])|, |AllSecrets(k, items[..m])|,
            |AllClaimNullifiers(k, items[..m])|)
  }

  /** Reading a stream of buffers: past its end there is nothing. */
  function Read(s: seq<nat>, i: nat): Option<nat> { if i < |s| then Some(s[i]) else None }

  lemma ReadInPlace(a: seq<nat>, b: seq<nat>, all: seq<nat>)
    requires a + b <= all
    ensures forall j | 0 <= j < |b| :: Read(all, |a| + j) == Some(b[j])
  {
    forall j | 0 <= j < |b|
      ensures Read(all, |a| + j) == Some(b[j])
    {
      PrefixElement(a, b, all, j);
    }
  }

  /** At proof i's turn every cursor points at what the decryptor made from proof i. */
  ghost predicate Aligned(k: Keys, data: DecryptedData, c: Cursors, it: Item) {
    && (forall j | 0 <= j < |NotesOf(k, it)| :: At(data.treeNotes, c.treeNote + j) == NotesOf(k, it)[j])
    && (forall j | 0 <= j < |NullifiersOf(k, it)| ::
          Read(data.treeNoteNullifiers, c.treeNoteNullifier + j) == Some(NullifiersOf(k, it)[j]))
    && (forall j | 0 <= j < |SecretsOf(k, it)| ::
          Read(data.partialStateSecrets, c.partialStateSecret + j) == Some(SecretsOf(k, it)[j]))
    && (forall j | 0 <= j < |ClaimNullifiersOf(k, it)| ::
          Read(data.claimOutputNoteNullifiers, c.claimOutputNote + j) == Some(ClaimNullifiersOf(k, it)[j]))
  }

  lemma CursorsAreAligned(k: Keys, items: seq<Item>, m: nat)
    requires m < |items|
    ensures Aligned(k, Decrypted(k, items), CursorsAt(k, items, m), items[m])
  {
    hide TreeNotes, AllNotes, AllNullifiers, AllSecrets, AllClaimNullifiers, NotesOf, NullifiersOf, SecretsOf,
         ClaimNullifiersOf;
    var it := items[m];
    forall j | 0 <= j < |NotesOf(k, it)|
      ensures At(TreeNotes(k, items), |AllNotes(k, items[..m])| + j) == NotesOf(k, it)[j]
    {
      NoteAt(k, items, m, j);
    }
    NullifiersInPlace(k, items, m);
    ReadInPlace(AllNullifiers(k, items[..m]), NullifiersOf(k, it), AllNullifiers(k, items));
    SecretsInPlace(k, items, m);
    ReadInPlace(AllSecrets(k, items[..m]), SecretsOf(k, it), AllSecrets(k, items));
    ClaimNullifiersInPlace(k, items, m);
    ReadInPlace(AllClaimNullifiers(k, items[..m]), ClaimNullifiersOf(k, it), AllClaimNullifiers(k, items));
  }

  /** How far proof `it` moves each cursor. */
  function Advance(k: Keys, c: Cursors, it: Item): Cursors {
    Cursors(c.treeNote + |NotesOf(k, it)|, c.treeNoteNullifier + |NullifiersOf(k, it)|,
            c.partialStateSecret + |SecretsOf(k, it)|, c.claimOutputNote + |ClaimNullifiersOf(k, it)|)
  }

  lemma CursorsStart(k: Keys, items: seq<Item>)
    ensures CursorsAt(k, items, 0) == Cursors(0, 0, 0, 0)
  {
    assert items[..0] == [];
  }

  /** The cursors after every proof of the blocks. */
  ghost predicate AtEnd(k: Keys, blocks: seq<Block>, c: Cursors)
    requires AllWellFormed(blocks)
  {
    c == CursorsAt(k, AllItems(blocks), |AllItems(blocks)|)
  }

  lemma EveryItemPassed(k: Keys, blocks: seq<Block>, c: Cursors)
    requires AllWellFormed(blocks) && c == CursorsAt(k, AllItems(blocks), |AllItems(blocks)|)
    ensures AtEnd(k, blocks, c)
  {
  }

  lemma CursorsAdvance(k: Keys, items: seq<Item>, m: nat)
    requires m < |items|
    ensures CursorsAt(k, items, m + 1) == Advance(k, CursorsAt(k, items, m), items[m])
  {
    StreamsStep(k, items, m);
  }

  /** The nullifiers of a payment's or a deposit's notes, spelled out. */
  lemma NullifiersOfItem(k: Keys, it: Item)
    ensures var p, notes := it.proof, NotesOf(k, it);
            if IsPayment(p.proofId) then
              NullifiersOf(k, it) == (if notes[0].Some? then [k.valueNoteNullifier(p.noteCommitment1)] else [])
                                     + (if notes[1].Some? then [k.valueNoteNullifier(p.noteCommitment2)] else [])
            else if p.proofId == DEFI_DEPOSIT then
              NullifiersOf(k, it) == if notes[0].Some? then [k.valueNoteNullifier(p.noteCommitment2)] else []
            else NullifiersOf(k, it) == []
  {
    var cs, notes := CommitmentStream(it), NotesOf(k, it);
    if |cs| == 2 {
      assert notes[..1][..0] == [] && cs[..1][..0] == [];
      assert Nullifiers(k, notes[..1], cs[..1]) == if notes[0].Some? then [k.valueNoteNullifier(cs[0])] else [];
    } else if |cs| == 1 {
      assert notes[..0] == [] && cs[..0] == [];
      assert Nullifiers(k, notes, cs) == [] + if notes[0].Some? then [k.valueNoteNullifier(cs[0])] else [];
    }
  }

  class BlockProcessor {
    const keys: Keys
    const db: Db

    constructor (keys: Keys, db: Db)
      ensures this.keys == keys && this.db == db
    {
      this.keys, this.db := keys, db;
    }

    /** `cursors` ends where the streams of all the blocks end. */
    method ProcessBlocks(account: nat, blocks: seq<Block>, data: DecryptedData)
      returns (processed: seq<ProcessedTx>, ghost cursors: Cursors)
      requires AllWellFormed(blocks)
      requires ClaimsHaveDeposits(db)
      requires data == Decrypted(keys, AllItems(blocks))
      ensures processed == Process(keys, account, db, blocks, [])
      ensures AtEnd(keys, blocks, cursors)
    {
      hide *;
      ghost var items := AllItems(blocks);
      CursorsStart(keys, items);
      var c := Cursors(0, 0, 0, 0);
      processed := [];
      NothingProcessed(keys, account, db, blocks);
      for i := 0 to |blocks|
        invariant AllWellFormed(blocks[..i]) && |AllItems(blocks[..i])| <= |items|
        invariant processed == Process(keys, account, db, blocks[..i], [])
        invariant c == CursorsAt(keys, items, |AllItems(blocks[..i])|)
      {
        BlockInPlace(blocks, i);
        ProcessNext(keys, account, db, blocks, i);
        processed, c := ProcessBlock(account, blocks[i], data, c, processed, items, |AllItems(blocks[..i])|);
      }
      assert blocks[..|blocks|] == blocks;
      cursors := c;
      EveryItemPassed(keys, blocks, cursors);
    }

    method ProcessBlock(account: nat, b: Block, data: DecryptedData, c0: Cursors, before: seq<ProcessedTx>,
                        ghost items: seq<Item>, ghost m: nat)
      returns (processed: seq<ProcessedTx>, c: Cursors)
      requires WellFormed(b) && ClaimsHaveDeposits(db)
      requires data == Decrypted(keys, items)
      requires m + |ItemsOf(b)| <= |items| && items[m..m + |ItemsOf(b)|] == ItemsOf(b)
      requires c0 == CursorsAt(keys, items, m)
      ensures processed == ProcessOne(keys, account, db, b, before)
      ensures c == CursorsAt(keys, items, m + |ItemsOf(b)|)
    {
      processed, c := ProcessProofs(account, b, data, c0, before, items, m);
      var finalisedTxData := ProcessDefiInteractionResults(account, b.interactionResult, processed);
      processed := processed + finalisedTxData;
    }

    method ProcessDefiInteractionResults(account: nat, interactionResult: seq<DefiInteractionEvent>,
                                         processed: seq<ProcessedTx>)
      returns (finalised: seq<ProcessedTx>)
      requires AllPayable(interactionResult)
      ensures finalised == FinaliseAll(account, db, interactionResult, processed)
    {
      hide Finalised, CurrentDefiTxs, SavedDefiTxs, Payable;
      finalised := [];
      for i := 0 to |interactionResult|
        invariant finalised == FinaliseAll(account, db, interactionResult[..i], processed)
      {
        assert interactionResult[..i + 1][..i] == interactionResult[..i];
        var event := interactionResult[i];
        assert Payable(event);
        var curDefiTxs := CurrentDefiTxs(processed, event.nonce);
        var defiTxs := if |curDefiTxs| > 0 then curDefiTxs else SavedDefiTxs(db.defiTxs, account, event.nonce);
        var finalisedTxs := FinaliseDefiTxs(defiTxs, event);
        finalised := finalised + finalisedTxs;
      }
      assert interactionResult[..|interactionResult|] == interactionResult;
    }

    lemma FinaliseIs(tx: DefiTx, event: DefiInteractionEvent)
      requires Payable(event)
      ensures var share := (total: nat) => if !event.result then 0 else total * tx.depositValue / event.totalInputValue;
              Finalise(tx, event) ==
              tx.(success := event.result, outputValueA := share(event.totalOutputValueA),
                  outputValueB := share(event.totalOutputValueB), finalised := true)
    {
    }

    method FinaliseDefiTxs(defiTxs: seq<DefiTx>, event: DefiInteractionEvent) returns (finalised: seq<ProcessedTx>)
      requires Payable(event)
      ensures finalised == Finalised(defiTxs, event)
    {
      hide Finalise;
      finalised := [];
      for i := 0 to |defiTxs|
        invariant |finalised| == i
        invariant forall j | 0 <= j < i ::
                    finalised[j] == ProcessedTx(DEFI_DEPOSIT, [], [], None, Some(Finalise(defiTxs[j], event)))
      {
        var tx := defiTxs[i];
        FinaliseIs(tx, event);
        var outputValueA := if !event.result then 0
          else event.totalOutputValueA * tx.depositValue / event.totalInputValue;
        var outputValueB := if !event.result then 0
          else event.totalOutputValueB * tx.depositValue / event.totalInputValue;
        var finalisedDefiTx :=
          tx.(success := event.result, outputValueA := outputValueA, outputValueB := outputValueB, finalised := true);
        finalised := finalised + [ProcessedTx(DEFI_DEPOSIT, [], [], None, Some(finalisedDefiTx))];
      }
    }

    method ProcessProofs(account: nat, b: Block, data: DecryptedData, c0: Cursors, before: seq<ProcessedTx>,
                         ghost items: seq<Item>, ghost m: nat)
      returns (processed: seq<ProcessedTx>, c: Cursors)
      requires WellFormed(b) && ClaimsHaveDeposits(db)
      requires data == Decrypted(keys, items)
      requires m + |ItemsOf(b)| <= |items| && items[m..m + |ItemsOf(b)|] == ItemsOf(b)
      requires c0 == CursorsAt(keys, items, m)
      ensures processed == ProcessInners(keys, account, db, b, |b.innerProofData|, before)
      ensures c == CursorsAt(keys, items, m + |ItemsOf(b)|)
    {
      hide CursorsAt, ProcessItem, ItemsOf, Decrypted, ItemAt, ClaimsHaveDeposits, WellFormed;
      NumItems(b);
      processed, c := before, c0;
      var offchainTxDataStartIndex := -1;
      for i := 0 to |b.innerProofData|
        invariant offchainTxDataStartIndex == NumTxs(b.innerProofData[..i]) - 1
        invariant NumTxs(b.innerProofData[..i]) <= |ItemsOf(b)|
        invariant c == CursorsAt(keys, items, m + NumTxs(b.innerProofData[..i]))
        invariant processed == ProcessInners(keys, account, db, b, i, before)
      {
        SlotStep(b, i);
        if b.innerProofData[i].IsPadding() {
          continue;
        }
        offchainTxDataStartIndex := offchainTxDataStartIndex + 1;
        var txs;
        txs, c := ProcessSlot(account, b, i, offchainTxDataStartIndex, data, c, processed, items, m);
        processed := processed + txs;
      }
      assert b.innerProofData[..|b.innerProofData|] == b.innerProofData;
    }

    /** Slot i of b, whose off-chain data is entry j. */
    method ProcessSlot(account: nat, b: Block, i: nat, j: nat, data: DecryptedData, c0: Cursors,
                       processed: seq<ProcessedTx>, ghost items: seq<Item>, ghost m: nat)
      returns (txs: seq<ProcessedTx>, c: Cursors)
      requires WellFormed(b) && ClaimsHaveDeposits(db) && data == Decrypted(keys, items)
      requires i < |b.innerProofData| && !b.innerProofData[i].IsPadding() && j == NumTxs(b.innerProofData[..i])
      requires m + |ItemsOf(b)| <= |items| && items[m..m + |ItemsOf(b)|] == ItemsOf(b)
      requires j < |ItemsOf(b)| && c0 == CursorsAt(keys, items, m + j)
      ensures txs == ProcessItem(keys, account, db, b, ItemAt(b, i), b.dataStartIndex + i * 2, processed)
      ensures c == CursorsAt(keys, items, m + j + 1)
    {
      hide CursorsAt, ProcessItem, ItemsOf, Aligned, Decrypted, Advance;
      SlotStep(b, i);
      assert items[m + j] == items[m..m + |ItemsOf(b)|][j] == ItemAt(b, i);
      CursorsAreAligned(keys, items, m + j);
      CursorsAdvance(keys, items, m + j);
      var it := Item(b.innerProofData[i], b.offchainTxData[j]);
      txs, c := ProcessProof(account, b, it, b.dataStartIndex + i * 2, data, c0, processed);
    }

    /** One proof: reads the streams at the cursors and moves them on. */
    method ProcessProof(account: nat, b: Block, it: Item, noteStartIndex: nat, data: DecryptedData, c0: Cursors,
                        processed: seq<ProcessedTx>)
      returns (txs: seq<ProcessedTx>, c: Cursors)
      requires ClaimsHaveDeposits(db) && Aligned(keys, data, c0, it)
      ensures txs == ProcessItem(keys, account, db, b, it, noteStartIndex, processed)
      ensures c == Advance(keys, c0, it)
    {
      var p := it.proof;
      txs, c := [], c0;
      NullifiersOfItem(keys, it);
      if IsPayment(p.proofId) {
        txs, c := ProcessPayment(account, it, noteStartIndex, data, c0, processed);
      } else if p.proofId == ACCOUNT {
        if keys.accountOf(it.offchain) == account {
          txs := [ProcessedTx(ACCOUNT, [], [], None, None)];
        }
      } else if p.proofId == DEFI_DEPOSIT {
        txs, c := ProcessDefiDeposit(account, b, it, noteStartIndex, data, c0, processed);
      } else if p.proofId == DEFI_CLAIM {
        var n1 := Read(data.claimOutputNoteNullifiers, c.claimOutputNote);
        var n2 := Read(data.claimOutputNoteNullifiers, c.claimOutputNote + 1);
        assert n1 == Some(ClaimNullifiersOf(keys, it)[0]) && n2 == Some(ClaimNullifiersOf(keys, it)[1]);
        c := c.(claimOutputNote := c.claimOutputNote + 2);
        if p.nullifier1 in db.claimTxs && db.claimTxs[p.nullifier1].accountPublicKey == account {
          var claimTx := db.claimTxs[p.nullifier1];
          txs := [DefiClaimTx(claimTx, FindDefi(db.defiTxs, claimTx.defiTxId).value, p, noteStartIndex, n1.value,
                              n2.value)];
        }
      }
    }

    method ProcessPayment(account: nat, it: Item, noteStartIndex: nat, data: DecryptedData, c0: Cursors,
                          processed: seq<ProcessedTx>)
      returns (txs: seq<ProcessedTx>, c: Cursors)
      requires IsPayment(it.proof.proofId) && Aligned(keys, data, c0, it)
      ensures var notes, p := NotesOf(keys, it), it.proof;
              txs == if notes[0].None? && notes[1].None? then []
                     else [PaymentTx(account, db, processed, p, noteStartIndex, notes[0],
                                     keys.valueNoteNullifier(p.noteCommitment1), notes[1],
                                     keys.valueNoteNullifier(p.noteCommitment2))]
      ensures c == Advance(keys, c0, it)
    {
      NullifiersOfItem(keys, it);
      var p := it.proof;
      txs, c := [], c0;
      var note1, note2 := At(data.treeNotes, c.treeNote), At(data.treeNotes, c.treeNote + 1);
      assert note1 == NotesOf(keys, it)[0] && note2 == NotesOf(keys, it)[1];
      c := c.(treeNote := c.treeNote + 2);
      if note1.None? && note2.None? {
        return;
      }
      var note1Nullifier, note2Nullifier := None, None;
      if note1.Some? {
        assert NullifiersOf(keys, it)[0] == keys.valueNoteNullifier(p.noteCommitment1);
        note1Nullifier := Read(data.treeNoteNullifiers, c.treeNoteNullifier);
        c := c.(treeNoteNullifier := c.treeNoteNullifier + 1);
      }
      if note2.Some? {
        ghost var j := c.treeNoteNullifier - c0.treeNoteNullifier;
        assert NullifiersOf(keys, it)[j] == keys.valueNoteNullifier(p.noteCommitment2);
        note2Nullifier := Read(data.treeNoteNullifiers, c.treeNoteNullifier);
        c := c.(treeNoteNullifier := c.treeNoteNullifier + 1);
      }
      txs := [PaymentTx(account, db, processed, p, noteStartIndex,
                        note1, if note1Nullifier.Some? then note1Nullifier.value
                          else keys.valueNoteNullifier(p.noteCommitment1),
                        note2, if note2Nullifier.Some? then note2Nullifier.value
                          else keys.valueNoteNullifier(p.noteCommitment2))];
    }

    method ProcessDefiDeposit(account: nat, b: Block, it: Item, noteStartIndex: nat, data: DecryptedData, c0: Cursors,
                              processed: seq<ProcessedTx>)
      returns (txs: seq<ProcessedTx>, c: Cursors)
      requires it.proof.proofId == DEFI_DEPOSIT && Aligned(keys, data, c0, it)
      ensures var note2, p := NotesOf(keys, it)[0], it.proof;
              txs == if note2.None? then []
                     else [DefiDepositTx(keys, account, db, processed, b, it, noteStartIndex, note2.value,
                                         keys.valueNoteNullifier(p.noteCommitment2),
                                         keys.deriveNoteSecret(keys.partialStateSecretKey(it.offchain)))]
      ensures c == Advance(keys, c0, it)
    {
      NullifiersOfItem(keys, it);
      hide NotesOf, NullifiersOf, Destroyed, InteractionNonce;
      txs, c := [], c0;
      var note2 := At(data.treeNotes, c.treeNote);
      assert note2 == NotesOf(keys, it)[0];
      c := c.(treeNote := c.treeNote + 1);
      if note2.None? {
        return;
      }
      var note2Nullifier := Read(data.treeNoteNullifiers, c.treeNoteNullifier);
      var partialStateSecret := Read(data.partialStateSecrets, c.partialStateSecret);
      assert note2Nullifier == Some(NullifiersOf(keys, it)[0]) && partialStateSecret == Some(SecretsOf(keys, it)[0]);
      c := c.(treeNoteNullifier := c.treeNoteNullifier + 1, partialStateSecret := c.partialStateSecret + 1);
      txs := [DefiDepositTx(keys, account, db, processed, b, it, noteStartIndex, note2.value, note2Nullifier.value,
                            partialStateSecret.value)];
    }
  }

  lemma {:induction false} ItemsPrefix(blocks: seq<Block>, i: nat)
    requires i <= |blocks| && AllWellFormed(blocks)
    ensures AllItems(blocks[..i]) <= AllItems(blocks)
  {
    if i == |blocks| {
      assert blocks[..i] == blocks;
    } else {
      assert blocks[..|blocks| - 1][..i] == blocks[..i];
      ItemsPrefix(blocks[..|blocks| - 1], i);
    }
  }

  lemma NothingProcessed(k: Keys, account: nat, db: Db, blocks: seq<Block>)
    requires ClaimsHaveDeposits(db)
    ensures AllWellFormed(blocks[..0]) && |AllItems(blocks[..0])| == 0
    ensures Process(k, account, db, blocks[..0], []) == []
  {
  }

  lemma ProcessNext(k: Keys, account: nat, db: Db, blocks: seq<Block>, i: nat)
    requires i < |blocks| && AllWellFormed(blocks) && ClaimsHaveDeposits(db)
    ensures WellFormed(blocks[i]) && AllWellFormed(blocks[..i]) && AllWellFormed(blocks[..i + 1])
    ensures Process(k, account, db, blocks[..i + 1], []) ==
            ProcessOne(k, account, db, blocks[i], Process(k, account, db, blocks[..i], []))
  {
    assert blocks[..i + 1][..i] == blocks[..i];
  }

  lemma NumItems(b: Block)
    requires WellFormed(b)
    ensures |ItemsOf(b)| == NumTxs(b.innerProofData)
  {
  }

  /** Going past slot i of a block. */
  lemma SlotStep(b: Block, i: nat)
    requires WellFormed(b) && i < |b.innerProofData|
    ensures var n := NumTxs(b.innerProofData[..i]);
            && NumTxs(b.innerProofData[..i + 1]) == (if b.innerProofData[i].IsPadding() then n else n + 1)
            && NumTxs(b.innerProofData[..i + 1]) <= |ItemsOf(b)|
            && (!b.innerProofData[i].IsPadding() ==> n < |b.offchainTxData| && ItemsOf(b)[n] == ItemAt(b, i))
  {
    assert b.innerProofData[..i + 1][..i] == b.innerProofData[..i];
    NumTxsMonotone(b.innerProofData, i + 1);
    if !b.innerProofData[i].IsPadding() {
      ItemOfSlot(b.innerProofData, i);
    }
  }

  /** Where a block's proofs sit among those of all the blocks. */
  lemma BlockInPlace(blocks: seq<Block>, i: nat)
    requires i < |blocks| && AllWellFormed(blocks)
    ensures WellFormed(blocks[i]) && AllWellFormed(blocks[..i]) && AllWellFormed(blocks[..i + 1])
    ensures var m, n := |AllItems(blocks[..i])|, |ItemsOf(blocks[i])|;
            && |AllItems(blocks[..i + 1])| == m + n
            && m + n <= |AllItems(blocks)| && AllItems(blocks)[m..m + n] == ItemsOf(blocks[i])
  {
    assert blocks[..i + 1][..i] == blocks[..i];
    assert WellFormed(blocks[i]);
    ItemsPrefix(blocks, i + 1);
    var a, b := AllItems(blocks[..i]), ItemsOf(blocks[i]);
    assert (a + b)[|a|..|a| + |b|] == b;
  }

  /**
   * At the end of the walk three cursors are exactly at the end of their streams. The notes cursor
   * is too, except when the last viewing keys do not decrypt: the stream then stops short of it.
   */
  lemma CursorsEnd(k: Keys, items: seq<Item>)
    ensures var data, end := Decrypted(k, items), CursorsAt(k, items, |items|);
            && end.treeNoteNullifier == |data.treeNoteNullifiers|
            && end.partialStateSecret == |data.partialStateSecrets|
            && end.claimOutputNote == |data.claimOutputNoteNullifiers|
            && end.treeNote >= |data.treeNotes|
            && (end.treeNote == |data.treeNotes| <==>
                  var keys := AllViewingKeys(k, items); keys == [] || k.decrypt(keys[|keys| - 1]).Some?)
  {
    assert items[..|items|] == items;
    StreamLengths(k, items);
  }

  function DepositValues(txs: seq<DefiTx>): (r: seq<int>)
    ensures |r| == |txs| && forall i | 0 <= i < |r| :: r[i] == txs[i].depositValue
  {
    seq(|txs|, i requires 0 <= i < |txs| => txs[i].depositValue)
  }

  /** What finalised records say was paid out of each output. */
  function OutputValues(txs: seq<ProcessedTx>, second: bool): (r: seq<int>)
    requires forall i | 0 <= i < |txs| :: txs[i].defiTx.Some?
    ensures |r| == |txs|
    ensures forall i | 0 <= i < |r| :: r[i] ==
              if second then txs[i].defiTx.value.outputValueB else txs[i].defiTx.value.outputValueA
  {
    seq(|txs|, i requires 0 <= i < |txs| =>
          if second then txs[i].defiTx.value.outputValueB else txs[i].defiTx.value.outputValueA)
  }

  lemma {:induction false} PayoutAt(totalOutput: nat, deposits: seq<int>, totalInput: nat, i: nat)
    requires totalInput > 0 && forall j | 0 <= j < |deposits| :: deposits[j] >= 0
    requires i < |deposits|
    ensures Payouts(totalOutput, deposits, totalInput)[i] == Payout(totalOutput, deposits[i], totalInput)
  {
    hide Payout;
    if i < |deposits| - 1 {
      PayoutAt(totalOutput, deposits[..|deposits| - 1], totalInput, i);
    }
  }

  /**
   * When the deposits finalised make up the interaction's whole input, the outputs recorded for them
   * do not exceed the interaction's output, and fall short of it by less than one unit per deposit.
   */
  lemma FinalisedConservesOutput(txs: seq<DefiTx>, event: DefiInteractionEvent, second: bool)
    requires event.result && event.totalInputValue > 0 && Sum(DepositValues(txs)) == event.totalInputValue
    ensures var total := if second then event.totalOutputValueB else event.totalOutputValueA;
            var paid := Sum(OutputValues(Finalised(txs, event), second));
            paid <= total < paid + |txs|
  {
    var total := if second then event.totalOutputValueB else event.totalOutputValueA;
    var deposits := DepositValues(txs);
    PayoutsConserveOutput(total, deposits, event.totalInputValue);
    forall i | 0 <= i < |txs|
      ensures OutputValues(Finalised(txs, event), second)[i] == Payouts(total, deposits, event.totalInputValue)[i]
    {
      PayoutAt(total, deposits, event.totalInputValue, i);
    }
    assert OutputValues(Finalised(txs, event), second) == Payouts(total, deposits, event.totalInputValue);
  }
}
