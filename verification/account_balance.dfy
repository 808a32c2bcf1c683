/** Balances: what each proof does to the value that an account can still spend. */
module AccountBalances {
  import opened Rollup
  import opened Util
  import opened BlockDecryption
  import opened BlockProcessing
  import opened AccountTables
  import AccountBatches
  import DefiPayouts

  function Live(row: Row, account: nat, assetId: int): nat {
    if row.owner == account && !row.nullified && row.note.treeNote.assetId == assetId then row.note.Value() else 0
  }

  /** The account's un-nullified value of an asset. */
  function Balance(rows: seq<Row>, account: nat, assetId: int): nat {
    if rows == [] then 0 else Live(rows[0], account, assetId) + Balance(rows[1..], account, assetId)
  }

  /** The part of it in notes with this nullifier. */
  function BalanceUnder(rows: seq<Row>, account: nat, assetId: int, nullifier: nat): nat {
    if rows == [] then 0
    else (if rows[0].note.nullifier == nullifier then Live(rows[0], account, assetId) else 0)
         + BalanceUnder(rows[1..], account, assetId, nullifier)
  }

  ghost predicate NewCommitment(rows: seq<Row>, commitment: nat) {
    forall i | 0 <= i < |rows| :: rows[i].note.commitment != commitment
  }

  lemma {:induction false} PutRowBalance(rows: seq<Row>, row: Row, account: nat, assetId: int)
    requires NewCommitment(rows, row.note.commitment)
    ensures Balance(PutRow(rows, row), account, assetId) == Balance(rows, account, assetId)
            + Live(row, account, assetId)
    ensures forall c | c != row.note.commitment && NewCommitment(rows, c) :: NewCommitment(PutRow(rows, row), c)
  {
    if rows == [] || row.note.commitment < rows[0].note.commitment {
      assert ([row] + rows)[1..] == rows;
    } else {
      PutRowBalance(rows[1..], row, account, assetId);
      var rest := PutRow(rows[1..], row);
      assert ([rows[0]] + rest)[1..] == rest;
      forall c | c != row.note.commitment && NewCommitment(rows, c)
        ensures NewCommitment(PutRow(rows, row), c)
      {
        assert NewCommitment(rows[1..], c);
      }
    }
  }

  lemma {:induction false} SpendBalance(rows: seq<Row>, account: nat, p: InnerProofData, assetId: int)
    requires p.nullifier1 != p.nullifier2
    ensures Balance(AccountBatches.Spend(rows, account, p), account, assetId) ==
            Balance(rows, account, assetId)
            - BalanceUnder(rows, account, assetId, p.nullifier1) - BalanceUnder(rows, account, assetId, p.nullifier2)
  {
    if rows != [] {
      assert AccountBatches.Spend(rows, account, p)[1..] == AccountBatches.Spend(rows[1..], account, p);
      SpendBalance(rows[1..], account, p, assetId);
    }
  }

  function NoteValue(note: Option<TreeNote>, assetId: int): nat {
    if note.Some? && note.value.assetId == assetId then note.value.value else 0
  }

  lemma PutNoteBalance(rows: seq<Row>, account: nat, note: UserNote, assetId: int)
    requires NewCommitment(rows, note.commitment)
    ensures Balance(PutNote(rows, account, note), account, assetId) ==
            Balance(rows, account, assetId) + NoteValue(Some(note.treeNote), assetId)
    ensures forall c | c != note.commitment && NewCommitment(rows, c) :: NewCommitment(PutNote(rows, account, note), c)
  {
    if note.Value() > 0 {
      PutRowBalance(rows, Row(note, account, false), account, assetId);
    }
  }

  lemma TwoNotesBalance(rows: seq<Row>, account: nat, notes: seq<UserNote>, assetId: int)
    requires |notes| <= 2 && forall i | 0 <= i < |notes| :: NewCommitment(rows, notes[i].commitment)
    requires |notes| == 2 ==> notes[0].commitment != notes[1].commitment
    ensures Balance(PutNotes(rows, account, notes), account, assetId) == Balance(rows, account, assetId)
            + (if |notes| > 0 then NoteValue(Some(notes[0].treeNote), assetId) else 0)
            + (if |notes| > 1 then NoteValue(Some(notes[1].treeNote), assetId) else 0)
  {
    hide Balance, NewCommitment, NoteValue, PutNote;
    if |notes| > 0 {
      PutNoteBalance(rows, account, notes[0], assetId);
      assert notes[..1] == [notes[0]] && notes[..1][..0] == [];
      assert PutNotes(rows, account, notes[..1]) == PutNote(rows, account, notes[0]);
      if |notes| == 2 {
        PutNoteBalance(PutNotes(rows, account, notes[..1]), account, notes[1], assetId);
      } else {
        assert notes[..1] == notes;
      }
    }
  }

  /**
   * A payment that the account takes part in changes its balance of an asset by the value of the
   * notes it recovers less that of the un-nullified notes whose nullifiers the proof has.
   */
  lemma PaymentMovesBalance(k: Keys, account: nat, db: Db, b: Block, it: Item, index: nat, assetId: int)
    requires IsPayment(it.proof.proofId) && it.proof.noteCommitment1 != it.proof.noteCommitment2
    requires it.proof.nullifier1 != it.proof.nullifier2
    requires NewCommitment(db.notes, it.proof.noteCommitment1) && NewCommitment(db.notes, it.proof.noteCommitment2)
    ensures var notes, p := NotesOf(k, it), it.proof;
            notes[0].Some? || notes[1].Some? ==>
              Balance(AccountBatches.StepItem(k, account, db, b, it, index).notes, account, assetId) ==
              Balance(db.notes, account, assetId)
              - BalanceUnder(db.notes, account, assetId, p.nullifier1)
              - BalanceUnder(db.notes, account, assetId, p.nullifier2)
              + NoteValue(notes[0], assetId) + NoteValue(notes[1], assetId)
  {
    var notes, p := NotesOf(k, it), it.proof;
    hide NotesOf, Balance, BalanceUnder;
    SpendBalance(db.notes, account, p, assetId);
    var outputs := NoteIf(notes[0], p.noteCommitment1, k.valueNoteNullifier(p.noteCommitment1), index)
                   + NoteIf(notes[1], p.noteCommitment2, k.valueNoteNullifier(p.noteCommitment2), index + 1);
    TwoNotesBalance(AccountBatches.Spend(db.notes, account, p), account, outputs, assetId);
  }

  /** A DeFi deposit of the account brings in its change and takes what it spends. */
  lemma DepositMovesBalance(k: Keys, account: nat, db: Db, b: Block, it: Item, index: nat, assetId: int)
    requires it.proof.proofId == DEFI_DEPOSIT && it.proof.nullifier1 != it.proof.nullifier2
    requires NotesOf(k, it)[0].Some? && NewCommitment(db.notes, it.proof.noteCommitment2)
    ensures var change, p := NotesOf(k, it)[0], it.proof;
            Balance(AccountBatches.StepItem(k, account, db, b, it, index).notes, account, assetId) ==
            Balance(db.notes, account, assetId)
            - BalanceUnder(db.notes, account, assetId, p.nullifier1)
            - BalanceUnder(db.notes, account, assetId, p.nullifier2)
            + (if change.value.assetId == assetId then change.value.value else 0)
  {
    var p, change := it.proof, NotesOf(k, it)[0].value;
    hide NotesOf, Balance, BalanceUnder, InteractionNonce, PutDefi;
    SpendBalance(db.notes, account, p, assetId);
    var note := UserNote(change, p.noteCommitment2, k.valueNoteNullifier(p.noteCommitment2), index + 1);
    TwoNotesBalance(AccountBatches.Spend(db.notes, account, p), account, [note], assetId);
  }

  /** An asset of an interaction, which gives virtual assets its nonce. */
  function Asset(id: nat, nonce: int): int { if id >= 0x2000_0000 then 0x2000_0000 + nonce else id }

  /**
   * A claim that the account has stored brings in both outputs of its deposit's record if that
   * succeeded, and otherwise the deposit in each input asset; it takes nothing.
   */
  lemma ClaimMovesBalance(k: Keys, account: nat, db: Db, b: Block, it: Item, index: nat, assetId: int)
    requires it.proof.proofId == DEFI_CLAIM && it.proof.noteCommitment1 != it.proof.noteCommitment2
    requires AccountBatches.KnownClaim(account, db, it.proof.nullifier1).Some?
    requires NewCommitment(db.notes, it.proof.noteCommitment1) && NewCommitment(db.notes, it.proof.noteCommitment2)
    requires var record := AccountBatches.KnownClaim(account, db, it.proof.nullifier1).value.1;
             !record.success ==> record.outputValueA == 0 && record.outputValueB == 0
    ensures var (claim, record) := AccountBatches.KnownClaim(account, db, it.proof.nullifier1).value;
            var bridge, nonce := record.bridge, claim.interactionNonce;
            var outputB := if bridge.outputAssetIdB.Some? then bridge.outputAssetIdB.value else 0;
            Balance(AccountBatches.StepItem(k, account, db, b, it, index).notes, account, assetId) ==
            Balance(db.notes, account, assetId)
            + (if record.success then
                 (if Asset(bridge.outputAssetIdA, nonce) == assetId then record.outputValueA else 0)
                 + (if Asset(outputB, nonce) == assetId then record.outputValueB else 0)
               else
                 (if bridge.inputAssetIdA == assetId then record.depositValue else 0)
                 + (if bridge.inputAssetIdB == Some(assetId) then record.depositValue else 0))
  {
    var p := it.proof;
    var (claim, record) := AccountBatches.KnownClaim(account, db, p.nullifier1).value;
    AccountBatches.KnownStep(k, account, db, b, it, index);
    var tx := DefiClaimTx(claim, record, p, index, k.valueNoteNullifier(p.noteCommitment1),
                          k.valueNoteNullifier(p.noteCommitment2));
    ClaimedValue(claim, record, p, index, k.valueNoteNullifier(p.noteCommitment1),
                 k.valueNoteNullifier(p.noteCommitment2), assetId);
    hide Balance, PutNotes, AccountBatches.StepItem, AccountBatches.KnownClaim, NewCommitment, DefiClaimTx, NoteValue,
         PutDefi, Asset, FindDefi;
    TwoNotesBalance(db.notes, account, tx.outputNotes, assetId);
  }

  lemma ClaimedValue(claim: ClaimTx, record: DefiTx, p: InnerProofData, index: nat, n1: nat, n2: nat, assetId: int)
    requires p.noteCommitment1 != p.noteCommitment2
    requires !record.success ==> record.outputValueA == 0 && record.outputValueB == 0
    ensures var notes, bridge := DefiClaimTx(claim, record, p, index, n1, n2).outputNotes, record.bridge;
            var nonce := claim.interactionNonce;
            var outputB := if bridge.outputAssetIdB.Some? then bridge.outputAssetIdB.value else 0;
            && |notes| <= 2 && (|notes| == 2 ==> notes[0].commitment != notes[1].commitment)
            && (forall i | 0 <= i < |notes| :: notes[i].commitment == p.noteCommitment1
                                               || notes[i].commitment == p.noteCommitment2)
            && (if |notes| > 0 then NoteValue(Some(notes[0].treeNote), assetId) else 0)
               + (if |notes| > 1 then NoteValue(Some(notes[1].treeNote), assetId) else 0) ==
               if record.success then
                 (if Asset(bridge.outputAssetIdA, nonce) == assetId then record.outputValueA else 0)
                 + (if Asset(outputB, nonce) == assetId then record.outputValueB else 0)
               else
                 (if bridge.inputAssetIdA == assetId then record.depositValue else 0)
                 + (if bridge.inputAssetIdB == Some(assetId) then record.depositValue else 0)
  {
  }

  /**
   * So a claim brings in, of each output of a successful interaction, the share of the deposit in
   * the interaction's whole input, rounded down.
   */
  lemma ClaimPaysShare(k: Keys, account: nat, db: Db, b: Block, it: Item, index: nat, deposit: DefiTx,
                       event: DefiPayouts.DefiInteractionEvent)
    requires it.proof.proofId == DEFI_CLAIM && it.proof.noteCommitment1 != it.proof.noteCommitment2
    requires AccountBatches.KnownClaim(account, db, it.proof.nullifier1).Some?
    requires NewCommitment(db.notes, it.proof.noteCommitment1) && NewCommitment(db.notes, it.proof.noteCommitment2)
    requires event.result && event.totalInputValue > 0
    requires AccountBatches.KnownClaim(account, db, it.proof.nullifier1).value.1 == Finalise(deposit, event)
    requires deposit.bridge.outputAssetIdB.Some?
             && deposit.bridge.outputAssetIdA < 0x2000_0000 && deposit.bridge.outputAssetIdB.value < 0x2000_0000
             && deposit.bridge.outputAssetIdA != deposit.bridge.outputAssetIdB.value
    ensures var after := AccountBatches.StepItem(k, account, db, b, it, index);
            var assetA, assetB := deposit.bridge.outputAssetIdA, deposit.bridge.outputAssetIdB.value;
            && Balance(after.notes, account, assetA) ==
               Balance(db.notes, account, assetA)
               + event.totalOutputValueA * deposit.depositValue / event.totalInputValue
            && Balance(after.notes, account, assetB) ==
               Balance(db.notes, account, assetB)
               + event.totalOutputValueB * deposit.depositValue / event.totalInputValue
  {
    hide Balance, AccountBatches.StepItem, AccountBatches.KnownClaim, NewCommitment;
    ClaimMovesBalance(k, account, db, b, it, index, deposit.bridge.outputAssetIdA);
    ClaimMovesBalance(k, account, db, b, it, index, deposit.bridge.outputAssetIdB.value);
  }
}
