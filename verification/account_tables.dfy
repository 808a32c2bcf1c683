/**
 * The tables in which alpha-sdk keeps an account's notes, claims and deposit records, and what
 * applying processed txs does to them.
 */
module AccountTables {
  import opened Rollup
  import opened Util
  import opened BlockDecryption
  import opened BlockProcessing

  // ---- the tables ----

  /** The note table is keyed by commitment; putting a note replaces the row of the same key. */
  function PutRow(rows: seq<Row>, row: Row): seq<Row> {
    if rows == [] || row.note.commitment < rows[0].note.commitment then [row] + rows
    else if row.note.commitment == rows[0].note.commitment then [row] + rows[1..]
    else [rows[0]] + PutRow(rows[1..], row)
  }

  function Nullify(rows: seq<Row>, nullifier: nat): (r: seq<Row>)
    ensures |r| == |rows|
    ensures forall i | 0 <= i < |rows| ::
              r[i] == rows[i].(nullified := rows[i].nullified || rows[i].note.nullifier == nullifier)
  {
    seq(|rows|, i requires 0 <= i < |rows| =>
          rows[i].(nullified := rows[i].nullified || rows[i].note.nullifier == nullifier))
  }

  function NullifyAll(rows: seq<Row>, nullifiers: seq<nat>): seq<Row> {
    if nullifiers == [] then rows
    else Nullify(NullifyAll(rows, nullifiers[..|nullifiers| - 1]), nullifiers[|nullifiers| - 1])
  }

  function PutNote(rows: seq<Row>, account: nat, note: UserNote): seq<Row> {
    if note.Value() > 0 then PutRow(rows, Row(note, account, false)) else rows
  }

  function PutNotes(rows: seq<Row>, account: nat, notes: seq<UserNote>): seq<Row> {
    if notes == [] then rows
    else PutNote(PutNotes(rows, account, notes[..|notes| - 1]), account, notes[|notes| - 1])
  }

  function PutDefi(txs: seq<DefiTx>, tx: DefiTx): (r: seq<DefiTx>)
    ensures tx in r
    ensures forall id | FindDefi(txs, id).Some? :: FindDefi(r, id).Some?
  {
    if txs == [] || tx.txId < txs[0].txId || (tx.txId == txs[0].txId && tx.userId < txs[0].userId) then
      assert ([tx] + txs)[1..] == txs;
      [tx] + txs
    else if tx.txId == txs[0].txId && tx.userId == txs[0].userId then
      assert ([tx] + txs[1..])[1..] == txs[1..];
      [tx] + txs[1..]
    else
      var rest := PutDefi(txs[1..], tx);
      assert ([txs[0]] + rest)[1..] == rest;
      [txs[0]] + rest
  }

  function ApplyClaim(claims: map<nat, ClaimTx>, claim: Option<ClaimTx>): map<nat, ClaimTx> {
    if claim.Some? then claims[claim.value.nullifier := claim.value] else claims
  }

  function Apply(db: Db, account: nat, tx: ProcessedTx): Db {
    Db(PutNotes(NullifyAll(db.notes, tx.nullifiers), account, tx.outputNotes),
       ApplyClaim(db.claimTxs, tx.claimTx),
       if tx.defiTx.Some? then PutDefi(db.defiTxs, tx.defiTx.value) else db.defiTxs)
  }

  function ApplyAll(db: Db, account: nat, txs: seq<ProcessedTx>): Db {
    if txs == [] then db else Apply(ApplyAll(db, account, txs[..|txs| - 1]), account, txs[|txs| - 1])
  }

  lemma {:induction false} ApplyAppend(db: Db, account: nat, a: seq<ProcessedTx>, b: seq<ProcessedTx>)
    ensures ApplyAll(db, account, a + b) == ApplyAll(ApplyAll(db, account, a), account, b)
  {
    if b == [] {
      assert a + b == a;
    } else {
      assert (a + b)[..|a + b| - 1] == a + b[..|b| - 1];
      ApplyAppend(db, account, a, b[..|b| - 1]);
    }
  }

  // ---- the tables as a set of notes ----

  ghost predicate Sorted(rows: seq<Row>) {
    forall i, j | 0 <= i < j < |rows| :: rows[i].note.commitment < rows[j].note.commitment
  }

  /** A row of the account carries its commitment's nullifier; nobody else's row has such a nullifier. */
  ghost predicate OwnNullifier(k: Keys, account: nat, row: Row) {
    if row.owner == account then row.note.nullifier == k.valueNoteNullifier(row.note.commitment)
    else forall c: Buffer :: row.note.nullifier != k.valueNoteNullifier(c)
  }

  ghost predicate Consistent(k: Keys, account: nat, rows: seq<Row>) {
    && Sorted(rows)
    && forall i | 0 <= i < |rows| :: OwnNullifier(k, account, rows[i])
  }

  ghost predicate Injective(k: Keys) {
    forall c: Buffer, d: Buffer :: k.valueNoteNullifier(c) == k.valueNoteNullifier(d) ==> c == d
  }

  /** The account has a note with this nullifier, spent or not. */
  ghost predicate Owned(rows: seq<Row>, account: nat, nullifier: nat) {
    exists i | 0 <= i < |rows| :: rows[i].owner == account && rows[i].note.nullifier == nullifier
  }

  lemma {:induction false} PutRowElements(rows: seq<Row>, row: Row)
    requires Sorted(rows)
    ensures forall r :: r in PutRow(rows, row) <==> r == row || (r in rows && r.note.commitment != row.note.commitment)
  {
    if rows != [] {
      assert rows == [rows[0]] + rows[1..];
      if row.note.commitment > rows[0].note.commitment {
        PutRowElements(rows[1..], row);
      }
    }
  }

  lemma {:induction false} PutRowSorted(rows: seq<Row>, row: Row)
    requires Sorted(rows)
    ensures Sorted(PutRow(rows, row))
  {
    if rows != [] && row.note.commitment > rows[0].note.commitment {
      PutRowSorted(rows[1..], row);
      PutRowElements(rows[1..], row);
      var rest := PutRow(rows[1..], row);
      forall j | 0 <= j < |rest|
        ensures rows[0].note.commitment < rest[j].note.commitment
      {
        assert rest[j] in rest;
      }
    }
  }

  /** Putting one of the account's notes adds its nullifier to those the account owns. */
  lemma PutRowOwns(k: Keys, account: nat, rows: seq<Row>, row: Row)
    requires Injective(k) && Consistent(k, account, rows)
    requires row.owner == account && OwnNullifier(k, account, row)
    ensures Consistent(k, account, PutRow(rows, row))
    ensures forall n :: Owned(PutRow(rows, row), account, n) <==> Owned(rows, account, n) || n == row.note.nullifier
  {
    PutRowElements(rows, row);
    PutRowSorted(rows, row);
    var after := PutRow(rows, row);
    forall i | 0 <= i < |after|
      ensures OwnNullifier(k, account, after[i])
    {
      assert after[i] in after;
    }
    forall n
      ensures Owned(after, account, n) <==> Owned(rows, account, n) || n == row.note.nullifier
    {
      if Owned(after, account, n) {
        var i :| 0 <= i < |after| && after[i].owner == account && after[i].note.nullifier == n;
        assert after[i] in after;
      }
      if Owned(rows, account, n) {
        var i :| 0 <= i < |rows| && rows[i].owner == account && rows[i].note.nullifier == n;
        assert rows[i] in rows;
        if rows[i].note.commitment != row.note.commitment {
          assert rows[i] in after;
        } else {
          assert row in after;
        }
      }
      assert row in after;
    }
  }

  lemma {:induction false} NullifyOwns(k: Keys, account: nat, rows: seq<Row>, nullifiers: seq<nat>)
    requires Consistent(k, account, rows)
    ensures Consistent(k, account, NullifyAll(rows, nullifiers))
    ensures forall n :: Owned(NullifyAll(rows, nullifiers), account, n) <==> Owned(rows, account, n)
  {
    if nullifiers != [] {
      var front, last := NullifyAll(rows, nullifiers[..|nullifiers| - 1]), nullifiers[|nullifiers| - 1];
      NullifyOwns(k, account, rows, nullifiers[..|nullifiers| - 1]);
      forall n
        ensures Owned(Nullify(front, last), account, n) <==> Owned(front, account, n)
      {
        var after := Nullify(front, last);
        assert forall i | 0 <= i < |front| :: after[i].owner == front[i].owner && after[i].note == front[i].note;
      }
      assert forall i | 0 <= i < |front| :: OwnNullifier(k, account, front[i]) ==>
             OwnNullifier(k, account, Nullify(front, last)[i]);
    }
  }

  // ---- a batch finds the notes the tables would hold ----

  /** A processed tx's notes carry their own nullifiers and are different notes. */
  ghost predicate ProperOutputs(k: Keys, tx: ProcessedTx) {
    && (forall i | 0 <= i < |tx.outputNotes| ::
          tx.outputNotes[i].nullifier == k.valueNoteNullifier(tx.outputNotes[i].commitment))
    && (forall i, j | 0 <= i < j < |tx.outputNotes| :: tx.outputNotes[i].nullifier != tx.outputNotes[j].nullifier)
  }

  ghost predicate AllProper(k: Keys, txs: seq<ProcessedTx>) {
    forall i | 0 <= i < |txs| :: ProperOutputs(k, txs[i])
  }

  ghost predicate Creates(notes: seq<UserNote>, nullifier: nat) {
    exists i | 0 <= i < |notes| :: notes[i].nullifier == nullifier && notes[i].Value() > 0
  }

  lemma {:induction false} PutNotesOwns(k: Keys, account: nat, rows: seq<Row>, notes: seq<UserNote>)
    requires Injective(k) && Consistent(k, account, rows)
    requires forall i | 0 <= i < |notes| :: notes[i].nullifier == k.valueNoteNullifier(notes[i].commitment)
    ensures Consistent(k, account, PutNotes(rows, account, notes))
    ensures forall n :: Owned(PutNotes(rows, account, notes), account, n) <==>
              Owned(rows, account, n) || Creates(notes, n)
  {
    hide Owned, Consistent, Injective;
    if notes != [] {
      var m := |notes| - 1;
      PutNotesOwns(k, account, rows, notes[..m]);
      if notes[m].Value() > 0 {
        PutRowOwns(k, account, PutNotes(rows, account, notes[..m]), Row(notes[m], account, false));
      }
      forall n
        ensures Creates(notes, n) <==> Creates(notes[..m], n) || (notes[m].nullifier == n && notes[m].Value() > 0)
      {
        CreatesStep(notes, n);
      }
    }
  }

  lemma CreatesStep(notes: seq<UserNote>, n: nat)
    requires notes != []
    ensures var m := |notes| - 1;
            Creates(notes, n) <==> Creates(notes[..m], n) || (notes[m].nullifier == n && notes[m].Value() > 0)
  {
    var m := |notes| - 1;
    if Creates(notes, n) && !(notes[m].nullifier == n && notes[m].Value() > 0) {
      var i :| 0 <= i < |notes| && notes[i].nullifier == n && notes[i].Value() > 0;
      assert notes[..m][i] == notes[i];
    }
  }

  lemma {:induction false} FindNoteCreates(notes: seq<UserNote>, n: nat)
    requires forall i, j | 0 <= i < j < |notes| :: notes[i].nullifier != notes[j].nullifier
    ensures (FindNote(notes, n).Some? && FindNote(notes, n).value.Value() > 0) <==> Creates(notes, n)
  {
    var found := FindNote(notes, n);
    if found.Some? {
      var i :| 0 <= i < |notes| && notes[i] == found.value;
      if Creates(notes, n) {
        var j :| 0 <= j < |notes| && notes[j].nullifier == n && notes[j].Value() > 0;
        assert i == j;
      }
    }
  }

  lemma {:induction false} FindProcessedStep(processed: seq<ProcessedTx>, n: nat)
    requires processed != []
    ensures var m := |processed| - 1; var note := FindNote(processed[m].outputNotes, n);
            FindProcessed(processed, n).Some? <==>
              FindProcessed(processed[..m], n).Some? || (note.Some? && note.value.Value() > 0)
  {
    if |processed| > 1 {
      assert processed[1..][..|processed| - 2] == processed[..|processed| - 1][1..];
      FindProcessedStep(processed[1..], n);
    }
  }

  /**
   * Looking for the account's note among the txs of the batch and then in the database finds
   * something exactly when the tables would hold such a note had those txs been applied already.
   */
  lemma {:induction false} FoundIffInTable(k: Keys, account: nat, db: Db, txs: seq<ProcessedTx>, n: nat)
    requires Injective(k) && Consistent(k, account, db.notes) && AllProper(k, txs)
    ensures Consistent(k, account, ApplyAll(db, account, txs).notes)
    ensures UserNoteOf(account, db, txs, n).Some? <==> Owned(ApplyAll(db, account, txs).notes, account, n)
  {
    if txs == [] {
      assert ApplyAll(db, account, txs) == db;
      RowFound(k, account, db.notes, n);
    } else {
      hide Injective, Consistent, Owned, Creates, FindRow;
      var m := |txs| - 1;
      var before := ApplyAll(db, account, txs[..m]);
      FoundIffInTable(k, account, db, txs[..m], n);
      assert ProperOutputs(k, txs[m]);
      NullifyOwns(k, account, before.notes, txs[m].nullifiers);
      PutNotesOwns(k, account, NullifyAll(before.notes, txs[m].nullifiers), txs[m].outputNotes);
      FindProcessedStep(txs, n);
      FindNoteCreates(txs[m].outputNotes, n);
    }
  }

  lemma RowFound(k: Keys, account: nat, rows: seq<Row>, n: nat)
    requires Injective(k) && Consistent(k, account, rows)
    ensures (FindRow(rows, n) >= 0 && rows[FindRow(rows, n)].owner == account) <==> Owned(rows, account, n)
  {
    var r := FindRow(rows, n);
    if Owned(rows, account, n) {
      var i :| 0 <= i < |rows| && rows[i].owner == account && rows[i].note.nullifier == n;
      assert OwnNullifier(k, account, rows[i]);
      assert OwnNullifier(k, account, rows[r]);
    }
  }

  // ---- deposit records ----

  /** The deposit records a list of processed txs puts, in order. */
  function Records(txs: seq<ProcessedTx>): seq<DefiTx> {
    if txs == [] then []
    else
      var n := |txs| - 1;
      Records(txs[..n]) + if txs[n].defiTx.Some? then [txs[n].defiTx.value] else []
  }

  function PutRecords(txs: seq<DefiTx>, records: seq<DefiTx>): seq<DefiTx> {
    if records == [] then txs
    else PutDefi(PutRecords(txs, records[..|records| - 1]), records[|records| - 1])
  }

  /** The last of some records of a tx. */
  function LastOf(records: seq<DefiTx>, txId: nat): (r: Option<DefiTx>)
    ensures r.Some? ==> r.value in records && r.value.txId == txId
    ensures r.None? <==> forall i | 0 <= i < |records| :: records[i].txId != txId
  {
    if records == [] then None
    else
      var n := |records| - 1;
      if records[n].txId == txId then Some(records[n]) else LastOf(records[..n], txId)
  }

  /** Records are sorted by tx id; a tx has one record. */
  ghost predicate DefiSorted(txs: seq<DefiTx>) {
    forall i, j | 0 <= i < j < |txs| :: txs[i].txId < txs[j].txId
  }

  lemma {:induction false} PutDefiLookup(txs: seq<DefiTx>, tx: DefiTx, txId: nat)
    requires DefiSorted(txs)
    requires FindDefi(txs, tx.txId).Some? ==> FindDefi(txs, tx.txId).value.userId == tx.userId
    ensures FindDefi(PutDefi(txs, tx), txId) == if txId == tx.txId then Some(tx) else FindDefi(txs, txId)
  {
    if txs != [] {
      if tx.txId > txs[0].txId {
        PutDefiLookup(txs[1..], tx, txId);
        assert ([txs[0]] + PutDefi(txs[1..], tx))[1..] == PutDefi(txs[1..], tx);
      } else if tx.txId == txs[0].txId {
        assert ([tx] + txs[1..])[1..] == txs[1..];
      } else {
        assert ([tx] + txs)[1..] == txs;
      }
    }
  }

  lemma {:induction false} PutDefiSorted(txs: seq<DefiTx>, tx: DefiTx)
    requires DefiSorted(txs)
    requires FindDefi(txs, tx.txId).Some? ==> FindDefi(txs, tx.txId).value.userId == tx.userId
    ensures DefiSorted(PutDefi(txs, tx))
    ensures forall i | 0 <= i < |PutDefi(txs, tx)| :: PutDefi(txs, tx)[i] == tx || PutDefi(txs, tx)[i] in txs
  {
    if txs != [] && tx.txId > txs[0].txId {
      PutDefiSorted(txs[1..], tx);
      var rest := PutDefi(txs[1..], tx);
      forall i | 0 <= i < |rest|
        ensures rest[i].txId > txs[0].txId
      {
        if rest[i] != tx {
          assert rest[i] in txs[1..];
        }
      }
    }
  }

  lemma {:induction false} FindSorted(txs: seq<DefiTx>, i: nat)
    requires DefiSorted(txs) && i < |txs|
    ensures FindDefi(txs, txs[i].txId) == Some(txs[i])
  {
    if i > 0 {
      FindSorted(txs[1..], i - 1);
    }
  }

  lemma SomeLookup(txs: seq<DefiTx>)
    requires DefiSorted(txs)
    ensures txs == [] || exists id :: FindDefi(txs, id).Some?
  {
    if txs != [] {
      FindSorted(txs, 0);
    }
  }

  /** Sorted records are determined by looking them up. */
  lemma {:induction false} SameLookups(a: seq<DefiTx>, b: seq<DefiTx>)
    requires DefiSorted(a) && DefiSorted(b)
    requires forall id :: FindDefi(a, id) == FindDefi(b, id)
    ensures a == b
  {
    if a == [] {
      SomeLookup(b);
    } else {
      FindSorted(a, 0);
      assert FindDefi(b, a[0].txId) == Some(a[0]);
      assert b != [];
      FindSorted(b, 0);
      assert FindDefi(a, b[0].txId) == Some(b[0]);
      assert a[0] == b[0];
      forall id
        ensures FindDefi(a[1..], id) == FindDefi(b[1..], id)
      {
        assert FindDefi(a, id) == FindDefi(b, id);
      }
      SameLookups(a[1..], b[1..]);
      assert a == [a[0]] + a[1..] && b == [b[0]] + b[1..];
    }
  }

  /** The records are the account's, and so are those of the same txs in the table. */
  ghost predicate OwnRecords(account: nat, txs: seq<DefiTx>, records: seq<DefiTx>) {
    forall i | 0 <= i < |records| ::
      && records[i].userId == account
      && (FindDefi(txs, records[i].txId).Some? ==> FindDefi(txs, records[i].txId).value.userId == account)
  }

  lemma {:induction false} PutRecordsLookup(account: nat, txs: seq<DefiTx>, records: seq<DefiTx>)
    requires DefiSorted(txs) && OwnRecords(account, txs, records)
    ensures DefiSorted(PutRecords(txs, records))
    ensures forall id :: FindDefi(PutRecords(txs, records), id) ==
              if LastOf(records, id).Some? then LastOf(records, id) else FindDefi(txs, id)
  {
    if records != [] {
      var n := |records| - 1;
      var before := PutRecords(txs, records[..n]);
      PutRecordsLookup(account, txs, records[..n]);
      hide PutDefi, DefiSorted, FindDefi;
      OwnBefore(account, txs, records);
      PutDefiSorted(before, records[n]);
      forall id
        ensures FindDefi(PutRecords(txs, records), id) ==
                if LastOf(records, id).Some? then LastOf(records, id) else FindDefi(txs, id)
      {
        PutDefiLookup(before, records[n], id);
      }
    }
  }

  lemma OwnBefore(account: nat, txs: seq<DefiTx>, records: seq<DefiTx>)
    requires records != [] && OwnRecords(account, txs, records)
    ensures var n := |records| - 1; var id := records[n].txId;
            && OwnRecords(account, txs, records[..n])
            && records[n].userId == account
            && (LastOf(records[..n], id).Some? ==> LastOf(records[..n], id).value.userId == account)
            && (FindDefi(txs, id).Some? ==> FindDefi(txs, id).value.userId == account)
  {
    hide FindDefi;
    var n := |records| - 1;
    assert records[n].userId == account;
    var last := LastOf(records[..n], records[n].txId);
    if last.Some? {
      var i :| 0 <= i < n && records[..n][i] == last.value;
      assert records[i].userId == account;
    }
  }

  lemma {:induction false} ApplyPutsRecords(db: Db, account: nat, txs: seq<ProcessedTx>)
    ensures ApplyAll(db, account, txs).defiTxs == PutRecords(db.defiTxs, Records(txs))
  {
    if txs != [] {
      var n := |txs| - 1;
      ApplyPutsRecords(db, account, txs[..n]);
      hide PutDefi, PutNotes, NullifyAll;
      if txs[n].defiTx.Some? {
        assert (Records(txs[..n]) + [txs[n].defiTx.value])[..|Records(txs[..n])|] == Records(txs[..n]);
      } else {
        assert Records(txs) == Records(txs[..n]);
      }
    }
  }

  lemma {:induction false} SavedAre(txs: seq<DefiTx>, account: nat, nonce: int)
    ensures forall x :: x in SavedDefiTxs(txs, account, nonce) <==>
              x in txs && x.userId == account && x.interactionNonce == Some(nonce)
  {
    if txs != [] {
      SavedAre(txs[..|txs| - 1], account, nonce);
      assert txs == txs[..|txs| - 1] + [txs[|txs| - 1]];
    }
  }

  lemma {:induction false} CurrentAre(txs: seq<ProcessedTx>, nonce: int)
    ensures forall x :: x in CurrentDefiTxs(txs, nonce) <==> x in Records(txs) && x.interactionNonce == Some(nonce)
  {
    if txs != [] {
      CurrentAre(txs[..|txs| - 1], nonce);
    }
  }
}
