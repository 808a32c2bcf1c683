/**
 * alpha-sdk's BlockDecryptor: from a list of blocks, the flat streams of notes, nullifiers and
 * secrets that one account can read.
 */
module BlockDecryption {
  import opened Util
  import opened Rollup
  import DefiPayouts

  type Buffer = nat

  datatype DecryptedNote = DecryptedNote(value: nat, assetId: nat, noteSecret: nat)

  datatype TreeNote = TreeNote(value: nat, assetId: int, noteSecret: nat, inputNullifier: nat)

  const VIRTUAL_ASSET_ID_FLAG: nat := 0x2000_0000

  datatype BridgeCallData = BridgeCallData(
    id: nat, inputAssetIdA: nat, inputAssetIdB: Option<nat>, outputAssetIdA: nat, outputAssetIdB: Option<nat>)

  /**
   * An account's record of one of its DeFi deposits. Before it settles it has no interaction nonce;
   * until its interaction is finalised, `success` is unset, which reads as false, and there are no
   * outputs.
   */
  datatype DefiTx = DefiTx(
    txId: nat, userId: nat, bridge: BridgeCallData, depositValue: nat, interactionNonce: Option<int>, isAsync: bool,
    success: bool, outputValueA: nat, outputValueB: nat, finalised: bool, claimSettled: bool)

  /** One account's keys and the readers of off-chain data, as uninterpreted functions. */
  datatype Keys = Keys(
    viewingKeys: Buffer -> (Buffer, Buffer),
    defiViewingKey: Buffer -> Buffer,
    partialStateSecretKey: Buffer -> Buffer,
    accountOf: Buffer -> nat,
    decrypt: Buffer -> Option<DecryptedNote>,
    matches: (TreeNote, Buffer) -> bool,
    valueNoteNullifier: Buffer -> nat,
    claimNoteNullifier: Buffer -> nat,
    deriveNoteSecret: Buffer -> nat,
    bridgeCallData: Buffer -> BridgeCallData,
    depositValue: Buffer -> nat,
    txId: InnerProofData -> nat)

  /** A proof that is not padding, with its own off-chain data. */
  datatype Item = Item(proof: InnerProofData, offchain: Buffer)

  datatype Block = Block(
    rollupId: nat, dataStartIndex: nat, innerProofData: seq<InnerProofData>, offchainTxData: seq<Buffer>,
    bridgeCallDatas: seq<nat>, interactionResult: seq<DefiPayouts.DefiInteractionEvent>)

  ghost predicate WellFormed(b: Block) {
    && |b.offchainTxData| == NumTxs(b.innerProofData)
    && forall i | 0 <= i < |b.interactionResult| :: DefiPayouts.Payable(b.interactionResult[i])
  }

  ghost predicate AllWellFormed(blocks: seq<Block>) {
    forall i | 0 <= i < |blocks| :: WellFormed(blocks[i])
  }

  predicate IsPayment(p: ProofId) { p == DEPOSIT || p == WITHDRAW || p == SEND }

  /** The proofs of the blocks, each with the off-chain entry of the same position in its own block. */
  function ItemsOf(b: Block): seq<Item>
    requires WellFormed(b)
  {
    var proofs := NonPadding(b.innerProofData);
    seq(|proofs|, i requires 0 <= i < |proofs| => Item(proofs[i], b.offchainTxData[i]))
  }

  function AllItems(blocks: seq<Block>): seq<Item>
    requires AllWellFormed(blocks)
  {
    if blocks == [] then [] else AllItems(blocks[..|blocks| - 1]) + ItemsOf(blocks[|blocks| - 1])
  }

  // ---- what one proof contributes to each stream ----

  function KeyStream(k: Keys, it: Item): seq<Buffer> {
    if IsPayment(it.proof.proofId) then [k.viewingKeys(it.offchain).0, k.viewingKeys(it.offchain).1]
    else if it.proof.proofId == DEFI_DEPOSIT then [k.defiViewingKey(it.offchain)]
    else []
  }

  function CommitmentStream(it: Item): seq<Buffer> {
    if IsPayment(it.proof.proofId) then [it.proof.noteCommitment1, it.proof.noteCommitment2]
    else if it.proof.proofId == DEFI_DEPOSIT then [it.proof.noteCommitment2]
    else []
  }

  function InputStream(it: Item): seq<nat> {
    if IsPayment(it.proof.proofId) then [it.proof.nullifier1, it.proof.nullifier2]
    else if it.proof.proofId == DEFI_DEPOSIT then [it.proof.nullifier2]
    else []
  }

  /** The note behind a viewing key, if it decrypts and matches the published commitment. */
  function RecoverNote(k: Keys, key: Buffer, inputNullifier: nat, commitment: Buffer): Option<TreeNote> {
    match k.decrypt(key)
    case None => None
    case Some(d) =>
      var note := TreeNote(d.value, d.assetId, d.noteSecret, inputNullifier);
      if k.matches(note, commitment) then Some(note) else None
  }

  /** The notes of a proof, read from nothing but that proof and its own off-chain data. */
  function NotesOf(k: Keys, it: Item): (r: seq<Option<TreeNote>>)
    ensures |r| == |CommitmentStream(it)|
  {
    seq(|CommitmentStream(it)|, i requires 0 <= i < |CommitmentStream(it)| =>
      RecoverNote(k, KeyStream(k, it)[i], InputStream(it)[i], CommitmentStream(it)[i]))
  }

  function Nullifiers(k: Keys, notes: seq<Option<TreeNote>>, commitments: seq<Buffer>): seq<nat>
    requires |notes| == |commitments|
  {
    if notes == [] then []
    else
      var n := |notes| - 1;
      Nullifiers(k, notes[..n], commitments[..n])
      + if notes[n].Some? then [k.valueNoteNullifier(commitments[n])] else []
  }

  function NullifiersOf(k: Keys, it: Item): seq<nat> {
    Nullifiers(k, NotesOf(k, it), CommitmentStream(it))
  }

  function SecretsOf(k: Keys, it: Item): seq<nat> {
    if it.proof.proofId == DEFI_DEPOSIT && NotesOf(k, it)[0].Some?
    then [k.deriveNoteSecret(k.partialStateSecretKey(it.offchain))] else []
  }

  function ClaimNullifiersOf(k: Keys, it: Item): seq<nat> {
    if it.proof.proofId == DEFI_CLAIM
    then [k.valueNoteNullifier(it.proof.noteCommitment1), k.valueNoteNullifier(it.proof.noteCommitment2)] else []
  }

  // ---- whole streams ----

  function AllViewingKeys(k: Keys, items: seq<Item>): seq<Buffer> {
    if items == [] then [] else AllViewingKeys(k, items[..|items| - 1]) + KeyStream(k, items[|items| - 1])
  }

  function AllCommitments(items: seq<Item>): seq<Buffer> {
    if items == [] then [] else AllCommitments(items[..|items| - 1]) + CommitmentStream(items[|items| - 1])
  }

  function AllInputs(items: seq<Item>): seq<nat> {
    if items == [] then [] else AllInputs(items[..|items| - 1]) + InputStream(items[|items| - 1])
  }

  function AllNotes(k: Keys, items: seq<Item>): seq<Option<TreeNote>> {
    if items == [] then [] else AllNotes(k, items[..|items| - 1]) + NotesOf(k, items[|items| - 1])
  }

  function AllNullifiers(k: Keys, items: seq<Item>): seq<nat> {
    if items == [] then [] else AllNullifiers(k, items[..|items| - 1]) + NullifiersOf(k, items[|items| - 1])
  }

  function AllSecrets(k: Keys, items: seq<Item>): seq<nat> {
    if items == [] then [] else AllSecrets(k, items[..|items| - 1]) + SecretsOf(k, items[|items| - 1])
  }

  function AllClaimNullifiers(k: Keys, items: seq<Item>): seq<nat> {
    if items == [] then [] else AllClaimNullifiers(k, items[..|items| - 1]) + ClaimNullifiersOf(k, items[|items| - 1])
  }

  /** Reading past the end of a stream gives nothing. */
  function At<T>(s: seq<Option<T>>, i: nat): Option<T> { if i < |s| then s[i] else None }

  /** How many entries the decrypted array has: up to the last viewing key that decrypts. */
  function NumDecrypted(k: Keys, viewingKeys: seq<Buffer>): (n: nat)
    ensures n <= |viewingKeys|
    ensures forall i | n <= i < |viewingKeys| :: k.decrypt(viewingKeys[i]).None?
    ensures n == |viewingKeys| <==> viewingKeys == [] || k.decrypt(viewingKeys[|viewingKeys| - 1]).Some?
  {
    if viewingKeys == [] || k.decrypt(viewingKeys[|viewingKeys| - 1]).Some? then |viewingKeys|
    else NumDecrypted(k, viewingKeys[..|viewingKeys| - 1])
  }

  lemma {:induction false} NullifiersOfPrefix(k: Keys, notes: seq<Option<TreeNote>>, commitments: seq<Buffer>, n: nat)
    requires |notes| == |commitments| && n <= |notes|
    requires forall i | n <= i < |notes| :: notes[i].None?
    ensures Nullifiers(k, notes[..n], commitments[..n]) == Nullifiers(k, notes, commitments)
  {
    if n == |notes| {
      assert notes[..n] == notes && commitments[..n] == commitments;
    } else {
      var m := |notes| - 1;
      NullifiersOfPrefix(k, notes[..m], commitments[..m], n);
      assert notes[..m][..n] == notes[..n] && commitments[..m][..n] == commitments[..n];
    }
  }

  lemma {:induction false} NullifiersAppend(k: Keys, a: seq<Option<TreeNote>>, b: seq<Option<TreeNote>>,
                                            ca: seq<Buffer>, cb: seq<Buffer>)
    requires |a| == |ca| && |b| == |cb|
    ensures Nullifiers(k, a + b, ca + cb) == Nullifiers(k, a, ca) + Nullifiers(k, b, cb)
  {
    if b == [] {
      assert a + b == a && ca + cb == ca;
    } else {
      var n := |b| - 1;
      assert (a + b)[..|a + b| - 1] == a + b[..n];
      assert (ca + cb)[..|ca + cb| - 1] == ca + cb[..n];
      NullifiersAppend(k, a, b[..n], ca, cb[..n]);
    }
  }

  lemma {:induction false} StreamLengths(k: Keys, items: seq<Item>)
    ensures |AllViewingKeys(k, items)| == |AllCommitments(items)| == |AllInputs(items)| == |AllNotes(k, items)|
  {
    if items != [] {
      StreamLengths(k, items[..|items| - 1]);
    }
  }

  /** The parallel streams line up, so recovering position by position gives each proof its own notes. */
  lemma {:induction false} StreamsLineUp(k: Keys, items: seq<Item>, i: nat)
    requires i < |AllNotes(k, items)|
    ensures i < |AllViewingKeys(k, items)| == |AllCommitments(items)| == |AllInputs(items)| == |AllNotes(k, items)|
    ensures AllNotes(k, items)[i] ==
            RecoverNote(k, AllViewingKeys(k, items)[i], AllInputs(items)[i], AllCommitments(items)[i])
  {
    hide RecoverNote;
    StreamLengths(k, items);
    var n := |items| - 1;
    StreamLengths(k, items[..n]);
    if i < |AllNotes(k, items[..n])| {
      StreamsLineUp(k, items[..n], i);
    }
  }

  lemma {:induction false} NullifiersLineUp(k: Keys, items: seq<Item>)
    ensures |AllNotes(k, items)| == |AllCommitments(items)|
    ensures Nullifiers(k, AllNotes(k, items), AllCommitments(items)) == AllNullifiers(k, items)
  {
    StreamLengths(k, items);
    if items != [] {
      var n := |items| - 1;
      NullifiersLineUp(k, items[..n]);
      hide NotesOf, CommitmentStream, Nullifiers;
      NullifiersAppend(k, AllNotes(k, items[..n]), NotesOf(k, items[n]), AllCommitments(items[..n]),
                       CommitmentStream(items[n]));
    } else {
      assert AllNotes(k, items) == [];
    }
  }

  /** The notes that are there: all but a tail whose viewing keys do not decrypt. */
  function TreeNotes(k: Keys, items: seq<Item>): (r: seq<Option<TreeNote>>)
  {
    StreamLengths(k, items);
    AllNotes(k, items)[..NumDecrypted(k, AllViewingKeys(k, items))]
  }

  lemma TreeNotesFacts(k: Keys, items: seq<Item>)
    ensures TreeNotes(k, items) <= AllNotes(k, items)
    ensures forall i | |TreeNotes(k, items)| <= i < |AllNotes(k, items)| :: AllNotes(k, items)[i].None?
    ensures forall i: nat :: At(TreeNotes(k, items), i) == At(AllNotes(k, items), i)
  {
    hide AllNotes;
    StreamLengths(k, items);
    forall i | |TreeNotes(k, items)| <= i < |AllNotes(k, items)|
      ensures AllNotes(k, items)[i].None?
    {
      StreamsLineUp(k, items, i);
      assert k.decrypt(AllViewingKeys(k, items)[i]).None?;
    }
  }

  // ---- the notes at each place, read off the published proofs ----

  /**
   * What is recovered with a viewing key: the note it decrypts to, taken as made by spending
   * `inputNullifier`, if there is one and it is the one committed to.
   */
  ghost predicate IsBehind(k: Keys, note: Option<TreeNote>, key: Buffer, inputNullifier: nat, commitment: Buffer) {
    match k.decrypt(key)
    case None => note.None?
    case Some(d) =>
      && (note.Some? <==> k.matches(TreeNote(d.value, d.assetId, d.noteSecret, inputNullifier), commitment))
      && (note.Some? ==> note.value == TreeNote(d.value, d.assetId, d.noteSecret, inputNullifier))
  }

  /** How many notes the first n proofs of a block have on offer: a payment two, a DeFi deposit its change. */
  function Places(inners: seq<InnerProofData>, n: nat): nat
    requires n <= |inners|
  {
    if n == 0 then 0
    else
      match inners[n - 1].proofId
      case DEPOSIT => Places(inners, n - 1) + 2
      case WITHDRAW => Places(inners, n - 1) + 2
      case SEND => Places(inners, n - 1) + 2
      case DEFI_DEPOSIT => Places(inners, n - 1) + 1
      case _ => Places(inners, n - 1)
  }

  function PlacesOfBlocks(blocks: seq<Block>): nat {
    if blocks == [] then 0
    else
      var inners := blocks[|blocks| - 1].innerProofData;
      PlacesOfBlocks(blocks[..|blocks| - 1]) + Places(inners, |inners|)
  }

  /** The notes found for slot j of block i are those behind its own keys, nullifiers and commitments. */
  ghost predicate SlotDecrypted(k: Keys, blocks: seq<Block>, i: nat, j: nat, treeNotes: seq<Option<TreeNote>>)
    requires AllWellFormed(blocks) && i < |blocks| && j < |blocks[i].innerProofData|
  {
    var b := blocks[i];
    var p, at := b.innerProofData[j], PlacesOfBlocks(blocks[..i]) + Places(b.innerProofData, j);
    p.IsPadding() ||
    (var offchain := OffchainAt(b, j);
     && (p.proofId == DEPOSIT || p.proofId == WITHDRAW || p.proofId == SEND ==>
           && IsBehind(k, At(treeNotes, at), k.viewingKeys(offchain).0, p.nullifier1, p.noteCommitment1)
           && IsBehind(k, At(treeNotes, at + 1), k.viewingKeys(offchain).1, p.nullifier2, p.noteCommitment2))
     && (p.proofId == DEFI_DEPOSIT ==>
           IsBehind(k, At(treeNotes, at), k.defiViewingKey(offchain), p.nullifier2, p.noteCommitment2)))
  }

  /** The off-chain data of slot j: that of the proofs that are not padding, in order. */
  function OffchainAt(b: Block, j: nat): Buffer
    requires WellFormed(b) && j < |b.innerProofData| && !b.innerProofData[j].IsPadding()
  {
    assert b.innerProofData[..j + 1][..j] == b.innerProofData[..j];
    NumTxsMonotone(b.innerProofData, j + 1);
    b.offchainTxData[NumTxs(b.innerProofData[..j])]
  }

  lemma RecoveredIsBehind(k: Keys, key: Buffer, inputNullifier: nat, commitment: Buffer)
    ensures IsBehind(k, RecoverNote(k, key, inputNullifier, commitment), key, inputNullifier, commitment)
  {
  }

  lemma NotesAreBehind(k: Keys, it: Item)
    ensures var p, notes := it.proof, NotesOf(k, it);
            && (IsPayment(p.proofId) ==>
                  && |notes| == 2
                  && IsBehind(k, notes[0], k.viewingKeys(it.offchain).0, p.nullifier1, p.noteCommitment1)
                  && IsBehind(k, notes[1], k.viewingKeys(it.offchain).1, p.nullifier2, p.noteCommitment2))
            && (p.proofId == DEFI_DEPOSIT ==>
                  && |notes| == 1
                  && IsBehind(k, notes[0], k.defiViewingKey(it.offchain), p.nullifier2, p.noteCommitment2))
            && (!IsPayment(p.proofId) && p.proofId != DEFI_DEPOSIT ==> notes == [])
  {
    hide RecoverNote, IsBehind;
    var keys, inputs, commitments := KeyStream(k, it), InputStream(it), CommitmentStream(it);
    forall i | 0 <= i < |commitments|
      ensures IsBehind(k, NotesOf(k, it)[i], keys[i], inputs[i], commitments[i])
    {
      RecoveredIsBehind(k, keys[i], inputs[i], commitments[i]);
    }
  }

  /** The slot j of a block that is not padding is its item number `NumTxs` of the slots before. */
  lemma {:induction false} ItemOfSlot(inners: seq<InnerProofData>, j: nat)
    requires j < |inners| && !inners[j].IsPadding()
    ensures NumTxs(inners[..j]) < |NonPadding(inners)| && NonPadding(inners)[NumTxs(inners[..j])] == inners[j]
    ensures NonPadding(inners)[..NumTxs(inners[..j])] == NonPadding(inners[..j])
  {
    var front := inners[..|inners| - 1];
    if j < |front| {
      assert front[..j] == inners[..j] && front[j] == inners[j];
      ItemOfSlot(front, j);
    } else {
      assert inners[..j] == front;
    }
  }

  lemma NothingBefore(inners: seq<InnerProofData>)
    ensures NumTxs(inners[..0]) == 0
  {
  }

  lemma {:induction false} PlacesOfItems(k: Keys, items: seq<Item>, inners: seq<InnerProofData>, n: nat)
    requires n <= |inners| && |items| == NumTxs(inners[..n])
    requires forall i | 0 <= i < |items| :: items[i].proof == NonPadding(inners[..n])[i]
    ensures |AllNotes(k, items)| == Places(inners, n)
  {
    hide NotesOf, IsBehind, NonPadding, NumTxs;
    if n == 0 {
      assert NumTxs(inners[..0]) == 0 by { NothingBefore(inners); }
    } else {
      NonPaddingStep(inners, n - 1);
      if inners[n - 1].IsPadding() {
        PlacesOfItems(k, items, inners, n - 1);
      } else {
        var m := |items| - 1;
        assert items[m].proof == inners[n - 1];
        PlacesOfItems(k, items[..m], inners, n - 1);
        NotesAreBehind(k, items[m]);
      }
    }
  }

  lemma {:induction false} AllNotesAppend(k: Keys, a: seq<Item>, b: seq<Item>)
    ensures AllNotes(k, a + b) == AllNotes(k, a) + AllNotes(k, b)
  {
    hide NotesOf;
    if b == [] {
      assert a + b == a;
    } else {
      assert (a + b)[..|a + b| - 1] == a + b[..|b| - 1];
      AllNotesAppend(k, a, b[..|b| - 1]);
    }
  }

  lemma {:induction false} PlacesOfAll(k: Keys, blocks: seq<Block>)
    requires AllWellFormed(blocks)
    ensures |AllNotes(k, AllItems(blocks))| == PlacesOfBlocks(blocks)
  {
    if blocks != [] {
      var n := |blocks| - 1;
      var inners := blocks[n].innerProofData;
      assert WellFormed(blocks[n]);
      PlacesOfAll(k, blocks[..n]);
      AllNotesAppend(k, AllItems(blocks[..n]), ItemsOf(blocks[n]));
      assert inners[..|inners|] == inners;
      PlacesOfItems(k, ItemsOf(blocks[n]), inners, |inners|);
    }
  }

  lemma {:induction false} ItemsInPlace(blocks: seq<Block>, i: nat)
    requires AllWellFormed(blocks) && i < |blocks|
    ensures AllItems(blocks[..i]) + ItemsOf(blocks[i]) <= AllItems(blocks)
  {
    hide WellFormed;
    assert WellFormed(blocks[i]);
    var front := blocks[..|blocks| - 1];
    if i < |front| {
      assert front[..i] == blocks[..i] && front[i] == blocks[i];
      ItemsInPlace(front, i);
    } else {
      assert blocks[..i] == front;
    }
  }

  /** Which of all the items a slot is. */
  lemma ItemOfBlockSlot(blocks: seq<Block>, i: nat, j: nat)
    requires AllWellFormed(blocks) && i < |blocks| && j < |blocks[i].innerProofData|
    requires WellFormed(blocks[i]) && !blocks[i].innerProofData[j].IsPadding()
    ensures var before, own, m := AllItems(blocks[..i]), ItemsOf(blocks[i]), NumTxs(blocks[i].innerProofData[..j]);
            && m < |own| && own[m] == Item(blocks[i].innerProofData[j], OffchainAt(blocks[i], j))
            && |before| + m < |AllItems(blocks)| && AllItems(blocks)[|before| + m] == own[m]
            && AllItems(blocks)[..|before| + m] == before + own[..m]
            && forall n | 0 <= n < m :: own[n].proof == NonPadding(blocks[i].innerProofData[..j])[n]
  {
    var inners := blocks[i].innerProofData;
    var before, own, m := AllItems(blocks[..i]), ItemsOf(blocks[i]), NumTxs(inners[..j]);
    ItemOfSlot(inners, j);
    assert own[m] == Item(inners[j], OffchainAt(blocks[i], j));
    assert forall n | 0 <= n < m :: own[n].proof == NonPadding(inners)[..m][n];
    hide AllItems, ItemsOf, WellFormed, NumTxs, NonPadding, OffchainAt;
    ItemsInPlace(blocks, i);
    PrefixElement(before, own, AllItems(blocks), m);
    PrefixPart(before, own, AllItems(blocks), m);
  }

  /** And how many notes are on offer before it. */
  lemma SlotAmongItems(k: Keys, blocks: seq<Block>, i: nat, j: nat) returns (at: nat)
    requires AllWellFormed(blocks) && i < |blocks| && j < |blocks[i].innerProofData|
    requires WellFormed(blocks[i]) && !blocks[i].innerProofData[j].IsPadding()
    ensures at < |AllItems(blocks)|
    ensures AllItems(blocks)[at] == Item(blocks[i].innerProofData[j], OffchainAt(blocks[i], j))
    ensures |AllNotes(k, AllItems(blocks)[..at])| == PlacesOfBlocks(blocks[..i]) + Places(blocks[i].innerProofData, j)
  {
    hide AllNotes, NotesOf, Places, PlacesOfBlocks, AllItems, ItemsOf, WellFormed, NumTxs, NonPadding, OffchainAt;
    var inners := blocks[i].innerProofData;
    var before, own, m := AllItems(blocks[..i]), ItemsOf(blocks[i]), NumTxs(inners[..j]);
    ItemOfBlockSlot(blocks, i, j);
    at := |before| + m;
    PlacesOfAll(k, blocks[..i]);
    AllNotesAppend(k, before, own[..m]);
    PlacesOfItems(k, own[..m], inners, j);
  }

  lemma PrefixPart<T>(a: seq<T>, b: seq<T>, all: seq<T>, m: nat)
    requires a + b <= all && m <= |b|
    ensures all[..|a| + m] == a + b[..m]
  {
    assert (a + b)[..|a| + m] == a + b[..m];
  }

  lemma SlotIsDecrypted(k: Keys, blocks: seq<Block>, i: nat, j: nat)
    requires AllWellFormed(blocks) && i < |blocks| && j < |blocks[i].innerProofData|
    ensures SlotDecrypted(k, blocks, i, j, TreeNotes(k, AllItems(blocks)))
  {
    hide IsBehind, TreeNotes, AllNotes, NotesOf, Places, PlacesOfBlocks, AllItems, ItemsOf, WellFormed, NumTxs,
         NonPadding, OffchainAt;
    var b := blocks[i];
    assert WellFormed(b);
    if !b.innerProofData[j].IsPadding() {
      var items := AllItems(blocks);
      var at := SlotAmongItems(k, blocks, i, j);
      NotesAreBehind(k, items[at]);
      forall n: nat | n < |NotesOf(k, items[at])|
        ensures At(TreeNotes(k, items), |AllNotes(k, items[..at])| + n) == NotesOf(k, items[at])[n]
      {
        NoteAt(k, items, at, n);
      }
    }
  }

  datatype DecryptedData = DecryptedData(
    treeNotes: seq<Option<TreeNote>>, treeNoteNullifiers: seq<nat>, claimOutputNoteNullifiers: seq<nat>,
    partialStateSecrets: seq<nat>)

  /** What decrypting the blocks should give: each proof's own values, one after the other. */
  function Decrypted(k: Keys, items: seq<Item>): DecryptedData {
    DecryptedData(TreeNotes(k, items), AllNullifiers(k, items), AllClaimNullifiers(k, items), AllSecrets(k, items))
  }

  class BlockDecryptor {
    const keys: Keys

    constructor (keys: Keys)
      ensures this.keys == keys
    {
      this.keys := keys;
    }

    method DecryptBlocks(blocks: seq<Block>) returns (data: DecryptedData)
      requires AllWellFormed(blocks)
      ensures data == Decrypted(keys, AllItems(blocks))
      ensures forall i, j | 0 <= i < |blocks| && 0 <= j < |blocks[i].innerProofData| ::
                SlotDecrypted(keys, blocks, i, j, data.treeNotes)
    {
      var innerProofs, offchain := FlattenBlocks(blocks);
      ghost var items := AllItems(blocks);
      var commitments, inputs := CollectCommitments(innerProofs, items);
      var treeNotes := DecryptOffchainTxData(innerProofs, offchain, commitments, inputs, items);
      var treeNoteNullifiers := ComputeNullifiers(treeNotes, commitments, items);
      var secrets, claims := CollectSecrets(innerProofs, offchain, treeNotes, items);
      data := DecryptedData(treeNotes, treeNoteNullifiers, claims, secrets);
      forall i, j | 0 <= i < |blocks| && 0 <= j < |blocks[i].innerProofData|
        ensures SlotDecrypted(keys, blocks, i, j, data.treeNotes)
      {
        SlotIsDecrypted(keys, blocks, i, j);
      }
    }

    method ComputeNullifiers(treeNotes: seq<Option<TreeNote>>, noteCommitments: seq<Buffer>, ghost items: seq<Item>)
      returns (treeNoteNullifiers: seq<nat>)
      requires treeNotes == TreeNotes(keys, items) && noteCommitments == AllCommitments(items)
      ensures treeNoteNullifiers == AllNullifiers(keys, items)
    {
      hide AllNotes, AllCommitments, AllNullifiers, TreeNotes;
      NullifiersLineUp(keys, items);
      TreeNotesFacts(keys, items);
      NullifiersOfPrefix(keys, AllNotes(keys, items), noteCommitments, |treeNotes|);
      treeNoteNullifiers := [];
      for i := 0 to |treeNotes|
        invariant treeNoteNullifiers == Nullifiers(keys, treeNotes[..i], noteCommitments[..i])
      {
        assert treeNotes[..i + 1][..i] == treeNotes[..i] && noteCommitments[..i + 1][..i] == noteCommitments[..i];
        if treeNotes[i].Some? {
          treeNoteNullifiers := treeNoteNullifiers + [keys.valueNoteNullifier(noteCommitments[i])];
        }
      }
      assert treeNotes[..|treeNotes|] == treeNotes;
      assert AllNotes(keys, items)[..|treeNotes|] == treeNotes;
    }

    method FlattenBlocks(blocks: seq<Block>) returns (innerProofs: seq<InnerProofData>, offchain: seq<Buffer>)
      requires AllWellFormed(blocks)
      ensures Split(innerProofs, offchain, AllItems(blocks))
    {
      innerProofs, offchain := [], [];
      for i := 0 to |blocks|
        invariant Split(innerProofs, offchain, AllItems(blocks[..i]))
      {
        assert blocks[..i + 1][..i] == blocks[..i];
        assert WellFormed(blocks[i]);
        innerProofs := innerProofs + NonPadding(blocks[i].innerProofData);
        offchain := offchain + blocks[i].offchainTxData;
      }
      assert blocks[..|blocks|] == blocks;
    }

    method CollectCommitments(innerProofs: seq<InnerProofData>, ghost items: seq<Item>)
      returns (noteCommitments: seq<Buffer>, inputNullifiers: seq<nat>)
      requires |innerProofs| == |items| && forall i | 0 <= i < |items| :: items[i].proof == innerProofs[i]
      ensures noteCommitments == AllCommitments(items) && inputNullifiers == AllInputs(items)
    {
      noteCommitments, inputNullifiers := [], [];
      for i := 0 to |innerProofs|
        invariant noteCommitments == AllCommitments(items[..i]) && inputNullifiers == AllInputs(items[..i])
      {
        assert items[..i + 1][..i] == items[..i];
        var proof := innerProofs[i];
        if IsPayment(proof.proofId) {
          noteCommitments := noteCommitments + [proof.noteCommitment1, proof.noteCommitment2];
          inputNullifiers := inputNullifiers + [proof.nullifier1, proof.nullifier2];
        } else if proof.proofId == DEFI_DEPOSIT {
          noteCommitments := noteCommitments + [proof.noteCommitment2];
          inputNullifiers := inputNullifiers + [proof.nullifier2];
        }
      }
      assert items[..|items|] == items;
    }

    method DecryptOffchainTxData(innerProofs: seq<InnerProofData>, offchain: seq<Buffer>, noteCommitments: seq<Buffer>,
                                 inputNullifiers: seq<nat>, ghost items: seq<Item>)
      returns (treeNotes: seq<Option<TreeNote>>)
      requires Split(innerProofs, offchain, items)
      requires noteCommitments == AllCommitments(items) && inputNullifiers == AllInputs(items)
      ensures treeNotes == TreeNotes(keys, items)
    {
      hide AllNotes, AllViewingKeys, AllCommitments, AllInputs, RecoverNote;
      var viewingKeys := CollectViewingKeys(innerProofs, offchain, items);
      StreamLengths(keys, items);
      var decryptedNotes := BatchDecryptNotes(viewingKeys);
      treeNotes := [];
      for i := 0 to |decryptedNotes|
        invariant |treeNotes| == i && treeNotes == AllNotes(keys, items)[..i]
      {
        StreamsLineUp(keys, items, i);
        var note := Recover(decryptedNotes[i], viewingKeys[i], inputNullifiers[i], noteCommitments[i]);
        treeNotes := treeNotes + [note];
      }
    }

    method Recover(decrypted: Option<DecryptedNote>, ghost key: Buffer, inputNullifier: nat, noteCommitment: Buffer)
      returns (note: Option<TreeNote>)
      requires decrypted == keys.decrypt(key)
      ensures note == RecoverNote(keys, key, inputNullifier, noteCommitment)
    {
      if decrypted.None? {
        return None;
      }
      var treeNote := TreeNote(decrypted.value.value, decrypted.value.assetId, decrypted.value.noteSecret,
                               inputNullifier);
      note := if keys.matches(treeNote, noteCommitment) then Some(treeNote) else None;
    }

    method CollectViewingKeys(innerProofs: seq<InnerProofData>, offchain: seq<Buffer>, ghost items: seq<Item>)
      returns (viewingKeys: seq<Buffer>)
      requires Split(innerProofs, offchain, items)
      ensures viewingKeys == AllViewingKeys(keys, items)
    {
      viewingKeys := [];
      for i := 0 to |innerProofs|
        invariant viewingKeys == AllViewingKeys(keys, items[..i])
      {
        assert items[..i + 1][..i] == items[..i];
        if IsPayment(innerProofs[i].proofId) {
          var (key1, key2) := keys.viewingKeys(offchain[i]);
          viewingKeys := viewingKeys + [key1, key2];
        } else if innerProofs[i].proofId == DEFI_DEPOSIT {
          viewingKeys := viewingKeys + [keys.defiViewingKey(offchain[i])];
        }
      }
      assert items[..|items|] == items;
    }

    /** Only keys that decrypt set an entry, so the array ends with the last of them. */
    method BatchDecryptNotes(viewingKeys: seq<Buffer>) returns (notes: seq<Option<DecryptedNote>>)
      ensures |notes| == NumDecrypted(keys, viewingKeys)
      ensures forall i | 0 <= i < |notes| :: notes[i] == keys.decrypt(viewingKeys[i])
    {
      notes := [];
      for i := 0 to |viewingKeys|
        invariant |notes| == NumDecrypted(keys, viewingKeys[..i])
        invariant forall j | 0 <= j < |notes| :: notes[j] == keys.decrypt(viewingKeys[j])
      {
        assert viewingKeys[..i + 1][..i] == viewingKeys[..i];
        var note := keys.decrypt(viewingKeys[i]);
        if note.Some? {
          assert forall j | |notes| <= j < i :: viewingKeys[..i][j] == viewingKeys[j];
          notes := notes + seq(i - |notes|, _ => None) + [note];
        }
      }
      assert viewingKeys[..|viewingKeys|] == viewingKeys;
    }

    method CollectSecrets(innerProofs: seq<InnerProofData>, offchain: seq<Buffer>, treeNotes: seq<Option<TreeNote>>,
                          ghost items: seq<Item>)
      returns (partialStateSecrets: seq<nat>, claimOutputNoteNullifiers: seq<nat>)
      requires Split(innerProofs, offchain, items)
      requires treeNotes == TreeNotes(keys, items)
      ensures partialStateSecrets == AllSecrets(keys, items)
      ensures claimOutputNoteNullifiers == AllClaimNullifiers(keys, items)
    {
      NothingCollected(keys, items);
      hide TreeNotes, AllNotes, AllSecrets, AllClaimNullifiers, RecoverNote, At, KeyStream, InputStream;
      partialStateSecrets, claimOutputNoteNullifiers := [], [];
      var treeNoteStartIndex := 0;
      for i := 0 to |innerProofs|
        invariant treeNoteStartIndex == |AllNotes(keys, items[..i])|
        invariant partialStateSecrets == AllSecrets(keys, items[..i])
        invariant claimOutputNoteNullifiers == AllClaimNullifiers(keys, items[..i])
      {
        StreamsStep(keys, items, i);
        if innerProofs[i].proofId == DEFI_DEPOSIT { NoteAt(keys, items, i, 0); }
        var proof := innerProofs[i];
        if IsPayment(proof.proofId) {
          treeNoteStartIndex := treeNoteStartIndex + 2;
        } else if proof.proofId == DEFI_DEPOSIT {
          var changeNote := At(treeNotes, treeNoteStartIndex);
          treeNoteStartIndex := treeNoteStartIndex + 1;
          if changeNote.Some? {
            partialStateSecrets := partialStateSecrets
              + [keys.deriveNoteSecret(keys.partialStateSecretKey(offchain[i]))];
          }
        } else if proof.proofId == DEFI_CLAIM {
          claimOutputNoteNullifiers := claimOutputNoteNullifiers
            + [keys.valueNoteNullifier(proof.noteCommitment1), keys.valueNoteNullifier(proof.noteCommitment2)];
        }
      }
      assert items[..|items|] == items;
    }
  }

  /** Reading the notes stream after the notes of the proofs before gives a proof its own notes. */
  lemma NoteAt(k: Keys, items: seq<Item>, i: nat, j: nat)
    requires i < |items| && j < |NotesOf(k, items[i])|
    ensures At(TreeNotes(k, items), |AllNotes(k, items[..i])| + j) == NotesOf(k, items[i])[j]
  {
    NotesInPlace(k, items, i);
    TreeNotesFacts(k, items);
    PrefixElement(AllNotes(k, items[..i]), NotesOf(k, items[i]), AllNotes(k, items), j);
  }

  lemma PrefixElement<T>(a: seq<T>, b: seq<T>, all: seq<T>, j: nat)
    requires a + b <= all && j < |b|
    ensures |a| + j < |all| && all[|a| + j] == b[j]
  {
    assert (a + b)[|a| + j] == all[|a| + j];
  }

  lemma NothingCollected(k: Keys, items: seq<Item>)
    ensures AllNotes(k, items[..0]) == [] && AllSecrets(k, items[..0]) == [] && AllClaimNullifiers(k, items[..0]) == []
  {
  }

  lemma StreamsStep(k: Keys, items: seq<Item>, i: nat)
    requires i < |items|
    ensures AllNotes(k, items[..i + 1]) == AllNotes(k, items[..i]) + NotesOf(k, items[i])
    ensures AllNullifiers(k, items[..i + 1]) == AllNullifiers(k, items[..i]) + NullifiersOf(k, items[i])
    ensures AllSecrets(k, items[..i + 1]) == AllSecrets(k, items[..i]) + SecretsOf(k, items[i])
    ensures AllClaimNullifiers(k, items[..i + 1]) == AllClaimNullifiers(k, items[..i]) + ClaimNullifiersOf(k, items[i])
  {
    assert items[..i + 1][..i] == items[..i];
  }

  ghost predicate Split(innerProofs: seq<InnerProofData>, offchain: seq<Buffer>, items: seq<Item>) {
    && |innerProofs| == |offchain| == |items|
    && forall i | 0 <= i < |items| :: items[i] == Item(innerProofs[i], offchain[i])
  }

  /** Proof i's notes sit in the whole stream right after those of the proofs before it. */
  lemma {:induction false} NotesInPlace(k: Keys, items: seq<Item>, i: nat)
    requires i < |items|
    ensures AllNotes(k, items[..i]) + NotesOf(k, items[i]) <= AllNotes(k, items)
  {
    var front := items[..|items| - 1];
    if i < |front| {
      assert front[..i] == items[..i] && front[i] == items[i];
      NotesInPlace(k, front, i);
    }
  }

  lemma {:induction false} NullifiersInPlace(k: Keys, items: seq<Item>, i: nat)
    requires i < |items|
    ensures AllNullifiers(k, items[..i]) + NullifiersOf(k, items[i]) <= AllNullifiers(k, items)
  {
    hide NullifiersOf;
    var front := items[..|items| - 1];
    if i < |front| {
      assert front[..i] == items[..i] && front[i] == items[i];
      NullifiersInPlace(k, front, i);
    }
  }

  lemma {:induction false} SecretsInPlace(k: Keys, items: seq<Item>, i: nat)
    requires i < |items|
    ensures AllSecrets(k, items[..i]) + SecretsOf(k, items[i]) <= AllSecrets(k, items)
  {
    hide SecretsOf;
    var front := items[..|items| - 1];
    if i < |front| {
      assert front[..i] == items[..i] && front[i] == items[i];
      SecretsInPlace(k, front, i);
    }
  }

  lemma {:induction false} ClaimNullifiersInPlace(k: Keys, items: seq<Item>, i: nat)
    requires i < |items|
    ensures AllClaimNullifiers(k, items[..i]) + ClaimNullifiersOf(k, items[i]) <= AllClaimNullifiers(k, items)
  {
    hide ClaimNullifiersOf;
    var front := items[..|items| - 1];
    if i < |front| {
      assert front[..i] == items[..i] && front[i] == items[i];
      ClaimNullifiersInPlace(k, front, i);
    }
  }
}
