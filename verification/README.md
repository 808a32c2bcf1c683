# Aztec Connect: a verified model

A Dafny model of the parts of Aztec Connect in which separately written code has to agree, or in
which a state machine has to keep something over every run, with proofs of those properties.
`dafny verify dfyconfig.toml` checks all of it.

## What is modelled

**The sequencer (falafel).** `rollup_creator.dfy`, `rollup_build.dfy` and `world_state.dfy` hold the
code that builds a rollup and the code that rebuilds the same state from what was published, over the
four merkle trees of `world_state_db.dfy`: a tree is a map from index to leaf with default zero, and
its root an arbitrary function of the contents. `rollup.dfy` and `rollup_trees.dfy` hold bridge calls,
nonces, alignment and padding. `rollup_agreement.dfy` proves that the two agree, for one rollup and
over every run of nodes; `rollup_contents.dfy` says, tx by tx, what is in those trees and what is
published. `claims.dfy` follows a DeFi claim from its note to its interaction note,
`payouts.dfy` divides an interaction's output, and `tx_purge.dfy` is the purge of pending txs.

**The SDK (alpha-sdk).** `block_decryptor.dfy` flattens blocks into streams, `block_processor.dfy`
consumes them with cursors, `proof_effects.dfy` spells out what each kind of proof gives an account,
`note_places.dfy` finds those notes in the sequencer's trees, and `account_state.dfy` applies the
result to an account's tables, those of `account_tables.dfy`. `account_batches.dfy` says what each
proof and result does by itself and proves when a batch does the same, `account_claims.dfy` what a
claim loses otherwise, and `account_balance.dfy` follows the balance. `core_sync.dfy` decides what
to fetch and who advances. `note_picker.dfy`, `rounding.dfy` and `fees.dfy` choose notes and search
for fees. `message_chunks.dfy` cuts messages and reassembles them.

**The event index and response cache (kebab).** `event_store.dfy`, `event_indexer.dfy` and
`event_server.dfy` copy the chain's events into a store through failing requests and transactions;
`response_cache.dfy` is the cache that is emptied when a new block is seen.

**The block cache (block-server).** `block_cache.dfy` and `block_server.dfy`.

**Formats.** `byte_buffers.dfy` and `rollup_proof.dfy` are the old rollup proof format
(account-migrator), `units.dfy` prints and parses decimal amounts (blockchain).

Code that changes state is a class or a method with loops, each proved against a function or relation
that says what it computes; what the code promises is then proved about that function, over all
inputs or all runs. Hashes, encryption, key derivation and note recovery are arbitrary functions, and
are assumed to be free of collisions only where a lemma says so (`CollisionFree`, `Injective`).
Requests, transactions and replies succeed, fail or are delayed as parameters decide.

## What the proofs show about the code

Where a property one would expect fails, the code was kept as it is and the exact condition proved.

- After a rollup that uses all inner rollups the builder's data tree can be smaller than a
  replayer's. Contents, roots and the place of the next rollup still agree
  (`DataSizesAgreeExactly`, `EquivalentBases`).
- Working trees with the published roots have the replayer's contents whatever was put in them, but
  they are ready for the next rollup exactly if they have its place, too (`BlockContentsAgree`,
  `NodeFollowsChainIff`). What a pipeline leaves there, one that was refused a publication and built
  on included, either has it or never has those roots (`NodeFollowsChain`).
- The purge also follows a zero link: once a discarded tx has a zero commitment, every later tx
  without a link is discarded (`UnlinkedTxDiscarded`, and from the list alone `UnlinkedTxKept`).
- A child listed before its discarded parent is kept (`OrderMatters`). A child is refused without its
  parent (tx_receiver.ts:317-335), and pending txs are listed by the time they were created, which
  within a request is made to rise (tx_receiver.ts:213-222). The order can still be the other way for
  a child in a later request: the parent's time can lie ahead of the clock, or the clock be set back.
- The decrypted notes end with the last viewing key that decrypts, so the notes cursor can end past
  the stream; reading there gives nothing, as it should (`CursorsEnd`).
- The SDK looks for a claim in the database only, so a claim in a batch is processed as it would be
  alone exactly if its deposit is not earlier in the batch and no earlier result says anything new
  about that deposit (`ClaimMatchesIffApart`). Otherwise it is missed
  (`ClaimBesideItsDepositIsMissed`), or refunded instead of paid (`ClaimBesideItsResultIsRefunded`).
  `BatchApart` tells from the blocks and the database whether blocks can be one batch; with claims of
  others only they always can (`OthersClaimsApart`). Then notes, claims and deposit records do not
  depend on the batching (`BatchApplied`, `BatchingDoesNotMatter`).
- The fee search counts every pending note as spendable, while a payment may use one. Whatever it
  settles on can be paid exactly if all notes together can, which for notes with values means that at
  most one is pending (`SettledIsPayableIff`). With two it can settle on a fee that no payment can
  spend (`SettledButNotPayable`).
- Assigning the block number at start-up (kebab server.ts:109) without emptying the cache can put an
  older state after a receipt, exactly if something older is cached (`UnpurgedIsFreshIff`,
  `StaleReadAfterStartup`).
- A provider reply shorter than asked for leaves the block cache right but shifts the blocks of the
  read it was for (`ReadIsExactIffRepliesAreFull`), which then has an empty slot or too few
  (`ReadIsExactIffNoGaps`).
- Parsing adds the fraction to a negative whole part, so negative fractions do not come back
  (`RoundTripIsExactIff`). The comment in units.ts promises no trailing zeros, but cutting to the
  precision after trimming can expose some (`PrintsTrailingZeroIff`).
- With zero decimals and another amount than zero the digits are printed again after a point, up to
  the precision: 12 becomes "12.12", or "12." with precision 0 (`PrintedAgain`). With a precision
  above 0 such a text says another amount, and no other text does (`DenotesAmountIff`). Parsing drops
  what is printed again, so the round trip rounds down all the same (`PrintedIsRead`,
  `RoundTripRoundsDown`).
- The test for an empty interaction note (falafel world_state.ts:773) compares with an empty buffer and
  never skips; the model puts every note, and zero leaves do not change contents.

## Model

| member | source | states |
|---|---|---|
| RollupAgreement.BuilderMatchesReplayer | yarn-project/falafel/src/world_state.ts:742-779 | building a rollup with the creator and the aggregator and replaying what is published of it give the same contents in all four trees, the data root at root index id + 1, matching published roots, and the next rollup one outer subtree further |
| RollupContents.RollupHoldsItsTxs | yarn-project/falafel/src/rollup_creator.ts:110-162 | the builder and every replayer end with exactly the txs in their trees: at each tx's own leaves its two notes, a DeFi deposit's first one completed with its interaction's nonce and the larger half of its fee, no other data leaf changed, a nullifier leaf 1 exactly if it was or some tx has that nullifier, and the interaction notes |
| RollupContents.PublishedIsTxs | yarn-project/falafel/src/rollup_aggregator.ts:137-154 | what is published is each tx in its slot with its own kind, notes and nullifiers, padding in every other slot, and the bridge calls and interaction notes filled up to 32 |
| RollupAgreement.NodesAgreeOverEveryRun | yarn-project/falafel/src/world_state.ts:341-369 | over every run of published rollups, each built by a node in agreement at the time, a node whose own pipeline was idle, part way, finished, or building on after a refused publication (a collision-free root assumed) ends with the contents of replaying the published rollups |
| RollupAgreement.BlockContentsAgree | yarn-project/falafel/src/world_state.ts:354-369 | committing when all four roots match and otherwise rolling back and replaying lead to the replayed contents of all four trees, whatever the pipeline had put in the working trees |
| RollupAgreement.NodeFollowsChainIff | yarn-project/falafel/src/world_state.ts:354-369 | and to trees ready for the next rollup exactly if working trees with the published roots have room for it where a replayer has |
| RollupAgreement.NodeFollowsChain | yarn-project/falafel/src/world_state.ts:354-369 | so they do for every pipeline that has built this rollup from the committed trees or whose working trees are elsewhere |
| RollupAgreement.ElsewhereNeverMatches | yarn-project/falafel/src/world_state.ts:354-361 | working trees without the data root of the rollup, with a later one, or with a note beyond its subtree never have the published roots |
| RollupAgreement.BuiltOnIsElsewhere | yarn-project/falafel/src/rollup_publisher.ts:129-133 | a pipeline that is refused a publication and goes on inserting txs with notes has such trees |
| RollupAgreement.BuiltAgainIsElsewhere | yarn-project/falafel/src/pipeline_coordinator/index.ts:81-97 | and so has one that aggregates again |
| RollupAgreement.EquivalentBases | yarn-project/falafel/src/world_state.ts:728-780 | nodes with equal contents but different tree sizes publish the same rollup and stay equivalent when replaying it |
| RollupAgreement.DataSizesAgreeExactly | yarn-project/falafel/src/rollup_aggregator.ts:131-135 | the exact condition under which builder and replayer end with data trees of the same size; with all inner rollups used and room left they do not |
| RollupAgreement.InnerStarts | yarn-project/falafel/src/rollup_creator.ts:84-91 | the k-th inner rollup starts 2 * k * innerRollupSize after the outer start |
| RollupCreation.RollupCreator.CreateRollup | yarn-project/falafel/src/rollup_creator.ts:76-209 | one inner rollup: its start, the trees after it, the bridge calls after it and the link index of every proof |
| RollupCreation.RollupCreator.FindDataStart | yarn-project/falafel/src/rollup_creator.ts:89-91 | the start is the first multiple of the subtree size at or after the tree size |
| RollupCreation.RollupCreator.InsertTxs | yarn-project/falafel/src/rollup_creator.ts:112-162 | the txs of an inner rollup leave their published commitments and nullifiers in the trees and their bridge calls in the list |
| RollupCreation.RollupCreator.InsertTx | yarn-project/falafel/src/rollup_creator.ts:127-157 | one tx puts its two notes, that of a DeFi deposit completed, and sets exactly its non-zero nullifiers |
| RollupCreation.RollupCreator.AddBridgeCallData | yarn-project/falafel/src/rollup_creator.ts:131-137 | a bridge call keeps its place in the list or is appended, and its index is its first position |
| RollupCreation.RollupCreator.GetLinkedCommitments | yarn-project/falafel/src/rollup_creator.ts:214-266 | each link index is the last leaf below the tree size that holds the linked commitment, or 0 for no link, a link into this rollup or an unknown one; over the whole call every leaf is read at most once, from the last down |
| RollupCreation.RollupCreator.ScanBack | yarn-project/falafel/src/rollup_creator.ts:238-255 | scanning on extends the reversed cache down to the next hit or to the first leaf |
| RollupCreation.CacheHit | yarn-project/falafel/src/rollup_creator.ts:227-234 | a hit in the reversed cache is the last hit in the tree, and a miss rules out the part of the tree that is cached |
| RollupCreation.LinkIndexIs | yarn-project/falafel/src/rollup_creator.ts:221-256 | the link index is 0 for no link or a link to a tx before it in the rollup, and else the last leaf with the linked commitment or 0 |
| RollupTrees.AlignUpFormula | yarn-project/falafel/src/rollup_creator.ts:91-91 | the closed formula for the start is the first aligned index |
| RollupTrees.GetPutSlots | yarn-project/falafel/src/world_state.ts:752-755 | which leaf holds which commitment after the published slots were put |
| RollupTrees.GetPutNullifiers | yarn-project/falafel/src/world_state.ts:756-765 | after the published slots were put a nullifier leaf is 1 exactly if it was or some slot that is not padding has that nullifier |
| Rollup.PipelineSizesNest | yarn-project/falafel/src/rollup_pipeline.ts:41-42 | the sizes the pipeline computes for any numbers of txs and proofs give nested, aligned subtrees |
| Rollup.NonceIsUnique | yarn-project/falafel/src/rollup_creator.ts:131-137 | with at most 32 bridge calls a rollup, an interaction nonce names one rollup and one bridge call |
| Rollup.AddBridgesFacts | yarn-project/falafel/src/rollup_creator.ts:131-136 | the list of bridge calls only grows, covers all deposits and stays free of duplicates |
| Rollup.OnlyDepositsAddBridges | yarn-project/falafel/src/rollup_creator.ts:130-137 | the list has the bridge calls it had and those of the DeFi deposits, and no others |
| Rollup.PublishStable | yarn-project/falafel/src/world_state.ts:498-500 | the nonce a reader computes from the final list is the one the note was completed with when the list was shorter |
| RollupBuild.RollupAggregator.CreateRootRollup | yarn-project/falafel/src/rollup_aggregator.ts:108-154 | the aggregator enters the data root and, if inner rollups are missing, closes the outer subtree |
| RollupBuild.RollupCoordinator.Init | yarn-project/falafel/src/pipeline_coordinator/index.ts:159-178 | the interaction notes of the last rollup are entered from 32 * rollupId on |
| RollupBuild.RollupCoordinator.BuildRollup | yarn-project/falafel/src/pipeline_coordinator/rollup_coordinator.ts:435-473 | interaction notes, inner rollups and root rollup together leave the trees the builder function gives |
| RollupBuild.RollupCoordinator.BuildChunks | yarn-project/falafel/src/pipeline_coordinator/rollup_coordinator.ts:435-452 | the inner rollups one after the other share one list of bridge calls |
| WorldStateSync.WorldState.AddRollupToWorldState | yarn-project/falafel/src/world_state.ts:728-780 | replaying a published rollup, skipped when the tree already reaches past its start |
| WorldStateSync.WorldState.AddInnerProof | yarn-project/falafel/src/world_state.ts:752-766 | what one published inner proof puts |
| WorldStateSync.WorldState.UpdateDbs | yarn-project/falafel/src/world_state.ts:341-369 | a rollup with another id is ignored; otherwise the working trees are committed or replaced |
| WorldStateSync.WorldState.ProcessDefiProofs | yarn-project/falafel/src/world_state.ts:480-530 | the claims recorded for a rollup, in order |
| Claims.ClaimsPointAtTheirNotes | yarn-project/falafel/src/world_state.ts:486-525 | one claim per deposit, in order, each naming the data leaf that holds its claim note, with the nonce and fee that note was completed with |
| Claims.ClaimProofFindsItsNote | yarn-project/falafel/src/claim_proof_creator.ts:47-53 | the index a claim proof uses is where replaying the following rollup puts the interaction note of the result with the claim's nonce |
| TxPurge.Purger.ValidateTxs | yarn-project/falafel/src/world_state.ts:396-478 | the ids returned are those of the discarded txs: every tx with a non-zero nullifier, the first or the second, whose leaf is 1 is among them, and of txs with different ids exactly those that have a reason |
| TxPurge.KeptIffNoReason | yarn-project/falafel/src/world_state.ts:407-476 | a tx is kept exactly if neither of its nullifiers is spent, no discarded tx before it has the commitment it links to, and, for a deposit, the kept ones before it of its owner and asset leave enough |
| TxPurge.Purger.CheckDeposit | yarn-project/falafel/src/world_state.ts:448-475 | the running budget of an owner and asset is the sum of the kept deposits |
| TxPurge.DecisionsAreDetermined | yarn-project/falafel/src/world_state.ts:407-476 | the reasons determine all decisions |
| TxPurge.KeptDepositsAreFunded | yarn-project/falafel/src/world_state.ts:468-475 | the kept deposits of every owner and asset fit in what the contract holds |
| TxPurge.NoKeptDescendantOfDiscarded | yarn-project/falafel/src/world_state.ts:416-422 | with parents listed first, nothing kept descends from anything discarded |
| TxPurge.OrderMatters | yarn-project/falafel/src/world_state.ts:416-422 | a child of a discarded tx, the only one with the commitment it spends, is kept exactly if it is listed first and neither spends a spent note nor overdraws |
| TxPurge.OrderMattersExample | yarn-project/falafel/src/world_state.ts:416-422 | two txs, purged in either order |
| TxPurge.UnlinkedTxDiscarded | yarn-project/falafel/src/world_state.ts:411-422 | a tx without a link that spends nothing spent and overdraws nothing is discarded exactly when an earlier discarded tx has a zero commitment |
| TxPurge.UnlinkedTxKept | yarn-project/falafel/src/world_state.ts:411-475 | from the list and the chain alone: such a tx is kept if no earlier tx has a zero commitment and all deposits up to it fit in what the contract holds |
| TxPurge.PurgeIsComplete | yarn-project/falafel/src/world_state.ts:386-394 | purging what one pass kept discards nothing more |
| BlockDecryption.BlockDecryptor.DecryptBlocks | yarn-project/alpha-sdk/src/block_decryptor/block_decryptor.ts:69-148 | the flat streams are each proof's own, one after the other: at a payment's place the notes behind its two viewing keys with its two nullifiers and commitments, at a deposit's the note behind its key with its second nullifier and commitment, and none exactly where the key does not decrypt or the note does not match |
| BlockDecryption.NotesAreBehind | yarn-project/alpha-sdk/src/block_decryptor/block_decryptor.ts:73-100 | the notes of a proof, from its own fields |
| BlockDecryption.BlockDecryptor.DecryptOffchainTxData | yarn-project/alpha-sdk/src/block_decryptor/block_decryptor.ts:44-60 | recovering position by position gives the notes of all proofs, up to the last key that decrypts |
| BlockDecryption.BlockDecryptor.ComputeNullifiers | yarn-project/alpha-sdk/src/block_decryptor/block_decryptor.ts:105-113 | one nullifier for each note recovered, in order |
| BlockDecryption.BlockDecryptor.CollectSecrets | yarn-project/alpha-sdk/src/block_decryptor/block_decryptor.ts:115-145 | one secret for each deposit whose note was recovered, two nullifiers for each claim |
| BlockDecryption.StreamsLineUp | yarn-project/alpha-sdk/src/block_decryptor/block_decryptor.ts:62-103 | viewing keys, nullifiers and commitments at one position belong to one note of one proof |
| BlockDecryption.NoteAt | yarn-project/alpha-sdk/src/block_processor/index.ts:52-53 | after the notes of the proofs before, the stream holds a proof's own notes |
| BlockProcessing.BlockProcessor.ProcessBlocks | yarn-project/alpha-sdk/src/block_processor/index.ts:25-155 | walking the blocks with four cursors computes what each proof means from the proof and its own off-chain entry alone, and the cursors end where the streams of all blocks end |
| BlockProcessing.BlockProcessor.ProcessBlock | yarn-project/alpha-sdk/src/block_processor/index.ts:34-151 | one block: its proofs, then its interaction results |
| BlockProcessing.BlockProcessor.ProcessProofs | yarn-project/alpha-sdk/src/block_processor/index.ts:40-139 | the off-chain index counts the proofs that are not padding |
| BlockProcessing.BlockProcessor.ProcessProof | yarn-project/alpha-sdk/src/block_processor/index.ts:48-138 | one proof, and how far it moves each cursor |
| ProofEffects.PaymentGives | yarn-project/alpha-sdk/src/block_processor/index.ts:49-82 | a payment gives the account its own of the two notes, each with its own commitment, nullifier and place, and takes those of its notes that it spends |
| ProofEffects.DepositGives | yarn-project/alpha-sdk/src/block_processor/index.ts:95-121 | a DeFi deposit gives the change, and keeps the claim and the record with the nonce that the block's list of bridge calls determines |
| ProofEffects.ClaimGives | yarn-project/alpha-sdk/src/block_processor/index.ts:335-419 | a successful claim gives exactly the outputs that are not zero, A with the first commitment and nullifier and B with the second, in their own or virtual assets; a failed one gives the deposit back in each input asset |
| NotePlaces.NotesAreInTheTree | yarn-project/alpha-sdk/src/block_processor/index.ts:40-48 | at the index recorded for each note made of a rollup, whoever replays that rollup has the note's commitment |
| BlockProcessing.BlockProcessor.ProcessPayment | yarn-project/alpha-sdk/src/block_processor/index.ts:49-82 | a payment takes its own two notes and one nullifier for each |
| BlockProcessing.BlockProcessor.ProcessDefiDeposit | yarn-project/alpha-sdk/src/block_processor/index.ts:95-121 | a deposit takes its own change note, nullifier and secret |
| BlockProcessing.BlockProcessor.ProcessDefiInteractionResults | yarn-project/alpha-sdk/src/block_processor/index.ts:424-453 | each result finalises its deposits from this batch or else from the database |
| BlockProcessing.BlockProcessor.FinaliseDefiTxs | yarn-project/alpha-sdk/src/block_processor/index.ts:441-449 | the outputs recorded for a deposit are those of the sequencer's own division |
| BlockProcessing.CursorsAreAligned | yarn-project/alpha-sdk/src/block_processor/index.ts:30-33 | at its turn every cursor points at what the decryptor made from this proof |
| BlockProcessing.CursorsEnd | yarn-project/alpha-sdk/src/block_processor/index.ts:30-33 | three cursors end exactly at the end of their streams, and the notes cursor does so exactly if the last viewing key decrypts |
| BlockProcessing.FindRow | yarn-project/alpha-sdk/src/database/dexie_database.ts:435-438 | the first row with a nullifier, or that there is none |
| BlockProcessing.FinalisedConservesOutput | yarn-project/alpha-sdk/src/block_processor/index.ts:441-449 | outputs recorded for the deposits that make up an interaction do not exceed its output and fall short by less than one unit each |
| DefiPayouts.PayoutsConserveOutput | yarn-project/falafel/src/claim_proof_creator.ts:138-145 | floored shares of the whole input sum to at most the output and to more than the output less one per deposit |
| DefiPayouts.PayoutsBound | yarn-project/falafel/src/claim_proof_creator.ts:138-145 | the same for any deposits, against their exact share |
| AccountBatches.BatchMatchesSteps | yarn-project/alpha-sdk/src/account_state/index.ts:117-149 | after any blocks that can be one batch, the processed txs and the tables are as they are kept part way through: claims, nonces and records of deposits included |
| AccountBatches.BatchApplied | yarn-project/alpha-sdk/src/account_state/index.ts:117-149 | applying such a batch leaves exactly the notes, claims and deposit records that its proofs and results leave one at a time, each looking things up in the tables at its turn |
| AccountBatches.ItemKeepsBatch | yarn-project/alpha-sdk/src/block_processor/index.ts:40-139 | one more proof processed in a batch is one more step on the tables |
| AccountBatches.ResultsKeepBatch | yarn-project/alpha-sdk/src/block_processor/index.ts:424-453 | results finalise, from the batch or else from the database, the same deposits that the tables hold with their nonces |
| AccountBatches.ResultsMatch | yarn-project/alpha-sdk/src/block_processor/index.ts:424-453 | after a block's results every stored deposit of the account whose nonce has one is recorded with what the last of them says, and every other is unchanged |
| AccountBatches.ClaimMatchesIffApart | yarn-project/alpha-sdk/src/block_processor/index.ts:122-136 | a claim in a batch is processed as with everything before it applied exactly if its deposit is not earlier in the batch and no earlier result of its interaction says anything new about that deposit |
| AccountBatches.OthersClaimsChangeNothing | yarn-project/alpha-sdk/src/block_processor/index.ts:123-126 | a claim of nobody's or another account's claim note makes no tx and changes no table |
| AccountClaims.OthersClaimsApart | yarn-project/alpha-sdk/src/block_processor/index.ts:123-126 | blocks with claims of others only can always be one batch |
| AccountClaims.ClaimBesideItsResultIsRefunded | yarn-project/alpha-sdk/src/block_processor/index.ts:346-412 | a claim later in a batch than the first, successful, result of its interaction gives back the deposit instead of the output |
| AccountClaims.ClaimBesideItsDepositIsMissed | yarn-project/alpha-sdk/src/block_processor/index.ts:123-126 | a claim later in a batch than its deposit makes no tx |
| AccountSync.EveryRunFollowsChain | yarn-project/alpha-sdk/src/account_state/index.ts:117-151 | whatever slices of the chain arrive, in any order and with overlaps and gaps, as long as what is processed at once can be one batch, the tables are those of every proof and result after the starting point up to the cursor, one at a time |
| AccountSync.BatchingDoesNotMatter | yarn-project/alpha-sdk/src/account_state/index.ts:117-151 | two such runs that reach the same rollup leave the same notes, claims and deposit records |
| AccountSync.CursorOfRun | yarn-project/alpha-sdk/src/account_state/index.ts:118-124 | in any run at all the cursor only rises, and to blocks of the chain |
| AccountTables.FoundIffInTable | yarn-project/alpha-sdk/src/block_processor/index.ts:474-484 | looking among the batch's txs and then in the database finds a note exactly when the tables would hold one had those txs been applied |
| AccountSync.DestroyedNotesExist | yarn-project/alpha-sdk/src/account_state/index.ts:137-141 | a note to be nullified is in the table by then |
| AccountSync.ApplyKeepsDeposits | yarn-project/alpha-sdk/src/block_processor/index.ts:345-346 | a stored claim always finds the record of its deposit |
| AccountSync.ReceiveOfChain | yarn-project/alpha-sdk/src/account_state/index.ts:118-124 | a slice advances the account exactly if it holds the next block |
| AccountSync.AccountState.ProcessBlocks | yarn-project/alpha-sdk/src/account_state/index.ts:117-167 | old blocks are dropped, a gap stops everything, and else the batch is applied and the cursor is the last block's id |
| AccountSync.AccountState.ApplyTx | yarn-project/alpha-sdk/src/account_state/index.ts:136-164 | what one processed tx does to the tables |
| AccountBalances.PaymentMovesBalance | yarn-project/alpha-sdk/src/block_processor/index.ts:175-194 | a payment changes the un-nullified balance by the notes recovered less the un-nullified notes destroyed |
| AccountBalances.DepositMovesBalance | yarn-project/alpha-sdk/src/block_processor/index.ts:95-121 | a DeFi deposit changes the balance by its change less the un-nullified notes destroyed |
| AccountBalances.ClaimMovesBalance | yarn-project/alpha-sdk/src/block_processor/index.ts:335-419 | a claim changes the balance of each asset by both outputs recorded, or by the deposit given back |
| AccountBalances.ClaimPaysShare | yarn-project/alpha-sdk/src/block_processor/index.ts:441-449 | of each output of a successful interaction a claim brings in the deposit's share of the whole input, rounded down |
| CoreSync.CoreSdk.Sync | yarn-project/alpha-sdk/src/core_sdk/core_sdk.ts:956-986 | one step asks for 1 to 128 blocks from the lowest cursor on; with n blocks to use that cursor rises by n; a catch-up step leaves the core alone and stays below it; a wrong root resets the core only; every account is given the same blocks, and is where what it was given since its starting point leads it |
| CoreSync.CoreSdk.SyncUserStates | yarn-project/alpha-sdk/src/core_sdk/core_sdk.ts:993-1009 | a catch-up uses no block beyond what was asked for |
| CoreSync.CoreSdk.SyncBoth | yarn-project/alpha-sdk/src/core_sdk/core_sdk.ts:1016-1071 | core and accounts move together, or the core starts over |
| CoreSync.CoreSdk.AddAccount | yarn-project/alpha-sdk/src/core_sdk/core_sdk.ts:959-964 | an account may join at any starting point |
| CoreSync.RequestsEndOnBoundaries | yarn-project/alpha-sdk/src/core_sdk/core_sdk.ts:966-974 | requests end where the data tree has a multiple of 128 rollups |
| CoreSync.AcceptOfChain | yarn-project/alpha-sdk/src/account_state/index.ts:118-124 | consecutive blocks advance an account within or just before them and no other |
| CoreSync.AccountsFollowChain | yarn-project/alpha-sdk/src/core_sdk/core_sdk.ts:993-1071 | at any time in any run of steps, every account's tables follow the chain, unless it was given at once what cannot be one batch |
| CoreSync.UserSynced | yarn-project/alpha-sdk/src/core_sdk/core_sdk.ts:964-964 | the lowest of the accounts' cursors, or none |
| NotePicking.NotePicker.Pick | yarn-project/alpha-sdk/src/note_picker/index.ts:27-64 | nothing is picked exactly when no allowed selection covers the value; otherwise allowed notes that cover it, two or the fewest possible, at most one of them pending: the largest ones reduced, or one of these that is worth exactly the value |
| NotePicking.NotePicker.FindMinimumNotes | yarn-project/alpha-sdk/src/note_picker/index.ts:102-121 | the fewest notes that cover a value, or 0 |
| NotePicking.NotePicker.GetMaxSpendableNotes | yarn-project/alpha-sdk/src/note_picker/index.ts:146-171 | the largest allowed notes with at most one pending |
| NotePicking.NotePicker.ReducePickedNotesValues | yarn-project/alpha-sdk/src/note_picker/index.ts:66-100 | the notes are replaced by smaller allowed ones in turn until one cannot be; the selection stays spendable, covers the value and is never worth more |
| NotePicking.NotePicker.FindBetter | yarn-project/alpha-sdk/src/note_picker/index.ts:82-96 | the first available note that can take a picked one's place, or none if no note can |
| NotePicking.BestIsOptimal | yarn-project/alpha-sdk/src/note_picker/index.ts:160-168 | no selection of k notes is worth more than the k largest spendable ones |
| NotePicking.MinimumIsOptimal | yarn-project/alpha-sdk/src/note_picker/index.ts:102-121 | no selection covers the value with fewer notes |
| Rounding.RoundUpIsLeast | yarn-project/barretenberg.js/src/rounding/round_up.ts:10-15 | the result is the least multiple of the power of ten at or above the value |
| Rounding.RoundUpToFigures | yarn-project/barretenberg.js/src/rounding/round_up.ts:1-16 | the result has no more than the significant figures asked for, or is the next power of ten, and is off by less than one unit of the last figure |
| Rounding.NeverRoundsDown | yarn-project/barretenberg.js/src/rounding/round_up.ts:1-16 | for any number of figures, none included |
| Rounding.RoundUpMonotone | yarn-project/barretenberg.js/src/rounding/round_up.ts:10-15 | rounding keeps order, also across a change in the number of digits |
| Fees.FeeCalculator.GetTotalFee | yarn-project/alpha-sdk/src/aztec_sdk/fee_calculator.ts:354-369 | the search ends; with at most one pending note a fee it settles on can be paid; one that can be paid is the least payable fee that covers its own merges, and in every other case there is no such fee |
| Fees.FeeCalculator.GetNumMerges | yarn-project/alpha-sdk/src/aztec_sdk/fee_calculator.ts:336-347 | the merges needed for a value |
| Fees.MergesAreFewest | yarn-project/alpha-sdk/src/aztec_sdk/fee_calculator.ts:336-347 | they are the fewest that leave two notes to pay with |
| Fees.SettledIsPayableIff | yarn-project/alpha-sdk/src/aztec_sdk/fee_calculator.ts:349-361 | whatever the search may settle on can be paid exactly if all the notes together can, and for notes with values exactly if at most one is pending |
| Fees.SettledButNotPayable | yarn-project/alpha-sdk/src/aztec_sdk/fee_calculator.ts:349-361 | two pending notes and a value for which the search settles on a fee that no payment can spend |
| Fees.TxValueCalculator.GetMaxTxValueFromFee | yarn-project/alpha-sdk/src/aztec_sdk/tx_value_calculator.ts:228-281 | the best value and least fee over the prefixes of the sorted notes |
| Fees.MaxValueIsOptimal | yarn-project/alpha-sdk/src/aztec_sdk/tx_value_calculator.ts:269-279 | that is the best over all allowed subsets of notes, and the fee the least among those that reach it |
| Fees.QuoteForMaxValue | yarn-project/alpha-sdk/src/aztec_sdk/fee_calculator.ts:354-364 | the fee search quotes for the largest value the fee that value was computed with |
| EventStore.EthLogsDb.AddEthLogs | yarn-project/kebab/src/log_db.ts:56-87 | all logs are added once or none; at most nine attempts with halved batches, each but the last with a fault; without one in the first there is no second |
| EventStore.EthLogsDb.SaveAll | yarn-project/kebab/src/log_db.ts:60-84 | one transaction saves every slice and commits, or is rolled back |
| EventStore.EthLogsDb.GetLastEvent | yarn-project/kebab/src/log_db.ts:111-114 | some event of the topic in its last block |
| EventStore.WindowSplit | yarn-project/kebab/src/topic_event_retriever.ts:71-75 | consecutive block ranges tile the chain's events |
| EventStore.NineAttempts | yarn-project/kebab/src/log_db.ts:77-82 | the batch sizes from 200 down to 1 |
| EventIndexer.RollupSequenceValidation | yarn-project/kebab/src/config.ts:26-47 | success exactly if the ids follow on one by one |
| EventIndexer.ValidationComposes | yarn-project/kebab/src/config.ts:26-47 | validating batch after batch is validating their concatenation |
| EventIndexer.ResumingMissesNothing | yarn-project/kebab/src/topic_event_retriever.ts:57-62 | going on after the last stored event misses nothing that was not yet stored |
| EventIndexer.LatestIsLast | yarn-project/kebab/src/log_db.ts:111-114 | with one event a block the event read back is the last in chain order, so validation goes on from it |
| EventIndexer.TopicEventRetriever.RetrieveNewEvents | yarn-project/kebab/src/topic_event_retriever.ts:56-96 | for any batch size, what is added is exactly the chain's events up to some block, the last one without an error; the stream is called broken only if the chain's ids are, the provider only if some request failed, the database only if some write did in all its attempts |
| EventIndexer.TopicEventRetriever.SyncToLatest | yarn-project/kebab/src/topic_event_retriever.ts:51-54 | what is added carries the stored events on to a later block |
| EventServer.Server.InitialSync | yarn-project/kebab/src/server.ts:80-98 | an attempt, failed or not, loses and repeats no event; if nothing fails it succeeds exactly if the rollup ids are accepted |
| EventServer.Server.RetrieveNewEvents | yarn-project/kebab/src/server.ts:187-230 | all topics move to the same block in one transaction, or nothing changes; if nothing fails they move exactly if the rollup ids are accepted |
| EventServer.Server.Start | yarn-project/kebab/src/server.ts:65-134 | over every run with failures each topic is stored exactly up to a bound, its rollup ids being 0, 1, 2 and so on; bounds equal at the end of start-up stay equal; the server gets ready unless something fails in every attempt or the ids are broken, and every poll in which nothing fails moves all topics on |
| ResponseCache.ReadsFollowReceipts | yarn-project/kebab/src/server.ts:260-318 | in every run from a fresh state, whoever was shown a receipt for block b is afterwards only given reads of states at b or later |
| ResponseCache.SecondReadIsFirst | yarn-project/kebab/src/server.ts:304-318 | until a poll finds a new block, whoever reads the same gets the answer of the first read |
| ResponseCache.Server.ForwardEthRequestViaCache | yarn-project/kebab/src/server.ts:304-318 | a read is answered from the cache or fills it |
| ResponseCache.Server.ForwardReceipt | yarn-project/kebab/src/server.ts:291-296 | a receipt newer than the block number is withheld |
| ResponseCache.Server.Poll | yarn-project/kebab/src/server.ts:114-119 | a new block number empties the cache |
| ResponseCache.RunKeepsFresh | yarn-project/kebab/src/server.ts:111-119 | no cached response is ever older than the block number, which never falls |
| ResponseCache.ReceiptsAreShownAfterPoll | yarn-project/kebab/src/server.ts:114-119 | a withheld receipt is shown once a poll has seen its block |
| ResponseCache.UnpurgedIsFreshIff | yarn-project/kebab/src/server.ts:109-109 | taking a new block number without emptying the cache is safe exactly if nothing cached is older |
| ResponseCache.StaleReadAfterStartup | yarn-project/kebab/src/server.ts:109-109 | otherwise a receipt can be followed by a read of an older state |
| BlockCaching.BlockCache.GetBlocks | yarn-project/block-server/src/blockCache.ts:60-92 | the cached slots asked for and exactly their maximal runs of empty ones, in order |
| BlockCaching.BlockCache.AddBlocks | yarn-project/block-server/src/blockCache.ts:33-46 | blocks spliced in or pushed |
| BlockCaching.RunsAreMaximal | yarn-project/block-server/src/blockCache.ts:66-90 | the runs are disjoint, cannot be made longer, cover every empty slot and ask for as many blocks as there are empty slots |
| BlockServing.RunKeepsInvariant | yarn-project/block-server/src/server.ts:83-93 | over every interleaving of polls and fetches each slot is empty or holds the provider's block, and none is lost |
| BlockServing.RepliesFill | yarn-project/block-server/src/server.ts:83-93 | a poll's answer makes the cache longer by exactly its blocks, and a fetch's fills the slots it has blocks for |
| BlockServing.ReadIsExactIffRepliesAreFull | yarn-project/block-server/src/server.ts:128-146 | in whatever order replies land, a read is the provider's slice exactly if every reply had the length asked for |
| BlockServing.ReadIsExactIffNoGaps | yarn-project/block-server/src/server.ts:128-146 | and exactly if the result has no empty slot and the length asked for |
| BlockServing.Server.GetBlockBuffers | yarn-project/block-server/src/server.ts:121-162 | a read whose missing ranges are fetched, with both conditions, keeping the cache right |
| BlockServing.Server.Start | yarn-project/block-server/src/server.ts:51-80 | start-up with only the last block |
| MessageChunks.RPCWrapper.OnSessionEvent | yarn-project/alpha-sdk/src/eip1193_aztec_wallet_provider/rpc_wrapper.ts:161-213 | a chunk is put in its place, and a message is handed on when it has all |
| MessageChunks.RPCWrapper.CreateOrGetPartialMessage | yarn-project/alpha-sdk/src/eip1193_aztec_wallet_provider/rpc_wrapper.ts:215-226 | the partial message of an id, started by its first chunk |
| MessageChunks.ChunkString | yarn-project/alpha-sdk/src/eip1193_aztec_wallet_provider/rpc_wrapper.ts:150-159 | the text in pieces of the given length, as many as the rounded-up quotient |
| MessageChunks.JoinChunks | yarn-project/alpha-sdk/src/eip1193_aztec_wallet_provider/rpc_wrapper.ts:150-180 | joining the pieces gives the text back |
| MessageChunks.EveryMessageArrivesOnce | yarn-project/alpha-sdk/src/eip1193_aztec_wallet_provider/rpc_wrapper.ts:161-226 | for every interleaving of all chunks of any messages, each with a text is handed on exactly once with that text, nothing else is, and nothing stays behind |
| MessageChunks.ReceiveAll | yarn-project/alpha-sdk/src/eip1193_aztec_wallet_provider/rpc_wrapper.ts:161-226 | what every interleaving keeps after each chunk |
| RollupProof.RollupAndKeysRoundTrip | yarn-project/account-migrator/src/rollup_proof.ts:105-198 | every well-sized rollup and its viewing keys are given back by decoding both encodings |
| RollupProof.RollupRoundTrip | yarn-project/account-migrator/src/rollup_proof.ts:110-198 | the same for the rollup alone, an escape hatch rollup of size 0 with one proof included |
| RollupProof.BytesRoundTrip | yarn-project/account-migrator/src/rollup_proof.ts:110-198 | bytes that decode are given back by encoding exactly if they are not longer than the format and the bytes before each number are zero |
| RollupProof.ViewingKeysRoundTrip | yarn-project/account-migrator/src/rollup_proof.ts:164-178 | viewing keys decode exactly if the data is cut at whole keys, and encode to the part of the data that was read |
| RollupProof.InnerRoundTrip | yarn-project/account-migrator/src/rollup_proof.ts:35-78 | an inner proof is given back by decoding its 384 bytes |
| RollupProof.InnerLayout | yarn-project/account-migrator/src/rollup_proof.ts:35-78 | which bytes of an encoded inner proof are which field |
| RollupProof.RollupLayout | yarn-project/account-migrator/src/rollup_proof.ts:110-154 | which bytes of an encoded rollup are which field |
| RollupProof.KeysLayout | yarn-project/account-migrator/src/rollup_proof.ts:164-178 | a payment that is not padding has the two keys of its turn, every other proof two empty ones |
| RollupProof.TurnsOfKeys | yarn-project/account-migrator/src/rollup_proof.ts:167-173 | the turn is the number of such payments before it |
| RollupProof.InnerBytesRoundTrip | yarn-project/account-migrator/src/rollup_proof.ts:35-78 | and its bytes exactly if the unused ones are zero |
| RollupProof.InnersOfFacts | yarn-project/account-migrator/src/rollup_proof.ts:156-162 | inner proofs decode exactly if the last one's number is within the buffer |
| RollupProof.FromBuffer | yarn-project/account-migrator/src/rollup_proof.ts:140-198 | the reader with its loops and running key count is the decoder the round trips are about |
| RollupProof.ReadHeader | yarn-project/account-migrator/src/rollup_proof.ts:141-154 | the header, or an error for a buffer that is too short |
| RollupProof.ReadViewingKeys | yarn-project/account-migrator/src/rollup_proof.ts:164-178 | the viewing keys of each proof |
| Units.RoundTripRoundsDown | yarn-project/blockchain/src/units.ts:1-35 | printing with any precision and reading back rounds an amount that is not negative down to the decimals kept |
| Units.RoundTripIsExactIff | yarn-project/blockchain/src/units.ts:10-35 | with all decimals the round trip is exact precisely for amounts that are not negative or have no fraction |
| Units.PrintedIsRead | yarn-project/blockchain/src/units.ts:10-35 | what printing and reading back makes of any amount, with any decimals and precision |
| Units.DenotesAmountIff | yarn-project/blockchain/src/units.ts:1-23 | the text says the amount rounded to the precision, as a decimal, exactly if there are decimals, or the precision or the amount is zero |
| Units.PrintedAgain | yarn-project/blockchain/src/units.ts:17-22 | with zero decimals the text is the plain integer exactly for zero; 12 is printed as 12.12 or as 12 and a point |
| Units.PrintsTrailingZeroIff | yarn-project/blockchain/src/units.ts:5-22 | the text ends with a zero after the point exactly if the last digit kept is zero and a later one is not |
| Units.FromBaseUnits | yarn-project/blockchain/src/units.ts:10-23 | printing |
| Units.ScaledTake | yarn-project/blockchain/src/units.ts:22-22 | dropping digits rounds down to a multiple of the last one kept |

## Left out

- Circuits, proofs, hash paths, lists of intermediate roots and fee-asset id sets handed to the circuits.
- That the circuits output the inner slots, padded bridge calls and padded interaction notes of the rollup that was built: `Published` assumes it.
- RollupCreation.RollupCreator.CreateRollup: the paths, intermediate roots and asset ids of the value it returns; interrupts and checkpoints, which abandon a rollup half way, are covered only as a pipeline in progress in `NodeFollowsChain`.
- Sequencer records of rollups, txs, metrics and settlement times, and which txs the coordinator chooses; any grouping into inner rollups is allowed.
- RollupBuild.RollupAggregator.CreateRootRollup: the value it returns, with its paths and roots.
- WorldStateSync.WorldState.UpdateDbs: the claim and rollup records written and the purge that follows, which are separate members here.
- WorldStateSync.WorldState.ProcessDefiProofs: confirming claims by their nullifiers, and the fields of a claim that are copied from its proof.
- TxPurge.Purger.ValidateTxs: reads the chain and the nullifier tree as of one moment.
- BlockProcessing.BlockProcessor.ProcessPayment: the record of the payment with its values.
- ProofEffects.ClaimGives: whether a claim's notes require the account, which depends on a partial state that is not modelled; a positive second output of a bridge call with one output asset, which would have no asset, counts as asset 0.
- BlockProcessing.BlockProcessor.ProcessBlocks: asks that a successful interaction result has a positive input, since the division throws otherwise, and that a block has one off-chain entry for each proof that is not padding.
- Tx records of payments and account proofs, their timestamps and public values, spending keys, aliases and pending notes added before settlement.
- AccountBatches.BatchApplied: the chain is taken to be regular (`RegularBlocks`): a payment's or claim's two output notes differ, a deposit's bridge call is among its rollup's, at most 32, and its tx is new to the account or pending. The condition on whole batches is sufficient; per claim it is exact.
- AccountSync.AccountState.ProcessBlocks: spending keys, records of payments and account proofs, and other accounts and other tabs writing the same database during a batch.
- AccountSync.AccountState.ApplyTx: spending keys and records of payments and account proofs.
- CoreSync.CoreSdk.Sync: each account has a database of its own; the hash tree's own contents enter as whether its root matches, and changes made by other tabs are not modelled.
- Fees.FeeCalculator.GetTotalFee: the DeFi fee search with two input assets, account and registration fees.
- Fees.TxValueCalculator.GetMaxTxValueFromFee: the branch where the fee is paid in another asset, and `getMaxDefiValue`, which do not search for an optimum.
- Fees.MaxValueIsOptimal: over subsets with at most one pending note, because a payment spends no more.
- EventServer.Server.InitialSync: the topics go one after the other, as in `Start`.
- EventServer.Server.RetrieveNewEvents: the topics go one after the other, as in `Start`.
- EventServer.Server.Start: the topics of one pass go one after the other instead of overlapping; they share no events. `eventSyncedToBlockNumber`, log queries and HTTP are left out.
- EventIndexer.LatestIsLast: assumes at most one rollup event a block, as the store orders by block only.
- ResponseCache.Server.ForwardEthRequestViaCache: a request that fails, and then stays cached until the next block.
- ResponseCache.ReadsFollowReceipts: a request that fails stays cached until the next block in the code; failed responses are not modelled.
- BlockServing.RunKeepsInvariant: the provider never sends more blocks than a fetch asked for; the full-sync start-up, which resets the cache on every pass, is left out.
- BlockServing.Server.GetBlockBuffers: fetches that are rejected.
- MessageChunks.RPCWrapper.OnSessionEvent: what is done with the parsed payload.
- MessageChunks.EveryMessageArrivesOnce: timeouts that drop a partial message. An empty text would have no chunks, but `JSON.stringify` never gives one.
- Units.PrintedIsRead: `BigInt` literals other than decimal digits with an optional minus sign.
- The Dexie store that splits large values into sub-keys, mutexes and table conversions.
- JSON converters, controllers, configuration, command lines and user interfaces.
