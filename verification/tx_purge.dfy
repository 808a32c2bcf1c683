/** falafel's purge of pending txs that a newly settled rollup has made invalid. */
module TxPurge {
  import Util
  import opened WorldStateStore
  import opened Rollup

  datatype TxDao = TxDao(id: nat, proof: ProofData)

  /** What the chain says: the nullifier tree and the funds waiting in the contract per owner and asset. */
  datatype Chain = Chain(nulls: Tree, pendingDeposit: (nat, nat) -> nat)

  predicate HasCommitment(p: ProofData, c: Leaf) {
    p.noteCommitment1 == c || p.noteCommitment2 == c
  }

  // ---- the three reasons to discard tx i, given the decisions on the txs before it ----

  ghost predicate ChainsFromDiscarded(txs: seq<TxDao>, kept: seq<bool>, link: Leaf)
    requires |kept| <= |txs|
  {
    exists j :: 0 <= j < |kept| && !kept[j] && HasCommitment(txs[j].proof, link)
  }

  predicate Spent(nulls: Tree, n: nat) { n != 0 && nulls.Get(n) == 1 }

  predicate SpendsSpentNote(nulls: Tree, p: ProofData) {
    Spent(nulls, p.nullifier1) || Spent(nulls, p.nullifier2)
  }

  predicate DepositFrom(p: ProofData, owner: nat, asset: nat) {
    p.proofId == DEPOSIT && p.publicOwner == owner && p.publicAssetId == asset
  }

  /** What the kept deposits of an owner and asset add up to. */
  function KeptDeposits(txs: seq<TxDao>, kept: seq<bool>, owner: nat, asset: nat): nat
    requires |kept| <= |txs|
  {
    if kept == [] then 0
    else
      var n := |kept| - 1;
      KeptDeposits(txs, kept[..n], owner, asset)
      + if kept[n] && DepositFrom(txs[n].proof, owner, asset) then txs[n].proof.publicValue else 0
  }

  predicate Overdraws(chain: Chain, txs: seq<TxDao>, kept: seq<bool>, p: ProofData)
    requires |kept| <= |txs|
  {
    && p.proofId == DEPOSIT
    && KeptDeposits(txs, kept, p.publicOwner, p.publicAssetId) + p.publicValue
         > chain.pendingDeposit(p.publicOwner, p.publicAssetId)
  }

  ghost predicate MustDiscard(chain: Chain, txs: seq<TxDao>, kept: seq<bool>, p: ProofData)
    requires |kept| <= |txs|
  {
    || ChainsFromDiscarded(txs, kept, p.backwardLink)
    || SpendsSpentNote(chain.nulls, p)
    || Overdraws(chain, txs, kept, p)
  }

  /** Decision i is to keep tx i exactly when none of the reasons applies to it. */
  ghost predicate Decided(chain: Chain, txs: seq<TxDao>, kept: seq<bool>) {
    && |kept| <= |txs|
    && forall i | 0 <= i < |kept| :: kept[i] <==> !MustDiscard(chain, txs, kept[..i], txs[i].proof)
  }

  /** The ids of the discarded txs, in order. */
  function Discarded(txs: seq<TxDao>, kept: seq<bool>): seq<nat>
    requires |kept| <= |txs|
  {
    if kept == [] then []
    else
      var n := |kept| - 1;
      Discarded(txs, kept[..n]) + if kept[n] then [] else [txs[n].id]
  }

  datatype PendingDeposit = PendingDeposit(publicOwner: nat, publicAssetId: nat, contractValue: nat,
                                           accumulatedDeposit: nat)

  function FindDeposit(ds: seq<PendingDeposit>, owner: nat, asset: nat): (r: int)
    ensures -1 <= r < |ds|
    ensures r >= 0 ==> ds[r].publicOwner == owner && ds[r].publicAssetId == asset
    ensures r == -1 <==> forall i | 0 <= i < |ds| :: !(ds[i].publicOwner == owner && ds[i].publicAssetId == asset)
  {
    if ds == [] then -1
    else if ds[0].publicOwner == owner && ds[0].publicAssetId == asset then 0
    else
      var r := FindDeposit(ds[1..], owner, asset);
      assert forall i | 1 <= i < |ds| :: ds[i] == ds[1..][i - 1];
      if r == -1 then -1 else r + 1
  }

  /** The running budgets: one entry per owner and asset seen, holding what was kept so far. */
  ghost predicate Tracks(ds: seq<PendingDeposit>, chain: Chain, txs: seq<TxDao>, kept: seq<bool>)
    requires |kept| <= |txs|
  {
    && (forall i | 0 <= i < |ds| ::
          && ds[i].contractValue == chain.pendingDeposit(ds[i].publicOwner, ds[i].publicAssetId)
          && ds[i].accumulatedDeposit == KeptDeposits(txs, kept, ds[i].publicOwner, ds[i].publicAssetId))
    && (forall i, j | 0 <= i < j < |ds| ::
          !(ds[i].publicOwner == ds[j].publicOwner && ds[i].publicAssetId == ds[j].publicAssetId))
    && (forall owner, asset :: FindDeposit(ds, owner, asset) == -1 ==> KeptDeposits(txs, kept, owner, asset) == 0)
  }

  ghost predicate CommitmentsOfDiscarded(cs: set<Leaf>, txs: seq<TxDao>, kept: seq<bool>)
    requires |kept| <= |txs|
  {
    forall c :: c in cs <==> ChainsFromDiscarded(txs, kept, c)
  }

  // ---- the reasons, spelled out ----

  /** One of the tx's notes has been spent: a nullifier that is not zero has leaf 1. */
  predicate NullifiedIn(nulls: Tree, p: ProofData) {
    (p.nullifier1 != 0 && nulls.Get(p.nullifier1) == 1) || (p.nullifier2 != 0 && nulls.Get(p.nullifier2) == 1)
  }

  /** Tx i chains from a tx that is discarded before it, spends a spent note or deposits what is not there. */
  ghost predicate HasReason(chain: Chain, txs: seq<TxDao>, kept: seq<bool>, i: nat)
    requires |kept| <= |txs| && i < |kept|
  {
    var p := txs[i].proof;
    || (exists j ::
          && 0 <= j < i && !kept[j]
          && (txs[j].proof.noteCommitment1 == p.backwardLink || txs[j].proof.noteCommitment2 == p.backwardLink))
    || (p.nullifier1 != 0 && chain.nulls.Get(p.nullifier1) == 1)
    || (p.nullifier2 != 0 && chain.nulls.Get(p.nullifier2) == 1)
    || (p.proofId == DEPOSIT && Util.Sum(DepositsBefore(txs, kept, i, p.publicOwner, p.publicAssetId))
                                + p.publicValue > chain.pendingDeposit(p.publicOwner, p.publicAssetId))
  }

  /** What each tx before tx i deposits of one owner and asset, if it is kept. */
  function DepositsBefore(txs: seq<TxDao>, kept: seq<bool>, i: nat, owner: nat, asset: nat): seq<int>
    requires i <= |kept| <= |txs|
  {
    seq(i, j requires 0 <= j < i =>
      var p := txs[j].proof;
      var own := kept[j] && p.proofId == DEPOSIT && p.publicOwner == owner && p.publicAssetId == asset;
      if own then p.publicValue else 0)
  }

  lemma {:induction false} KeptDepositsIsSum(txs: seq<TxDao>, kept: seq<bool>, i: nat, owner: nat, asset: nat)
    requires i <= |kept| <= |txs|
    ensures KeptDeposits(txs, kept[..i], owner, asset) == Util.Sum(DepositsBefore(txs, kept, i, owner, asset))
  {
    if i > 0 {
      KeptDepositsIsSum(txs, kept, i - 1, owner, asset);
      assert kept[..i][..i - 1] == kept[..i - 1];
      assert DepositsBefore(txs, kept, i, owner, asset)[..i - 1] == DepositsBefore(txs, kept, i - 1, owner, asset);
    }
  }

  /** A tx is kept exactly if there is no reason against it. */
  lemma KeptIffNoReason(chain: Chain, txs: seq<TxDao>, kept: seq<bool>, i: nat)
    requires Decided(chain, txs, kept) && i < |kept|
    ensures kept[i] <==> !HasReason(chain, txs, kept, i)
    ensures NullifiedIn(chain.nulls, txs[i].proof) ==> !kept[i]
  {
    var p := txs[i].proof;
    KeptDepositsIsSum(txs, kept, i, p.publicOwner, p.publicAssetId);
    assert forall j | 0 <= j < i :: kept[..i][j] == kept[j];
    hide KeptDeposits, DepositsBefore;
  }

  ghost predicate UniqueIds(txs: seq<TxDao>) {
    forall i, j | 0 <= i < j < |txs| :: txs[i].id != txs[j].id
  }

  lemma {:induction false} DiscardedIds(txs: seq<TxDao>, kept: seq<bool>, id: nat)
    requires |kept| <= |txs|
    ensures id in Discarded(txs, kept) <==> exists i :: 0 <= i < |kept| && !kept[i] && txs[i].id == id
  {
    if kept != [] {
      var n := |kept| - 1;
      DiscardedIds(txs, kept[..n], id);
      assert kept == kept[..n] + [kept[n]];
      if i :| 0 <= i < |kept| && !kept[i] && txs[i].id == id {
        assert i < n ==> !kept[..n][i];
      }
      if id in Discarded(txs, kept[..n]) {
        var i :| 0 <= i < n && !kept[..n][i] && txs[i].id == id;
        assert !kept[i];
      }
    }
  }

  lemma IdsOfDiscarded(chain: Chain, txs: seq<TxDao>, kept: seq<bool>)
    requires Decided(chain, txs, kept) && |kept| == |txs|
    ensures forall i | 0 <= i < |txs| && NullifiedIn(chain.nulls, txs[i].proof) :: txs[i].id in Discarded(txs, kept)
    ensures UniqueIds(txs) ==> forall i | 0 <= i < |txs| ::
              txs[i].id in Discarded(txs, kept) <==> HasReason(chain, txs, kept, i)
  {
    hide Decided, Discarded, HasReason, NullifiedIn;
    forall i | 0 <= i < |txs|
      ensures !kept[i] ==> txs[i].id in Discarded(txs, kept)
      ensures UniqueIds(txs) ==> (txs[i].id in Discarded(txs, kept) <==> !kept[i])
      ensures kept[i] <==> !HasReason(chain, txs, kept, i)
      ensures NullifiedIn(chain.nulls, txs[i].proof) ==> !kept[i]
    {
      DiscardedIds(txs, kept, txs[i].id);
      KeptIffNoReason(chain, txs, kept, i);
    }
  }

  lemma DecideNext(chain: Chain, txs: seq<TxDao>, kept: seq<bool>, keep: bool)
    requires |kept| < |txs| && Decided(chain, txs, kept)
    requires keep <==> !MustDiscard(chain, txs, kept, txs[|kept|].proof)
    ensures Decided(chain, txs, kept + [keep])
    ensures Discarded(txs, kept + [keep]) == Discarded(txs, kept) + if keep then [] else [txs[|kept|].id]
  {
    var next := kept + [keep];
    assert next[..|kept|] == kept;
    forall i | 0 <= i < |next|
      ensures next[i] <==> !MustDiscard(chain, txs, next[..i], txs[i].proof)
    {
      if i < |kept| { assert next[..i] == kept[..i]; }
    }
  }

  /** The decisions on the first n txs. */
  ghost function Decisions(chain: Chain, txs: seq<TxDao>, n: nat): (kept: seq<bool>)
    requires n <= |txs|
    ensures |kept| == n && Decided(chain, txs, kept)
  {
    if n == 0 then []
    else
      var before := Decisions(chain, txs, n - 1);
      var keep := !MustDiscard(chain, txs, before, txs[n - 1].proof);
      DecideNext(chain, txs, before, keep);
      before + [keep]
  }

  lemma DiscardNext(txs: seq<TxDao>, kept: seq<bool>, keep: bool, cs: set<Leaf>)
    requires |kept| < |txs| && CommitmentsOfDiscarded(cs, txs, kept)
    ensures var p := txs[|kept|].proof;
            var all := if keep then cs else cs + {p.noteCommitment1} + {p.noteCommitment2};
            CommitmentsOfDiscarded(all, txs, kept + [keep])
  {
    var next, p := kept + [keep], txs[|kept|].proof;
    forall c
      ensures ChainsFromDiscarded(txs, next, c) <==>
              ChainsFromDiscarded(txs, kept, c) || (!keep && HasCommitment(p, c))
    {
      if ChainsFromDiscarded(txs, kept, c) {
        var j :| 0 <= j < |kept| && !kept[j] && HasCommitment(txs[j].proof, c);
        assert !next[j];
      }
      if !keep && HasCommitment(p, c) {
        assert !next[|kept|];
      }
    }
  }

  lemma SumNext(txs: seq<TxDao>, kept: seq<bool>, keep: bool)
    requires |kept| < |txs|
    ensures forall owner, asset :: KeptDeposits(txs, kept + [keep], owner, asset) ==
              KeptDeposits(txs, kept, owner, asset)
              + if keep && DepositFrom(txs[|kept|].proof, owner, asset) then txs[|kept|].proof.publicValue else 0
  {
    assert (kept + [keep])[..|kept|] == kept;
  }

  lemma TracksUnchanged(ds: seq<PendingDeposit>, chain: Chain, txs: seq<TxDao>, kept: seq<bool>, keep: bool)
    requires |kept| < |txs| && Tracks(ds, chain, txs, kept)
    requires !keep || txs[|kept|].proof.proofId != DEPOSIT
    ensures Tracks(ds, chain, txs, kept + [keep])
  {
    SumNext(txs, kept, keep);
  }

  lemma NoOverdraft(chain: Chain, txs: seq<TxDao>, kept: seq<bool>, p: ProofData)
    requires |kept| <= |txs| && p.proofId != DEPOSIT
    ensures !Overdraws(chain, txs, kept, p)
  {
  }

  class Purger {
    const db: WorldStateDb
    /** The contract's pending deposit for an owner and asset. */
    const getUserPendingDeposit: (nat, nat) -> nat

    constructor (db: WorldStateDb, getUserPendingDeposit: (nat, nat) -> nat)
      ensures this.db == db && this.getUserPendingDeposit == getUserPendingDeposit
    {
      this.db, this.getUserPendingDeposit := db, getUserPendingDeposit;
    }

    ghost function Now(): Chain reads db { Chain(db.working.nulls, getUserPendingDeposit) }

    /**
     * The ids of exactly the txs that are to be discarded, in order. Where ids are unique, no tx that
     * spends a spent note stays, by either nullifier, and none goes without a reason.
     */
    method ValidateTxs(txs: seq<TxDao>) returns (txsToPurge: seq<nat>)
      ensures txsToPurge == Discarded(txs, Decisions(Now(), txs, |txs|))
      ensures forall i | 0 <= i < |txs| && NullifiedIn(db.working.nulls, txs[i].proof) :: txs[i].id in txsToPurge
      ensures UniqueIds(txs) ==> forall i | 0 <= i < |txs| ::
                txs[i].id in txsToPurge <==> HasReason(Now(), txs, Decisions(Now(), txs, |txs|), i)
    {
      txsToPurge := [];
      ghost var kept := [];
      var pendingDeposits: seq<PendingDeposit> := [];
      var discardedCommitments: set<Leaf> := {};
      for i := 0 to |txs|
        invariant |kept| == i && Decided(Now(), txs, kept)
        invariant txsToPurge == Discarded(txs, kept)
        invariant CommitmentsOfDiscarded(discardedCommitments, txs, kept)
        invariant Tracks(pendingDeposits, Now(), txs, kept)
      {
        hide Tracks, Decided, Discarded, SpendsSpentNote, Overdraws;
        var proof := txs[i].proof;
        var discard := false;
        if proof.backwardLink in discardedCommitments {
          discard := true;
          TracksUnchanged(pendingDeposits, Now(), txs, kept, false);
        } else {
          var spentNotes := AnySpent(proof);
          if spentNotes {
            discard := true;
            TracksUnchanged(pendingDeposits, Now(), txs, kept, false);
          } else if proof.proofId == DEPOSIT {
            pendingDeposits, discard := CheckDeposit(pendingDeposits, proof, txs, kept);
          } else {
            assert !Overdraws(Now(), txs, kept, proof) by { NoOverdraft(Now(), txs, kept, proof); }
            TracksUnchanged(pendingDeposits, Now(), txs, kept, true);
          }
        }
        DecideNext(Now(), txs, kept, !discard);
        DiscardNext(txs, kept, !discard, discardedCommitments);
        kept := kept + [!discard];
        if discard {
          discardedCommitments := discardedCommitments + {proof.noteCommitment1} + {proof.noteCommitment2};
          txsToPurge := txsToPurge + [txs[i].id];
        }
      }
      DecisionsAreDetermined(Now(), txs, kept, Decisions(Now(), txs, |txs|));
      IdsOfDiscarded(Now(), txs, kept);
    }

    method AnySpent(proof: ProofData) returns (spent: bool)
      ensures spent == SpendsSpentNote(db.working.nulls, proof)
    {
      spent := false;
      var nullifiers := [proof.nullifier1, proof.nullifier2];
      for i := 0 to 2
        invariant !spent
        invariant forall k | 0 <= k < i :: !Spent(db.working.nulls, nullifiers[k])
      {
        if nullifiers[i] != 0 {
          var value := db.Get(NULL, nullifiers[i]);
          if value == 1 {
            assert i == 0 || i == 1;
            spent := true;
            return;
          }
        }
      }
      assert !Spent(db.working.nulls, nullifiers[0]) && !Spent(db.working.nulls, nullifiers[1]);
    }

    /** Accepts the deposit into its budget or says to discard it. */
    method CheckDeposit(ds: seq<PendingDeposit>, proof: ProofData, ghost txs: seq<TxDao>, ghost kept: seq<bool>)
      returns (ds': seq<PendingDeposit>, discard: bool)
      requires |kept| < |txs| && txs[|kept|].proof == proof && proof.proofId == DEPOSIT
      requires Tracks(ds, Now(), txs, kept)
      ensures discard == Overdraws(Now(), txs, kept, proof)
      ensures Tracks(ds', Now(), txs, kept + [!discard])
    {
      ds' := ds;
      var index := FindDeposit(ds, proof.publicOwner, proof.publicAssetId);
      if index < 0 {
        var pendingDeposit := getUserPendingDeposit(proof.publicOwner, proof.publicAssetId);
        ds' := ds + [PendingDeposit(proof.publicOwner, proof.publicAssetId, pendingDeposit, 0)];
        index := |ds|;
        assert Tracks(ds', Now(), txs, kept) by { AddDeposit(ds, ds'[index], Now(), txs, kept); }
      }
      var newTotalDeposit := ds'[index].accumulatedDeposit + proof.publicValue;
      discard := newTotalDeposit > ds'[index].contractValue;
      if discard {
        TracksUnchanged(ds', Now(), txs, kept, false);
      } else {
        AcceptDeposit(ds', index, newTotalDeposit, Now(), txs, kept);
        ds' := ds'[index := ds'[index].(accumulatedDeposit := newTotalDeposit)];
      }
    }
  }

  lemma AddDeposit(ds: seq<PendingDeposit>, d: PendingDeposit, chain: Chain, txs: seq<TxDao>, kept: seq<bool>)
    requires |kept| <= |txs| && Tracks(ds, chain, txs, kept)
    requires FindDeposit(ds, d.publicOwner, d.publicAssetId) == -1
    requires d.contractValue == chain.pendingDeposit(d.publicOwner, d.publicAssetId) && d.accumulatedDeposit == 0
    ensures Tracks(ds + [d], chain, txs, kept)
  {
    forall owner, asset | FindDeposit(ds + [d], owner, asset) == -1
      ensures KeptDeposits(txs, kept, owner, asset) == 0
    {
      assert forall i | 0 <= i < |ds| :: (ds + [d])[i] == ds[i];
      assert FindDeposit(ds, owner, asset) == -1;
    }
  }

  lemma AcceptDeposit(ds: seq<PendingDeposit>, index: nat, newTotal: nat, chain: Chain, txs: seq<TxDao>,
                      kept: seq<bool>)
    requires |kept| < |txs| && Tracks(ds, chain, txs, kept) && index < |ds|
    requires DepositFrom(txs[|kept|].proof, ds[index].publicOwner, ds[index].publicAssetId)
    requires newTotal == ds[index].accumulatedDeposit + txs[|kept|].proof.publicValue
    ensures Tracks(ds[index := ds[index].(accumulatedDeposit := newTotal)], chain, txs, kept + [true])
  {
    SumNext(txs, kept, true);
    SameKeys(ds, ds[index := ds[index].(accumulatedDeposit := newTotal)]);
    hide KeptDeposits;
  }

  lemma SameKeys(a: seq<PendingDeposit>, b: seq<PendingDeposit>)
    requires |a| == |b|
    requires forall i | 0 <= i < |a| :: a[i].publicOwner == b[i].publicOwner && a[i].publicAssetId == b[i].publicAssetId
    ensures forall owner, asset :: FindDeposit(b, owner, asset) == -1 ==> FindDeposit(a, owner, asset) == -1
  {
  }

  // ---- what the decisions mean ----

  /** The decisions are determined: there is one way to decide every tx in order. */
  lemma {:induction false} DecisionsAreDetermined(chain: Chain, txs: seq<TxDao>, a: seq<bool>, b: seq<bool>)
    requires Decided(chain, txs, a) && Decided(chain, txs, b) && |a| == |b|
    ensures a == b
  {
    if a != [] {
      var n := |a| - 1;
      DecidedPrefix(chain, txs, a, n);
      DecidedPrefix(chain, txs, b, n);
      DecisionsAreDetermined(chain, txs, a[..n], b[..n]);
      assert a == a[..n] + [a[n]] && b == b[..n] + [b[n]];
    }
  }

  lemma DecidedPrefix(chain: Chain, txs: seq<TxDao>, kept: seq<bool>, n: nat)
    requires Decided(chain, txs, kept) && n <= |kept|
    ensures Decided(chain, txs, kept[..n])
  {
    forall i | 0 <= i < n ensures kept[..n][..i] == kept[..i] {}
  }

  /** The kept deposits of every owner and asset fit in what the contract holds for them. */
  lemma {:induction false} KeptDepositsAreFunded(chain: Chain, txs: seq<TxDao>, kept: seq<bool>, owner: nat, asset: nat)
    requires Decided(chain, txs, kept)
    ensures KeptDeposits(txs, kept, owner, asset) <= chain.pendingDeposit(owner, asset)
  {
    if kept != [] {
      var n := |kept| - 1;
      hide ChainsFromDiscarded, SpendsSpentNote;
      DecidedPrefix(chain, txs, kept, n);
      KeptDepositsAreFunded(chain, txs, kept[..n], owner, asset);
      assert kept[n] ==> !Overdraws(chain, txs, kept[..n], txs[n].proof);
    }
  }

  /** path is a chain of txs, each spending a commitment of the one before, listed in that order. */
  ghost predicate IsChain(txs: seq<TxDao>, path: seq<nat>) {
    && (forall k | 0 <= k < |path| :: path[k] < |txs|)
    && (forall k | 0 < k < |path| ::
          path[k - 1] < path[k] && HasCommitment(txs[path[k - 1]].proof, txs[path[k]].proof.backwardLink))
  }

  lemma ChildOfDiscarded(chain: Chain, txs: seq<TxDao>, kept: seq<bool>, parent: nat, child: nat)
    requires Decided(chain, txs, kept) && parent < child < |kept|
    requires HasCommitment(txs[parent].proof, txs[child].proof.backwardLink)
    ensures !kept[parent] ==> !kept[child]
  {
    assert kept[..child][parent] == kept[parent];
  }

  /** When parents are listed first, nothing that is kept descends from anything that is discarded. */
  lemma {:induction false} NoKeptDescendantOfDiscarded(chain: Chain, txs: seq<TxDao>, kept: seq<bool>, path: seq<nat>)
    requires Decided(chain, txs, kept) && |kept| == |txs|
    requires IsChain(txs, path) && path != []
    requires kept[path[|path| - 1]]
    ensures kept[path[0]]
  {
    if |path| > 1 {
      var n := |path| - 1;
      var child, parent := path[n], path[n - 1];
      ChildOfDiscarded(chain, txs, kept, parent, child);
      NoKeptDescendantOfDiscarded(chain, txs, kept, path[..n]);
    }
  }

  /**
   * A child of a discarded tx, where no other tx has the commitment it spends, is kept exactly if it
   * is listed before its parent and nothing else speaks against it.
   */
  lemma OrderMatters(chain: Chain, txs: seq<TxDao>, kept: seq<bool>, parent: nat, child: nat)
    requires Decided(chain, txs, kept) && parent < |kept| && child < |kept| && child != parent
    requires !kept[parent] && HasCommitment(txs[parent].proof, txs[child].proof.backwardLink)
    requires forall j | 0 <= j < |kept| && j != parent :: !HasCommitment(txs[j].proof, txs[child].proof.backwardLink)
    ensures kept[child] <==>
            && child < parent && !SpendsSpentNote(chain.nulls, txs[child].proof)
            && !Overdraws(chain, txs, kept[..child], txs[child].proof)
  {
    hide SpendsSpentNote, Overdraws;
    if parent < child {
      assert !kept[..child][parent];
    }
  }

  lemma OrderMattersExample(chain: Chain)
    requires chain.nulls.Get(7) == 1 && chain.nulls.Get(8) == 0
    ensures var parent := ProofData(SEND, 10, 11, 7, 0, 0, 0, 0, 0, 0, 0, 0);
            var child := ProofData(SEND, 12, 13, 8, 0, 0, 0, 0, 0, 0, 0, 10);
            && Decided(chain, [TxDao(1, child), TxDao(2, parent)], [true, false])
            && Decided(chain, [TxDao(2, parent), TxDao(1, child)], [false, false])
  {
    assert [true, false][..0] == [] && [true, false][..1] == [true];
    assert [false, false][..0] == [] && ![false, false][..1][0];
  }

  /**
   * A tx that chains from nothing, spends nothing spent and overdraws nothing is still discarded
   * exactly when some tx discarded before it had an empty commitment.
   */
  lemma UnlinkedTxDiscarded(chain: Chain, txs: seq<TxDao>, kept: seq<bool>, i: nat)
    requires Decided(chain, txs, kept) && i < |kept|
    requires txs[i].proof.backwardLink == 0 && !SpendsSpentNote(chain.nulls, txs[i].proof)
    requires !Overdraws(chain, txs, kept[..i], txs[i].proof)
    ensures !kept[i] <==> exists j :: 0 <= j < i && !kept[j] && HasCommitment(txs[j].proof, 0)
  {
    hide SpendsSpentNote, Overdraws;
    if !kept[i] {
      var j :| 0 <= j < i && !kept[..i][j] && HasCommitment(txs[j].proof, 0);
      assert !kept[j];
    }
    if j :| 0 <= j < i && !kept[j] && HasCommitment(txs[j].proof, 0) {
      assert !kept[..i][j];
    }
  }

  /** What is kept of some deposits is no more than all of them. */
  lemma {:induction false} KeptIsSome(txs: seq<TxDao>, kept: seq<bool>, owner: nat, asset: nat)
    requires |kept| <= |txs|
    ensures KeptDeposits(txs, kept, owner, asset) <= KeptDeposits(txs, AllKept(|kept|), owner, asset)
  {
    if kept != [] {
      var n := |kept| - 1;
      KeptIsSome(txs, kept[..n], owner, asset);
      assert AllKept(|kept|)[..n] == AllKept(n);
    }
  }

  /**
   * What can be told from the list and the chain alone: a tx without a link that spends nothing
   * spent is kept if no tx before it has an empty commitment and, for a deposit, all the deposits of
   * its owner and asset up to it fit in what the contract holds.
   */
  lemma UnlinkedTxKept(chain: Chain, txs: seq<TxDao>, kept: seq<bool>, i: nat)
    requires Decided(chain, txs, kept) && i < |kept|
    requires txs[i].proof.backwardLink == 0 && !SpendsSpentNote(chain.nulls, txs[i].proof)
    requires !Overdraws(chain, txs, AllKept(i), txs[i].proof)
    requires forall j | 0 <= j < i :: !HasCommitment(txs[j].proof, 0)
    ensures kept[i]
  {
    var p := txs[i].proof;
    KeptIsSome(txs, kept[..i], p.publicOwner, p.publicAssetId);
    hide SpendsSpentNote, KeptDeposits;
    UnlinkedTxDiscarded(chain, txs, kept, i);
  }

  function Survivors(txs: seq<TxDao>, kept: seq<bool>): seq<TxDao>
    requires |kept| <= |txs|
  {
    if kept == [] then []
    else
      var n := |kept| - 1;
      Survivors(txs, kept[..n]) + if kept[n] then [txs[n]] else []
  }

  function AllKept(n: nat): seq<bool> { seq(n, i => true) }

  /** One pass is enough: purging the survivors again discards nothing. */
  lemma {:induction false} PurgeIsComplete(chain: Chain, txs: seq<TxDao>, kept: seq<bool>)
    requires Decided(chain, txs, kept)
    ensures var s := Survivors(txs, kept);
            && Decided(chain, s, AllKept(|s|))
            && forall owner, asset ::
                 KeptDeposits(s, AllKept(|s|), owner, asset) == KeptDeposits(txs, kept, owner, asset)
  {
    if kept != [] {
      var n := |kept| - 1;
      DecidedPrefix(chain, txs, kept, n);
      PurgeIsComplete(chain, txs, kept[..n]);
      var s := Survivors(txs, kept[..n]);
      if kept[n] {
        KeepOneMore(chain, txs, kept[..n], s);
        assert kept == kept[..n] + [true];
      } else {
        hide Decided;
        assert Survivors(txs, kept) == s;
      }
    }
  }

  lemma KeepOneMore(chain: Chain, txs: seq<TxDao>, kept: seq<bool>, s: seq<TxDao>)
    requires |kept| < |txs| && !MustDiscard(chain, txs, kept, txs[|kept|].proof)
    requires Decided(chain, s, AllKept(|s|))
    requires forall owner, asset :: KeptDeposits(s, AllKept(|s|), owner, asset) == KeptDeposits(txs, kept, owner, asset)
    ensures var all := s + [txs[|kept|]];
            && Decided(chain, all, AllKept(|all|))
            && forall owner, asset ::
                 KeptDeposits(all, AllKept(|all|), owner, asset) == KeptDeposits(txs, kept + [true], owner, asset)
  {
    hide KeptDeposits, Decided, SpendsSpentNote;
    var tx := txs[|kept|];
    var all, flags := s + [tx], AllKept(|s|);
    assert AllKept(|all|) == flags + [true];
    LongerList(chain, s, tx, flags);
    assert !MustDiscard(chain, all, flags, tx.proof);
    DecideNext(chain, all, flags, true);
    SumNext(all, flags, true);
    SumNext(txs, kept, true);
  }

  /** Decisions on a list do not depend on what is appended to it. */
  lemma LongerList(chain: Chain, txs: seq<TxDao>, tx: TxDao, kept: seq<bool>)
    requires Decided(chain, txs, kept)
    ensures Decided(chain, txs + [tx], kept)
    ensures forall owner, asset :: KeptDeposits(txs + [tx], kept, owner, asset) == KeptDeposits(txs, kept, owner, asset)
  {
    forall n, owner, asset | 0 <= n <= |kept|
      ensures KeptDeposits(txs + [tx], kept[..n], owner, asset) == KeptDeposits(txs, kept[..n], owner, asset)
    {
      SameSums(txs, tx, kept[..n], owner, asset);
    }
    assert kept[..|kept|] == kept;
    forall i | 0 <= i < |kept|
      ensures kept[i] <==> !MustDiscard(chain, txs + [tx], kept[..i], (txs + [tx])[i].proof)
    {
      var link := txs[i].proof.backwardLink;
      if ChainsFromDiscarded(txs, kept[..i], link) {
        var j :| 0 <= j < i && !kept[..i][j] && HasCommitment(txs[j].proof, link);
        assert (txs + [tx])[j] == txs[j];
      }
      if ChainsFromDiscarded(txs + [tx], kept[..i], link) {
        var j :| 0 <= j < i && !kept[..i][j] && HasCommitment((txs + [tx])[j].proof, link);
        assert (txs + [tx])[j] == txs[j];
      }
    }
  }

  lemma {:induction false} SameSums(txs: seq<TxDao>, tx: TxDao, kept: seq<bool>, owner: nat, asset: nat)
    requires |kept| <= |txs|
    ensures KeptDeposits(txs + [tx], kept, owner, asset) == KeptDeposits(txs, kept, owner, asset)
  {
    if kept != [] {
      SameSums(txs, tx, kept[..|kept| - 1], owner, asset);
    }
  }
}
