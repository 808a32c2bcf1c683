/**
 * The builder and every replayer of a rollup end with the same tree contents, and so stay in
 * agreement over every run, whoever builds which rollup.
 */
module RollupAgreement {
  import opened Arithmetic
  import opened WorldStateStore
  import opened Rollup
  import opened RollupTrees
  import opened RollupCreation
  import opened RollupBuild
  import opened WorldStateSync

  /** The trees of a node that has processed rollups 0 .. n-1. */
  ghost predicate Settled(t: Trees, n: nat) {
    && t.Valid()
    && t.roots.size == n + 1
    && forall i | i in t.defi.leaves :: i < n * NUM_BRIDGE_CALLS_PER_BLOCK
  }

  /** Same contents, and the same place for the next rollup. */
  ghost predicate Equivalent(cfg: Config, a: Trees, b: Trees)
    requires cfg.Valid()
  {
    && a.data.leaves == b.data.leaves && a.nulls.leaves == b.nulls.leaves && a.roots == b.roots
    && a.defi.leaves == b.defi.leaves
    && StartIndex(cfg, a.data.size, true) == StartIndex(cfg, b.data.size, true)
  }

  // ---- inner rollups tile the outer subtree ----

  lemma {:induction false} PutSlotsSameLeaves(a: Tree, b: Tree, start: nat, inners: seq<InnerProofData>)
    requires a.leaves == b.leaves
    ensures PutSlots(a, start, inners).leaves == PutSlots(b, start, inners).leaves
  {
    if inners != [] {
      PutSlotsSameLeaves(a, b, start, inners[..|inners| - 1]);
    }
  }

  lemma {:induction false} PutSlotsAppend(t: Tree, start: nat, a: seq<InnerProofData>, b: seq<InnerProofData>)
    ensures PutSlots(t, start, a + b) == PutSlots(PutSlots(t, start, a), start + 2 * |a|, b)
  {
    if b == [] {
      assert a + b == a;
    } else {
      assert (a + b)[..|a + b| - 1] == a + b[..|b| - 1];
      PutSlotsAppend(t, start, a, b[..|b| - 1]);
    }
  }

  /** Padding proofs put beyond the end of a tree add no contents. */
  lemma {:induction false} PutPadding(t: Tree, start: nat, pad: seq<InnerProofData>)
    requires t.Valid() && t.size <= start
    requires forall i | 0 <= i < |pad| :: pad[i] == PaddingProof
    ensures PutSlots(t, start, pad).leaves == t.leaves
  {
    if pad != [] {
      var n := |pad| - 1;
      PutPadding(t, start, pad[..n]);
      assert start + 2 * n !in t.leaves && start + 2 * n + 1 !in t.leaves;
      assert pad[n] == PaddingProof;
      assert t.leaves - {start + 2 * n} == t.leaves && t.leaves - {start + 2 * n + 1} == t.leaves;
    }
  }

  /** Putting the padded proofs gives the contents of putting the proofs. */
  lemma PutSlotsPadded(t: Tree, start: nat, inners: seq<InnerProofData>, n: nat)
    requires t.Valid() && t.size <= start && inners != []
    ensures PutSlots(t, start, Pad(inners, n)).leaves == PutSlots(t, start, inners).leaves
  {
    var pad := Pad(inners, n)[|inners|..];
    assert Pad(inners, n) == inners + pad;
    PutSlotsAppend(t, start, inners, pad);
    PutSlotsFacts(t, start, inners);
    PutPadding(PutSlots(t, start, inners), start + 2 * |inners|, pad);
  }

  lemma PutNullifiersOfPadded(t: Tree, inners: seq<InnerProofData>, n: nat)
    ensures PutNullifiers(t, Pad(inners, n)) == PutNullifiers(t, inners)
  {
    var pad := Pad(inners, n)[|inners|..];
    assert Pad(inners, n) == inners + pad;
    PutNullifiersPadded(t, inners, pad);
  }

  /** u is t with the contents of `slots` inserted from `start` on. */
  ghost predicate Inserted(t: Trees, u: Trees, start: nat, slots: seq<InnerProofData>) {
    && u.Valid() && u.roots == t.roots && u.defi == t.defi
    && u.nulls == PutNullifiers(t.nulls, slots)
    && u.data.leaves == PutSlots(t.data, start, slots).leaves
  }

  lemma InsertedTwice(t: Trees, m: Trees, u: Trees, start: nat, a: seq<InnerProofData>, b: seq<InnerProofData>)
    requires Inserted(t, m, start, a) && Inserted(m, u, start + 2 * |a|, b)
    ensures Inserted(t, u, start, a + b)
  {
    PutNullifiersAppend(t.nulls, a, b);
    PutSlotsAppend(t.data, start, a, b);
    PutSlotsSameLeaves(m.data, PutSlots(t.data, start, a), start + 2 * |a|, b);
  }

  /** Leaves the last inner rollup of a build leaves untouched at the end of its subtree. */
  function Unclosed(cfg: Config, numTxs: nat): nat
    requires cfg.numInnerRollupTxs <= cfg.innerRollupSize
  {
    if numTxs < cfg.numInnerRollupTxs then 0 else 2 * (cfg.innerRollupSize - cfg.numInnerRollupTxs)
  }

  /** One inner rollup placed beyond everything written so far. */
  lemma InnerTreesFacts(cfg: Config, t: Trees, start: nat, inners: seq<InnerProofData>)
    requires cfg.Valid() && t.Valid() && t.data.size <= start
    requires 1 <= |inners| <= cfg.numInnerRollupTxs
    ensures Inserted(t, InnerTrees(cfg, t, start, inners), start, Pad(inners, cfg.innerRollupSize))
    ensures InnerTrees(cfg, t, start, inners).data.size ==
            start + 2 * cfg.innerRollupSize - Unclosed(cfg, |inners|)
  {
    PutSlotsFacts(t.data, start, inners);
    GetPutNullifiers(t.nulls, inners, 0);
    PutSlotsPadded(t.data, start, inners, cfg.innerRollupSize);
    PutNullifiersOfPadded(t.nulls, inners, cfg.innerRollupSize);
    var filled := PutSlots(t.data, start, inners);
    var last := start + cfg.innerRollupSize * 2 - 1;
    if |inners| < cfg.numInnerRollupTxs {
      assert filled.leaves - {last} == filled.leaves;
    }
  }

  /** The outer subtree is a whole number of inner ones; k inner rollups fit if k are allowed. */
  lemma InnersFit(cfg: Config, k: nat)
    requires cfg.Valid() && k <= cfg.numOuterRollupProofs
    ensures k * cfg.innerRollupSize <= cfg.outerRollupSize
    ensures k < cfg.numOuterRollupProofs ==> k * cfg.innerRollupSize < cfg.outerRollupSize
    ensures Multiple(cfg.outerRollupSize * 2, cfg.innerRollupSize * 2)
  {
    var m :| cfg.numOuterRollupProofs <= m && Holds(cfg.outerRollupSize, m, cfg.innerRollupSize);
    MulMonotone(k, m, cfg.innerRollupSize);
    if k < m {
      MulMonotone(k + 1, m, cfg.innerRollupSize);
      Distribute(k, 1, cfg.innerRollupSize);
    }
    MulAssociative(m, cfg.innerRollupSize, 2);
    MultipleOf(m, cfg.innerRollupSize * 2);
  }

  lemma {:induction false} PaddedLength(cfg: Config, id: nat, bridges: seq<nat>, chunks: seq<seq<ProofData>>)
    requires cfg.Valid() && CoversAll(bridges, chunks)
    requires forall k | 0 <= k < |chunks| :: ValidChunk(cfg, chunks[k])
    ensures |PaddedInners(cfg, id, bridges, chunks)| == |chunks| * cfg.innerRollupSize
    ensures chunks != [] ==> |PaddedInners(cfg, id, bridges, chunks)| >= cfg.innerRollupSize
  {
    if chunks != [] {
      var n := |chunks| - 1;
      assert ValidChunk(cfg, chunks[n]);
      PaddedLength(cfg, id, bridges, chunks[..n]);
      Distribute(n, 1, cfg.innerRollupSize);
    }
  }

  lemma {:induction false} BuildInnersFacts(cfg: Config, id: nat, t: Trees, bridges: seq<nat>,
                                            chunks: seq<seq<ProofData>>, start: nat)
    requires cfg.Valid() && t.Valid() && CoversAll(bridges, chunks)
    requires chunks != [] && forall k | 0 <= k < |chunks| :: ValidChunk(cfg, chunks[k])
    requires start == StartIndex(cfg, t.data.size, true)
    ensures Inserted(t, BuildInners(cfg, id, t, bridges, chunks), start, PaddedInners(cfg, id, bridges, chunks))
    ensures BuildInners(cfg, id, t, bridges, chunks).data.size ==
            start + 2 * |PaddedInners(cfg, id, bridges, chunks)| - Unclosed(cfg, |chunks[|chunks| - 1]|)
  {
    hide Inserted, InnerTrees, AddBridges, PutInners, PutSlots, PutNullifiers, AlignUp, Publish, Pad;
    var n := |chunks| - 1;
    var front, last := chunks[..n], chunks[n];
    assert ValidChunk(cfg, last);
    var before := BuildInners(cfg, id, t, bridges, front);
    var inners := PublishAll(cfg, id, bridges, last);
    var slots := PaddedInners(cfg, id, bridges, front);
    var u := BuildInners(cfg, id, t, bridges, chunks);
    assert u == InnerTrees(cfg, before, StartIndex(cfg, before.data.size, n == 0), inners);
    if n == 0 {
      assert slots + Pad(inners, cfg.innerRollupSize) == Pad(inners, cfg.innerRollupSize);
      InnerTreesFacts(cfg, t, start, inners);
    } else {
      BuildInnersFacts(cfg, id, t, bridges, front, start);
      NextStart(cfg, id, t, bridges, front, start, before.data.size);
      assert u == InnerTrees(cfg, before, start + 2 * |slots|, inners);
      AddInner(cfg, t, before, start, slots, inners);
    }
  }

  lemma AddInner(cfg: Config, t: Trees, before: Trees, start: nat, slots: seq<InnerProofData>,
                 inners: seq<InnerProofData>)
    requires cfg.Valid() && 1 <= |inners| <= cfg.numInnerRollupTxs
    requires Inserted(t, before, start, slots) && before.data.size <= start + 2 * |slots|
    ensures var u := InnerTrees(cfg, before, start + 2 * |slots|, inners);
            var all := slots + Pad(inners, cfg.innerRollupSize);
            Inserted(t, u, start, all) && u.data.size == start + 2 * |all| - Unclosed(cfg, |inners|)
  {
    var u := InnerTrees(cfg, before, start + 2 * |slots|, inners);
    InnerTreesFacts(cfg, before, start + 2 * |slots|, inners);
    InsertedTwice(t, before, u, start, slots, Pad(inners, cfg.innerRollupSize));
  }

  /** After some inner rollups (the first at an outer boundary) the next starts where their padding ends. */
  lemma NextStart(cfg: Config, id: nat, t: Trees, bridges: seq<nat>, chunks: seq<seq<ProofData>>, start: nat, size: nat)
    requires cfg.Valid() && CoversAll(bridges, chunks)
    requires chunks != [] && forall k | 0 <= k < |chunks| :: ValidChunk(cfg, chunks[k])
    requires start == StartIndex(cfg, t.data.size, true)
    requires size == start + 2 * |PaddedInners(cfg, id, bridges, chunks)| - Unclosed(cfg, |chunks[|chunks| - 1]|)
    ensures StartIndex(cfg, size, false) == start + 2 * |PaddedInners(cfg, id, bridges, chunks)|
    ensures size <= start + 2 * |PaddedInners(cfg, id, bridges, chunks)|
  {
    var s, n := cfg.innerRollupSize * 2, |chunks| - 1;
    PaddedLength(cfg, id, bridges, chunks);
    AlignUpAligned(t.data.size, cfg.outerRollupSize * 2);
    InnersFit(cfg, 0);
    MultipleTransitive(start, s, cfg.outerRollupSize * 2);
    Distribute(n, 1, cfg.innerRollupSize);
    MulAssociative(n, cfg.innerRollupSize, 2);
    MultipleOf(n, s);
    MultipleAppend(start, n * s, s);
    AlignUpWithin(start + n * s, size, s);
  }

  /** The k-th inner rollup (from 0) starts k inner subtrees into the rollup's outer subtree. */
  lemma InnerStarts(cfg: Config, id: nat, t: Trees, bridges: seq<nat>, chunks: seq<seq<ProofData>>, k: nat)
    requires cfg.Valid() && t.Valid() && CoversAll(bridges, chunks) && k < |chunks|
    requires forall i | 0 <= i < |chunks| :: ValidChunk(cfg, chunks[i])
    ensures StartIndex(cfg, BuildInners(cfg, id, t, bridges, chunks[..k]).data.size, k == 0) ==
            StartIndex(cfg, t.data.size, true) + 2 * (k * cfg.innerRollupSize)
  {
    if k > 0 {
      var start := StartIndex(cfg, t.data.size, true);
      BuildInnersFacts(cfg, id, t, bridges, chunks[..k], start);
      PaddedLength(cfg, id, bridges, chunks[..k]);
      NextStart(cfg, id, t, bridges, chunks[..k], start, BuildInners(cfg, id, t, bridges, chunks[..k]).data.size);
    }
  }

  // ---- one rollup ----

  lemma PaddedNotes(t: Tree, start: nat, notes: seq<Leaf>)
    requires t.Valid() && forall i | i in t.leaves :: i < start
    requires |notes| <= NUM_BRIDGE_CALLS_PER_BLOCK
    ensures var all := notes + Zeros(NUM_BRIDGE_CALLS_PER_BLOCK - |notes|);
            && PutAll(t, start, notes).leaves == PutAll(t, start, all).leaves
            && PutAll(t, start, notes).Valid() && PutAll(t, start, all).Valid()
            && forall i | i in PutAll(t, start, all).leaves :: i < start + NUM_BRIDGE_CALLS_PER_BLOCK
  {
    var all := notes + Zeros(NUM_BRIDGE_CALLS_PER_BLOCK - |notes|);
    forall i: nat
      ensures PutAll(t, start, notes).Get(i) == PutAll(t, start, all).Get(i)
      ensures i >= start + NUM_BRIDGE_CALLS_PER_BLOCK ==> PutAll(t, start, all).Get(i) == 0
    {
      GetPutAll(t, start, notes, i);
      GetPutAll(t, start, all, i);
    }
    GetPutAll(t, start, notes, 0);
    GetPutAll(t, start, all, 0);
    SameContents(PutAll(t, start, notes), PutAll(t, start, all));
    var u := PutAll(t, start, all);
    forall i | i in u.leaves
      ensures i < start + NUM_BRIDGE_CALLS_PER_BLOCK
    {
      assert u.Get(i) == u.leaves[i] != 0;
    }
  }

  /** The data tree, as the builder leaves it and as a replayer rebuilds it from the published slots. */
  lemma DataTreesAgree(cfg: Config, t: Trees, u: Trees, start: nat, inners: seq<InnerProofData>)
    requires t.Valid() && t.data.size <= start
    requires Inserted(t, u, start, inners) && 0 < |inners| <= cfg.outerRollupSize
    ensures var v := PutSlots(t.data, start, Pad(inners, cfg.outerRollupSize));
            v.Valid() && v.size == start + 2 * cfg.outerRollupSize && u.data.leaves == v.leaves
    ensures |inners| < cfg.outerRollupSize ==> start + 2 * cfg.outerRollupSize - 1 !in u.data.leaves
  {
    PutSlotsFacts(t.data, start, inners);
    PutSlotsFacts(t.data, start, Pad(inners, cfg.outerRollupSize));
    PutSlotsPadded(t.data, start, inners, cfg.outerRollupSize);
  }

  /** The builder's trees before the aggregator closes the rollup. */
  ghost function Opened(cfg: Config, t: Trees, id: nat, input: BuildInput): Trees
    requires input.Valid(cfg)
  {
    AddBridgesFacts(input.bridges, Flatten(input.chunks));
    FlattenCovers(input.AllBridges(), input.chunks);
    BuildInners(cfg, id, EnterNotes(t, id, input.interactionNotes), input.AllBridges(), input.chunks)
  }

  ghost function Slots(cfg: Config, id: nat, input: BuildInput): seq<InnerProofData>
    requires input.Valid(cfg)
  {
    AddBridgesFacts(input.bridges, Flatten(input.chunks));
    FlattenCovers(input.AllBridges(), input.chunks);
    PaddedInners(cfg, id, input.AllBridges(), input.chunks)
  }

  lemma OpenedFacts(cfg: Config, t: Trees, id: nat, input: BuildInput, start: nat)
    requires input.Valid(cfg) && Settled(t, id)
    requires start == StartIndex(cfg, t.data.size, true)
    ensures var slots := Slots(cfg, id, input);
            && EnterNotes(t, id, input.interactionNotes).Valid()
            && Inserted(EnterNotes(t, id, input.interactionNotes), Opened(cfg, t, id, input), start, slots)
            && |slots| == |input.chunks| * cfg.innerRollupSize
            && 0 < |slots| <= cfg.outerRollupSize
            && (|input.chunks| < cfg.numOuterRollupProofs ==> |slots| < cfg.outerRollupSize)
            && Opened(cfg, t, id, input).data.size ==
                 start + 2 * |slots| - Unclosed(cfg, |input.chunks[|input.chunks| - 1]|)
            && start < Opened(cfg, t, id, input).data.size
  {
    AddBridgesFacts(input.bridges, Flatten(input.chunks));
    FlattenCovers(input.AllBridges(), input.chunks);
    PaddedNotes(t.defi, id * NUM_BRIDGE_CALLS_PER_BLOCK, input.interactionNotes);
    BuildInnersFacts(cfg, id, EnterNotes(t, id, input.interactionNotes), input.AllBridges(), input.chunks, start);
    PaddedLength(cfg, id, input.AllBridges(), input.chunks);
    InnersFit(cfg, |input.chunks|);
    MulMonotone(1, |input.chunks|, cfg.innerRollupSize);
  }

  /**
   * Building a rollup and replaying what was published of it give the same contents in all four
   * trees, put the data root at index id + 1, and place the next rollup one outer subtree further.
   */
  lemma BuilderMatchesReplayer(cfg: Config, hash: map<nat, Leaf> -> Leaf, t: Trees, id: nat, input: BuildInput)
    requires input.Valid(cfg) && Settled(t, id)
    ensures var built := Build(cfg, hash, t, id, input);
            var rollup := Published(cfg, hash, t, id, input);
            var replayed := Replay(hash, t, rollup);
            && Equivalent(cfg, built, replayed)
            && RootsMatch(hash, built, rollup)
            && Settled(built, id + 1) && Settled(replayed, id + 1)
            && replayed.roots.Get(id + 1) == hash(replayed.data.leaves)
            && rollup.rollupId == id && rollup.dataStartIndex == StartIndex(cfg, t.data.size, true)
            && StartIndex(cfg, built.data.size, true) == rollup.dataStartIndex + 2 * cfg.outerRollupSize
            && replayed.data.size == rollup.dataStartIndex + 2 * cfg.outerRollupSize
  {
    hide BuildInners, PaddedInners, PutSlots, PutNullifiers, AddBridges, PublishAll, PutAll, Inserted, Flatten, AlignUp;
    hide Replay, RootTrees, Covers, CoversAll;
    var start := StartIndex(cfg, t.data.size, true);
    var slots, filled := Slots(cfg, id, input), Opened(cfg, t, id, input);
    OpenedFacts(cfg, t, id, input, start);
    var rollup := Published(cfg, hash, t, id, input);
    BuiltFacts(cfg, hash, t, id, input.interactionNotes, start, slots, filled, |input.chunks|);
    ReplayedFacts(cfg, hash, t, id, input.interactionNotes, start, slots, filled, rollup);
    ClosedSize(cfg, t, start, Build(cfg, hash, t, id, input).data.size);
    ClosedSize(cfg, t, start, start + 2 * cfg.outerRollupSize);
  }

  lemma BuiltFacts(cfg: Config, hash: map<nat, Leaf> -> Leaf, t: Trees, id: nat, notes: seq<Leaf>, start: nat,
                   slots: seq<InnerProofData>, filled: Trees, numProofs: nat)
    requires cfg.Valid() && Settled(t, id) && t.data.size <= start && |notes| <= NUM_BRIDGE_CALLS_PER_BLOCK
    requires Inserted(EnterNotes(t, id, notes), filled, start, slots) && 0 < |slots| <= cfg.outerRollupSize
    requires numProofs < cfg.numOuterRollupProofs ==> |slots| < cfg.outerRollupSize
    requires start < filled.data.size <= start + 2 * cfg.outerRollupSize
    ensures var built := RootTrees(cfg, hash, filled, start, numProofs);
            && Settled(built, id + 1)
            && built.data.leaves == filled.data.leaves
            && built.nulls == PutNullifiers(t.nulls, slots)
            && built.roots == t.roots.Put(id + 1, hash(filled.data.leaves))
            && built.defi == PutAll(t.defi, id * NUM_BRIDGE_CALLS_PER_BLOCK, notes)
            && start < built.data.size <= start + 2 * cfg.outerRollupSize
  {
    hide PutSlots, PutNullifiers, PutAll, AlignUp, Pad, PutNullifier;
    PaddedNotes(t.defi, id * NUM_BRIDGE_CALLS_PER_BLOCK, notes);
    DataTreesAgree(cfg, EnterNotes(t, id, notes), filled, start, slots);
    assert filled.data.leaves - {start + 2 * cfg.outerRollupSize - 1} == filled.data.leaves
           || numProofs >= cfg.numOuterRollupProofs;
  }

  lemma ReplayedFacts(cfg: Config, hash: map<nat, Leaf> -> Leaf, t: Trees, id: nat, notes: seq<Leaf>, start: nat,
                      slots: seq<InnerProofData>, filled: Trees, r: RollupProofData)
    requires cfg.Valid() && Settled(t, id) && t.data.size <= start && |notes| <= NUM_BRIDGE_CALLS_PER_BLOCK
    requires Inserted(EnterNotes(t, id, notes), filled, start, slots) && 0 < |slots| <= cfg.outerRollupSize
    requires r.rollupId == id && r.dataStartIndex == start && r.innerProofData == Pad(slots, cfg.outerRollupSize)
    requires r.defiInteractionNotes == notes + Zeros(NUM_BRIDGE_CALLS_PER_BLOCK - |notes|)
    ensures var replayed := Replay(hash, t, r);
            && Settled(replayed, id + 1)
            && replayed.data.leaves == filled.data.leaves
            && replayed.nulls == PutNullifiers(t.nulls, slots)
            && replayed.roots == t.roots.Put(id + 1, hash(filled.data.leaves))
            && replayed.defi.leaves == PutAll(t.defi, id * NUM_BRIDGE_CALLS_PER_BLOCK, notes).leaves
            && replayed.data.size == start + 2 * cfg.outerRollupSize
  {
    PaddedNotes(t.defi, id * NUM_BRIDGE_CALLS_PER_BLOCK, notes);
    DataTreesAgree(cfg, EnterNotes(t, id, notes), filled, start, slots);
    PutNullifiersOfPadded(t.nulls, slots, cfg.outerRollupSize);
    ReplayUnfolds(hash, t, r);
  }

  lemma ReplayUnfolds(hash: map<nat, Leaf> -> Leaf, t: Trees, r: RollupProofData)
    requires t.data.size <= r.dataStartIndex
    ensures var u := Replay(hash, t, r);
            && u.data == PutSlots(t.data, r.dataStartIndex, r.innerProofData)
            && u.nulls == PutNullifiers(t.nulls, r.innerProofData)
            && u.roots == t.roots.Put(r.rollupId + 1, hash(u.data.leaves))
            && u.defi == PutAll(t.defi, r.rollupId * NUM_BRIDGE_CALLS_PER_BLOCK, r.defiInteractionNotes)
  {
  }

  lemma ClosedSize(cfg: Config, t: Trees, start: nat, size: nat)
    requires cfg.Valid() && start == StartIndex(cfg, t.data.size, true)
    requires start < size <= start + 2 * cfg.outerRollupSize
    ensures StartIndex(cfg, size, true) == start + 2 * cfg.outerRollupSize
  {
    AlignUpAligned(t.data.size, cfg.outerRollupSize * 2);
    AlignUpWithin(start, size, cfg.outerRollupSize * 2);
  }

  /**
   * The two data trees can differ in size: the builder closes the outer subtree only when it used
   * fewer inner rollups than the pipeline allows, or happened to fill it to its last leaf.
   */
  lemma DataSizesAgreeExactly(cfg: Config, hash: map<nat, Leaf> -> Leaf, t: Trees, id: nat, input: BuildInput)
    requires input.Valid(cfg) && Settled(t, id)
    ensures var built := Build(cfg, hash, t, id, input);
            var replayed := Replay(hash, t, Published(cfg, hash, t, id, input));
            var last := |input.chunks[|input.chunks| - 1]|;
            built.data.size == replayed.data.size <==>
            || |input.chunks| < cfg.numOuterRollupProofs
            || (&& cfg.numOuterRollupProofs * cfg.innerRollupSize == cfg.outerRollupSize
                && (last < cfg.numInnerRollupTxs || cfg.numInnerRollupTxs == cfg.innerRollupSize))
  {
    BuilderMatchesReplayer(cfg, hash, t, id, input);
    BuiltSize(cfg, hash, t, id, input);
    assert ValidChunk(cfg, input.chunks[|input.chunks| - 1]);
    InnersFit(cfg, cfg.numOuterRollupProofs);
    hide Build, Published, Replay, StartIndex, Settled, Equivalent, RootsMatch, ValidChunk;
  }

  lemma BuiltSize(cfg: Config, hash: map<nat, Leaf> -> Leaf, t: Trees, id: nat, input: BuildInput)
    requires input.Valid(cfg) && Settled(t, id)
    ensures var start := StartIndex(cfg, t.data.size, true);
            Build(cfg, hash, t, id, input).data.size ==
              if |input.chunks| < cfg.numOuterRollupProofs then start + 2 * cfg.outerRollupSize
              else start + 2 * (cfg.numOuterRollupProofs * cfg.innerRollupSize)
                   - Unclosed(cfg, |input.chunks[|input.chunks| - 1]|)
  {
    hide BuildInners, PaddedInners, PutSlots, PutNullifiers, AddBridges, PublishAll, PutAll, Inserted, Flatten, AlignUp,
         Settled;
    OpenedFacts(cfg, t, id, input, StartIndex(cfg, t.data.size, true));
  }

  // ---- every run ----

  lemma {:induction false} PutNullifiersSameLeaves(a: Tree, b: Tree, inners: seq<InnerProofData>)
    requires a.leaves == b.leaves
    ensures PutNullifiers(a, inners).leaves == PutNullifiers(b, inners).leaves
  {
    if inners != [] {
      PutNullifiersSameLeaves(a, b, inners[..|inners| - 1]);
    }
  }

  lemma {:induction false} PutAllSameLeaves(a: Tree, b: Tree, start: nat, notes: seq<Leaf>)
    requires a.leaves == b.leaves
    ensures PutAll(a, start, notes).leaves == PutAll(b, start, notes).leaves
  {
    if notes != [] {
      PutAllSameLeaves(a, b, start, notes[..|notes| - 1]);
    }
  }

  lemma ReplaySameLeaves(hash: map<nat, Leaf> -> Leaf, a: Trees, b: Trees, r: RollupProofData)
    requires a.data.size <= r.dataStartIndex && b.data.size <= r.dataStartIndex
    requires a.data.leaves == b.data.leaves && a.nulls.leaves == b.nulls.leaves && a.defi.leaves == b.defi.leaves
    requires a.roots == b.roots
    ensures var x, y := Replay(hash, a, r), Replay(hash, b, r);
            && x.data.leaves == y.data.leaves && x.nulls.leaves == y.nulls.leaves && x.defi.leaves == y.defi.leaves
            && x.roots == y.roots
  {
    PutSlotsSameLeaves(a.data, b.data, r.dataStartIndex, r.innerProofData);
    PutNullifiersSameLeaves(a.nulls, b.nulls, r.innerProofData);
    PutAllSameLeaves(a.defi, b.defi, r.rollupId * NUM_BRIDGE_CALLS_PER_BLOCK, r.defiInteractionNotes);
  }

  /** Equivalent builders publish the same rollup, and equivalent replayers stay equivalent. */
  lemma EquivalentBases(cfg: Config, hash: map<nat, Leaf> -> Leaf, a: Trees, b: Trees, id: nat, input: BuildInput)
    requires input.Valid(cfg) && Settled(a, id) && Settled(b, id) && Equivalent(cfg, a, b)
    ensures Published(cfg, hash, a, id, input) == Published(cfg, hash, b, id, input)
    ensures var r := Published(cfg, hash, a, id, input); Equivalent(cfg, Replay(hash, a, r), Replay(hash, b, r))
  {
    var ra, rb := Published(cfg, hash, a, id, input), Published(cfg, hash, b, id, input);
    BuilderMatchesReplayer(cfg, hash, a, id, input);
    BuilderMatchesReplayer(cfg, hash, b, id, input);
    // Replaying reads only what the two publications obviously share.
    ReplaySameLeaves(hash, a, b, ra);
    SameReplay(hash, b, ra, rb);
  }

  lemma SameReplay(hash: map<nat, Leaf> -> Leaf, t: Trees, x: RollupProofData, y: RollupProofData)
    requires x.rollupId == y.rollupId && x.dataStartIndex == y.dataStartIndex
    requires x.innerProofData == y.innerProofData && x.defiInteractionNotes == y.defiInteractionNotes
    ensures Replay(hash, t, x) == Replay(hash, t, y)
  {
  }

  /** Distinct contents have distinct roots, and no root is the empty leaf. */
  ghost predicate CollisionFree(hash: map<nat, Leaf> -> Leaf) {
    && (forall a, b :: hash(a) == hash(b) ==> a == b)
    && forall a :: hash(a) != 0
  }

  ghost predicate SameLeaves(a: Trees, b: Trees) {
    && a.data.leaves == b.data.leaves && a.nulls.leaves == b.nulls.leaves && a.roots.leaves == b.roots.leaves
    && a.defi.leaves == b.defi.leaves
  }

  /** Trees with the roots of a rollup have the contents of replaying it. */
  lemma MatchingContents(cfg: Config, hash: map<nat, Leaf> -> Leaf, w: Trees, base: Trees, id: nat, input: BuildInput)
    requires input.Valid(cfg) && CollisionFree(hash) && Settled(base, id)
    requires RootsMatch(hash, w, Published(cfg, hash, base, id, input))
    ensures SameLeaves(w, Replay(hash, base, Published(cfg, hash, base, id, input)))
  {
    BuilderMatchesReplayer(cfg, hash, base, id, input);
    hide Published, Build, Replay, Settled, StartIndex, Config.Valid;
  }

  /**
   * A node that receives an honestly built rollup ends with the contents of replaying it in all four
   * trees, whatever the working trees held that its own pipeline had been putting into.
   */
  lemma BlockContentsAgree(cfg: Config, hash: map<nat, Leaf> -> Leaf, committed: Trees, working: Trees, base: Trees,
                           id: nat, input: BuildInput)
    requires input.Valid(cfg) && CollisionFree(hash)
    requires Settled(base, id) && Settled(committed, id) && Equivalent(cfg, committed, base)
    ensures var rollup := Published(cfg, hash, base, id, input);
            SameLeaves(AfterBlock(hash, committed, working, id, rollup), Replay(hash, base, rollup))
  {
    EquivalentBases(cfg, hash, base, committed, id, input);
    BuilderMatchesReplayer(cfg, hash, base, id, input);
    hide Published, Build, Replay, RootsMatch, Settled, StartIndex, Config.Valid;
    if RootsMatch(hash, working, Published(cfg, hash, base, id, input)) {
      MatchingContents(cfg, hash, working, base, id, input);
    }
  }

  /** Trees that have room for rollup id + 1 where every replayer of a rollup at `start` has it. */
  ghost predicate Placed(cfg: Config, t: Trees, id: nat, start: nat)
    requires cfg.Valid()
  {
    t.Valid() && t.roots.size == id + 2 && StartIndex(cfg, t.data.size, true) == start + 2 * cfg.outerRollupSize
  }

  /**
   * And it is ready for the next rollup exactly if working trees that happen to have the published
   * roots have the place for it, too.
   */
  lemma NodeFollowsChainIff(cfg: Config, hash: map<nat, Leaf> -> Leaf, committed: Trees, working: Trees, base: Trees,
                            id: nat, input: BuildInput)
    requires input.Valid(cfg) && CollisionFree(hash)
    requires Settled(base, id) && Settled(committed, id) && Equivalent(cfg, committed, base)
    ensures var rollup := Published(cfg, hash, base, id, input);
            var after := AfterBlock(hash, committed, working, id, rollup);
            Equivalent(cfg, after, Replay(hash, base, rollup)) && Settled(after, id + 1) <==>
              (RootsMatch(hash, working, rollup) ==> Placed(cfg, working, id, rollup.dataStartIndex))
  {
    var rollup := Published(cfg, hash, base, id, input);
    EquivalentBases(cfg, hash, base, committed, id, input);
    BuilderMatchesReplayer(cfg, hash, base, id, input);
    BuilderMatchesReplayer(cfg, hash, committed, id, input);
    SameStart(cfg, hash, committed, base, id, input);
    hide Published, Build, Replay, RootsMatch, StartIndex, Config.Valid;
    if RootsMatch(hash, working, rollup) {
      MatchingContents(cfg, hash, working, base, id, input);
    }
  }

  lemma SameStart(cfg: Config, hash: map<nat, Leaf> -> Leaf, a: Trees, b: Trees, id: nat, input: BuildInput)
    requires input.Valid(cfg) && Equivalent(cfg, a, b)
    ensures Published(cfg, hash, a, id, input).dataStartIndex == Published(cfg, hash, b, id, input).dataStartIndex
  {
  }

  // ---- what a pipeline can have put in the working trees ----

  /**
   * Working trees that cannot have the roots of rollup `id` at `start`: they have no data root at its
   * index, or one beyond, or a note beyond its subtree.
   */
  ghost predicate Elsewhere(cfg: Config, t: Trees, id: nat, start: nat) {
    || t.roots.Get(id + 1) == 0
    || t.roots.Get(id + 2) != 0
    || exists i :: i >= start + 2 * cfg.outerRollupSize && t.data.Get(i) != 0
  }

  lemma ElsewhereNeverMatches(cfg: Config, hash: map<nat, Leaf> -> Leaf, working: Trees, base: Trees, id: nat,
                              input: BuildInput)
    requires input.Valid(cfg) && CollisionFree(hash) && Settled(base, id)
    ensures RootsMatch(hash, working, Published(cfg, hash, base, id, input)) ==>
              !Elsewhere(cfg, working, id, StartIndex(cfg, base.data.size, true))
  {
    var rollup := Published(cfg, hash, base, id, input);
    BuilderMatchesReplayer(cfg, hash, base, id, input);
    if RootsMatch(hash, working, rollup) {
      hide Published, Build, Replay, RootsMatch, StartIndex, Config.Valid;
      MatchingContents(cfg, hash, working, base, id, input);
      var replayed := Replay(hash, base, rollup);
      assert replayed.roots.Get(id + 1) != 0 && replayed.roots.Get(id + 2) == 0;
    }
  }

  /** Building on after a refused publication: further rollups' notes go beyond the subtree. */
  lemma BuiltOnIsElsewhere(cfg: Config, hash: map<nat, Leaf> -> Leaf, committed: Trees, id: nat, input: BuildInput,
                           bridges: seq<nat>, chunks: seq<seq<ProofData>>, k: nat)
    requires input.Valid(cfg) && Settled(committed, id) && CoversAll(bridges, chunks)
    requires chunks != [] && forall i | 0 <= i < |chunks| :: ValidChunk(cfg, chunks[i])
    requires var slots := PaddedInners(cfg, id, bridges, chunks);
             k < |slots| && (slots[k].noteCommitment1 != 0 || slots[k].noteCommitment2 != 0)
    ensures Elsewhere(cfg, BuildInners(cfg, id, Build(cfg, hash, committed, id, input), bridges, chunks), id,
                      StartIndex(cfg, committed.data.size, true))
  {
    var built, slots := Build(cfg, hash, committed, id, input), PaddedInners(cfg, id, bridges, chunks);
    var start := StartIndex(cfg, built.data.size, true);
    BuiltRoots(cfg, hash, committed, id, input);
    hide Build, PaddedInners, BuildInners, ValidChunk, CoversAll, StartIndex, PutSlots, Config.Valid;
    BuildInnersFacts(cfg, id, built, bridges, chunks, start);
    var after := BuildInners(cfg, id, built, bridges, chunks);
    SlotRead(built.data, after.data, start, slots, k);
  }

  lemma SlotRead(before: Tree, after: Tree, start: nat, slots: seq<InnerProofData>, k: nat)
    requires after.leaves == PutSlots(before, start, slots).leaves && k < |slots|
    ensures after.Get(start + 2 * k) == slots[k].noteCommitment1
            && after.Get(start + 2 * k + 1) == slots[k].noteCommitment2
  {
    GetPutSlots(before, start, slots, start + 2 * k);
    GetPutSlots(before, start, slots, start + 2 * k + 1);
    hide PutSlots;
    assert after.Get(start + 2 * k) == PutSlots(before, start, slots).Get(start + 2 * k);
    assert after.Get(start + 2 * k + 1) == PutSlots(before, start, slots).Get(start + 2 * k + 1);
  }

  /** Aggregating again after a refused publication enters a second data root. */
  lemma BuiltAgainIsElsewhere(cfg: Config, hash: map<nat, Leaf> -> Leaf, committed: Trees, id: nat, input: BuildInput,
                              inners: Trees, start: nat, numProofs: nat)
    requires input.Valid(cfg) && CollisionFree(hash) && Settled(committed, id)
    requires inners.roots == Build(cfg, hash, committed, id, input).roots
    ensures Elsewhere(cfg, RootTrees(cfg, hash, inners, start, numProofs), id,
                      StartIndex(cfg, committed.data.size, true))
  {
    BuiltRoots(cfg, hash, committed, id, input);
    hide Build, StartIndex;
  }

  /** What a node's own pipeline had in the working trees when a block arrived. */
  datatype Progress = Building(working: Trees) | Aggregated(input: BuildInput)

  ghost predicate ValidProgress(cfg: Config, committed: Trees, id: nat, p: Progress)
    requires cfg.Valid()
  {
    match p
    case Building(w) => Elsewhere(cfg, w, id, StartIndex(cfg, committed.data.size, true))
    case Aggregated(input) => input.Valid(cfg)
  }

  ghost function Working(cfg: Config, hash: map<nat, Leaf> -> Leaf, committed: Trees, id: nat, p: Progress): Trees
    requires cfg.Valid() && ValidProgress(cfg, committed, id, p)
  {
    match p
    case Building(w) => w
    case Aggregated(input) => Build(cfg, hash, committed, id, input)
  }

  /**
   * So a node is ready for the next rollup whether its own pipeline was idle or part way through a
   * rollup, had built this very one, or had been refused one and built on.
   */
  lemma NodeFollowsChain(cfg: Config, hash: map<nat, Leaf> -> Leaf, committed: Trees, progress: Progress,
                         base: Trees, id: nat, input: BuildInput)
    requires input.Valid(cfg) && CollisionFree(hash)
    requires Settled(base, id) && Settled(committed, id) && Equivalent(cfg, committed, base)
    requires ValidProgress(cfg, committed, id, progress)
    ensures var rollup := Published(cfg, hash, base, id, input);
            var after := AfterBlock(hash, committed, Working(cfg, hash, committed, id, progress), id, rollup);
            && Equivalent(cfg, after, Replay(hash, base, rollup))
            && Settled(after, id + 1)
  {
    NodeFollowsChainIff(cfg, hash, committed, Working(cfg, hash, committed, id, progress), base, id, input);
    SameStart(cfg, hash, committed, base, id, input);
    PublishedStart(cfg, hash, base, id, input);
    match progress {
      case Building(w) =>
        ElsewhereNeverMatches(cfg, hash, w, base, id, input);
      case Aggregated(own) =>
        BuiltRoots(cfg, hash, committed, id, own);
    }
    hide Published, Build, Replay, RootsMatch, StartIndex, Config.Valid, Elsewhere;
  }

  lemma PublishedStart(cfg: Config, hash: map<nat, Leaf> -> Leaf, t: Trees, id: nat, input: BuildInput)
    requires input.Valid(cfg)
    ensures Published(cfg, hash, t, id, input).dataStartIndex == StartIndex(cfg, t.data.size, true)
  {
  }

  lemma BuiltRoots(cfg: Config, hash: map<nat, Leaf> -> Leaf, t: Trees, id: nat, input: BuildInput)
    requires input.Valid(cfg) && Settled(t, id)
    ensures var built := Build(cfg, hash, t, id, input);
            && built.roots == t.roots.Put(id + 1, hash(built.data.leaves))
            && StartIndex(cfg, built.data.size, true) == StartIndex(cfg, t.data.size, true) + 2 * cfg.outerRollupSize
            && Settled(built, id + 1)
  {
    BuilderMatchesReplayer(cfg, hash, t, id, input);
    hide Build, Published, Replay, Settled, RootsMatch;
    ReplayUnfolds(hash, t, Published(cfg, hash, t, id, input));
  }

  /** A rollup in a run, and the trees and input it was built from. */
  datatype Block = Block(base: Trees, input: BuildInput)

  /** Each rollup of the run was built by some node that was in agreement with `chain` at the time. */
  ghost predicate HonestRun(cfg: Config, hash: map<nat, Leaf> -> Leaf, chain: Trees, id: nat, blocks: seq<Block>)
    requires cfg.Valid()
    decreases |blocks|
  {
    blocks == [] ||
    (&& blocks[0].input.Valid(cfg) && Settled(blocks[0].base, id) && Equivalent(cfg, blocks[0].base, chain)
     && HonestRun(cfg, hash, Replay(hash, chain, Published(cfg, hash, blocks[0].base, id, blocks[0].input)), id + 1,
                  blocks[1..]))
  }

  /** The trees after replaying a run from nothing but what was published. */
  ghost function ReplayRun(cfg: Config, hash: map<nat, Leaf> -> Leaf, chain: Trees, id: nat, blocks: seq<Block>): Trees
    requires cfg.Valid() && HonestRun(cfg, hash, chain, id, blocks)
    decreases |blocks|
  {
    if blocks == [] then chain
    else ReplayRun(cfg, hash, Replay(hash, chain, Published(cfg, hash, blocks[0].base, id, blocks[0].input)), id + 1,
                   blocks[1..])
  }

  /** A node can get from committed trees `node` to `end` over a run; its pipeline did anything it can. */
  ghost predicate NodeRun(cfg: Config, hash: map<nat, Leaf> -> Leaf, node: Trees, id: nat, blocks: seq<Block>,
                          progress: seq<Progress>, end: Trees)
    requires cfg.Valid() && |progress| == |blocks|
    decreases |blocks|
  {
    if blocks == [] then end == node
    else
      && ValidProgress(cfg, node, id, progress[0]) && blocks[0].input.Valid(cfg)
      && NodeRun(cfg, hash,
                 AfterBlock(hash, node, Working(cfg, hash, node, id, progress[0]), id,
                            Published(cfg, hash, blocks[0].base, id, blocks[0].input)),
                 id + 1, blocks[1..], progress[1..], end)
  }

  /** Over every run, every node ends with the contents of replaying the published rollups. */
  lemma {:induction false} NodesAgreeOverEveryRun(
    cfg: Config, hash: map<nat, Leaf> -> Leaf, chain: Trees, node: Trees, id: nat, blocks: seq<Block>,
    progress: seq<Progress>, end: Trees)
    requires cfg.Valid() && CollisionFree(hash) && |progress| == |blocks|
    requires Settled(chain, id) && Settled(node, id) && Equivalent(cfg, node, chain)
    requires HonestRun(cfg, hash, chain, id, blocks)
    requires NodeRun(cfg, hash, node, id, blocks, progress, end)
    ensures Equivalent(cfg, end, ReplayRun(cfg, hash, chain, id, blocks))
    ensures Settled(end, id + |blocks|)
    decreases |blocks|
  {
    if blocks != [] {
      var base, input := blocks[0].base, blocks[0].input;
      var rollup := Published(cfg, hash, base, id, input);
      NodeFollowsChain(cfg, hash, node, progress[0], base, id, input);
      EquivalentBases(cfg, hash, base, chain, id, input);
      BuilderMatchesReplayer(cfg, hash, chain, id, input);
      var node' := AfterBlock(hash, node, Working(cfg, hash, node, id, progress[0]), id, rollup);
      NodesAgreeOverEveryRun(cfg, hash, Replay(hash, chain, rollup), node', id + 1, blocks[1..], progress[1..], end);
    }
  }
}
