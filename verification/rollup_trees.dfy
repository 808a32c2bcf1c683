/** What inserting a rollup's inner proofs does to the trees, and how it is read back leaf by leaf. */
module RollupTrees {
  import Arithmetic
  import opened WorldStateStore
  import opened Rollup

  /** The first multiple of s at or after n. */
  function AlignUp(n: nat, s: nat): (r: nat)
    requires s > 0
    ensures n <= r < n + s
  {
    if n == 0 then 0 else if n <= s then s else s + AlignUp(n - s, s)
  }

  ghost predicate Multiple(n: nat, s: nat)
    requires s > 0
  {
    n == 0 || (n >= s && Multiple(n - s, s))
  }

  lemma {:induction false} MultipleAppend(a: nat, b: nat, s: nat)
    requires s > 0 && Multiple(a, s) && Multiple(b, s)
    ensures Multiple(a + b, s)
  {
    if a > 0 {
      MultipleAppend(a - s, b, s);
    }
  }

  /** The closed form the sequencer uses. */
  lemma {:induction false} AlignUpFormula(n: nat, s: nat)
    requires s > 0
    ensures AlignUp(n, s) == if n % s == 0 then n else n + s - n % s
  {
    if n >= s {
      Arithmetic.ModAddMultiple(n - s, s, 1);
      AlignUpFormula(n - s, s);
    }
  }

  lemma {:induction false} AlignUpAligned(n: nat, s: nat)
    requires s > 0
    ensures Multiple(AlignUp(n, s), s)
  {
    if n > s {
      AlignUpAligned(n - s, s);
    }
  }

  /** Anything in the half-open subtree after an aligned start rounds up to the subtree's end. */
  lemma {:induction false} AlignUpWithin(start: nat, n: nat, s: nat)
    requires s > 0 && Multiple(start, s)
    requires start < n <= start + s
    ensures AlignUp(n, s) == start + s
  {
    if start > 0 {
      AlignUpWithin(start - s, n - s, s);
    }
  }

  lemma {:induction false} MultipleTransitive(n: nat, s: nat, m: nat)
    requires s > 0 && m > 0 && Multiple(m, s) && Multiple(n, m)
    ensures Multiple(n, s)
  {
    if n > 0 {
      MultipleTransitive(n - m, s, m);
      MultipleAppend(n - m, m, s);
    }
  }

  lemma {:induction false} MultipleOf(k: nat, s: nat)
    requires s > 0
    ensures 0 <= k * s && Multiple(k * s, s)
  {
    if k > 0 {
      Arithmetic.Distribute(k, 1, s);
      MultipleOf(k - 1, s);
    }
  }

  /** Inner proof i occupies leaves start + 2i and start + 2i + 1 of the data tree. */
  function PutSlots(t: Tree, start: nat, inners: seq<InnerProofData>): Tree {
    if inners == [] then t
    else
      var n := |inners| - 1;
      PutSlots(t, start, inners[..n])
        .Put(start + 2 * n, inners[n].noteCommitment1)
        .Put(start + 2 * n + 1, inners[n].noteCommitment2)
  }

  function SlotLeaf(inners: seq<InnerProofData>, k: nat): Leaf
    requires k < 2 * |inners|
  {
    if k % 2 == 0 then inners[k / 2].noteCommitment1 else inners[k / 2].noteCommitment2
  }

  lemma {:induction false} PutSlotsFacts(t: Tree, start: nat, inners: seq<InnerProofData>)
    requires t.Valid()
    ensures PutSlots(t, start, inners).Valid()
    ensures inners != [] ==>
              PutSlots(t, start, inners).size == if t.size < start + 2 * |inners| then start + 2 * |inners| else t.size
  {
    if inners != [] {
      PutSlotsFacts(t, start, inners[..|inners| - 1]);
    }
  }

  lemma {:induction false} GetPutSlots(t: Tree, start: nat, inners: seq<InnerProofData>, i: nat)
    ensures PutSlots(t, start, inners).Get(i) ==
            if start <= i < start + 2 * |inners| then SlotLeaf(inners, i - start) else t.Get(i)
  {
    if inners != [] {
      GetPutSlots(t, start, inners[..|inners| - 1], i);
    }
  }

  /** Zero nullifiers and padding proofs leave the nullifier tree alone. */
  function PutNullifier(t: Tree, n: nat): Tree {
    if n == 0 then t else t.Put(n, 1)
  }

  function PutNullifiers(t: Tree, inners: seq<InnerProofData>): Tree {
    if inners == [] then t
    else
      var p := inners[|inners| - 1];
      var before := PutNullifiers(t, inners[..|inners| - 1]);
      if p.IsPadding() then before else PutNullifier(PutNullifier(before, p.nullifier1), p.nullifier2)
  }

  ghost predicate Nullifies(inners: seq<InnerProofData>, n: nat) {
    n != 0 && exists i ::
      0 <= i < |inners| && !inners[i].IsPadding() && (inners[i].nullifier1 == n || inners[i].nullifier2 == n)
  }

  lemma {:induction false} GetPutNullifiers(t: Tree, inners: seq<InnerProofData>, n: nat)
    ensures PutNullifiers(t, inners).Get(n) == if Nullifies(inners, n) then 1 else t.Get(n)
    ensures t.Valid() ==> PutNullifiers(t, inners).Valid()
  {
    if inners != [] {
      var front, p := inners[..|inners| - 1], inners[|inners| - 1];
      GetPutNullifiers(t, front, n);
      if Nullifies(front, n) {
        var i :| 0 <= i < |front| && !front[i].IsPadding() && (front[i].nullifier1 == n || front[i].nullifier2 == n);
        assert inners[i] == front[i];
      }
    }
  }

  /** Padding adds no nullifiers, wherever it is put. */
  lemma {:induction false} PutNullifiersPadded(t: Tree, a: seq<InnerProofData>, pad: seq<InnerProofData>)
    requires forall i | 0 <= i < |pad| :: pad[i].IsPadding()
    ensures PutNullifiers(t, a + pad) == PutNullifiers(t, a)
  {
    if pad == [] {
      assert a + pad == a;
    } else {
      assert (a + pad)[..|a + pad| - 1] == a + pad[..|pad| - 1];
      PutNullifiersPadded(t, a, pad[..|pad| - 1]);
    }
  }

  lemma {:induction false} PutNullifiersAppend(t: Tree, a: seq<InnerProofData>, b: seq<InnerProofData>)
    ensures PutNullifiers(t, a + b) == PutNullifiers(PutNullifiers(t, a), b)
  {
    if b == [] {
      assert a + b == a;
    } else {
      assert (a + b)[..|a + b| - 1] == a + b[..|b| - 1];
      PutNullifiersAppend(t, a, b[..|b| - 1]);
    }
  }

  /** `notes` written from `start` on. */
  function PutAll(t: Tree, start: nat, notes: seq<Leaf>): Tree {
    if notes == [] then t
    else PutAll(t, start, notes[..|notes| - 1]).Put(start + |notes| - 1, notes[|notes| - 1])
  }

  lemma {:induction false} GetPutAll(t: Tree, start: nat, notes: seq<Leaf>, i: nat)
    ensures PutAll(t, start, notes).Get(i) == if start <= i < start + |notes| then notes[i - start] else t.Get(i)
    ensures t.Valid() ==> PutAll(t, start, notes).Valid()
  {
    if notes != [] {
      GetPutAll(t, start, notes[..|notes| - 1], i);
    }
  }

  function Zeros(n: nat): seq<nat> { seq(n, i => 0) }

  function Padding(n: nat): seq<InnerProofData> { seq(n, i => PaddingProof) }

  function Pad(inners: seq<InnerProofData>, n: nat): (r: seq<InnerProofData>)
    ensures |r| == if n <= |inners| then |inners| else n
    ensures inners <= r
    ensures forall i | |inners| <= i < |r| :: r[i] == PaddingProof
  {
    inners + Padding(if n <= |inners| then 0 else n - |inners|)
  }
}
