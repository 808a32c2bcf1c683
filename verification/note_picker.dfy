/** alpha-sdk's NotePicker: choosing the notes a payment spends. */
module NotePicking {
  import opened Util

  datatype Note = Note(value: nat, nullifier: nat, allowChain: bool, pending: bool, spendingKeyRequired: bool)

  datatype Options = Options(excludedNullifiers: set<nat>, excludePendingNotes: bool, spendingKeyRequired: bool) {
    predicate Allows(n: Note) {
      && n.nullifier !in excludedNullifiers
      && (!excludePendingNotes || !n.pending)
      && n.spendingKeyRequired == spendingKeyRequired
    }
  }

  function NoteSum(notes: seq<Note>): nat {
    if notes == [] then 0 else NoteSum(notes[..|notes| - 1]) + notes[|notes| - 1].value
  }

  function NumPending(notes: seq<Note>): nat {
    if notes == [] then 0 else NumPending(notes[..|notes| - 1]) + if notes[|notes| - 1].pending then 1 else 0
  }

  ghost predicate Descending(notes: seq<Note>) {
    forall i, j | 0 <= i < j < |notes| :: notes[i].value >= notes[j].value
  }

  /** From notes listed largest first: every settled note, and the first pending one. */
  function Spendable(notes: seq<Note>): seq<Note> {
    if notes == [] then []
    else
      var n := |notes| - 1;
      var before := Spendable(notes[..n]);
      if !notes[n].pending || NumPending(notes[..n]) == 0 then before + [notes[n]] else before
  }

  lemma {:induction false} SpendableLength(notes: seq<Note>)
    ensures NumPending(notes) <= |notes|
    ensures |Spendable(notes)| == |notes| - NumPending(notes) + (if NumPending(notes) > 0 then 1 else 0)
    ensures NumPending(Spendable(notes)) == if NumPending(notes) > 0 then 1 else 0
  {
    if notes != [] {
      var n := |notes| - 1;
      SpendableLength(notes[..n]);
      assert (Spendable(notes[..n]) + [notes[n]])[..|Spendable(notes[..n])|] == Spendable(notes[..n]);
    }
  }

  lemma {:induction false} SpendableMembers(notes: seq<Note>)
    ensures forall i | 0 <= i < |Spendable(notes)| :: Spendable(notes)[i] in notes
  {
    if notes != [] {
      SpendableMembers(notes[..|notes| - 1]);
    }
  }

  lemma {:induction false} SpendableFirst(notes: seq<Note>)
    requires notes != []
    ensures Spendable(notes) != [] && Spendable(notes)[0] == notes[0]
  {
    if |notes| == 1 {
      assert notes[..0] == [];
    } else {
      SpendableFirst(notes[..|notes| - 1]);
    }
  }

  // ---- selections ----

  /** Positions, in order, of a choice of notes. */
  ghost predicate Choice(notes: seq<Note>, s: seq<nat>) {
    && (forall k | 0 <= k < |s| :: s[k] < |notes|)
    && (forall j, k | 0 <= j < k < |s| :: s[j] < s[k])
  }

  function Chosen(notes: seq<Note>, s: seq<nat>): (r: seq<Note>)
    requires forall k | 0 <= k < |s| :: s[k] < |notes|
    ensures |r| == |s|
  {
    if s == [] then [] else Chosen(notes, s[..|s| - 1]) + [notes[s[|s| - 1]]]
  }

  /** A choice a payment may spend: at most one pending note. */
  ghost predicate Selection(notes: seq<Note>, s: seq<nat>) {
    Choice(notes, s) && NumPending(Chosen(notes, s)) <= 1
  }

  lemma {:induction false} ChosenPrefix(notes: seq<Note>, n: nat, s: seq<nat>)
    requires n <= |notes| && forall k | 0 <= k < |s| :: s[k] < n
    ensures Chosen(notes[..n], s) == Chosen(notes, s)
  {
    if s != [] {
      ChosenPrefix(notes, n, s[..|s| - 1]);
    }
  }

  /** The total of the k largest spendable notes. */
  function Best(notes: seq<Note>, k: nat): nat
    requires k <= |Spendable(notes)|
  {
    NoteSum(Spendable(notes)[..k])
  }

  lemma {:induction false} ChoiceLength(notes: seq<Note>, s: seq<nat>)
    requires Choice(notes, s)
    ensures |s| <= |notes|
    decreases |s|
  {
    if s != [] {
      ChoiceLength(notes[..s[|s| - 1]], s[..|s| - 1]);
    }
  }

  ghost predicate Optimal(notes: seq<Note>, s: seq<nat>)
    requires Choice(notes, s)
  {
    && |s| <= |Spendable(notes)| && NoteSum(Chosen(notes, s)) <= Best(notes, |s|)
    && (NumPending(Chosen(notes, s)) == 0 && NumPending(notes) > 0 ==> |s| < |Spendable(notes)|)
  }

  /** No selection of k notes is worth more than the k largest spendable ones. */
  lemma {:induction false} BestIsOptimal(notes: seq<Note>, s: seq<nat>)
    requires Descending(notes) && Selection(notes, s)
    ensures Optimal(notes, s)
    decreases |notes|
  {
    hide Optimal;
    if notes == [] {
      ChoiceLength(notes, s);
      NothingIsOptimal();
    } else {
      var n := |notes| - 1;
      if s != [] && s[|s| - 1] == n {
        DropLast(notes, s);
        BestIsOptimal(notes[..n], s[..|s| - 1]);
        OptimalWithLast(notes, s);
      } else {
        assert forall k | 0 <= k < |s| - 1 :: s[k] < s[|s| - 1];
        ChosenPrefix(notes, n, s);
        BestIsOptimal(notes[..n], s);
        OptimalWithoutLast(notes, s);
      }
    }
  }

  lemma NothingIsOptimal()
    ensures Optimal([], [])
  {
  }

  lemma OptimalWithLast(notes: seq<Note>, s: seq<nat>)
    requires Descending(notes) && Selection(notes, s) && s != [] && s[|s| - 1] == |notes| - 1
    requires Selection(notes[..|notes| - 1], s[..|s| - 1]) && Optimal(notes[..|notes| - 1], s[..|s| - 1])
    ensures Optimal(notes, s)
  {
    SpendableLength(notes);
    SpendableLength(notes[..|notes| - 1]);
    DropLast(notes, s);
    hide Spendable, NumPending, NoteSum, Chosen;
    ExtendBest(notes, |s| - 1);
  }

  lemma OptimalWithoutLast(notes: seq<Note>, s: seq<nat>)
    requires notes != [] && Choice(notes[..|notes| - 1], s) && Choice(notes, s)
    requires Optimal(notes[..|notes| - 1], s)
    ensures Optimal(notes, s)
  {
    var front := notes[..|notes| - 1];
    ChosenPrefix(notes, |notes| - 1, s);
    SpendableLength(notes);
    SpendableLength(front);
    SpendablePrefix(notes);
    hide Spendable, NoteSum, Chosen;
    assert Spendable(notes)[..|s|] == Spendable(front)[..|s|];
  }

  /** A selection that takes the last note, without it. */
  lemma DropLast(notes: seq<Note>, s: seq<nat>)
    requires Selection(notes, s) && s != [] && s[|s| - 1] == |notes| - 1
    ensures var n, rest := |notes| - 1, s[..|s| - 1];
            && Selection(notes[..n], rest)
            && NoteSum(Chosen(notes, s)) == NoteSum(Chosen(notes[..n], rest)) + notes[n].value
            && NumPending(Chosen(notes, s)) == NumPending(Chosen(notes[..n], rest))
               + (if notes[n].pending then 1 else 0)
            && NumPending(notes) == NumPending(notes[..n]) + if notes[n].pending then 1 else 0
  {
    var n, rest := |notes| - 1, s[..|s| - 1];
    ChosenPrefix(notes, n, rest);
    assert Chosen(notes, s)[..|rest|] == Chosen(notes, rest);
  }

  lemma SpendablePrefix(notes: seq<Note>)
    requires notes != []
    ensures Spendable(notes[..|notes| - 1]) <= Spendable(notes)
  {
  }

  /** With room for one more note, the best total grows by at least the smallest note. */
  lemma ExtendBest(notes: seq<Note>, k: nat)
    requires Descending(notes) && notes != []
    requires k <= |Spendable(notes[..|notes| - 1])| && k < |Spendable(notes)|
    ensures Best(notes, k + 1) >= Best(notes[..|notes| - 1], k) + notes[|notes| - 1].value
  {
    var n := |notes| - 1;
    SpendableMembers(notes);
    SpendablePrefix(notes);
    TakeOneMore(Spendable(notes), Spendable(notes[..n]), k);
    var i :| 0 <= i < |notes| && notes[i] == Spendable(notes)[k];
    assert notes[i].value >= notes[n].value;
  }

  lemma TakeOneMore(all: seq<Note>, front: seq<Note>, k: nat)
    requires front <= all && k <= |front| && k < |all|
    ensures NoteSum(all[..k + 1]) == NoteSum(front[..k]) + all[k].value
  {
    assert all[..k + 1][..k] == front[..k];
  }

  lemma {:induction false} BestMonotone(notes: seq<Note>, j: nat, k: nat)
    requires j <= k <= |Spendable(notes)|
    ensures Best(notes, j) <= Best(notes, k)
  {
    if j < k {
      assert Spendable(notes)[..k][..k - 1] == Spendable(notes)[..k - 1];
      BestMonotone(notes, j, k - 1);
    }
  }

  /** The fewest notes worth at least `value`, or 0 if no spendable notes are. */
  ghost predicate IsMinimum(notes: seq<Note>, value: nat, k: nat) {
    if k == 0 then forall j | 1 <= j <= |Spendable(notes)| :: Best(notes, j) < value
    else
      && k <= |Spendable(notes)|
      && Best(notes, k) >= value
      && forall j | 1 <= j < k :: Best(notes, j) < value
  }

  function MinNotesFrom(notes: seq<Note>, value: nat, k: nat): nat
    decreases |Spendable(notes)| + 1 - k
  {
    if k > |Spendable(notes)| then 0
    else if Best(notes, k) >= value then k
    else MinNotesFrom(notes, value, k + 1)
  }

  function MinNotes(notes: seq<Note>, value: nat): nat { MinNotesFrom(notes, value, 1) }

  lemma {:induction false} MinNotesFromFacts(notes: seq<Note>, value: nat, k: nat)
    requires 1 <= k <= |Spendable(notes)| + 1
    requires forall j | 1 <= j < k :: Best(notes, j) < value
    ensures IsMinimum(notes, value, MinNotesFrom(notes, value, k))
    decreases |Spendable(notes)| + 1 - k
  {
    if k <= |Spendable(notes)| && Best(notes, k) < value {
      MinNotesFromFacts(notes, value, k + 1);
    }
  }

  lemma MinNotesIsMinimum(notes: seq<Note>, value: nat)
    ensures IsMinimum(notes, value, MinNotes(notes, value))
  {
    MinNotesFromFacts(notes, value, 1);
  }

  /** No selection does better, whichever notes it uses. */
  lemma MinimumIsOptimal(notes: seq<Note>, value: nat, k: nat, s: seq<nat>)
    requires Descending(notes) && IsMinimum(notes, value, k)
    requires Selection(notes, s) && s != [] && NoteSum(Chosen(notes, s)) >= value
    ensures 1 <= k <= |s|
  {
    BestIsOptimal(notes, s);
  }

  lemma MinimumMonotone(notes: seq<Note>, u: nat, v: nat, j: nat, k: nat)
    requires IsMinimum(notes, u, j) && IsMinimum(notes, v, k) && u <= v && k > 0
    ensures 1 <= j <= k
  {
  }

  // ---- sorting ----

  function Reverse(notes: seq<Note>): (r: seq<Note>)
    ensures |r| == |notes|
    ensures forall i | 0 <= i < |r| :: r[i] == notes[|notes| - 1 - i]
  {
    seq(|notes|, i requires 0 <= i < |notes| => notes[|notes| - 1 - i])
  }

  predicate Before(a: Note, b: Note, pendingAreLower: bool) {
    a.value < b.value || (a.value == b.value && (a.pending == b.pending || a.pending == pendingAreLower))
  }

  /** Stable insertion from the right: x goes after everything it need not precede. */
  function Insert(notes: seq<Note>, x: Note, pendingAreLower: bool): seq<Note> {
    if notes == [] || Before(notes[|notes| - 1], x, pendingAreLower) then notes + [x]
    else Insert(notes[..|notes| - 1], x, pendingAreLower) + [notes[|notes| - 1]]
  }

  function SortNotes(notes: seq<Note>, pendingAreLower: bool): seq<Note> {
    if notes == [] then []
    else Insert(SortNotes(notes[..|notes| - 1], pendingAreLower), notes[|notes| - 1], pendingAreLower)
  }

  ghost predicate Ascending(notes: seq<Note>) {
    forall i, j | 0 <= i < j < |notes| :: notes[i].value <= notes[j].value
  }

  ghost predicate DistinctNotes(notes: seq<Note>) {
    forall i, j | 0 <= i < j < |notes| :: notes[i].nullifier != notes[j].nullifier
  }

  lemma {:induction false} InsertPermutes(notes: seq<Note>, x: Note, pendingAreLower: bool)
    ensures multiset(Insert(notes, x, pendingAreLower)) == multiset(notes) + multiset{x}
  {
    if notes != [] && !Before(notes[|notes| - 1], x, pendingAreLower) {
      InsertPermutes(notes[..|notes| - 1], x, pendingAreLower);
      assert notes == notes[..|notes| - 1] + [notes[|notes| - 1]];
    }
  }

  lemma InsertMembers(notes: seq<Note>, x: Note, pendingAreLower: bool)
    ensures forall y :: y in Insert(notes, x, pendingAreLower) <==> y in notes || y == x
  {
    InsertPermutes(notes, x, pendingAreLower);
    forall y
      ensures y in Insert(notes, x, pendingAreLower) <==> y in notes || y == x
    {
      assert y in Insert(notes, x, pendingAreLower) <==> y in multiset(Insert(notes, x, pendingAreLower));
    }
  }

  lemma {:induction false} InsertAscending(notes: seq<Note>, x: Note, pendingAreLower: bool)
    requires Ascending(notes)
    ensures Ascending(Insert(notes, x, pendingAreLower))
  {
    if notes != [] && !Before(notes[|notes| - 1], x, pendingAreLower) {
      var front := notes[..|notes| - 1];
      InsertAscending(front, x, pendingAreLower);
      InsertMembers(front, x, pendingAreLower);
      AllIn(Insert(front, x, pendingAreLower));
    }
  }

  lemma {:induction false} InsertDistinct(notes: seq<Note>, x: Note, pendingAreLower: bool)
    requires DistinctNotes(notes) && forall y | y in notes :: y.nullifier != x.nullifier
    ensures DistinctNotes(Insert(notes, x, pendingAreLower))
  {
    AllIn(notes);
    if notes != [] && !Before(notes[|notes| - 1], x, pendingAreLower) {
      var front := notes[..|notes| - 1];
      InsertDistinct(front, x, pendingAreLower);
      InsertMembers(front, x, pendingAreLower);
      AllIn(Insert(front, x, pendingAreLower));
    }
  }

  lemma AllIn(notes: seq<Note>)
    ensures forall i | 0 <= i < |notes| :: notes[i] in notes
  {
  }

  lemma {:induction false} SortFacts(notes: seq<Note>, pendingAreLower: bool)
    ensures Ascending(SortNotes(notes, pendingAreLower))
    ensures multiset(SortNotes(notes, pendingAreLower)) == multiset(notes)
    ensures forall y :: y in SortNotes(notes, pendingAreLower) <==> y in notes
    ensures DistinctNotes(notes) ==> DistinctNotes(SortNotes(notes, pendingAreLower))
  {
    if notes != [] {
      var front, last := notes[..|notes| - 1], notes[|notes| - 1];
      var sorted := SortNotes(front, pendingAreLower);
      SortFacts(front, pendingAreLower);
      InsertPermutes(sorted, last, pendingAreLower);
      InsertMembers(sorted, last, pendingAreLower);
      InsertAscending(sorted, last, pendingAreLower);
      assert notes == front + [last];
      if DistinctNotes(notes) {
        InsertDistinct(sorted, last, pendingAreLower);
      }
    }
  }

  function Filter(notes: seq<Note>, options: Options): seq<Note> {
    if notes == [] then []
    else Filter(notes[..|notes| - 1], options) + if options.Allows(notes[|notes| - 1]) then [notes[|notes| - 1]] else []
  }

  lemma {:induction false} FilterFacts(notes: seq<Note>, options: Options)
    ensures Ascending(notes) ==> Ascending(Filter(notes, options))
    ensures DistinctNotes(notes) ==> DistinctNotes(Filter(notes, options))
    ensures forall y :: y in Filter(notes, options) <==> y in notes && options.Allows(y)
  {
    if notes != [] {
      var front, last := notes[..|notes| - 1], notes[|notes| - 1];
      FilterFacts(front, options);
      assert notes == front + [last];
      var r := Filter(front, options);
      forall i | 0 <= i < |r| ensures r[i] in front { assert r[i] in r; }
    }
  }

  lemma ReverseDescends(notes: seq<Note>)
    requires Ascending(notes)
    ensures Descending(Reverse(notes))
    ensures DistinctNotes(notes) ==> DistinctNotes(Reverse(notes))
  {
  }

  lemma {:induction false} SpendablePrefixes(notes: seq<Note>, m: nat)
    requires m <= |notes|
    ensures Spendable(notes[..m]) <= Spendable(notes)
  {
    if m == |notes| {
      assert notes[..m] == notes;
    } else {
      assert notes[..|notes| - 1][..m] == notes[..m];
      SpendablePrefixes(notes[..|notes| - 1], m);
    }
  }

  /** Going one note further down the list. */
  lemma SpendableStep(notes: seq<Note>, m: nat)
    requires m < |notes|
    ensures var skip := notes[m].pending && NumPending(notes[..m]) > 0;
            && Spendable(notes[..m + 1]) == Spendable(notes[..m]) + (if skip then [] else [notes[m]])
            && NumPending(notes[..m + 1]) == NumPending(notes[..m]) + (if notes[m].pending then 1 else 0)
            && Spendable(notes[..m + 1]) <= Spendable(notes)
  {
    assert notes[..m + 1][..m] == notes[..m];
    SpendablePrefixes(notes, m + 1);
  }

  lemma {:induction false} ReplaceNote(notes: seq<Note>, i: nat, x: Note)
    requires i < |notes|
    ensures NoteSum(notes[i := x]) == NoteSum(notes) - notes[i].value + x.value
    ensures NumPending(notes[i := x]) ==
            NumPending(notes) - (if notes[i].pending then 1 else 0) + if x.pending then 1 else 0
  {
    var n := |notes| - 1;
    if i == n {
      assert notes[i := x][..n] == notes[..n];
    } else {
      assert notes[i := x][..n] == notes[..n][i := x];
      ReplaceNote(notes[..n], i, x);
    }
  }

  lemma {:induction false} PendingExists(notes: seq<Note>)
    ensures NumPending(notes) > 0 <==> exists i :: 0 <= i < |notes| && notes[i].pending
  {
    if notes != [] {
      PendingExists(notes[..|notes| - 1]);
      assert forall i | 0 <= i < |notes| - 1 :: notes[..|notes| - 1][i] == notes[i];
    }
  }

  lemma {:induction false} ReverseSums(notes: seq<Note>)
    ensures NoteSum(Reverse(notes)) == NoteSum(notes) && NumPending(Reverse(notes)) == NumPending(notes)
  {
    if notes != [] {
      var n := |notes| - 1;
      ReverseSums(notes[..n]);
      assert Reverse(notes) == [notes[n]] + Reverse(notes[..n]);
      SumsOfCons(notes[n], Reverse(notes[..n]));
    }
  }

  lemma {:induction false} SumsOfCons(x: Note, rest: seq<Note>)
    ensures NoteSum([x] + rest) == x.value + NoteSum(rest)
    ensures NumPending([x] + rest) == (if x.pending then 1 else 0) + NumPending(rest)
  {
    var n := |rest| - 1;
    if rest == [] {
      assert [x] + rest == [x] && [x][..0] == [];
    } else {
      assert ([x] + rest)[..n + 1] == [x] + rest[..n];
      SumsOfCons(x, rest[..n]);
    }
  }

  /** A set of notes a payment of `value` can spend, drawn from `available`. */
  ghost predicate Pays(available: seq<Note>, picked: seq<Note>, value: nat) {
    && (forall i | 0 <= i < |picked| :: picked[i] in available)
    && DistinctNotes(picked)
    && NumPending(picked) <= 1
    && NoteSum(picked) >= value
  }

  /** What has been counted after going down the first m notes. */
  ghost predicate CountedDown(notes: seq<Note>, m: nat, count: nat, total: nat, hasPending: bool) {
    && m <= |notes|
    && Spendable(notes[..m]) <= Spendable(notes)
    && count == |Spendable(notes[..m])|
    && total == NoteSum(Spendable(notes[..m]))
    && hasPending == (NumPending(notes[..m]) > 0)
  }

  lemma NothingCounted(notes: seq<Note>)
    ensures CountedDown(notes, 0, 0, 0, false)
  {
    assert notes[..0] == [];
  }

  lemma AllCounted(notes: seq<Note>, count: nat, total: nat, hasPending: bool)
    requires CountedDown(notes, |notes|, count, total, hasPending)
    ensures count == |Spendable(notes)|
  {
    assert notes[..|notes|] == notes;
  }

  lemma CountNext(notes: seq<Note>, m: nat, count: nat, total: nat, hasPending: bool)
    requires m < |notes| && CountedDown(notes, m, count, total, hasPending)
    ensures if notes[m].pending && hasPending then CountedDown(notes, m + 1, count, total, hasPending)
            else
              && CountedDown(notes, m + 1, count + 1, total + notes[m].value, hasPending || notes[m].pending)
              && count + 1 <= |Spendable(notes)| && Best(notes, count + 1) == total + notes[m].value
  {
    SpendableStep(notes, m);
    var before, after := Spendable(notes[..m]), Spendable(notes[..m + 1]);
    if notes[m].pending && hasPending {
      assert after == before;
    } else {
      assert after[..count] == before;
      assert Spendable(notes)[..count + 1] == after;
    }
  }

  // ---- making a selection smaller ----

  /** n is not picked, and smaller than note i but large enough to take its place, at most one being pending. */
  predicate Improves(n: Note, picked: seq<Note>, i: nat, targetValue: nat)
    requires i < |picked|
  {
    && (forall k | 0 <= k < |picked| :: picked[k].nullifier != n.nullifier)
    && picked[i].value - (NoteSum(picked) - targetValue) <= n.value < picked[i].value
    && (!n.pending || NumPending(picked) == 0 || picked[i].pending)
  }

  ghost predicate CannotImprove(available: seq<Note>, picked: seq<Note>, i: nat, targetValue: nat)
    requires i < |picked|
  {
    forall j | 0 <= j < |available| :: !Improves(available[j], picked, i, targetValue)
  }

  /** Notes are replaced by smaller ones one after the other, up to one that no available note improves. */
  ghost predicate Reduced(available: seq<Note>, selection: seq<Note>, targetValue: nat, picked: seq<Note>) {
    |picked| == |selection| && exists k: nat :: StoppedAt(available, selection, targetValue, picked, k)
  }

  ghost predicate StoppedAt(available: seq<Note>, selection: seq<Note>, targetValue: nat, picked: seq<Note>, k: nat)
    requires |picked| == |selection|
  {
    ReplacedUpTo(available, selection, picked, k) && (k < |picked| ==> CannotImprove(available, picked, k, targetValue))
  }

  ghost predicate ReplacedUpTo(available: seq<Note>, selection: seq<Note>, picked: seq<Note>, k: nat) {
    && k <= |picked| == |selection|
    && (forall i | 0 <= i < k :: picked[i] in available && picked[i].value < selection[i].value)
    && (forall i | k <= i < |picked| :: picked[i] == selection[i])
  }

  lemma NothingReplaced(available: seq<Note>, selection: seq<Note>)
    ensures ReplacedUpTo(available, selection, selection, 0)
  {
  }

  lemma Stopped(available: seq<Note>, selection: seq<Note>, targetValue: nat, picked: seq<Note>, k: nat)
    requires ReplacedUpTo(available, selection, picked, k)
    requires k < |picked| ==> CannotImprove(available, picked, k, targetValue)
    ensures Reduced(available, selection, targetValue, picked)
  {
    hide CannotImprove;
    assert StoppedAt(available, selection, targetValue, picked, k);
  }

  lemma ReplaceNext(available: seq<Note>, selection: seq<Note>, picked: seq<Note>, k: nat, x: Note)
    requires ReplacedUpTo(available, selection, picked, k) && k < |picked|
    requires x in available && x.value < picked[k].value
    ensures ReplacedUpTo(available, selection, picked[k := x], k + 1)
  {
  }

  lemma ImproveKeepsPaying(available: seq<Note>, picked: seq<Note>, value: nat, i: nat, x: Note)
    requires Pays(available, picked, value) && i < |picked| && x in available && Improves(x, picked, i, value)
    ensures Pays(available, picked[i := x], value) && NoteSum(picked[i := x]) < NoteSum(picked)
    ensures x.value < picked[i].value
  {
    hide Pays, NoteSum, NumPending;
    SwapKeepsPaying(available, picked, value, i, x);
  }

  /** What is picked: a note of exactly the value among the reduced largest ones, or else all of these. */
  ghost predicate PickedFrom(available: seq<Note>, selection: seq<Note>, reduced: seq<Note>, value: nat,
                             notes: seq<Note>)
  {
    && Reduced(available, selection, value, reduced)
    && if exists i :: 0 <= i < |reduced| && reduced[i].value == value
       then exists i :: 0 <= i < |reduced| && reduced[i].value == value && notes == [reduced[i]]
       else notes == reduced
  }

  class NotePicker {
    const pendingAreLower: seq<Note>
    const pendingAreHigher: seq<Note>

    constructor (notes: seq<Note>)
      requires DistinctNotes(notes)
      ensures Valid()
      ensures forall n :: n in pendingAreLower <==> n in notes && (!n.pending || n.allowChain)
    {
      var validNotes := [];
      for i := 0 to |notes|
        invariant forall n :: n in validNotes <==> n in notes[..i] && (!n.pending || n.allowChain)
        invariant DistinctNotes(validNotes)
      {
        if !notes[i].pending || notes[i].allowChain {
          forall k | 0 <= k < |validNotes|
            ensures validNotes[k].nullifier != notes[i].nullifier
          {
            assert validNotes[k] in validNotes;
          }
          validNotes := validNotes + [notes[i]];
        }
      }
      SortFacts(validNotes, true);
      SortFacts(validNotes, false);
      pendingAreLower := SortNotes(validNotes, true);
      pendingAreHigher := SortNotes(validNotes, false);
    }

    ghost predicate Valid() {
      && Ascending(pendingAreLower) && Ascending(pendingAreHigher)
      && DistinctNotes(pendingAreLower) && DistinctNotes(pendingAreHigher)
      && forall n :: n in pendingAreLower <==> n in pendingAreHigher
    }

    /** The notes the options allow, largest first, settled before pending among equals. */
    function Available(options: Options): seq<Note> {
      Reverse(Filter(pendingAreLower, options))
    }

    lemma AvailableFacts(options: Options)
      requires Valid()
      ensures Descending(Available(options)) && DistinctNotes(Available(options))
      ensures forall n :: n in Available(options) <==>
                && n in pendingAreLower && n.nullifier !in options.excludedNullifiers
                && (options.excludePendingNotes ==> !n.pending) && n.spendingKeyRequired == options.spendingKeyRequired
      ensures forall n :: n in Available(options) <==> n in Filter(pendingAreHigher, options)
    {
      FilterFacts(pendingAreLower, options);
      FilterFacts(pendingAreHigher, options);
      var asc := Filter(pendingAreLower, options);
      ReverseDescends(asc);
      forall n
        ensures n in Available(options) <==> n in asc
      {
        if n in asc {
          var i :| 0 <= i < |asc| && asc[i] == n;
          assert Available(options)[|asc| - 1 - i] == n;
        }
      }
    }

    method FindMinimumNotes(value: nat, notes: seq<Note>) returns (minimumNotes: nat)
      ensures minimumNotes == MinNotes(Reverse(notes), value)
    {
      hide Best, CountedDown, MinNotes, Spendable;
      ghost var all := Reverse(notes);
      minimumNotes := 0;
      var accumulatedValue: nat, hasPendingNote := 0, false;
      var index := |notes| - 1;
      NothingCounted(all);
      while index >= 0
        invariant -1 <= index < |notes|
        invariant CountedDown(all, |notes| - 1 - index, minimumNotes, accumulatedValue, hasPendingNote)
        invariant minimumNotes <= |Spendable(all)|
        invariant forall j | 1 <= j <= minimumNotes :: Best(all, j) < value
      {
        ghost var m := |notes| - 1 - index;
        var note := notes[index];
        assert note == all[m];
        CountNext(all, m, minimumNotes, accumulatedValue, hasPendingNote);
        if !note.pending || !hasPendingNote {
          minimumNotes := minimumNotes + 1;
          accumulatedValue := accumulatedValue + note.value;
          hasPendingNote := hasPendingNote || note.pending;
          if accumulatedValue >= value {
            OnlyMinimum(all, value, minimumNotes);
            return;
          }
        }
        index := index - 1;
      }
      AllCounted(all, minimumNotes, accumulatedValue, hasPendingNote);
      OnlyMinimum(all, value, 0);
      minimumNotes := 0;
    }

    method GetMaxSpendableNotes(options: Options, numNotes: Option<nat>) returns (notes: seq<Note>)
      ensures var all := Spendable(Available(options));
              notes == match numNotes case None => all case Some(n) => if 1 <= n <= |all| then all[..n] else all
    {
      var filteredNotes := Available(options);
      var hasPendingNote := false;
      notes := [];
      assert filteredNotes[..0] == [];
      for i := 0 to |filteredNotes|
        invariant notes == Spendable(filteredNotes[..i])
        invariant hasPendingNote == (NumPending(filteredNotes[..i]) > 0)
        invariant numNotes.Some? && numNotes.value > 0 ==> |notes| < numNotes.value
        invariant Spendable(filteredNotes[..i]) <= Spendable(filteredNotes)
      {
        var note := filteredNotes[i];
        SpendableStep(filteredNotes, i);
        if !note.pending || !hasPendingNote {
          notes := notes + [note];
          hasPendingNote := hasPendingNote || note.pending;
        }
        if numNotes.Some? && |notes| == numNotes.value && |notes| > 0 {
          return;
        }
      }
      assert filteredNotes[..|filteredNotes|] == filteredNotes;
    }

    /** Swaps picked notes, smallest first, for unused smaller ones while the total still covers the target. */
    method ReducePickedNotesValues(selection: seq<Note>, targetValue: nat, options: Options) returns (picked: seq<Note>)
      requires Valid() && Pays(Available(options), selection, targetValue)
      ensures |picked| == |selection| && Pays(Available(options), picked, targetValue)
      ensures NoteSum(picked) <= NoteSum(selection)
      ensures Reduced(Filter(pendingAreHigher, options), selection, targetValue, picked)
    {
      hide *;
      picked := selection;
      var availableNotes := Filter(pendingAreHigher, options);
      AvailableFacts(options);
      NothingReplaced(availableNotes, selection);
      for index := 0 to |picked|
        invariant |picked| == |selection|
        invariant Pays(Available(options), picked, targetValue)
        invariant NoteSum(picked) <= NoteSum(selection)
        invariant ReplacedUpTo(availableNotes, selection, picked, index)
      {
        var better := FindBetter(availableNotes, picked, index, targetValue);
        if better.None? {
          Stopped(availableNotes, selection, targetValue, picked, index);
          return;
        }
        assert better.value in availableNotes && better.value in Available(options);
        ImproveKeepsPaying(Available(options), picked, targetValue, index, better.value);
        ReplaceNext(availableNotes, selection, picked, index, better.value);
        picked := picked[index := better.value];
      }
      Stopped(availableNotes, selection, targetValue, picked, |picked|);
    }

    /** The first available note that improves note i of what is picked. */
    method FindBetter(available: seq<Note>, picked: seq<Note>, i: nat, targetValue: nat) returns (better: Option<Note>)
      requires i < |picked|
      ensures better.Some? ==> better.value in available && Improves(better.value, picked, i, targetValue)
      ensures better.Some? ==> exists j :: 0 <= j < |available| && better.value == available[j]
                                           && CannotImprove(available[..j], picked, i, targetValue)
      ensures better.None? ==> CannotImprove(available, picked, i, targetValue)
    {
      var noteToImprove := picked[i];
      var minimumValue := noteToImprove.value - (NoteSum(picked) - targetValue);
      var hasPending := NumPending(picked) > 0;
      for index := 0 to |available|
        invariant forall j | 0 <= j < index :: !Improves(available[j], picked, i, targetValue)
      {
        var n := available[index];
        if && (forall k | 0 <= k < |picked| :: picked[k].nullifier != n.nullifier)
           && minimumValue <= n.value < noteToImprove.value
           && (!n.pending || !hasPending || noteToImprove.pending) {
          return Some(n);
        }
      }
      return None;
    }

    lemma AllowedNotes(options: Options, notes: seq<Note>, value: nat)
      requires Valid() && Pays(Available(options), notes, value)
      ensures forall i | 0 <= i < |notes| ::
                && notes[i].nullifier !in options.excludedNullifiers
                && (options.excludePendingNotes ==> !notes[i].pending)
                && notes[i].spendingKeyRequired == options.spendingKeyRequired
    {
      AvailableFacts(options);
      hide Available, Valid, NoteSum, DistinctNotes, Filter, Descending;
      assert forall i | 0 <= i < |notes| :: notes[i] in Available(options);
    }

    /** The largest spendable notes: two, or as many as it takes if that is more, if there are as many. */
    function Largest(options: Options, value: nat): seq<Note> {
      var all, fewest := Available(options), MinNotes(Available(options), value);
      var n := if fewest <= 1 then 2 else fewest;
      if n <= |Spendable(all)| then Spendable(all)[..n] else Spendable(all)
    }

    /**
     * Picks nothing exactly when no allowed selection covers the value; otherwise a selection that
     * covers it, of two notes or of the fewest possible.
     */
    method Pick(value: nat, options: Options) returns (notes: seq<Note>)
      requires Valid()
      ensures notes == [] <==> MinNotes(Available(options), value) == 0
      ensures notes != [] ==> Pays(Available(options), notes, value)
      ensures notes != [] ==> exists reduced ::
                PickedFrom(Filter(pendingAreHigher, options), Reverse(Largest(options, value)), reduced, value, notes)
      ensures forall i | 0 <= i < |notes| ::
                && notes[i].nullifier !in options.excludedNullifiers
                && (options.excludePendingNotes ==> !notes[i].pending)
                && notes[i].spendingKeyRequired == options.spendingKeyRequired
      ensures MinNotes(Available(options), value) == 1 ==> |notes| <= 2
      ensures MinNotes(Available(options), value) > 1 ==> |notes| == MinNotes(Available(options), value)
    {
      hide Pays, MinNotes, Spendable, Reduced, NoteSum, Filter, Descending, DistinctNotes, Reverse, Valid;
      var filteredNotes := Filter(pendingAreLower, options);
      ghost var all := Available(options);
      AvailableFacts(options);
      MinNotesBound(all, value);
      var minimumNumberOfNotes := FindMinimumNotes(value, filteredNotes);
      if minimumNumberOfNotes == 0 {
        return [];
      }
      var atLeast := if minimumNumberOfNotes == 1 then 2 else minimumNumberOfNotes;
      var largest := GetMaxSpendableNotes(options, Some(atLeast));
      LargestPay(all, value, largest, |largest|);
      var picked := ReducePickedNotesValues(Reverse(largest), value, options);
      AllowedNotes(options, picked, value);
      for i := 0 to |picked|
        invariant forall k | 0 <= k < i :: picked[k].value != value
      {
        if picked[i].value == value {
          ExactMatch(all, value, picked, i);
          assert PickedFrom(Filter(pendingAreHigher, options), Reverse(Largest(options, value)), picked, value,
                            [picked[i]]);
          return [picked[i]];
        }
      }
      notes := picked;
      assert PickedFrom(Filter(pendingAreHigher, options), Reverse(Largest(options, value)), picked, value, notes);
    }
  }

  lemma SwapKeepsPaying(available: seq<Note>, picked: seq<Note>, value: nat, i: nat, x: Note)
    requires Pays(available, picked, value) && i < |picked| && x in available
    requires forall k | 0 <= k < |picked| :: picked[k].nullifier != x.nullifier
    requires picked[i].value - (NoteSum(picked) - value) <= x.value < picked[i].value
    requires !x.pending || NumPending(picked) == 0 || picked[i].pending
    ensures Pays(available, picked[i := x], value) && NoteSum(picked[i := x]) < NoteSum(picked)
  {
    ReplaceNote(picked, i, x);
    PendingExists(picked);
  }

  lemma MinNotesBound(notes: seq<Note>, value: nat)
    ensures MinNotes(notes, value) <= |Spendable(notes)|
  {
    MinNotesIsMinimum(notes, value);
  }

  lemma OnlyMinimum(notes: seq<Note>, value: nat, k: nat)
    requires IsMinimum(notes, value, k)
    ensures MinNotes(notes, value) == k
  {
    MinNotesIsMinimum(notes, value);
  }

  lemma {:induction false} DistinctSpendable(notes: seq<Note>)
    requires DistinctNotes(notes)
    ensures DistinctNotes(Spendable(notes))
  {
    if notes != [] {
      DistinctSpendable(notes[..|notes| - 1]);
      SpendableMembers(notes[..|notes| - 1]);
    }
  }

  lemma {:induction false} PendingOfPrefix(notes: seq<Note>, k: nat)
    requires k <= |notes|
    ensures NumPending(notes[..k]) <= NumPending(notes)
  {
    if k == |notes| {
      assert notes[..k] == notes;
    } else {
      assert notes[..|notes| - 1][..k] == notes[..k];
      PendingOfPrefix(notes[..|notes| - 1], k);
    }
  }

  lemma LargestPay(available: seq<Note>, value: nat, largest: seq<Note>, k: nat)
    requires DistinctNotes(available) && k <= |Spendable(available)| && largest == Spendable(available)[..k]
    requires 0 < MinNotes(available, value) <= k
    ensures Pays(available, Reverse(largest), value)
  {
    MinNotesIsMinimum(available, value);
    BestMonotone(available, MinNotes(available, value), k);
    DistinctSpendable(available);
    SpendableMembers(available);
    SpendableLength(available);
    PendingOfPrefix(Spendable(available), k);
    ReverseSums(largest);
  }

  lemma ExactMatch(available: seq<Note>, value: nat, picked: seq<Note>, i: nat)
    requires Descending(available) && Pays(available, picked, value)
    requires i < |picked| && picked[i].value == value
    ensures Pays(available, [picked[i]], value) && MinNotes(available, value) == 1
  {
    assert [picked[i]][..0] == [];
    assert picked[i] in available;
    SpendableFirst(available);
    assert available[0].value >= value;
    assert Spendable(available)[..1] == [available[0]] && [available[0]][..0] == [];
  }
}
