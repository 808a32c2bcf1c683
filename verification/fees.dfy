/** alpha-sdk's fee quotes and largest spendable values, on top of the note picker. */
module Fees {
  import Arithmetic
  import opened Util
  import opened Rounding
  import opened NotePicking

  /** Chained txs needed to merge the notes for `value` into the two a payment can spend. */
  function Merges(notes: seq<Note>, value: nat): nat {
    if MinNotes(notes, value) <= 2 then 0 else MinNotes(notes, value) - 2
  }

  /** The most a single payment can spend. */
  function Payable(notes: seq<Note>): nat { NoteSum(Spendable(notes)) }

  datatype FeeRates = FeeRates(baseFee: nat, transferFee: nat, feeSignificantFigures: nat) {
    /** The fee with that many merges. */
    function For(numMerges: nat): nat {
      RoundUp(baseFee + transferFee * numMerges, feeSignificantFigures)
    }
  }

  /** f pays for every merge that spending baseValue + f takes. */
  ghost predicate Sufficient(notes: seq<Note>, baseValue: nat, rates: FeeRates, f: nat) {
    f >= rates.For(Merges(notes, baseValue + f))
  }

  ghost predicate Feasible(notes: seq<Note>, baseValue: nat, rates: FeeRates, f: nat) {
    baseValue + f <= Payable(notes) && Sufficient(notes, baseValue, rates, f)
  }

  /**
   * The fee that raising the number of merges step by step settles on: the first that pays for the
   * merges it takes, unless the total gets past the sum of the notes before.
   */
  function SettledFrom(notes: seq<Note>, baseValue: nat, rates: FeeRates, numMerges: nat): Option<nat>
    requires numMerges <= |Spendable(notes)|
    decreases |Spendable(notes)| - numMerges
  {
    var totalValue := baseValue + rates.For(numMerges);
    MergesBounded(notes, totalValue);
    if totalValue > NoteSum(notes) then None
    else if Merges(notes, totalValue) <= numMerges then Some(rates.For(numMerges))
    else SettledFrom(notes, baseValue, rates, Merges(notes, totalValue))
  }

  function SettledFee(notes: seq<Note>, baseValue: nat, rates: FeeRates): Option<nat> {
    SettledFrom(notes, baseValue, rates, 0)
  }

  /**
   * Each merge turns two notes into one, so these are the fewest that leave no more than the two
   * notes a payment can spend; none, if nothing covers the value.
   */
  lemma MergesAreFewest(notes: seq<Note>, value: nat, merges: nat)
    ensures MinNotes(notes, value) - Merges(notes, value) <= 2
    ensures MinNotes(notes, value) - merges <= 2 ==> Merges(notes, value) <= merges
  {
  }

  lemma ForMonotone(rates: FeeRates, j: nat, k: nat)
    requires j <= k
    ensures rates.For(j) <= rates.For(k)
  {
    Arithmetic.MulMonotone(j, k, rates.transferFee);
    RoundUpMonotone(rates.baseFee + rates.transferFee * j, rates.baseFee + rates.transferFee * k,
                    rates.feeSignificantFigures);
  }

  lemma PayableIsBest(notes: seq<Note>)
    ensures Best(notes, |Spendable(notes)|) == Payable(notes)
  {
    assert Spendable(notes)[..|Spendable(notes)|] == Spendable(notes);
  }

  /** What can be paid at all needs more merges the larger it is. */
  lemma MergesMonotone(notes: seq<Note>, u: nat, v: nat)
    requires u <= v <= Payable(notes)
    ensures Merges(notes, u) <= Merges(notes, v)
  {
    MinNotesIsMinimum(notes, u);
    MinNotesIsMinimum(notes, v);
    PayableIsBest(notes);
    if Spendable(notes) != [] {
      assert Best(notes, |Spendable(notes)|) >= v;
      MinimumMonotone(notes, u, v, MinNotes(notes, u), MinNotes(notes, v));
    }
  }

  class FeeCalculator {
    const picker: NotePicker
    const options: Options

    constructor (picker: NotePicker, options: Options)
      ensures this.picker == picker && this.options == options
    {
      this.picker, this.options := picker, options;
    }

    ghost function Notes(): seq<Note> { picker.Available(options) }

    lemma SumOfNotes()
      ensures Notes() == picker.Available(options)
      ensures NoteSum(Notes()) == NoteSum(Filter(picker.pendingAreLower, options))
    {
      ReverseSums(Filter(picker.pendingAreLower, options));
    }

    method GetNumMerges(value: nat) returns (numMerges: nat)
      requires picker.Valid()
      ensures numMerges == Merges(Notes(), value)
    {
      var notes := picker.Pick(value, options);
      numMerges := if |notes| <= 2 then 0 else |notes| - 2;
    }

    /**
     * The fee for spending `baseValue`. `settled` tells whether the search ended at a fee that the
     * notes sum up to, which is then payable if at most one of them is pending. If it is payable it
     * is the least payable sufficient fee; in every other case there is no payable sufficient fee.
     */
    method GetTotalFee(baseValue: nat, rates: FeeRates) returns (fee: nat, ghost settled: bool)
      requires picker.Valid()
      ensures SettledFee(Notes(), baseValue, rates) == if settled then Some(fee) else None
      ensures settled && NumPending(Notes()) <= 1 ==> baseValue + fee <= Payable(Notes())
      ensures settled ==> baseValue + fee <= NoteSum(Notes()) && Sufficient(Notes(), baseValue, rates, fee)
      ensures settled && baseValue + fee <= Payable(Notes()) ==>
                forall f | Feasible(Notes(), baseValue, rates, f) :: fee <= f
      ensures !settled || baseValue + fee > Payable(Notes()) ==>
                forall f :: !Feasible(Notes(), baseValue, rates, f)
      ensures fee >= rates.For(0)
      ensures var all := MinNotes(Notes(), NoteSum(Notes()));
              && (!settled && all == 0 ==> fee == rates.For(0))
              && (!settled && all == 1 ==> fee == rates.For(0) || fee == rates.For(1))
              && (!settled && all > 1 ==> fee == rates.For(all - 1))
    {
      hide *;
      SumOfNotes();
      SettledFacts(Notes(), baseValue, rates);
      ForZero(rates);
      var spendableValue := NoteSum(Filter(picker.pendingAreLower, options));
      var totalValue := baseValue + RoundUp(rates.baseFee, rates.feeSignificantFigures);
      var numMerges := 0;
      while totalValue <= spendableValue
        invariant totalValue == baseValue + rates.For(numMerges)
        invariant numMerges <= |Spendable(Notes())|
        invariant SettledFee(Notes(), baseValue, rates) == SettledFrom(Notes(), baseValue, rates, numMerges)
        decreases |Spendable(Notes())| - numMerges
      {
        var requiredNumMerges := GetNumMerges(totalValue);
        SettledStep(Notes(), baseValue, rates, numMerges);
        if requiredNumMerges <= numMerges {
          return totalValue - baseValue, true;
        }
        numMerges := requiredNumMerges;
        totalValue := baseValue + RoundUp(rates.baseFee + rates.transferFee * numMerges, rates.feeSignificantFigures);
        ForIs(rates, numMerges);
      }
      SettledStep(Notes(), baseValue, rates, numMerges);
      // One more note is needed: quote for spending it together with everything there is.
      var picked := picker.Pick(spendableValue, options);
      var expectedNumMerges := if 1 + |picked| <= 2 then 0 else 1 + |picked| - 2;
      ForMonotone(rates, 0, expectedNumMerges);
      fee := RoundUp(rates.baseFee + rates.transferFee * expectedNumMerges, rates.feeSignificantFigures);
      ForIs(rates, expectedNumMerges);
      settled := false;
    }
  }

  lemma ForIs(rates: FeeRates, numMerges: nat)
    ensures rates.For(numMerges) == RoundUp(rates.baseFee + rates.transferFee * numMerges, rates.feeSignificantFigures)
  {
  }

  /** One step of the search. */
  lemma SettledStep(notes: seq<Note>, baseValue: nat, rates: FeeRates, numMerges: nat)
    requires numMerges <= |Spendable(notes)|
    ensures var totalValue := baseValue + rates.For(numMerges); var required := Merges(notes, totalValue);
            && required <= |Spendable(notes)|
            && SettledFrom(notes, baseValue, rates, numMerges) ==
               if totalValue > NoteSum(notes) then None
               else if required <= numMerges then Some(rates.For(numMerges))
               else SettledFrom(notes, baseValue, rates, required)
  {
    MergesBounded(notes, baseValue + rates.For(numMerges));
    hide Spendable, Merges, FeeRates.For;
  }

  /** A settled fee that is payable is the least of those that are feasible; else there is none. */
  ghost predicate LeastOrNone(notes: seq<Note>, baseValue: nat, rates: FeeRates, fee: Option<nat>) {
    if fee.Some? && baseValue + fee.value <= Payable(notes)
    then forall f | Feasible(notes, baseValue, rates, f) :: fee.value <= f
    else forall f :: !Feasible(notes, baseValue, rates, f)
  }

  lemma {:induction false} SettledFromFacts(notes: seq<Note>, baseValue: nat, rates: FeeRates, numMerges: nat)
    requires numMerges <= |Spendable(notes)|
    requires forall f | Feasible(notes, baseValue, rates, f) :: baseValue + rates.For(numMerges) <= baseValue + f
    ensures var fee := SettledFrom(notes, baseValue, rates, numMerges);
            && LeastOrNone(notes, baseValue, rates, fee)
            && (fee.Some? ==>
                  && baseValue + fee.value <= NoteSum(notes) && fee.value >= rates.For(0)
                  && Sufficient(notes, baseValue, rates, fee.value))
    decreases |Spendable(notes)| - numMerges
  {
    hide Spendable, Merges, FeeRates.For, Feasible, Sufficient, SettledFrom, NoteSum;
    var totalValue := baseValue + rates.For(numMerges);
    SettledStep(notes, baseValue, rates, numMerges);
    if totalValue > NoteSum(notes) {
      NothingFeasible(notes, baseValue, rates, totalValue);
    } else if Merges(notes, totalValue) <= numMerges {
      Reached(notes, baseValue, rates, totalValue, numMerges);
    } else {
      Raised(notes, baseValue, rates, totalValue, numMerges);
      SettledFromFacts(notes, baseValue, rates, Merges(notes, totalValue));
    }
  }

  lemma SettledFacts(notes: seq<Note>, baseValue: nat, rates: FeeRates)
    ensures var fee := SettledFee(notes, baseValue, rates);
            && fee == SettledFrom(notes, baseValue, rates, 0)
            && (fee.Some? ==>
                  && baseValue + fee.value <= NoteSum(notes) && fee.value >= rates.For(0)
                  && Sufficient(notes, baseValue, rates, fee.value)
                  && (NumPending(notes) <= 1 ==> baseValue + fee.value <= Payable(notes)))
            && (if fee.Some? && baseValue + fee.value <= Payable(notes)
                then forall f | Feasible(notes, baseValue, rates, f) :: fee.value <= f
                else forall f :: !Feasible(notes, baseValue, rates, f))
  {
    LowerBound(notes, baseValue, rates);
    PayableBound(notes);
    hide Spendable, Merges, FeeRates.For, Feasible, Sufficient, SettledFrom, NumPending;
    SettledFromFacts(notes, baseValue, rates, 0);
  }

  /** Notes with values are all payable exactly if at most one of them is pending. */
  lemma {:induction false} PayableIsAllIff(notes: seq<Note>)
    requires forall i | 0 <= i < |notes| :: notes[i].value > 0
    ensures Payable(notes) == NoteSum(notes) <==> NumPending(notes) <= 1
  {
    PayableBound(notes);
    if notes != [] {
      var n := |notes| - 1;
      PayableIsAllIff(notes[..n]);
      PayableBound(notes[..n]);
      NoteSumOneMore(Spendable(notes[..n]), notes[n]);
    }
  }

  const NO_FEES := FeeRates(0, 0, 0)

  /** Without fees, spending everything there is settles at once. */
  lemma {:induction false} SpendingAllSettles(notes: seq<Note>, numMerges: nat)
    requires numMerges <= |Spendable(notes)|
    ensures SettledFrom(notes, NoteSum(notes), NO_FEES, numMerges) == Some(0)
    decreases |Spendable(notes)| - numMerges
  {
    hide Spendable, Merges;
    assert NO_FEES.For(numMerges) == 0;
    MergesBounded(notes, NoteSum(notes));
    if Merges(notes, NoteSum(notes)) > numMerges {
      SpendingAllSettles(notes, Merges(notes, NoteSum(notes)));
    }
  }

  ghost predicate SettledIsPayable(notes: seq<Note>, baseValue: nat, rates: FeeRates) {
    var fee := SettledFee(notes, baseValue, rates);
    fee.Some? ==> baseValue + fee.value <= Payable(notes)
  }

  /** Exactly when whatever the search settles on can be paid: when a payment can spend all the notes. */
  lemma SettledIsPayableIff(notes: seq<Note>)
    ensures (forall baseValue, rates :: SettledIsPayable(notes, baseValue, rates)) <==> Payable(notes) == NoteSum(notes)
    ensures (forall i | 0 <= i < |notes| :: notes[i].value > 0) ==>
              ((forall baseValue, rates :: SettledIsPayable(notes, baseValue, rates)) <==> NumPending(notes) <= 1)
  {
    hide SettledFrom, Spendable, FeeRates.For, Feasible, Sufficient;
    forall baseValue, rates | Payable(notes) == NoteSum(notes)
      ensures SettledIsPayable(notes, baseValue, rates)
    {
      SettledFacts(notes, baseValue, rates);
    }
    SpendingAllSettles(notes, 0);
    PayableBound(notes);
    assert SettledIsPayable(notes, NoteSum(notes), NO_FEES) ==> NoteSum(notes) <= Payable(notes);
    if forall i | 0 <= i < |notes| :: notes[i].value > 0 {
      PayableIsAllIff(notes);
    }
  }

  lemma ForZero(rates: FeeRates)
    ensures rates.For(0) == RoundUp(rates.baseFee, rates.feeSignificantFigures)
  {
  }

  lemma LowerBound(notes: seq<Note>, baseValue: nat, rates: FeeRates)
    ensures forall f | Feasible(notes, baseValue, rates, f) :: baseValue + rates.For(0) <= baseValue + f
  {
    forall f | Feasible(notes, baseValue, rates, f)
      ensures rates.For(0) <= f
    {
      ForMonotone(rates, 0, Merges(notes, baseValue + f));
    }
  }

  lemma MergesBounded(notes: seq<Note>, value: nat)
    ensures Merges(notes, value) <= |Spendable(notes)|
  {
    MinNotesIsMinimum(notes, value);
  }

  lemma Reached(notes: seq<Note>, baseValue: nat, rates: FeeRates, totalValue: nat, numMerges: nat)
    requires totalValue == baseValue + rates.For(numMerges) && Merges(notes, totalValue) <= numMerges
    ensures Sufficient(notes, baseValue, rates, totalValue - baseValue)
    ensures rates.For(numMerges) >= rates.For(0)
    ensures (forall f | Feasible(notes, baseValue, rates, f) :: totalValue <= baseValue + f)
            && totalValue > Payable(notes) ==>
              forall f :: !Feasible(notes, baseValue, rates, f)
  {
    ForMonotone(rates, Merges(notes, totalValue), numMerges);
    ForMonotone(rates, 0, numMerges);
  }

  /** A step of the search never passes a feasible fee. */
  lemma Raised(notes: seq<Note>, baseValue: nat, rates: FeeRates, totalValue: nat, numMerges: nat)
    requires totalValue == baseValue + rates.For(numMerges)
    requires forall f | Feasible(notes, baseValue, rates, f) :: totalValue <= baseValue + f
    ensures forall f | Feasible(notes, baseValue, rates, f) ::
              baseValue + rates.For(Merges(notes, totalValue)) <= baseValue + f
  {
    forall f | Feasible(notes, baseValue, rates, f)
      ensures rates.For(Merges(notes, totalValue)) <= f
    {
      MergesMonotone(notes, totalValue, baseValue + f);
      ForMonotone(rates, Merges(notes, totalValue), Merges(notes, baseValue + f));
    }
  }

  lemma NoteSumOneMore(notes: seq<Note>, x: Note)
    ensures NoteSum(notes + [x]) == NoteSum(notes) + x.value
  {
    assert (notes + [x])[..|notes|] == notes;
  }

  lemma {:induction false} PayableBound(notes: seq<Note>)
    ensures Payable(notes) <= NoteSum(notes)
    ensures NumPending(notes) <= 1 ==> Spendable(notes) == notes
  {
    if notes != [] {
      var n := |notes| - 1;
      PayableBound(notes[..n]);
      NoteSumOneMore(Spendable(notes[..n]), notes[n]);
      hide NoteSum;
      assert NoteSum(notes) == NoteSum(notes[..n]) + notes[n].value by { NoteSumOneMore(notes[..n], notes[n]); }
      assert notes == notes[..n] + [notes[n]];
    }
  }

  lemma NothingFeasible(notes: seq<Note>, baseValue: nat, rates: FeeRates, totalValue: nat)
    requires totalValue > NoteSum(notes)
    requires forall f | Feasible(notes, baseValue, rates, f) :: totalValue <= baseValue + f
    ensures forall f :: !Feasible(notes, baseValue, rates, f)
  {
    PayableBound(notes);
  }

  /**
   * The spendable sum counts every pending note, a payment may use one. With two pending notes of 5
   * the search for spending 8 settles on a fee of 0 although no selection of notes pays for it.
   */
  lemma SettledButNotPayable()
    ensures var p := Note(5, 1, true, true, false);
            var q := Note(5, 2, true, true, false);
            SettledFee([p, q], 8, FeeRates(0, 1, 0)) == Some(0) && Payable([p, q]) == 5 && MinNotes([p, q], 8) == 0
  {
    var p, q := Note(5, 1, true, true, false), Note(5, 2, true, true, false);
    assert [p, q][..1] == [p] && [p][..0] == [];
    assert Spendable([p]) == [p] && NumPending([p]) == 1;
    assert Spendable([p, q]) == [p];
    assert NoteSum([p]) == 5;
    assert Spendable([p, q])[..1] == [p];
    assert Best([p, q], 1) == 5;
    assert [p, q][..1] == [p] && NoteSum([p, q]) == 10;
    OnlyMinimum([p, q], 8, 0);
    assert FeeRates(0, 1, 0).For(0) == 0;
    assert Merges([p, q], 8) == 0;
  }

  // ---- the largest spendable value ----

  /** What is left of a total of k notes after the fee of spending them. */
  function Net(total: nat, rates: FeeRates, k: nat): int {
    total - rates.For(if k <= 2 then 0 else k - 2)
  }

  function FeeOf(rates: FeeRates, k: nat): nat { rates.For(if k <= 2 then 0 else k - 2) }

  /** What is left of the k largest notes after the fee for spending k notes. */
  function NetOf(notes: seq<Note>, rates: FeeRates, k: nat): int
    requires k <= |Spendable(notes)|
  {
    Net(Best(notes, k), rates, k)
  }

  /** value and fee are the best over spending the k largest notes, k from lo + 1 up. */
  ghost predicate BestFrom(notes: seq<Note>, rates: FeeRates, lo: nat, value: nat, fee: nat) {
    && (forall k | lo < k <= |Spendable(notes)| :: NetOf(notes, rates, k) <= value)
    && (forall k | lo < k <= |Spendable(notes)| && NetOf(notes, rates, k) == value && value > 0 ::
          fee <= FeeOf(rates, k))
    && (value > 0 ==> exists k ::
          lo < k <= |Spendable(notes)| && NetOf(notes, rates, k) == value && fee == FeeOf(rates, k))
    && (value == 0 ==> fee == 0)
  }

  class TxValueCalculator {
    const picker: NotePicker

    constructor (picker: NotePicker)
      ensures this.picker == picker
    {
      this.picker := picker;
    }

    /** The branch where the fee is paid in the asset that is spent. */
    method GetMaxTxValueFromFee(options: Options, rates: FeeRates) returns (maxValue: nat, maxFee: nat)
      requires picker.Valid()
      ensures BestFrom(picker.Available(options), rates, 0, maxValue, maxFee)
    {
      hide Best, NoteSum, RoundUp, Spendable, BestFrom;
      ghost var all := picker.Available(options);
      // Already in descending order, so sorting it that way changes nothing.
      var noteValues := picker.GetMaxSpendableNotes(options, None);
      var numNotes: nat := |noteValues|;
      maxValue, maxFee := 0, 0;
      NothingYet(all, rates);
      while numNotes > 0
        invariant numNotes <= |noteValues|
        invariant BestFrom(all, rates, numNotes, maxValue, maxFee)
      {
        var numMerges := if numNotes <= 2 then 0 else numNotes - 2;
        var noteSum := NoteSum(noteValues[..numNotes]);
        var requiredFee := RoundUp(rates.baseFee + rates.transferFee * numMerges, rates.feeSignificantFigures);
        var value := noteSum - requiredFee;
        NextBest(all, rates, numNotes, maxValue, maxFee, noteSum);
        if value > maxValue || (value == maxValue && requiredFee < maxFee) {
          maxValue := value;
          maxFee := requiredFee;
        }
        numNotes := numNotes - 1;
      }
    }
  }

  lemma NothingYet(notes: seq<Note>, rates: FeeRates)
    ensures BestFrom(notes, rates, |Spendable(notes)|, 0, 0)
  {
  }

  lemma NextBest(notes: seq<Note>, rates: FeeRates, k: nat, value: nat, fee: nat, noteSum: nat)
    requires 0 < k <= |Spendable(notes)| && BestFrom(notes, rates, k, value, fee)
    requires noteSum == NoteSum(Spendable(notes)[..k])
    ensures var v, f := Net(noteSum, rates, k), FeeOf(rates, k);
            if v > value || (v == value && f < fee) then BestFrom(notes, rates, k - 1, v, f)
            else BestFrom(notes, rates, k - 1, value, fee)
  {
    var v, f := Net(noteSum, rates, k), FeeOf(rates, k);
    assert v == NetOf(notes, rates, k);
    hide NetOf, Net, FeeOf, Spendable, NoteSum;
    if v > value || (v == value && f < fee) {
      BetterAt(notes, rates, k, value, fee, v, f);
    } else {
      NoBetterAt(notes, rates, k, value, fee);
    }
  }

  lemma BetterAt(notes: seq<Note>, rates: FeeRates, k: nat, value: nat, fee: nat, v: nat, f: nat)
    requires 0 < k <= |Spendable(notes)| && BestFrom(notes, rates, k, value, fee)
    requires NetOf(notes, rates, k) == v && FeeOf(rates, k) == f
    requires v > value || (v == value && f < fee)
    ensures BestFrom(notes, rates, k - 1, v, f)
  {
    hide NetOf, FeeOf, Spendable;
  }

  lemma NoBetterAt(notes: seq<Note>, rates: FeeRates, k: nat, value: nat, fee: nat)
    requires 0 < k <= |Spendable(notes)| && BestFrom(notes, rates, k, value, fee)
    requires NetOf(notes, rates, k) < value || (NetOf(notes, rates, k) == value && FeeOf(rates, k) >= fee)
    ensures BestFrom(notes, rates, k - 1, value, fee)
  {
    hide NetOf, FeeOf, Spendable;
  }

  /** The k largest spendable notes are themselves a selection. */
  lemma LargestSelection(notes: seq<Note>, k: nat) returns (s: seq<nat>)
    requires k <= |Spendable(notes)|
    ensures Selection(notes, s) && |s| == k && Chosen(notes, s) == Spendable(notes)[..k]
  {
    s := LargestChoice(notes, k);
    SpendableLength(notes);
    PendingOfPrefix(Spendable(notes), k);
  }

  lemma {:induction false} LargestChoice(notes: seq<Note>, k: nat) returns (s: seq<nat>)
    requires k <= |Spendable(notes)|
    ensures Choice(notes, s) && Chosen(notes, s) == Spendable(notes)[..k]
    decreases |notes|
  {
    if k == 0 {
      s := [];
    } else {
      var n := |notes| - 1;
      var front := notes[..n];
      SpendablePrefix(notes);
      if k <= |Spendable(front)| {
        s := LargestChoice(front, k);
        ChosenPrefix(notes, n, s);
      } else {
        var rest := LargestChoice(front, k - 1);
        ChosenPrefix(notes, n, rest);
        s := rest + [n];
        assert s[..k - 1] == rest;
        assert Spendable(notes)[..k] == Spendable(front)[..k - 1] + [notes[n]];
      }
    }
  }

  /**
   * The result is the most any selection of notes nets, over all subsets with at most one pending
   * note, and 0 if none nets more; a positive result is reached, at the least fee that reaches it.
   */
  lemma MaxValueIsOptimal(notes: seq<Note>, rates: FeeRates, value: nat, fee: nat)
    requires Descending(notes) && BestFrom(notes, rates, 0, value, fee)
    ensures forall s | Selection(notes, s) && s != [] :: Net(NoteSum(Chosen(notes, s)), rates, |s|) <= value
    ensures value > 0 ==> exists s ::
              Selection(notes, s) && Net(NoteSum(Chosen(notes, s)), rates, |s|) == value && FeeOf(rates, |s|) == fee
    ensures forall s | Selection(notes, s) && s != [] && value > 0
            && Net(NoteSum(Chosen(notes, s)), rates, |s|) == value ::
              fee <= FeeOf(rates, |s|)
  {
    forall s | Selection(notes, s) && s != []
      ensures Net(NoteSum(Chosen(notes, s)), rates, |s|) <= value
      ensures value > 0 && Net(NoteSum(Chosen(notes, s)), rates, |s|) == value ==> fee <= FeeOf(rates, |s|)
    {
      SelectionNets(notes, rates, value, fee, s);
    }
    if value > 0 {
      var s := BestSelection(notes, rates, value, fee);
    }
  }

  lemma SelectionNets(notes: seq<Note>, rates: FeeRates, value: nat, fee: nat, s: seq<nat>)
    requires Descending(notes) && BestFrom(notes, rates, 0, value, fee) && Selection(notes, s) && s != []
    ensures Net(NoteSum(Chosen(notes, s)), rates, |s|) <= value
    ensures value > 0 && Net(NoteSum(Chosen(notes, s)), rates, |s|) == value ==> fee <= FeeOf(rates, |s|)
  {
    BestIsOptimal(notes, s);
    hide Best, NoteSum, Chosen, Spendable, Selection, FeeOf;
    assert NetOf(notes, rates, |s|) <= value;
  }

  lemma BestSelection(notes: seq<Note>, rates: FeeRates, value: nat, fee: nat) returns (s: seq<nat>)
    requires BestFrom(notes, rates, 0, value, fee) && value > 0
    ensures Selection(notes, s) && Net(NoteSum(Chosen(notes, s)), rates, |s|) == value && FeeOf(rates, |s|) == fee
  {
    hide NoteSum, Chosen, Spendable, Selection, FeeOf;
    var k :| 0 < k <= |Spendable(notes)| && NetOf(notes, rates, k) == value && fee == FeeOf(rates, k);
    s := LargestSelection(notes, k);
  }

  /** The fee quoted for spending the largest value is the fee the largest value was computed with. */
  lemma QuoteForMaxValue(notes: seq<Note>, rates: FeeRates, value: nat, fee: nat)
    requires BestFrom(notes, rates, 0, value, fee) && value > 0
    ensures Feasible(notes, value, rates, fee)
    ensures forall f | Feasible(notes, value, rates, f) :: fee <= f
  {
    hide Best, NoteSum, Spendable, Selection, FeeRates.For, Feasible, BestFrom;
    PrefixIsFeasible(notes, rates, value, fee);
    forall f | Feasible(notes, value, rates, f)
      ensures fee <= f
    {
      CheaperWouldBeBetter(notes, rates, value, fee, f);
    }
  }

  lemma PrefixIsFeasible(notes: seq<Note>, rates: FeeRates, value: nat, fee: nat)
    requires BestFrom(notes, rates, 0, value, fee) && value > 0
    ensures Feasible(notes, value, rates, fee)
  {
    hide NoteSum, Spendable, FeeRates.For, Best;
    var k :| 0 < k <= |Spendable(notes)| && NetOf(notes, rates, k) == value && fee == FeeOf(rates, k);
    PayableIsBest(notes);
    BestMonotone(notes, k, |Spendable(notes)|);
    MinNotesIsMinimum(notes, value + fee);
    ForMonotone(rates, Merges(notes, value + fee), if k <= 2 then 0 else k - 2);
  }

  lemma CheaperWouldBeBetter(notes: seq<Note>, rates: FeeRates, value: nat, fee: nat, f: nat)
    requires BestFrom(notes, rates, 0, value, fee) && value > 0 && Feasible(notes, value, rates, f)
    ensures fee <= f
  {
    var j := MinNotes(notes, value + f);
    MinNotesIsMinimum(notes, value + f);
    PayableIsBest(notes);
    assert j > 0;
    // The fewest notes that cover value + f net at least value at a fee of at most f.
    assert FeeOf(rates, j) <= f;
    hide NoteSum, Spendable, FeeRates.For, Best;
    assert NetOf(notes, rates, j) == value;
  }
}
