/** How an interaction's output is divided among its deposits. */
module DefiPayouts {
  import opened Arithmetic
  import opened Util

  datatype DefiInteractionEvent = DefiInteractionEvent(
    nonce: nat, totalInputValue: nat, totalOutputValueA: nat, totalOutputValueB: nat, result: bool)

  function FindNonce(events: seq<DefiInteractionEvent>, nonce: int): (r: int)
    ensures -1 <= r < |events|
    ensures r >= 0 ==> events[r].nonce == nonce
    ensures r == -1 <==> forall i | 0 <= i < |events| :: events[i].nonce != nonce
  {
    if events == [] then -1
    else if events[0].nonce == nonce then 0
    else
      var r := FindNonce(events[1..], nonce);
      assert forall i | 1 <= i < |events| :: events[i] == events[1..][i - 1];
      if r == -1 then -1 else r + 1
  }

  /** What one deposit receives of an output; both output assets are divided this way. */
  function Payout(totalOutput: nat, deposit: nat, totalInput: nat): nat
    requires totalInput > 0
  {
    totalOutput * deposit / totalInput
  }

  /** A zero total input makes the division of a successful result throw. */
  predicate Payable(event: DefiInteractionEvent) { event.result ==> event.totalInputValue > 0 }

  /** The sequencer's output values for a claim; dividing by a zero total input throws. */
  function GetOutputValues(value: nat, event: DefiInteractionEvent): Result<(nat, nat)> {
    if !event.result then Ok((0, 0))
    else if !Payable(event) then Err("division by zero")
    else Ok((Payout(event.totalOutputValueA, value, event.totalInputValue),
             Payout(event.totalOutputValueB, value, event.totalInputValue)))
  }

  function Payouts(totalOutput: nat, deposits: seq<int>, totalInput: nat): (r: seq<int>)
    requires totalInput > 0 && forall i | 0 <= i < |deposits| :: deposits[i] >= 0
    ensures |r| == |deposits|
  {
    if deposits == [] then []
    else
      Payouts(totalOutput, deposits[..|deposits| - 1], totalInput)
      + [Payout(totalOutput, deposits[|deposits| - 1], totalInput)]
  }

  /** Floored shares never exceed the exact share of the deposits so far, and lose less than 1 each. */
  lemma {:induction false} PayoutsBound(totalOutput: nat, deposits: seq<int>, totalInput: nat)
    requires totalInput > 0 && forall i | 0 <= i < |deposits| :: deposits[i] >= 0
    ensures Sum(Payouts(totalOutput, deposits, totalInput)) * totalInput <= totalOutput * Sum(deposits)
    ensures deposits != [] ==>
              totalOutput * Sum(deposits) < (Sum(Payouts(totalOutput, deposits, totalInput)) + |deposits|) * totalInput
  {
    if deposits != [] {
      var n := |deposits| - 1;
      var front, d := deposits[..n], deposits[n];
      var rest, x := Payouts(totalOutput, front, totalInput), totalOutput * d;
      var q, r := x / totalInput, x % totalInput;
      assert x == totalInput * q + r;
      PayoutsBound(totalOutput, front, totalInput);
      assert (rest + [q])[..n] == rest;
      Distribute(Sum(rest), q, totalInput);
      assert totalOutput * Sum(deposits) == totalOutput * Sum(front) + x by { Distribute(Sum(front), d, totalOutput); }
      Distribute(Sum(rest) + n, q + 1, totalInput);
      Distribute(q, 1, totalInput);
    }
  }

  /**
   * When the deposits of an interaction make up its total input, the payouts of an output asset
   * never exceed that output, and fall short of it by less than one unit per deposit.
   */
  lemma PayoutsConserveOutput(totalOutput: nat, deposits: seq<int>, totalInput: nat)
    requires totalInput > 0 && forall i | 0 <= i < |deposits| :: deposits[i] >= 0
    requires Sum(deposits) == totalInput
    ensures Sum(Payouts(totalOutput, deposits, totalInput)) <= totalOutput
    ensures totalOutput < Sum(Payouts(totalOutput, deposits, totalInput)) + |deposits|
  {
    PayoutsBound(totalOutput, deposits, totalInput);
    var s := Sum(Payouts(totalOutput, deposits, totalInput));
    if s > totalOutput {
      MulMonotone(totalOutput + 1, s, totalInput);
      Distribute(totalOutput, 1, totalInput);
    }
    if totalOutput >= s + |deposits| {
      MulMonotone(s + |deposits|, totalOutput, totalInput);
    }
  }
}
