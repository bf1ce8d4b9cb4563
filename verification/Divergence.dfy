/** The grading of chain truth against a SUT's belief (src/psv/divergence.py, SettlementTruth of src/psv/chain.py). */
module Divergence {
  import opened Common

  datatype SettlementTruth = SettlementTruth(
    nonceConsumed: bool, payerBalanceAfter: nat, payeeBalanceAfter: nat, payerDelta: int, payeeDelta: int)
  {
    predicate FundsMoved() { nonceConsumed && payeeDelta > 0 && payerDelta < 0 }
  }

  datatype Kind = ConsistentPaid | ConsistentUnpaid | SilentLoss | PhantomCredit | UnderpaidCredit

  function DetectPayment(truth: SettlementTruth, believesPaid: bool, requiredAmount: Option<int>): Kind {
    if truth.FundsMoved() && believesPaid then
      if requiredAmount.Some? && truth.payeeDelta < requiredAmount.value then UnderpaidCredit else ConsistentPaid
    else if !truth.FundsMoved() && !believesPaid then ConsistentUnpaid
    else if truth.FundsMoved() then SilentLoss
    else PhantomCredit
  }
}
