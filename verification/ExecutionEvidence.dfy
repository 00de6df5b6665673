/** What one broker snapshot proves about quantity and price. */
module ExecutionEvidence {
  import opened Prelude
  import opened BrokerOrders

  datatype Verdict = Verdict(
    sufficient: bool,
    filled: nat,
    price: Option<real>,
    accountingComplete: bool,
    quality: Evidence)

  /** The states whose accounting is frozen by the snapshot that reports them. */
  predicate FreezesAccounting(state: OrderState) {
    state.Complete? || state.Cancelled? || state.Rejected? || state.PartiallyFilled?
  }

  /** An absent quantity is `None`; an explicit zero is `Some(0)`. */
  function Evaluate(claimed: OrderState, priorFilled: int, quantity: Option<nat>, price: Option<real>): Verdict {
    var prior := Max(0, priorFilled);
    if quantity.None? then
      if FreezesAccounting(claimed) then
        Verdict(false, prior, price, false,
                Evidence(QuantityMissing, if price.Some? then PriceConfirmed else PriceMissing, Unproven))
      else
        Verdict(true, prior, price, true,
                Evidence(QuantityMissing,
                         if prior == 0 then PriceNotApplicable
                         else if price.Some? then PriceConfirmed else PriceMissing,
                         if prior > 0 && price.None? then PendingPrice else AccountingComplete))
    else
      var filled := Max(prior, quantity.value);
      if filled == 0 then
        Verdict(true, 0, None, true, Evidence(QuantityConfirmed, PriceNotApplicable, AccountingComplete))
      else
        Verdict(true, filled, price, price.Some?,
                if price.Some? then Evidence(QuantityConfirmed, PriceConfirmed, AccountingComplete)
                else Evidence(QuantityConfirmed, PriceMissing, PendingPrice))
  }

  /** Whether an order's execution accounting may be treated as final. */
  predicate AccountingFinal(order: Order) {
    if order.state.Unknown? || order.state.ReconciliationRequired? then false
    else if order.evidence.Some? then order.evidence.value.accounting.AccountingComplete?
    else order.filled > 0 ==> order.price.Some? && order.price.value > 0.0
  }

  /**
   * An absent quantity is not a zero: it never moves the quantity, and it supports every claim but a
   * final or partial one. Exposure is pending exactly while it has no price.
   */
  lemma EvidenceIff(claimed: OrderState, priorFilled: int, quantity: Option<nat>, price: Option<real>)
    ensures var v := Evaluate(claimed, priorFilled, quantity, price);
            var claimsFills := claimed.Complete? || claimed.Cancelled? || claimed.Rejected? || claimed.PartiallyFilled?;
            && (v.sufficient <==> quantity.Some? || !claimsFills)
            && v.filled >= priorFilled && (quantity.Some? ==> v.filled >= quantity.value)
            && (v.filled == 0 || v.filled == priorFilled || quantity == Some(v.filled))
            && v.price == (if quantity.Some? && v.filled == 0 then None else price)
            && (v.quality.quantity.QuantityConfirmed? <==> quantity.Some?)
            && (v.quality.accounting.Unproven? <==> !v.sufficient)
            && (v.quality.accounting.PendingPrice? <==> v.sufficient && v.filled > 0 && price.None?)
            && (v.quality.price.PriceNotApplicable? <==> v.sufficient && v.filled == 0)
            && (v.quality.price.PriceMissing? <==> price.None? && !(v.sufficient && v.filled == 0))
  {
  }

  /**
   * The verdict's own flag and the recorded accounting disagree in exactly one case: a working row
   * without a quantity over held exposure without a price is flagged complete and recorded pending.
   */
  lemma FlagDisagreesIff(claimed: OrderState, priorFilled: int, quantity: Option<nat>, price: Option<real>)
    ensures var v := Evaluate(claimed, priorFilled, quantity, price);
            v.accountingComplete != v.quality.accounting.AccountingComplete? <==>
            && quantity.None? && priorFilled > 0 && price.None?
            && !claimed.Complete? && !claimed.Cancelled? && !claimed.Rejected? && !claimed.PartiallyFilled?
  {
  }

  /** An uncertain order is never final; without a recorded verdict only unpriced exposure is open. */
  lemma UncertainIsNotFinal(order: Order)
    ensures AccountingFinal(order) ==> !order.state.Unknown? && !order.state.ReconciliationRequired?
    ensures order.evidence.None? && !order.state.Unknown? && !order.state.ReconciliationRequired? ==>
              (AccountingFinal(order) <==> order.filled <= 0 || (order.price.Some? && order.price.value > 0.0))
    ensures order.evidence.Some? && !order.state.Unknown? && !order.state.ReconciliationRequired? ==>
              (AccountingFinal(order) <==> order.evidence.value.accounting.AccountingComplete?)
  {
  }
}
