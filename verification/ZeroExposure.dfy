/** When a rejection proves that the broker created no exposure. */
module ZeroExposure {
  import opened Prelude
  import opened BrokerOrders
  import opened OrderMerge

  datatype Disproof = StateNotRejected | PositiveFill | FillRecordsPresent | QuantityEvidenceMissing

  /** What a placement path reports: the certificate, or a rejection the snapshot contradicts. */
  datatype RejectionOutcome = Certificate(order: Order) | Contradicted(order: Order, disproof: Disproof)

  /** The first reason the snapshot fails to prove zero exposure, or `None` when it proves it. */
  function Verify(order: Order): Option<Disproof> {
    if order.filled > 0 then Some(PositiveFill)
    else if order.filled < 0 then Some(QuantityEvidenceMissing)
    else if SumFilled(order.fills) > 0 then Some(FillRecordsPresent)
    else if !order.state.Rejected? then Some(StateNotRejected)
    else if order.evidence.Some? &&
            (order.evidence.value.quantity.QuantityMissing? || order.evidence.value.accounting.Unproven?)
    then Some(QuantityEvidenceMissing)
    else None
  }

  function Outcome(order: Order): RejectionOutcome {
    var disproof := Verify(order);
    if disproof.None? then Certificate(order) else Contradicted(order, disproof.value)
  }

  lemma {:induction false} NoFillsIff(fills: seq<Fill>)
    ensures SumFilled(fills) == 0 <==> forall i :: 0 <= i < |fills| ==> fills[i].quantity <= 0
  {
    if fills != [] {
      NoFillsIff(fills[..|fills| - 1]);
      assert SumFilled(fills) == SumFilled(fills[..|fills| - 1]) + Cumulative(fills[|fills| - 1].quantity);
    }
  }

  /** Exactly when one snapshot is certified, and which disproof is named first otherwise. */
  lemma CertifiedIff(order: Order)
    ensures var noRecords := forall i :: 0 <= i < |order.fills| ==> order.fills[i].quantity <= 0;
            var unproven := order.evidence.Some? && (order.evidence.value.quantity.QuantityMissing?
                                                     || order.evidence.value.accounting.Unproven?);
            && (Outcome(order).Certificate? <==>
                order.filled == 0 && noRecords && order.state.Rejected? && !unproven)
            && (Outcome(order) == Contradicted(order, PositiveFill) <==> order.filled > 0)
            && (Outcome(order) == Contradicted(order, FillRecordsPresent) <==> order.filled == 0 && !noRecords)
            && (Outcome(order) == Contradicted(order, StateNotRejected) <==>
                order.filled == 0 && noRecords && !order.state.Rejected?)
            && Outcome(order).order == order
  {
    NoFillsIff(order.fills);
  }

  /** A snapshot adopted with no cached order is certified only when it carries no fill record. */
  lemma FirstSnapshotRespectsFillRecords(cand: Order, observed: Observed)
    ensures Outcome(Merge(None, cand, observed).order).Certificate? ==> SumFilled(cand.fills) == 0
  {
  }

  /**
   * Once an order is cached, a certificate does not depend on the fill records the observation
   * carried: a merge that accepts no cumulative quantity discards them.
   */
  lemma MergedCertificateIgnoresFillRecords(cur: Order, cand: Order, observed: Observed, records: seq<Fill>)
    ensures Outcome(Merge(Some(cur), cand, observed).order).Certificate?
            <==> (if cur.clientId == cand.clientId
                  then Outcome(Merge(Some(cur), cand.(fills := records), observed).order).Certificate?
                  else Outcome(cur).Certificate?)
  {
  }

  /** The rejection stands: one side claims it and no other terminal claim or broker id contradicts it. */
  predicate RejectionStands(cur: Order, cand: Order) {
    && ((cur.state.Rejected? && !cand.state.Complete? && !cand.state.Cancelled?) ||
        (cand.state.Rejected? && !Terminal(cur.state)))
    && !BrokerIdsConflict(cur, cand)
  }

  /** Exactly when a merge onto a cached order yields a certificate; fill records play no part. */
  lemma MergedCertificateIff(cur: Order, cand: Order, observed: Observed)
    requires cur.clientId == cand.clientId && cur.quantity > 0 && cand.quantity > 0
    requires observed.Reported? ==> observed.quantity <= Cumulative(cand.filled)
    ensures Outcome(Merge(Some(cur), cand, observed).order).Certificate? <==>
            && cur.filled <= 0 && cand.filled <= 0
            && RejectionStands(cur, cand)
            && (Confirms(cur.evidence) || Confirms(cand.evidence) || (cur.evidence.None? && cand.evidence.None?))
  {
    if cur.filled <= 0 && cand.filled <= 0 {
      assert Compare(observed, Cumulative(cand.filled), Cumulative(cur.filled)) == 0;
    }
  }

  /** A rejection whose trade book lists an execution is refused on its own, yet certified after a merge. */
  lemma TradeRowsAreForgotten(cur: Order, at: int)
    requires cur.state.Open? && cur.filled == 0 && cur.fills == [] && cur.evidence.None?
    ensures var rejection := cur.(state := Rejected, fills := [Fill(5, None, at)]);
            && Verify(rejection) == Some(FillRecordsPresent)
            && Outcome(Merge(Some(cur), rejection, Reported(0)).order).Certificate?
  {
    var row := Fill(5, None, at);
    assert [row][..0] == [];
    assert SumFilled([row]) == 5;
  }
}
