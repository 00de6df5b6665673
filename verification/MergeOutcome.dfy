/**
 * What a merge yields, read off the two snapshots: which label, which identity, which conflict. Every
 * condition is on the labels, the quantities and the request a caller holds before the call.
 */
module MergeOutcome {
  import opened Prelude
  import opened BrokerOrders
  import opened OrderMerge

  /** The observation reported less than is already held; a report without a quantity is older than any fill. */
  predicate Older(cur: Order, cand: Order, observed: Observed) {
    match observed
    case RawFaithful => cur.filled > 0 && cand.filled < cur.filled
    case NotReported => cur.filled > 0
    case Reported(q) => cur.filled > 0 && q < cur.filled
  }

  lemma OlderIffBehind(cur: Order, cand: Order, observed: Observed)
    ensures Compare(observed, Cumulative(cand.filled), Cumulative(cur.filled)) < 0 <==> Older(cur, cand, observed)
  {
  }

  /** The quantity held after both. */
  function Held(cur: Order, cand: Order): nat {
    Max(0, Max(cur.filled, cand.filled))
  }

  /** The request as the newer side states it. */
  function Requested(cur: Order, cand: Order, observed: Observed): int {
    if Older(cur, cand, observed) then cur.quantity else cand.quantity
  }

  /** Two snapshots of one order whose broker ids do not contradict each other. */
  predicate SameOrder(cur: Order, cand: Order) {
    && cur.clientId == cand.clientId
    && (cur.brokerId.Some? && cand.brokerId.Some? ==> cur.brokerId == cand.brokerId)
  }

  predicate Whole(cur: Order, cand: Order, observed: Observed) {
    Held(cur, cand) >= Requested(cur, cand, observed)
  }

  predicate Executed(state: OrderState) {
    state.Complete? || state.Cancelled?
  }

  lemma MergedLabel(cur: Order, cand: Order, observed: Observed)
    requires SameOrder(cur, cand)
    ensures var m := Merge(Some(cur), cand, observed).order;
            && m.filled == Held(cur, cand)
            && m.quantity == Requested(cur, cand, observed)
            && m.state == ResolveState(cur.state, cand.state, Held(cur, cand), Requested(cur, cand, observed),
                                       Older(cur, cand, observed)).state
  {
    OlderIffBehind(cur, cand, observed);
  }

  /** COMPLETE: a cached completion met by a working row, or the whole request executed and no rejection. */
  lemma CompleteIff(cur: Order, cand: Order, observed: Observed)
    requires SameOrder(cur, cand) && cur.quantity > 0 && cand.quantity > 0
    ensures Merge(Some(cur), cand, observed).order.state.Complete? <==>
            || (cur.state.Complete? && !Executed(cand.state) && !cand.state.Rejected?)
            || (&& Whole(cur, cand, observed)
                && (Executed(cur.state) || Executed(cand.state))
                && !cur.state.Rejected? && !cand.state.Rejected?)
  {
    MergedLabel(cur, cand, observed);
  }

  /** CANCELLED: a cancellation with part of the request left, and neither a completion nor a rejected fill. */
  lemma CancelledIff(cur: Order, cand: Order, observed: Observed)
    requires SameOrder(cur, cand) && cur.quantity > 0 && cand.quantity > 0
    ensures Merge(Some(cur), cand, observed).order.state.Cancelled? <==>
            && (cur.state.Cancelled? || cand.state.Cancelled?)
            && !Whole(cur, cand, observed)
            && !cur.state.Complete? && !cand.state.Complete?
            && (cur.state.Rejected? || cand.state.Rejected? ==> Held(cur, cand) == 0)
  {
    MergedLabel(cur, cand, observed);
  }

  /** REJECTED: a rejection, no fill, and no side that executed or cancelled. */
  lemma RejectedIff(cur: Order, cand: Order, observed: Observed)
    requires SameOrder(cur, cand) && cur.quantity > 0 && cand.quantity > 0
    ensures Merge(Some(cur), cand, observed).order.state.Rejected? <==>
            && (cur.state.Rejected? || cand.state.Rejected?)
            && Held(cur, cand) == 0
            && !Executed(cur.state) && !Executed(cand.state)
  {
    MergedLabel(cur, cand, observed);
  }

  /** Reconciliation: a rejected fill, a short completion, or a quarantine met by no terminal label. */
  lemma ReconciliationIff(cur: Order, cand: Order, observed: Observed)
    requires SameOrder(cur, cand) && cur.quantity > 0 && cand.quantity > 0
    ensures Merge(Some(cur), cand, observed).order.state.ReconciliationRequired? <==>
            || ((cur.state.Rejected? || cand.state.Rejected?) && Held(cur, cand) > 0)
            || (!Whole(cur, cand, observed) && cand.state.Complete?)
            || (!Whole(cur, cand, observed) && cur.state.Complete? && (cand.state.Cancelled? || cand.state.Rejected?))
            || (&& (cur.state.ReconciliationRequired? || cand.state.ReconciliationRequired?)
                && !Terminal(cur.state) && !Terminal(cand.state))
  {
    MergedLabel(cur, cand, observed);
  }

  /** Not yet partly filled. */
  predicate Unstarted(state: OrderState) {
    state.Created? || state.Submitting? || state.Acknowledged? || state.Open?
  }

  const PROGRESS := [Created, Submitting, Acknowledged, Open, PartiallyFilled, CancelRequested]

  /** `a` is at or behind `b` on the way an order goes. */
  predicate NotAhead(a: OrderState, b: OrderState) {
    exists i, j :: 0 <= i <= j < |PROGRESS| && PROGRESS[i] == a && PROGRESS[j] == b
  }

  lemma ProgressIsRank(a: OrderState, b: OrderState)
    requires a in PROGRESS && b in PROGRESS
    ensures NotAhead(a, b) <==> WorkingRank(a) <= WorkingRank(b)
  {
    var i :| 0 <= i < |PROGRESS| && PROGRESS[i] == a;
    var j :| 0 <= j < |PROGRESS| && PROGRESS[j] == b;
    assert forall k :: 0 <= k < |PROGRESS| ==> WorkingRank(PROGRESS[k]) == k;
  }

  lemma WorkingResolves(cur: OrderState, cand: OrderState, held: nat, requested: int, older: bool)
    requires cur in PROGRESS && cand in PROGRESS
    ensures var state := ResolveState(cur, cand, held, requested, older).state;
            if 0 < held < requested && Unstarted(if older then cur else cand) then state.PartiallyFilled?
            else if older || NotAhead(cand, cur) then state == cur
            else state == cand
  {
    ProgressIsRank(cand, cur);
    RankResolves(cur, cand, held, requested, older);
  }

  lemma RankResolves(cur: OrderState, cand: OrderState, held: nat, requested: int, older: bool)
    requires WorkingRank(cur) >= 0 && WorkingRank(cand) >= 0
    ensures var state := ResolveState(cur, cand, held, requested, older).state;
            if 0 < held < requested && Unstarted(if older then cur else cand) then state.PartiallyFilled?
            else if older || WorkingRank(cand) <= WorkingRank(cur) then state == cur
            else state == cand
  {
  }

  /**
   * Between two working labels the newer side leads: a partial fill makes an unstarted label
   * PARTIALLY_FILLED, and otherwise an older row changes nothing and a newer one advances.
   */
  lemma WorkingOutcome(cur: Order, cand: Order, observed: Observed)
    requires SameOrder(cur, cand) && cur.state in PROGRESS && cand.state in PROGRESS
    ensures var state := Merge(Some(cur), cand, observed).order.state;
            var lead := if Older(cur, cand, observed) then cur.state else cand.state;
            if 0 < Held(cur, cand) < Requested(cur, cand, observed) && Unstarted(lead) then state.PartiallyFilled?
            else if Older(cur, cand, observed) || NotAhead(cand.state, cur.state) then
              state == cur.state
            else state == cand.state
  {
    MergedLabel(cur, cand, observed);
    WorkingResolves(cur.state, cand.state, Held(cur, cand), Requested(cur, cand, observed), Older(cur, cand, observed));
  }

  /** A readable row ends uncertainty unless it is older, and a newer unreadable one begins it. */
  lemma UncertainOutcome(cur: Order, cand: Order, observed: Observed)
    requires SameOrder(cur, cand) && !Settled(cur.state) && !Settled(cand.state)
    ensures var state := Merge(Some(cur), cand, observed).order.state;
            var lead := if Older(cur, cand, observed) then cur.state else cand.state;
            && (lead.Unknown? ==> state.Unknown?)
            && (cur.state.Unknown? && !lead.Unknown? ==>
                  state == if 0 < Held(cur, cand) < Requested(cur, cand, observed) && Unstarted(cand.state)
                           then PartiallyFilled else cand.state)
  {
    MergedLabel(cur, cand, observed);
  }

  /** Whatever else it brings, a terminal row settles the order. */
  lemma TerminalRowSettles(cur: Order, cand: Order, observed: Observed)
    requires cur.clientId == cand.clientId && Terminal(cand.state)
    ensures Settled(Merge(Some(cur), cand, observed).order.state)
  {
    if SameOrder(cur, cand) {
      MergedLabel(cur, cand, observed);
    }
  }

  lemma ConflictResolves(cur: OrderState, cand: OrderState, held: nat, requested: int, older: bool)
    requires requested > 0
    ensures var conflict := ResolveState(cur, cand, held, requested, older).conflict;
            var rejectedFill := (cur.Rejected? || cand.Rejected?) && held > 0;
            var short := held < requested && (cand.Complete? || (cur.Complete? && (cand.Cancelled? || cand.Rejected?)));
            conflict == if rejectedFill then Some(RejectedWithFill) else if short then Some(CompleteButShort) else None
  {
  }

  /** Which contradiction is named; a foreign row changes nothing. */
  lemma ConflictIff(cur: Order, cand: Order, observed: Observed)
    requires cur.quantity > 0 && cand.quantity > 0
    ensures var m := Merge(Some(cur), cand, observed);
            if cur.clientId != cand.clientId then m.order == cur && m.conflict == Some(ClientIdentity)
            else
              var rejectedFill := (cur.state.Rejected? || cand.state.Rejected?) && Held(cur, cand) > 0;
              var short := && !Whole(cur, cand, observed)
                           && (cand.state.Complete?
                               || (cur.state.Complete? && (cand.state.Cancelled? || cand.state.Rejected?)));
              && (m.conflict == Some(RejectedWithFill) <==> rejectedFill)
              && (m.conflict == Some(CompleteButShort) <==> short && !rejectedFill)
              && (m.conflict == Some(BrokerIdentity) <==> !SameOrder(cur, cand) && !short && !rejectedFill)
              && (m.conflict.None? <==> SameOrder(cur, cand) && !short && !rejectedFill)
              && (m.conflict.Some? ==> m.order.state.ReconciliationRequired?)
  {
    OlderIffBehind(cur, cand, observed);
    ConflictResolves(cur.state, cand.state, Held(cur, cand), Requested(cur, cand, observed), Older(cur, cand, observed));
  }

  /** What else a merge carries: identity is learned once, clocks and stamps only move forward. */
  lemma MergedRecord(cur: Order, cand: Order, observed: Observed)
    requires cur.clientId == cand.clientId
    ensures var m := Merge(Some(cur), cand, observed).order;
            && m.clientId == cur.clientId && m.createdAt == cur.createdAt
            && m.brokerId == (if cur.brokerId.Some? then cur.brokerId else cand.brokerId)
            && m.pending == (if m.quantity > m.filled then m.quantity - m.filled else 0)
            && m.updatedAt >= cur.updatedAt && m.updatedAt >= cand.updatedAt
            && m.updatedAt in {cur.updatedAt, cand.updatedAt}
            && (m.exchangeAt.None? <==> cur.exchangeAt.None? && cand.exchangeAt.None?)
            && (cur.exchangeAt.Some? ==> m.exchangeAt.value >= cur.exchangeAt.value)
            && (cand.exchangeAt.Some? ==> m.exchangeAt.value >= cand.exchangeAt.value)
            && (m.exchangeAt.Some? ==> m.exchangeAt in {cur.exchangeAt, cand.exchangeAt})
  {
  }

  /** A reject family is kept exactly on a rejection or a conflict, the newer side's first. */
  lemma RejectFamilyIff(cur: Order, cand: Order, observed: Observed)
    requires cur.clientId == cand.clientId
    ensures var m := Merge(Some(cur), cand, observed);
            var newer := if Older(cur, cand, observed) then cur.rejectFamily else cand.rejectFamily;
            var either := if cur.rejectFamily.Some? then cur.rejectFamily else cand.rejectFamily;
            m.order.rejectFamily ==
            if !m.order.state.Rejected? && m.conflict.None? then None
            else if newer.Some? then newer
            else either
  {
    OlderIffBehind(cur, cand, observed);
  }

  /** The newer side's records, and the older side's. */
  function NewerFills(cur: Order, cand: Order, observed: Observed): seq<Fill> {
    if Older(cur, cand, observed) then cur.fills else cand.fills
  }

  function OlderFills(cur: Order, cand: Order, observed: Observed): seq<Fill> {
    if Older(cur, cand, observed) then cand.fills else cur.fills
  }

  /** Per-trade rows of the side with more of them, the newer on a tie, that lag behind the quantity. */
  predicate Lags(newer: seq<Fill>, older: seq<Fill>, held: nat) {
    && SumFilled(newer) != held && SumFilled(older) != held
    && if |newer| >= |older| then |newer| > 1 && SumFilled(newer) < held
       else |older| > 1 && SumFilled(older) < held
  }

  /** Fill records account for the whole quantity exactly unless the detail kept lags; they are then kept whole. */
  lemma FillsAreExactIff(cur: Order, cand: Order, observed: Observed)
    requires cur.clientId == cand.clientId
    ensures var m := Merge(Some(cur), cand, observed).order;
            var newer := NewerFills(cur, cand, observed);
            var older := OlderFills(cur, cand, observed);
            && (SumFilled(m.fills) == m.filled <==> m.filled == 0 || !Lags(newer, older, m.filled))
            && (m.filled > 0 && SumFilled(newer) == m.filled ==> m.fills == newer)
            && (m.filled > 0 && SumFilled(newer) != m.filled && SumFilled(older) == m.filled ==> m.fills == older)
            && (m.filled > 0 && Lags(newer, older, m.filled) ==>
                  m.fills == if |newer| >= |older| then newer else older)
            && (m.filled > 0 && m.fills != newer && m.fills != older ==>
                  m.fills == [Fill(m.filled, m.price, m.updatedAt)])
  {
    OlderIffBehind(cur, cand, observed);
    assert forall f: Fill :: [f][..0] == [];
    assert SumFilled([]) == 0;
  }

  /** The observation reported more than is held. */
  predicate Advances(cur: Order, cand: Order, observed: Observed) {
    match observed
    case RawFaithful => cand.filled > 0 && cand.filled > cur.filled
    case NotReported => false
    case Reported(q) => q > 0 && q > cur.filled
  }

  /** The evidence of the newer side, or the only evidence there is. */
  function LeadEvidence(cur: Order, cand: Order, observed: Observed): Option<Evidence> {
    if Older(cur, cand, observed) then if cur.evidence.Some? then cur.evidence else cand.evidence
    else if cand.evidence.Some? then cand.evidence else cur.evidence
  }

  /** Whoever supplied the quantity confirmed it; on equal quantities either side will do. */
  predicate Backed(cur: Order, cand: Order, observed: Observed) {
    || (Confirms(cur.evidence) && !Advances(cur, cand, observed))
    || (Confirms(cand.evidence) && !Older(cur, cand, observed))
  }

  /** What the merged evidence says, in terms of the two sides'. */
  lemma EvidenceOutcome(cur: Order, cand: Order, observed: Observed)
    requires cur.clientId == cand.clientId
    ensures var m := Merge(Some(cur), cand, observed).order;
            var lead := LeadEvidence(cur, cand, observed);
            var backed := Backed(cur, cand, observed);
            if lead.None? then m.evidence.None?
            else
              && m.evidence.Some?
              && (Confirms(m.evidence) <==> backed || Confirms(lead))
              && (m.evidence.value.accounting.Unproven? <==> lead.value.accounting.Unproven? && !backed)
              && (m.filled > 0 ==>
                    (m.evidence.value.accounting.AccountingComplete? <==>
                     m.price.Some? && (backed || !lead.value.accounting.Unproven?)))
              && (m.filled == 0 && Confirms(m.evidence) ==>
                    (m.evidence.value.accounting.AccountingComplete? <==> backed || !lead.value.accounting.Unproven?))
              && (m.evidence.value.price.PriceNotApplicable? <==> m.filled == 0)
              && (m.evidence.value.price.PriceMissing? <==> m.filled > 0 && m.price.None?)
  {
    OlderIffBehind(cur, cand, observed);
    AdvancesIffAhead(cur, cand, observed);
  }

  lemma AdvancesIffAhead(cur: Order, cand: Order, observed: Observed)
    ensures Compare(observed, Cumulative(cand.filled), Cumulative(cur.filled)) > 0 <==> Advances(cur, cand, observed)
  {
  }

  /** The flags a caller reads: whether the row was older, and whether it advanced the fill. */
  lemma MergedFlags(cur: Order, cand: Order, observed: Observed)
    requires cur.clientId == cand.clientId
    ensures Merge(Some(cur), cand, observed).wasStale <==> Older(cur, cand, observed)
    ensures Merge(Some(cur), cand, observed).advancedFill <==> Advances(cur, cand, observed)
    ensures var first := Merge(None, cand, observed);
            first.order == cand && first.conflict.None? && !first.wasStale && (first.advancedFill <==> cand.filled > 0)
  {
    OlderIffBehind(cur, cand, observed);
    AdvancesIffAhead(cur, cand, observed);
  }
}
