/** Merging one observation of an order onto the cached snapshot of the same order. */
module OrderMerge {
  import opened Prelude
  import opened BrokerOrders
  import ExecutionEvidence

  /** What the candidate's raw payload said about cumulative quantity, before any carry-forward. */
  datatype Observed =
    | RawFaithful              // the candidate's own quantity is the observation
    | NotReported              // the payload carried no cumulative quantity
    | Reported(quantity: int)

  datatype Conflict = ClientIdentity | BrokerIdentity | RejectedWithFill | CompleteButShort | TerminalsDisagree

  datatype Merged = Merged(order: Order, conflict: Option<Conflict>, wasStale: bool, advancedFill: bool)

  function Cumulative(quantity: int): nat {
    if quantity > 0 then quantity else 0
  }

  /** The total of the positive fill records. */
  function SumFilled(fills: seq<Fill>): nat {
    if fills == [] then 0
    else SumFilled(fills[..|fills| - 1]) + Cumulative(fills[|fills| - 1].quantity)
  }

  method AccumulateFilled(fills: seq<Fill>) returns (total: nat)
    ensures total == SumFilled(fills)
  {
    total := 0;
    for i := 0 to |fills|
      invariant total == SumFilled(fills[..i])
    {
      assert fills[..i + 1][..i] == fills[..i];
      if fills[i].quantity > 0 {
        total := total + fills[i].quantity;
      }
    }
    assert fills[..|fills|] == fills;
  }

  function WorkingRank(state: OrderState): int {
    match state
    case Created => 0
    case Submitting => 1
    case Acknowledged => 2
    case Open => 3
    case PartiallyFilled => 4
    case CancelRequested => 5
    case _ => -1
  }

  /** Positive when the observation advances the fill, negative when it is provably older. */
  function Compare(observed: Observed, candidateFilled: nat, currentFilled: nat): int {
    match observed
    case RawFaithful => candidateFilled - currentFilled
    case NotReported => if currentFilled > 0 then -1 else 0
    case Reported(q) => Max(0, q) - currentFilled
  }

  // ---- state -------------------------------------------------------------------------------

  datatype Resolved = Resolved(state: OrderState, conflict: Option<Conflict>)

  function Reconcile(conflict: Conflict): Resolved {
    Resolved(ReconciliationRequired, Some(conflict))
  }

  function Plain(state: OrderState): Resolved {
    Resolved(state, None)
  }

  function BothTerminal(cur: OrderState, cand: OrderState, accepted: nat, requested: int): Resolved {
    if (cur.Rejected? || cand.Rejected?) && accepted > 0 then Reconcile(RejectedWithFill)
    else if (cur.Complete? || cand.Complete?) && accepted < requested then Reconcile(CompleteButShort)
    else if accepted >= requested && requested > 0 then Plain(Complete)
    else if cur == cand then Plain(cur)
    else if cur.Cancelled? || cand.Cancelled? then Plain(Cancelled)
    else Reconcile(TerminalsDisagree)
  }

  function CachedTerminal(cur: OrderState, accepted: nat, requested: int): Resolved {
    if cur.Rejected? && accepted > 0 then Reconcile(RejectedWithFill)
    else if cur.Cancelled? && accepted >= requested && requested > 0 then Plain(Complete)
    else Plain(cur)
  }

  function ObservedTerminal(cand: OrderState, accepted: nat, requested: int): Resolved {
    if cand.Rejected? && accepted > 0 then Reconcile(RejectedWithFill)
    else if cand.Cancelled? && accepted >= requested && requested > 0 then Plain(Complete)
    else if cand.Complete? && accepted < requested then Reconcile(CompleteButShort)
    else Plain(cand)
  }

  function NeitherTerminal(cur: OrderState, cand: OrderState, accepted: nat, requested: int, stale: bool): OrderState {
    var partial := 0 < accepted < requested;
    var floor := WorkingRank(PartiallyFilled);
    if cur.ReconciliationRequired? || cand.ReconciliationRequired? then ReconciliationRequired
    else if stale then
      if cur.Unknown? then Unknown
      else if partial && WorkingRank(cur) < floor then PartiallyFilled
      else cur
    else if cand.Unknown? then Unknown
    else if partial && WorkingRank(cand) < floor then PartiallyFilled
    else if WorkingRank(cand) >= WorkingRank(cur) then cand
    else cur
  }

  function ResolveState(cur: OrderState, cand: OrderState, accepted: nat, requested: int, stale: bool): Resolved {
    if Terminal(cur) && Terminal(cand) then BothTerminal(cur, cand, accepted, requested)
    else if Terminal(cur) then CachedTerminal(cur, accepted, requested)
    else if Terminal(cand) then ObservedTerminal(cand, accepted, requested)
    else Plain(NeitherTerminal(cur, cand, accepted, requested, stale))
  }

  // ---- evidence ----------------------------------------------------------------------------

  predicate Confirms(evidence: Option<Evidence>) {
    evidence.Some? && evidence.value.quantity.QuantityConfirmed?
  }

  function ResolveEvidence(cur: Order, cand: Order, accepted: nat, price: Option<real>, comparison: int): Option<Evidence> {
    var winner := if comparison < 0 then cur.evidence.OrElse(cand.evidence) else cand.evidence.OrElse(cur.evidence);
    if winner.None? then None
    else
      var confirmed :=
        if comparison > 0 then Confirms(cand.evidence)
        else if comparison < 0 then Confirms(cur.evidence)
        else Confirms(cand.evidence) || Confirms(cur.evidence);
      var quantity := if confirmed then QuantityConfirmed else winner.value.quantity;
      var priceQuality :=
        if accepted == 0 then PriceNotApplicable else if price.Some? then PriceConfirmed else PriceMissing;
      var accounting :=
        if winner.value.accounting.Unproven? && !confirmed then Unproven
        else if accepted == 0 then
          if quantity.QuantityConfirmed? then AccountingComplete else winner.value.accounting
        else if price.None? then PendingPrice
        else AccountingComplete;
      Some(Evidence(quantity, priceQuality, accounting))
  }

  // ---- fills -------------------------------------------------------------------------------

  /** One of the two arrays, never their concatenation, or one aggregate row. */
  function ResolveFills(winner: seq<Fill>, other: seq<Fill>, accepted: nat, price: Option<real>, at: int): seq<Fill> {
    if accepted == 0 then []
    else if winner != [] && SumFilled(winner) == accepted then winner
    else if other != [] && SumFilled(other) == accepted then other
    else
      var richer := if |winner| >= |other| then winner else other;
      if |richer| > 1 && SumFilled(richer) < accepted then richer
      else [Fill(accepted, price, at)]
  }

  // ---- the merge ---------------------------------------------------------------------------

  function ResolvePrice(cur: Option<real>, cand: Option<real>, accepted: nat, comparison: int): Option<real> {
    if accepted == 0 then None
    else if comparison > 0 then cand
    else if comparison < 0 then cur
    else cand.OrElse(cur)
  }

  /** Two different learned broker ids for one client order. */
  predicate BrokerIdsConflict(cur: Order, cand: Order) {
    cur.brokerId.Some? && cand.brokerId.Some? && cur.brokerId != cand.brokerId
  }

  function LaterStamp(a: Option<int>, b: Option<int>): Option<int> {
    if a.Some? && b.Some? then Some(Max(a.value, b.value)) else a.OrElse(b)
  }

  function MergeSame(cur: Order, cand: Order, observed: Observed): Merged {
    var curFilled := Cumulative(cur.filled);
    var candFilled := Cumulative(cand.filled);
    var accepted: nat := Max(curFilled, candFilled);
    var comparison := Compare(observed, candFilled, curFilled);
    var stale := comparison < 0;
    var requested := if stale then cur.quantity else cand.quantity;
    var price := ResolvePrice(cur.price, cand.price, accepted, comparison);
    var resolved := ResolveState(cur.state, cand.state, accepted, requested, stale);
    var conflict := resolved.conflict.OrElse(if BrokerIdsConflict(cur, cand) then Some(BrokerIdentity) else None);
    var state := if conflict.Some? then ReconciliationRequired else resolved.state;
    var base := if stale then cur else cand;
    var other := if stale then cand else cur;
    Merged(
      Order(cur.clientId,
            cur.brokerId.OrElse(cand.brokerId),
            requested,
            state,
            accepted,
            Max(0, requested - accepted),
            price,
            ResolveFills(base.fills, other.fills, accepted, price, Max(cur.updatedAt, cand.updatedAt)),
            ResolveEvidence(cur, cand, accepted, price, comparison),
            if state.Rejected? || conflict.Some?
            then base.rejectFamily.OrElse(cur.rejectFamily).OrElse(cand.rejectFamily)
            else None,
            cur.createdAt,
            Max(cur.updatedAt, cand.updatedAt),
            LaterStamp(cur.exchangeAt, cand.exchangeAt)),
      conflict, stale, comparison > 0)
  }

  function Merge(current: Option<Order>, cand: Order, observed: Observed): Merged {
    if current.None? then Merged(cand, None, false, Cumulative(cand.filled) > 0)
    else if current.value.clientId != cand.clientId then Merged(current.value, Some(ClientIdentity), false, false)
    else MergeSame(current.value, cand, observed)
  }

  // ---- properties of one merge -------------------------------------------------------------

  /** A learned broker id is never reassigned; a conflicting one quarantines the order. */
  lemma BrokerIdIsSticky(cur: Order, cand: Order, observed: Observed)
    ensures cur.brokerId.Some? ==> Merge(Some(cur), cand, observed).order.brokerId == cur.brokerId
    ensures cur.clientId == cand.clientId && BrokerIdsConflict(cur, cand)
            ==> Merge(Some(cur), cand, observed).order.state.ReconciliationRequired?
  {
  }

  lemma ResolvedStaysSettled(cur: OrderState, cand: OrderState, accepted: nat, requested: int, stale: bool)
    requires Settled(cur)
    ensures Settled(ResolveState(cur, cand, accepted, requested, stale).state)
  {
  }

  /** No observation reopens a settled order. */
  lemma SettledIsAbsorbing(cur: Order, cand: Order, observed: Observed)
    requires Settled(cur.state)
    ensures Settled(Merge(Some(cur), cand, observed).order.state)
  {
    if cur.clientId == cand.clientId {
      var accepted := Max(Cumulative(cur.filled), Cumulative(cand.filled));
      var stale := Compare(observed, Cumulative(cand.filled), Cumulative(cur.filled)) < 0;
      ResolvedStaysSettled(cur.state, cand.state, accepted, if stale then cur.quantity else cand.quantity, stale);
    }
  }

  /** The label agrees with the accepted quantity. */
  predicate Coherent(order: Order) {
    Fits(order.state, order.filled, order.quantity)
  }

  predicate Fits(state: OrderState, filled: int, quantity: int) {
    && (state.Complete? ==> filled >= quantity)
    && (state.Cancelled? ==> filled < quantity)
    && (state.Rejected? ==> filled == 0)
    && (0 < filled < quantity ==> !(state.Created? || state.Submitting? || state.Acknowledged? || state.Open?))
  }

  /** Every decision fits the accepted quantity, but for a COMPLETE order asked for more. */
  lemma ResolvedStateFits(cur: Order, cand: OrderState, accepted: nat, requested: int, stale: bool)
    requires Coherent(cur) && cur.filled <= accepted && requested > 0 && cur.quantity > 0
    requires stale ==> requested == cur.quantity
    ensures Fits(ResolveState(cur.state, cand, accepted, requested, stale).state, accepted, requested) <==>
            !(cur.state.Complete? && !Terminal(cand) && accepted < requested)
  {
    assert WorkingRank(PartiallyFilled) == 4;
  }

  /** The one way an observation breaks coherence: a modify raises the request of a COMPLETE order. */
  predicate RaisesCompletedRequest(cur: Order, cand: Order, observed: Observed) {
    && cur.state.Complete?
    && !Terminal(cand.state)
    && !BrokerIdsConflict(cur, cand)
    && Compare(observed, Cumulative(cand.filled), Cumulative(cur.filled)) >= 0
    && Max(cur.filled, cand.filled) < cand.quantity
  }

  /** Coherence survives a merge exactly when the observation is not such a raise. */
  lemma MergeKeepsCoherence(cur: Order, cand: Order, observed: Observed)
    requires Coherent(cur) && cur.filled >= 0 && cur.clientId == cand.clientId
    requires cur.quantity > 0 && cand.quantity > 0
    ensures Coherent(Merge(Some(cur), cand, observed).order) <==> !RaisesCompletedRequest(cur, cand, observed)
  {
    var accepted := Max(Cumulative(cur.filled), Cumulative(cand.filled));
    var stale := Compare(observed, Cumulative(cand.filled), Cumulative(cur.filled)) < 0;
    ResolvedStateFits(cur, cand.state, accepted, if stale then cur.quantity else cand.quantity, stale);
  }

  /** A working-state row that raises a completed order's request leaves COMPLETE above a short fill. */
  lemma RaisedRequestBreaksCoherence(cur: Order)
    requires cur.state.Complete? && cur.filled == 50 && cur.quantity == 50
    ensures Coherent(cur)
    ensures !Coherent(Merge(Some(cur), cur.(state := Open, quantity := 75), Reported(50)).order)
  {
  }

  /** Whether the observation is not provably older than what is cached. */
  predicate Current(cur: Order, cand: Order, observed: Observed) {
    Compare(observed, Cumulative(cand.filled), Cumulative(cur.filled)) >= 0
  }

  lemma LabelStepsBackIff(cur: OrderState, cand: OrderState, accepted: nat, requested: int, stale: bool)
    requires WorkingRank(cur) >= 0 && WorkingRank(cand) >= 0
    ensures WorkingRank(ResolveState(cur, cand, accepted, requested, stale).state) < WorkingRank(cur) <==>
            && cur.CancelRequested? && !stale && 0 < accepted < requested
            && WorkingRank(cand) < WorkingRank(PartiallyFilled)
    ensures ResolveState(cur, cand, accepted, requested, stale).conflict.None?
  {
  }

  /** Working labels only advance, but for one: a partly filled working row takes back a cancel request. */
  lemma WorkingLabelStepsBackIff(cur: Order, cand: Order, observed: Observed)
    requires cur.clientId == cand.clientId && !BrokerIdsConflict(cur, cand)
    requires WorkingRank(cur.state) >= 0 && WorkingRank(cand.state) >= 0
    ensures WorkingRank(Merge(Some(cur), cand, observed).order.state) < WorkingRank(cur.state) <==>
            && cur.state.CancelRequested?
            && Current(cur, cand, observed)
            && 0 < Max(cur.filled, cand.filled) < cand.quantity
            && WorkingRank(cand.state) < WorkingRank(PartiallyFilled)
  {
    var accepted := Max(Cumulative(cur.filled), Cumulative(cand.filled));
    var requested := if Current(cur, cand, observed) then cand.quantity else cur.quantity;
    LabelStepsBackIff(cur.state, cand.state, accepted, requested, !Current(cur, cand, observed));
  }

  /** Older evidence does not dissolve uncertainty, and newer uncertainty is taken. */
  lemma UncertaintyFollowsTheNewer(cur: Order, cand: Order, observed: Observed)
    requires cur.clientId == cand.clientId && !BrokerIdsConflict(cur, cand)
    requires !Settled(cur.state) && !Settled(cand.state)
    ensures Merge(Some(cur), cand, observed).order.state.Unknown? <==>
            if Current(cur, cand, observed)
            then cand.state.Unknown?
            else cur.state.Unknown?
  {
  }

  lemma FillsNeverExceedQuantity(cur: Order, cand: Order, observed: Observed)
    requires cur.clientId == cand.clientId
    ensures var m := Merge(Some(cur), cand, observed).order;
            SumFilled(m.fills) <= m.filled
  {
    assert forall f: Fill :: [f][..0] == [];
  }

  /** Proven exposure without a price is never closed accounting. */
  lemma UnpricedExposureIsNotFinal(cur: Order, cand: Order, observed: Observed)
    requires cur.clientId == cand.clientId
    ensures var m := Merge(Some(cur), cand, observed).order;
            m.filled > 0 && m.price.None? ==> !ExecutionEvidence.AccountingFinal(m)
  {
  }

  /** Evidence that confirms its quantity is not unproven. */
  predicate Supported(evidence: Option<Evidence>) {
    Confirms(evidence) ==> !evidence.value.accounting.Unproven?
  }

  /** Confirmed exposure in a readable state is closed exactly when it is priced. */
  lemma ConfirmedExposureIsFinalIffPriced(cur: Order, cand: Order, observed: Observed)
    requires cur.clientId == cand.clientId && Supported(cur.evidence) && Supported(cand.evidence)
    ensures var m := Merge(Some(cur), cand, observed).order;
            && Supported(m.evidence)
            && (m.filled > 0 && Confirms(m.evidence) && !m.state.Unknown? && !m.state.ReconciliationRequired? ==>
                  (ExecutionEvidence.AccountingFinal(m) <==> m.price.Some?))
  {
  }

  /** Choosing between the chosen array and the candidate's again keeps the total. */
  lemma ChoosingAgainKeepsTotal(held: seq<Fill>, seen: seq<Fill>, accepted: nat, price: Option<real>,
                                staleOnce: bool, staleTwice: bool, at: int, at': int)
    requires staleOnce ==> staleTwice
    ensures var once :=
              if staleOnce then ResolveFills(held, seen, accepted, price, at)
              else ResolveFills(seen, held, accepted, price, at);
            var twice :=
              if staleTwice then ResolveFills(once, seen, accepted, price, at')
              else ResolveFills(seen, once, accepted, price, at');
            SumFilled(twice) == SumFilled(once)
  {
    assert forall f: Fill :: [f][..0] == [];
  }

  lemma RepeatKeepsComparison(cur: nat, cand: nat, observed: Observed)
    ensures var accepted := Max(cur, cand);
            Compare(observed, cand, cur) < 0 ==> Compare(observed, cand, accepted) < 0
  {
  }

  /** Delivering the same observation twice changes neither quantity, price nor fill total. */
  lemma RepeatIsIdempotent(cur: Order, cand: Order, observed: Observed)
    ensures var once := Merge(Some(cur), cand, observed).order;
            var twice := Merge(Some(once), cand, observed).order;
            && twice.filled == once.filled
            && twice.price == once.price
            && SumFilled(twice.fills) == SumFilled(once.fills)
  {
    if cur.clientId == cand.clientId {
      var once := MergeSame(cur, cand, observed);
      var twice := MergeSame(once.order, cand, observed);
      assert twice.order.price == once.order.price;
      RepeatKeepsComparison(Cumulative(cur.filled), Cumulative(cand.filled), observed);
      ChoosingAgainKeepsTotal(cur.fills, cand.fills, once.order.filled, once.order.price, once.wasStale, twice.wasStale,
                              Max(cur.updatedAt, cand.updatedAt), Max(once.order.updatedAt, cand.updatedAt));
    }
  }
}
