/**
 * One cached order under two observers. Stream events merge atomically. A REST read captures the
 * cached order, waits, projects the response with that captured prior and merges the projection
 * onto whatever is cached by then.
 */
module OrderRuns {
  import opened Prelude
  import opened BrokerOrders
  import opened OrderMerge
  import ExecutionEvidence
  import ZeroExposure

  /** One broker row or stream frame, its fields already read without collapsing absence to zero. */
  datatype Payload = Payload(
    status: Label,
    quantity: Option<nat>,
    price: Option<real>,
    brokerId: Option<string>,
    requested: int,            // Kite rows restate the request; Dhan rows do not
    trades: seq<Fill>,         // Dhan trade-book rows
    rejectFamily: Option<RejectFamily>,
    at: int,
    exchangeAt: Option<int>)

  function Raw(p: Payload): Observed {
    if p.quantity.None? then NotReported else Reported(p.quantity.value)
  }

  function Aggregate(filled: int, price: Option<real>, at: int): seq<Fill> {
    if filled > 0 then [Fill(filled, price, at)] else []
  }

  /** A REST row projected with the prior captured before the wait. */
  function Project(prior: Order, p: Payload): Order {
    var requested := if p.status.Kite? then p.requested else prior.quantity;
    var claimed := ClaimedState(p.status, if p.quantity.Some? then p.quantity.value else prior.filled, requested);
    var verdict := ExecutionEvidence.Evaluate(claimed, prior.filled, p.quantity, p.price);
    var state := if verdict.sufficient then ClaimedState(p.status, verdict.filled, requested) else ReconciliationRequired;
    prior.(
    brokerId := p.brokerId,
    quantity := requested,
    state := state,
    filled := verdict.filled,
    pending := Max(0, requested - verdict.filled),
    price := verdict.price,
    fills := if p.status.Dhan? && p.trades != [] then p.trades else Aggregate(verdict.filled, verdict.price, p.at),
    evidence := Some(verdict.quality),
    rejectFamily := if state.Rejected? then p.rejectFamily else None,
    updatedAt := p.at,
    exchangeAt := p.exchangeAt)
  }

  /** A stream frame turned into a raw-faithful candidate. */
  function StreamCandidate(known: Order, p: Payload): Order {
    var claimed :=
      ClaimedState(p.status, if p.quantity.Some? then p.quantity.value else known.filled, known.quantity);
    var verdict := ExecutionEvidence.Evaluate(claimed, known.filled, p.quantity, p.price);
    var filled := if p.quantity.Some? then p.quantity.value else verdict.filled;
    known.(
    brokerId := p.brokerId.OrElse(known.brokerId),
    state := if verdict.sufficient then ClaimedState(p.status, filled, known.quantity) else known.state,
    filled := filled,
    pending := Max(0, known.quantity - filled),
    price := verdict.price,
    fills := Aggregate(filled, verdict.price, p.at),
    evidence := Some(verdict.quality),
    updatedAt := p.at)
  }

  /** A frame whose quantity went backwards and that moves nothing else is ignored outright. */
  function ApplyStream(known: Order, p: Payload): Order {
    var merged := Merge(Some(known), StreamCandidate(known, p), Raw(p)).order;
    var regressed := p.quantity.Some? && p.quantity.value < known.filled;
    if regressed && merged.state == known.state && merged.filled == known.filled then known else merged
  }

  // ---- the step system ---------------------------------------------------------------------

  /** What an observation reported, as a client of the broker would read it. */
  datatype Observation = Observation(quantity: Option<nat>, price: Option<real>)

  datatype System = System(cache: Order, captured: seq<Order>, seen: seq<Observation>)

  datatype Step =
    | StreamEvent(payload: Payload)
    | StartRead
    | FinishRead(slot: nat, payload: Payload)        // a failed read takes no step
    | Relabel(slot: nat, state: OrderState, at: int) // a local label: UNKNOWN, quarantine, cancel requested

  function Start(first: Order): System
    requires first.filled >= 0
  {
    System(first, [], [Observation(Some(first.filled), first.price)])
  }

  function Next(s: System, step: Step): System {
    match step
    case StreamEvent(p) =>
      s.(cache := ApplyStream(s.cache, p), seen := s.seen + [Observation(p.quantity, p.price)])
    case StartRead =>
      s.(captured := s.captured + [s.cache])
    case FinishRead(slot, p) =>
      if slot < |s.captured| then
        s.(cache := Merge(Some(s.cache), Project(s.captured[slot], p), Raw(p)).order,
        seen := s.seen + [Observation(p.quantity, p.price)])
      else s
    case Relabel(slot, state, at) =>
      if slot < |s.captured| then
        s.(cache :=
        Merge(Some(s.cache), s.captured[slot].(state := state, updatedAt := at), RawFaithful).order)
      else s
  }

  function Run(s: System, steps: seq<Step>): System {
    if steps == [] then s else Next(Run(s, steps[..|steps| - 1]), steps[|steps| - 1])
  }

  function Highest(seen: seq<Observation>): nat {
    if seen == [] then 0
    else
      var last := seen[|seen| - 1];
      var rest := Highest(seen[..|seen| - 1]);
      if last.quantity.Some? then Max(rest, last.quantity.value) else rest
  }

  // ---- quantity and price ------------------------------------------------------------------

  /** A snapshot's price was reported by an observation of exactly its quantity. */
  predicate PriceWitnessed(o: Order, seen: seq<Observation>) {
    o.filled > 0 && o.price.Some? ==> Observation(Some(o.filled), o.price) in seen
  }

  predicate PriceKept(o: Order, seen: seq<Observation>) {
    forall obs :: obs in seen && obs.quantity == Some(o.filled) && obs.price.Some? && o.filled > 0 ==> o.price.Some?
  }

  ghost predicate Faithful(s: System) {
    && s.cache.filled == Highest(s.seen)
    && PriceWitnessed(s.cache, s.seen)
    && PriceKept(s.cache, s.seen)
    && (forall o :: o in s.captured ==>
                      && 0 <= o.filled <= s.cache.filled
                      && o.clientId == s.cache.clientId
                      && PriceWitnessed(o, s.seen))
  }

  lemma HighestBounds(seen: seq<Observation>)
    ensures forall obs :: obs in seen && obs.quantity.Some? ==> obs.quantity.value <= Highest(seen)
    ensures Highest(seen) > 0 ==> exists obs :: obs in seen && obs.quantity == Some(Highest(seen))
  {
    if seen != [] {
      HighestBounds(seen[..|seen| - 1]);
      var last := seen[|seen| - 1];
      assert seen == seen[..|seen| - 1] + [last];
      if Highest(seen) > 0 {
        if last.quantity == Some(Highest(seen)) {
          assert last in seen;
        } else {
          var obs :| obs in seen[..|seen| - 1] && obs.quantity == Some(Highest(seen));
          assert obs in seen;
        }
      }
    }
  }

  /** The effect one broker observation may have on quantity and price. */
  predicate Absorbs(before: Order, p: Payload, after: Order) {
    var reported := if p.quantity.Some? then p.quantity.value else 0;
    && after.clientId == before.clientId
    && after.filled == Max(before.filled, reported)
    && (after.filled > 0 ==>
          after.price ==
          if p.quantity.None? || reported < before.filled then before.price
          else if reported > before.filled then p.price
          else p.price.OrElse(before.price))
  }

  lemma StreamAbsorbs(known: Order, p: Payload)
    requires known.filled >= 0
    ensures Absorbs(known, p, ApplyStream(known, p))
  {
  }

  /** However old the captured prior is, the response only contributes what it reported. */
  lemma ReadAbsorbs(cur: Order, prior: Order, p: Payload)
    requires 0 <= prior.filled <= cur.filled && prior.clientId == cur.clientId
    ensures Absorbs(cur, p, Merge(Some(cur), Project(prior, p), Raw(p)).order)
  {
  }

  lemma AbsorbingKeepsFaithful(s: System, p: Payload, after: Order)
    requires Faithful(s) && Absorbs(s.cache, p, after)
    ensures Faithful(s.(cache := after, seen := s.seen + [Observation(p.quantity, p.price)]))
  {
    var seen' := s.seen + [Observation(p.quantity, p.price)];
    assert seen'[..|seen'| - 1] == s.seen;
    HighestBounds(s.seen);
  }

  lemma RelabelKeepsFaithful(s: System, slot: nat, state: OrderState, at: int)
    requires Faithful(s) && slot < |s.captured|
    ensures Faithful(Next(s, Relabel(slot, state, at)))
    ensures Next(s, Relabel(slot, state, at)).cache.clientId == s.cache.clientId
  {
    var prior := s.captured[slot];
    assert prior in s.captured;
    var m := Merge(Some(s.cache), prior.(state := state, updatedAt := at), RawFaithful).order;
    assert m.filled == s.cache.filled;
    assert m.filled > 0 ==>
        m.price == if prior.filled < s.cache.filled then s.cache.price else prior.price.OrElse(s.cache.price);
  }

  lemma NextKeepsFaithful(s: System, step: Step)
    requires Faithful(s)
    ensures Faithful(Next(s, step))
    ensures Next(s, step).cache.clientId == s.cache.clientId
  {
    match step
    case StreamEvent(p) =>
      StreamAbsorbs(s.cache, p);
      AbsorbingKeepsFaithful(s, p, ApplyStream(s.cache, p));
    case StartRead =>
    case FinishRead(slot, p) =>
      if slot < |s.captured| {
        var prior := s.captured[slot];
        assert prior in s.captured;
        ReadAbsorbs(s.cache, prior, p);
        AbsorbingKeepsFaithful(s, p, Merge(Some(s.cache), Project(prior, p), Raw(p)).order);
      }
    case Relabel(slot, state, at) =>
      if slot < |s.captured| {
        RelabelKeepsFaithful(s, slot, state, at);
      }
  }

  lemma {:induction false} RunKeepsFaithful(s: System, steps: seq<Step>)
    requires Faithful(s)
    ensures Faithful(Run(s, steps))
    ensures Run(s, steps).cache.clientId == s.cache.clientId
  {
    if steps != [] {
      var before := steps[..|steps| - 1];
      RunKeepsFaithful(s, before);
      NextKeepsFaithful(Run(s, before), steps[|steps| - 1]);
    }
  }

  lemma StartIsFaithful(first: Order)
    requires first.filled >= 0
    ensures Faithful(Start(first))
  {
    assert Start(first).seen[..0] == [];
  }

  /** Exposure is never lost or invented: the cache holds the largest quantity anyone reported. */
  lemma FilledIsTheHighestReport(first: Order, steps: seq<Step>)
    requires first.filled >= 0
    ensures var s := Run(Start(first), steps);
            && s.cache.filled >= 0
            && (forall obs :: obs in s.seen && obs.quantity.Some? ==> obs.quantity.value <= s.cache.filled)
            && (s.cache.filled > 0 ==> exists obs :: obs in s.seen && obs.quantity == Some(s.cache.filled))
  {
    StartIsFaithful(first);
    RunKeepsFaithful(Start(first), steps);
    HighestBounds(Run(Start(first), steps).seen);
  }

  /**
   * A price is never carried from a smaller fill to a larger one, and never dropped: exposure is
   * priced exactly when some observation of that very quantity carried a price, and with such a price.
   */
  lemma PriceBelongsToTheQuantity(first: Order, steps: seq<Step>)
    requires first.filled >= 0
    ensures var s := Run(Start(first), steps);
            s.cache.filled > 0 ==>
              && (s.cache.price.Some? <==>
                  exists obs :: obs in s.seen && obs.quantity == Some(s.cache.filled) && obs.price.Some?)
              && (s.cache.price.Some? ==> Observation(Some(s.cache.filled), s.cache.price) in s.seen)
  {
    StartIsFaithful(first);
    RunKeepsFaithful(Start(first), steps);
  }

  /** Two runs over one order that heard the same reports, in any order, hold the same quantity. */
  lemma QuantityIgnoresOrder(first: Order, steps: seq<Step>, steps': seq<Step>)
    requires first.filled >= 0
    requires forall obs :: obs in Run(Start(first), steps).seen <==> obs in Run(Start(first), steps').seen
    ensures Run(Start(first), steps).cache.filled == Run(Start(first), steps').cache.filled
  {
    FilledIsTheHighestReport(first, steps);
    FilledIsTheHighestReport(first, steps');
  }

  /** A zero-exposure certificate is issued only when nobody, at any time, reported a fill. */
  lemma CertificateMeansNoFillEver(first: Order, steps: seq<Step>)
    requires first.filled >= 0
    requires ZeroExposure.Outcome(Run(Start(first), steps).cache).Certificate?
    ensures forall obs :: obs in Run(Start(first), steps).seen && obs.quantity.Some? ==> obs.quantity.value == 0
  {
    FilledIsTheHighestReport(first, steps);
  }

  /** Fill records stay within the quantity, and unpriced exposure is not closed. */
  predicate Honest(o: Order) {
    && SumFilled(o.fills) <= Cumulative(o.filled)
    && (o.filled > 0 && o.price.None? ==> !ExecutionEvidence.AccountingFinal(o))
  }

  lemma MergeIsHonest(cur: Order, cand: Order, observed: Observed)
    requires Honest(cur)
    ensures Honest(Merge(Some(cur), cand, observed).order)
  {
    if cur.clientId == cand.clientId {
      FillsNeverExceedQuantity(cur, cand, observed);
      UnpricedExposureIsNotFinal(cur, cand, observed);
    }
  }

  /** Accounting is never closed over unpriced exposure and never holds more fills than quantity, on any run. */
  lemma {:induction false} AccountingStaysHonest(s: System, steps: seq<Step>)
    requires Honest(s.cache)
    ensures Honest(Run(s, steps).cache)
  {
    if steps != [] {
      var before := Run(s, steps[..|steps| - 1]);
      AccountingStaysHonest(s, steps[..|steps| - 1]);
      NextMergesOrKeeps(before, steps[|steps| - 1]);
      forall cand, observed
        ensures Honest(Merge(Some(before.cache), cand, observed).order)
      {
        MergeIsHonest(before.cache, cand, observed);
      }
    }
  }

  /** Confirmed exposure in a readable state is closed exactly when it is priced. */
  predicate ClosedIffPriced(o: Order) {
    && Supported(o.evidence)
    && (o.filled > 0 && Confirms(o.evidence) && !o.state.Unknown? && !o.state.ReconciliationRequired? ==>
          (ExecutionEvidence.AccountingFinal(o) <==> o.price.Some?))
  }

  lemma StreamKeepsClosed(known: Order, p: Payload)
    requires ClosedIffPriced(known)
    ensures ClosedIffPriced(ApplyStream(known, p))
  {
    ConfirmedExposureIsFinalIffPriced(known, StreamCandidate(known, p), Raw(p));
  }

  lemma ReadKeepsClosed(cur: Order, prior: Order, p: Payload)
    requires ClosedIffPriced(cur) && prior.clientId == cur.clientId
    ensures ClosedIffPriced(Merge(Some(cur), Project(prior, p), Raw(p)).order)
  {
    ConfirmedExposureIsFinalIffPriced(cur, Project(prior, p), Raw(p));
  }

  ghost predicate Accounted(s: System) {
    && Faithful(s)
    && ClosedIffPriced(s.cache)
    && forall o :: o in s.captured ==> Supported(o.evidence)
  }

  lemma NextKeepsAccounted(s: System, step: Step)
    requires Accounted(s)
    ensures Accounted(Next(s, step))
  {
    NextKeepsFaithful(s, step);
    match step
    case StreamEvent(p) => StreamKeepsClosed(s.cache, p);
    case StartRead =>
    case FinishRead(slot, p) =>
      if slot < |s.captured| {
        assert s.captured[slot] in s.captured;
        ReadKeepsClosed(s.cache, s.captured[slot], p);
      }
    case Relabel(slot, state, at) =>
      if slot < |s.captured| {
        assert s.captured[slot] in s.captured;
        ConfirmedExposureIsFinalIffPriced(s.cache, s.captured[slot].(state := state, updatedAt := at), RawFaithful);
      }
  }

  /** On every run, confirmed exposure in a readable state is closed exactly when it is priced. */
  lemma {:induction false} ClosedExactlyWhenPriced(first: Order, steps: seq<Step>)
    requires first.filled >= 0 && ClosedIffPriced(first)
    ensures Accounted(Run(Start(first), steps))
  {
    if steps == [] {
      StartIsFaithful(first);
    } else {
      var before := steps[..|steps| - 1];
      ClosedExactlyWhenPriced(first, before);
      NextKeepsAccounted(Run(Start(first), before), steps[|steps| - 1]);
    }
  }

  // ---- identity and labels -----------------------------------------------------------------

  /** Every step either leaves the cached order alone or merges one candidate onto it. */
  ghost predicate MergedOrKept(before: Order, after: Order) {
    after == before || exists cand, observed :: after == Merge(Some(before), cand, observed).order
  }

  lemma NextMergesOrKeeps(s: System, step: Step)
    ensures MergedOrKept(s.cache, Next(s, step).cache)
  {
    match step
    case StreamEvent(p) =>
      var merged := Merge(Some(s.cache), StreamCandidate(s.cache, p), Raw(p)).order;
      assert ApplyStream(s.cache, p) == s.cache || ApplyStream(s.cache, p) == merged;
    case StartRead =>
    case FinishRead(slot, p) =>
    case Relabel(slot, state, at) =>
  }

  /** No later observation reopens a settled order. */
  lemma {:induction false} SettledForever(s: System, steps: seq<Step>)
    requires Settled(s.cache.state)
    ensures Settled(Run(s, steps).cache.state)
  {
    if steps != [] {
      var before := Run(s, steps[..|steps| - 1]);
      SettledForever(s, steps[..|steps| - 1]);
      NextMergesOrKeeps(before, steps[|steps| - 1]);
      forall cand, observed {
        SettledIsAbsorbing(before.cache, cand, observed);
      }
    }
  }

  /** A learned broker id is never reassigned. */
  lemma {:induction false} BrokerIdForever(s: System, steps: seq<Step>)
    requires s.cache.brokerId.Some?
    ensures Run(s, steps).cache.brokerId == s.cache.brokerId
  {
    if steps != [] {
      var before := Run(s, steps[..|steps| - 1]);
      BrokerIdForever(s, steps[..|steps| - 1]);
      NextMergesOrKeeps(before, steps[|steps| - 1]);
      forall cand, observed {
        BrokerIdIsSticky(before.cache, cand, observed);
      }
    }
  }

  /** No Kite row restates a different request. */
  predicate KeepsRequest(step: Step, requested: int) {
    step.FinishRead? && step.payload.status.Kite? ==> step.payload.requested == requested
  }

  ghost predicate Labelled(s: System, requested: int) {
    && Faithful(s)
    && Coherent(s.cache)
    && s.cache.quantity == requested
    && forall o :: o in s.captured ==> o.quantity == requested
  }

  lemma NextKeepsLabels(s: System, step: Step, requested: int)
    requires requested > 0 && Labelled(s, requested) && KeepsRequest(step, requested)
    ensures Labelled(Next(s, step), requested)
  {
    NextKeepsFaithful(s, step);
    match step
    case StreamEvent(p) =>
      MergeKeepsCoherence(s.cache, StreamCandidate(s.cache, p), Raw(p));
    case StartRead =>
    case FinishRead(slot, p) =>
      if slot < |s.captured| {
        assert s.captured[slot] in s.captured;
        MergeKeepsCoherence(s.cache, Project(s.captured[slot], p), Raw(p));
      }
    case Relabel(slot, state, at) =>
      if slot < |s.captured| {
        assert s.captured[slot] in s.captured;
        MergeKeepsCoherence(s.cache, s.captured[slot].(state := state, updatedAt := at), RawFaithful);
      }
  }

  /** With an unchanged positive request, the label never contradicts the quantity on any run. */
  lemma {:induction false} LabelsStayCoherent(first: Order, steps: seq<Step>)
    requires first.filled >= 0 && first.quantity > 0 && Coherent(first)
    requires forall step :: step in steps ==> KeepsRequest(step, first.quantity)
    ensures Labelled(Run(Start(first), steps), first.quantity)
  {
    if steps == [] {
      StartIsFaithful(first);
    } else {
      var before := steps[..|steps| - 1];
      assert forall step :: step in before ==> step in steps;
      LabelsStayCoherent(first, before);
      NextKeepsLabels(Run(Start(first), before), steps[|steps| - 1], first.quantity);
    }
  }
}
