/** What a broker's status label does to the cached order, alone and over whole runs. */
module OrderLabels {
  import opened Prelude
  import opened BrokerOrders
  import opened OrderMerge
  import opened OrderRuns
  import MergeOutcome

  // ---- what a label says about a quantity --------------------------------------------------

  /** Kite's completion is taken at its word; Dhan's is not when the fill is short. */
  predicate SaysComplete(status: Label, held: int, requested: int) {
    || status == Kite(KiteComplete)
    || (status == Dhan(DhanTraded) && !(0 < held < requested))
    || (status == Dhan(DhanPartTraded) && held >= requested && requested > 0)
  }

  predicate SaysCancelled(status: Label, held: int, requested: int) {
    || status == Kite(KiteCancelled) || status == Kite(KiteCancelledAmo)
    || status == Dhan(DhanCancelled) || status == Dhan(DhanClosed)
    || (status == Dhan(DhanExpired) && !(0 < held < requested))
  }

  predicate SaysRejected(status: Label) {
    status == Kite(KiteRejected) || status == Dhan(DhanRejected)
  }

  /** The label itself says that part of the order executed. */
  predicate SaysPartial(status: Label, held: int, requested: int) {
    || (status == Dhan(DhanPartTraded) && !(held >= requested && requested > 0))
    || (0 < held < requested &&
        (status in [Dhan(DhanPending), Dhan(DhanTraded), Dhan(DhanExpired)] ||
         status in [Kite(KiteOtherPending), Kite(KiteOpen), Kite(KitePutOrderReqReceived),
                    Kite(KiteAmoReqReceived), Kite(KiteOther)]))
  }

  predicate SaysUnknown(status: Label, held: int, requested: int) {
    status == Dhan(DhanOther) || (status == Kite(KiteOther) && !(0 < held < requested))
  }

  predicate SaysAcknowledged(status: Label, held: int, requested: int) {
    || status == Dhan(DhanTransit)
    || (!(0 < held < requested) &&
        status in [Kite(KiteOtherPending), Kite(KitePutOrderReqReceived), Kite(KiteAmoReqReceived)])
  }

  /** The labels left over say that the order rests at the exchange. */
  lemma LabelMeans(status: Label, held: int, requested: int)
    ensures var state := ClaimedState(status, held, requested);
            && (state.Complete? <==> SaysComplete(status, held, requested))
            && (state.Cancelled? <==> SaysCancelled(status, held, requested))
            && (state.Rejected? <==> SaysRejected(status))
            && (state.PartiallyFilled? <==> SaysPartial(status, held, requested))
            && (state.Unknown? <==> SaysUnknown(status, held, requested))
            && (state.CancelRequested? <==> status == Kite(KiteCancelPending))
            && (state.Acknowledged? <==> SaysAcknowledged(status, held, requested))
            && !state.ReconciliationRequired? && !state.Created? && !state.Submitting?
  {
  }

  // ---- one row -----------------------------------------------------------------------------

  function RequestIn(prior: Order, p: Payload): int {
    if p.status.Kite? then p.requested else prior.quantity
  }

  /** What is proven once the row has been read. */
  function Proven(prior: Order, p: Payload): nat {
    Max(0, if p.quantity.Some? then Max(prior.filled, p.quantity.value) else prior.filled)
  }

  /**
   * A REST row ends an order only when it carries a quantity, and then by its label and the highest
   * proven quantity. A label that would freeze accounting without one is quarantined.
   */
  lemma ProjectedLabel(prior: Order, p: Payload)
    ensures var o := Project(prior, p);
            var held, requested := Proven(prior, p), RequestIn(prior, p);
            var frozen := || SaysComplete(p.status, held, requested) || SaysCancelled(p.status, held, requested)
                          || SaysRejected(p.status) || SaysPartial(p.status, held, requested);
            && o.filled == held && o.quantity == requested && o.brokerId == p.brokerId
            && (o.state.Complete? <==> p.quantity.Some? && SaysComplete(p.status, held, requested))
            && (o.state.Cancelled? <==> p.quantity.Some? && SaysCancelled(p.status, held, requested))
            && (o.state.Rejected? <==> p.quantity.Some? && SaysRejected(p.status))
            && (o.state.PartiallyFilled? <==> p.quantity.Some? && SaysPartial(p.status, held, requested))
            && (o.state.ReconciliationRequired? <==> p.quantity.None? && frozen)
            && (o.state.Unknown? <==> SaysUnknown(p.status, held, requested))
            && (o.state.CancelRequested? <==> p.status == Kite(KiteCancelPending))
            && (o.state.Acknowledged? <==> SaysAcknowledged(p.status, held, requested))
  {
    LabelMeans(p.status, prior.filled, RequestIn(prior, p));
    LabelMeans(p.status, Proven(prior, p), RequestIn(prior, p));
  }

  /** A stream frame is read by its own quantity; one that proves nothing keeps the label held. */
  lemma StreamedLabel(known: Order, p: Payload)
    requires known.filled >= 0
    ensures var o := StreamCandidate(known, p);
            var said := if p.quantity.Some? then p.quantity.value else known.filled;
            var requested := known.quantity;
            var frozen := || SaysComplete(p.status, said, requested) || SaysCancelled(p.status, said, requested)
                          || SaysRejected(p.status) || SaysPartial(p.status, said, requested);
            && o.filled == said && o.quantity == requested
            && o.brokerId == (if p.brokerId.Some? then p.brokerId else known.brokerId)
            && (p.quantity.None? && frozen ==> o.state == known.state)
            && (p.quantity.Some? || !frozen ==>
                  && (o.state.Complete? <==> SaysComplete(p.status, said, requested))
                  && (o.state.Cancelled? <==> SaysCancelled(p.status, said, requested))
                  && (o.state.Rejected? <==> SaysRejected(p.status))
                  && (o.state.PartiallyFilled? <==> SaysPartial(p.status, said, requested))
                  && (o.state.Unknown? <==> SaysUnknown(p.status, said, requested)))
  {
    LabelMeans(p.status, if p.quantity.Some? then p.quantity.value else known.filled, known.quantity);
  }

  /** One row for the whole quantity, or none without a fill. */
  predicate OneRow(fills: seq<Fill>, held: int, price: Option<real>, at: int) {
    fills == if held > 0 then [Fill(held, price, at)] else []
  }

  /** What else a projected row carries: the trade book when Dhan lists it, the price, the stamps, the reject family. */
  lemma ProjectedRecord(prior: Order, p: Payload)
    ensures var o := Project(prior, p);
            && o.clientId == prior.clientId && o.updatedAt == p.at && o.exchangeAt == p.exchangeAt
            && o.price == (if p.quantity.Some? && o.filled == 0 then None else p.price)
            && o.pending == (if o.quantity > o.filled then o.quantity - o.filled else 0)
            && o.rejectFamily == (if o.state.Rejected? then p.rejectFamily else None)
            && (if p.status.Dhan? && p.trades != [] then o.fills == p.trades
                else OneRow(o.fills, o.filled, o.price, p.at))
            && (Confirms(o.evidence) <==> p.quantity.Some?)
            && (o.evidence.Some? && (o.evidence.value.accounting.Unproven? <==> o.state.ReconciliationRequired?))
  {
  }

  lemma StreamedRecord(known: Order, p: Payload)
    requires known.filled >= 0
    ensures var o := StreamCandidate(known, p);
            && o.clientId == known.clientId && o.updatedAt == p.at && o.exchangeAt == known.exchangeAt
            && o.rejectFamily == known.rejectFamily
            && o.price == (if p.quantity == Some(0) && known.filled == 0 then None else p.price)
            && o.pending == (if o.quantity > o.filled then o.quantity - o.filled else 0)
            && OneRow(o.fills, o.filled, o.price, p.at)
            && (Confirms(o.evidence) <==> p.quantity.Some?)
  {
  }

  /** A broker id is learned from the first row that carries one. */
  lemma RowTeachesId(cur: Order, prior: Order, p: Payload)
    requires prior.clientId == cur.clientId
    ensures Merge(Some(cur), Project(prior, p), Raw(p)).order.brokerId
            == if cur.brokerId.Some? then cur.brokerId else p.brokerId
  {
  }

  /** A frame is ignored exactly when its quantity went back and it changes neither label nor quantity. */
  lemma FrameIgnoredIff(known: Order, p: Payload)
    requires known.filled >= 0 && p.quantity.Some?
    ensures var merged := Merge(Some(known), StreamCandidate(known, p), Reported(p.quantity.value)).order;
            if p.quantity.value < known.filled && merged.state == known.state then ApplyStream(known, p) == known
            else ApplyStream(known, p) == merged
  {
  }

  // ---- runs with an unchanged request ------------------------------------------------------

  ghost predicate Fixed(s: System, requested: int) {
    && Faithful(s)
    && s.cache.quantity == requested
    && forall o :: o in s.captured ==> o.quantity == requested
  }

  lemma NextKeepsFixed(s: System, step: Step, requested: int)
    requires Fixed(s, requested) && KeepsRequest(step, requested)
    ensures Fixed(Next(s, step), requested)
  {
    NextKeepsFaithful(s, step);
    if (step.FinishRead? || step.Relabel?) && step.slot < |s.captured| {
      assert s.captured[step.slot] in s.captured;
    }
  }

  lemma {:induction false} RunKeepsFixed(first: Order, steps: seq<Step>)
    requires first.filled >= 0
    requires forall step :: step in steps ==> KeepsRequest(step, first.quantity)
    ensures Fixed(Run(Start(first), steps), first.quantity)
  {
    if steps == [] {
      StartIsFaithful(first);
    } else {
      var before := steps[..|steps| - 1];
      assert forall step :: step in before ==> step in steps;
      RunKeepsFixed(first, before);
      NextKeepsFixed(Run(Start(first), before), steps[|steps| - 1], first.quantity);
    }
  }

  /** The step brings a broker row or frame to the cache. */
  predicate Delivers(s: System, step: Step) {
    step.StreamEvent? || (step.FinishRead? && step.slot < |s.captured|)
  }

  /** A row that ends the order: a quantity and a final label, or an execution label with the whole request. */
  predicate Ends(p: Payload, requested: int) {
    && p.quantity.Some?
    && (|| p.status in [Kite(KiteComplete), Kite(KiteCancelled), Kite(KiteCancelledAmo), Kite(KiteRejected)]
        || p.status in [Dhan(DhanCancelled), Dhan(DhanClosed), Dhan(DhanRejected)]
        || (p.quantity.value >= requested > 0 && p.status in [Dhan(DhanTraded), Dhan(DhanPartTraded), Dhan(DhanExpired)]))
  }

  lemma EndingFrameSettles(known: Order, p: Payload)
    requires known.filled >= 0 && Ends(p, known.quantity)
    ensures Settled(ApplyStream(known, p).state)
  {
    StreamedLabel(known, p);
    MergeOutcome.TerminalRowSettles(known, StreamCandidate(known, p), Raw(p));
  }

  lemma EndingRowSettles(cur: Order, prior: Order, p: Payload)
    requires prior.clientId == cur.clientId && Ends(p, RequestIn(prior, p))
    ensures Settled(Merge(Some(cur), Project(prior, p), Raw(p)).order.state)
  {
    ProjectedLabel(prior, p);
    MergeOutcome.TerminalRowSettles(cur, Project(prior, p), Raw(p));
  }

  lemma EndingStepSettles(s: System, step: Step, requested: int)
    requires Fixed(s, requested) && KeepsRequest(step, requested)
    requires Delivers(s, step) && Ends(step.payload, requested)
    ensures Settled(Next(s, step).cache.state)
  {
    if step.StreamEvent? {
      EndingFrameSettles(s.cache, step.payload);
    } else {
      assert s.captured[step.slot] in s.captured;
      EndingRowSettles(s.cache, s.captured[step.slot], step.payload);
    }
  }

  /** Once a row that ends the order was delivered, the cache is settled on every continuation. */
  lemma {:induction false} EndedIsSettled(first: Order, steps: seq<Step>, k: nat)
    requires first.filled >= 0 && k < |steps|
    requires forall step :: step in steps ==> KeepsRequest(step, first.quantity)
    requires Delivers(Run(Start(first), steps[..k]), steps[k]) && Ends(steps[k].payload, first.quantity)
    ensures Settled(Run(Start(first), steps).cache.state)
  {
    var before := steps[..|steps| - 1];
    assert forall step :: step in before ==> step in steps;
    if k == |steps| - 1 {
      RunKeepsFixed(first, before);
      EndingStepSettles(Run(Start(first), before), steps[k], first.quantity);
    } else {
      assert before[..k] == steps[..k];
      EndedIsSettled(first, before, k);
      SettledForever(Run(Start(first), before), [steps[|steps| - 1]]);
      RunOne(Run(Start(first), before), steps[|steps| - 1]);
    }
  }

  lemma RunOne(s: System, step: Step)
    ensures Run(s, [step]) == Next(s, step)
  {
    assert [step][..0] == [];
  }

  lemma {:induction false} DeliveredIsSeen(first: Order, steps: seq<Step>, k: nat)
    requires first.filled >= 0 && k < |steps| && Delivers(Run(Start(first), steps[..k]), steps[k])
    ensures Observation(steps[k].payload.quantity, steps[k].payload.price) in Run(Start(first), steps).seen
  {
    var before := steps[..|steps| - 1];
    if k < |steps| - 1 {
      assert before[..k] == steps[..k];
      DeliveredIsSeen(first, before, k);
    }
  }

  /**
   * Completion is final: once a row that ends the order brought at least the whole request, the cache is
   * COMPLETE or awaits reconciliation, whatever arrives later and in whatever order.
   */
  lemma CompletionIsFinal(first: Order, steps: seq<Step>, k: nat)
    requires first.filled >= 0 && first.quantity > 0 && Coherent(first) && k < |steps|
    requires forall step :: step in steps ==> KeepsRequest(step, first.quantity)
    requires Delivers(Run(Start(first), steps[..k]), steps[k]) && Ends(steps[k].payload, first.quantity)
    requires steps[k].payload.quantity.value >= first.quantity
    ensures var cache := Run(Start(first), steps).cache;
            (cache.state.Complete? || cache.state.ReconciliationRequired?) && cache.filled >= first.quantity
  {
    EndedIsSettled(first, steps, k);
    LabelsStayCoherent(first, steps);
    DeliveredIsSeen(first, steps, k);
    FilledIsTheHighestReport(first, steps);
  }
}
