/**
 * Whether the account can fund every stage of the sequence that creates a box. Money is in paise;
 * `None` is a missing or non-finite figure.
 */
module StageFunding {
  import opened Prelude

  datatype Side = Buy | Sell
  datatype Role = K1Ce | K2Ce | K2Pe | K1Pe
  datatype Direction = LongBox | ShortBox

  datatype Request = Request(role: Role, quantity: Option<int>, limit: Option<int>)
  datatype Slot = Slot(role: Role, side: Side, rank: int)

  // ---- hedge-first transport order ---------------------------------------------------------

  /** The oracle: no BUY comes after a SELL. */
  predicate HedgeFirst(slots: seq<Slot>) {
    forall i, j :: 0 <= i < j < |slots| ==> !(slots[i].side.Sell? && slots[j].side.Buy?)
  }

  method IsHedgeFirstSequence(slots: seq<Slot>) returns (ok: bool)
    ensures ok <==> HedgeFirst(slots)
  {
    var seenSell := false;
    for i := 0 to |slots|
      invariant seenSell <==> exists j :: 0 <= j < i && slots[j].side.Sell?
      invariant HedgeFirst(slots[..i])
    {
      if slots[i].side.Sell? {
        seenSell := true;
      } else if seenSell {
        return false;
      }
    }
    assert slots[..|slots|] == slots;
    return true;
  }

  function EntrySide(direction: Direction, role: Role): Side {
    if direction.LongBox? == (role.K1Ce? || role.K2Pe?) then Buy else Sell
  }

  const BOX_LEG_ROLES := [K1Ce, K2Ce, K2Pe, K1Pe]

  /** The first legs that trade on this side, in canonical order. */
  function LegsOn(direction: Direction, side: Side, n: nat): seq<Role>
    requires n <= 4
  {
    if n == 0 then []
    else
      var role := BOX_LEG_ROLES[n - 1];
      LegsOn(direction, side, n - 1) + if EntrySide(direction, role) == side then [role] else []
  }

  lemma LegTables(direction: Direction)
    ensures LegsOn(direction, Buy, 4) == if direction.LongBox? then [K1Ce, K2Pe] else [K2Ce, K1Pe]
    ensures LegsOn(direction, Sell, 4) == if direction.LongBox? then [K2Ce, K1Pe] else [K1Ce, K2Pe]
  {
    assert LegsOn(direction, Buy, 2) == if direction.LongBox? then [K1Ce] else [K2Ce];
    assert LegsOn(direction, Sell, 2) == if direction.LongBox? then [K2Ce] else [K1Ce];
  }

  /** BUYs first, then SELLs, each group in canonical order. */
  method EntrySubmissionOrder(direction: Direction) returns (slots: seq<Slot>)
    ensures HedgeFirst(slots)
    ensures direction.LongBox? ==>
              slots == [Slot(K1Ce, Buy, 0), Slot(K2Pe, Buy, 1), Slot(K2Ce, Sell, 2), Slot(K1Pe, Sell, 3)]
    ensures direction.ShortBox? ==>
              slots == [Slot(K2Ce, Buy, 0), Slot(K1Pe, Buy, 1), Slot(K1Ce, Sell, 2), Slot(K2Pe, Sell, 3)]
  {
    var buys: seq<Role>, sells: seq<Role> := [], [];
    for i := 0 to 4
      invariant buys == LegsOn(direction, Buy, i) && sells == LegsOn(direction, Sell, i)
    {
      var role := BOX_LEG_ROLES[i];
      if EntrySide(direction, role).Buy? {
        buys := buys + [role];
      } else {
        sells := sells + [role];
      }
    }
    LegTables(direction);
    var roles := buys + sells;
    slots := seq(4, i requires 0 <= i < 4 => Slot(roles[i], EntrySide(direction, roles[i]), i));
  }

  // ---- transport order by rank -------------------------------------------------------------

  predicate ByRank(slots: seq<Slot>) {
    forall i, j :: 0 <= i < j < |slots| ==> slots[i].rank <= slots[j].rank
  }

  /** After the last slot that does not outrank it, so equal ranks keep their order. */
  function Insert(sorted: seq<Slot>, slot: Slot): seq<Slot> {
    if sorted == [] || sorted[|sorted| - 1].rank <= slot.rank then sorted + [slot]
    else Insert(sorted[..|sorted| - 1], slot) + [sorted[|sorted| - 1]]
  }

  function Sorted(slots: seq<Slot>): seq<Slot> {
    if slots == [] then [] else Insert(Sorted(slots[..|slots| - 1]), slots[|slots| - 1])
  }

  lemma {:induction false} InsertKeepsAll(sorted: seq<Slot>, slot: Slot)
    ensures multiset(Insert(sorted, slot)) == multiset(sorted) + multiset{slot}
  {
    if sorted != [] && sorted[|sorted| - 1].rank > slot.rank {
      assert sorted == sorted[..|sorted| - 1] + [sorted[|sorted| - 1]];
      InsertKeepsAll(sorted[..|sorted| - 1], slot);
    }
  }

  lemma {:induction false} InsertSorts(sorted: seq<Slot>, slot: Slot, top: int)
    requires ByRank(sorted) && slot.rank <= top && forall i :: 0 <= i < |sorted| ==> sorted[i].rank <= top
    ensures ByRank(Insert(sorted, slot))
    ensures forall i :: 0 <= i < |Insert(sorted, slot)| ==> Insert(sorted, slot)[i].rank <= top
  {
    if sorted != [] && sorted[|sorted| - 1].rank > slot.rank {
      InsertSorts(sorted[..|sorted| - 1], slot, sorted[|sorted| - 1].rank);
    }
  }

  lemma {:induction false} SortedByRank(slots: seq<Slot>)
    ensures ByRank(Sorted(slots))
  {
    if slots != [] {
      var rest, last := Sorted(slots[..|slots| - 1]), slots[|slots| - 1];
      SortedByRank(slots[..|slots| - 1]);
      InsertSorts(rest, last, if rest == [] then last.rank else Max(last.rank, rest[|rest| - 1].rank));
    }
  }

  /** The stages run over exactly the given slots. */
  lemma {:induction false} SortedIsPermutation(slots: seq<Slot>)
    ensures multiset(Sorted(slots)) == multiset(slots)
  {
    if slots != [] {
      SortedIsPermutation(slots[..|slots| - 1]);
      InsertKeepsAll(Sorted(slots[..|slots| - 1]), slots[|slots| - 1]);
      assert slots == slots[..|slots| - 1] + [slots[|slots| - 1]];
    }
  }

  function AddIfRank(found: seq<Slot>, slot: Slot, rank: int): seq<Slot> {
    if slot.rank == rank then found + [slot] else found
  }

  /** The slots of one rank, in order. */
  function OfRank(slots: seq<Slot>, rank: int): seq<Slot> {
    if slots == [] then [] else AddIfRank(OfRank(slots[..|slots| - 1], rank), slots[|slots| - 1], rank)
  }

  lemma OfRankAppend(slots: seq<Slot>, slot: Slot, rank: int)
    ensures OfRank(slots + [slot], rank) == AddIfRank(OfRank(slots, rank), slot, rank)
  {
    assert (slots + [slot])[..|slots|] == slots;
  }

  lemma {:induction false} InsertIsStable(sorted: seq<Slot>, slot: Slot, rank: int)
    ensures OfRank(Insert(sorted, slot), rank) == AddIfRank(OfRank(sorted, rank), slot, rank)
  {
    if sorted == [] || sorted[|sorted| - 1].rank <= slot.rank {
      OfRankAppend(sorted, slot, rank);
    } else {
      var before, last := sorted[..|sorted| - 1], sorted[|sorted| - 1];
      InsertIsStable(before, slot, rank);
      OfRankAppend(Insert(before, slot), last, rank);
    }
  }

  /** Slots of equal rank keep the order they were given in. */
  lemma {:induction false} SortedIsStable(slots: seq<Slot>, rank: int)
    ensures OfRank(Sorted(slots), rank) == OfRank(slots, rank)
  {
    if slots != [] {
      SortedIsStable(slots[..|slots| - 1], rank);
      InsertIsStable(Sorted(slots[..|slots| - 1]), slots[|slots| - 1], rank);
    }
  }

  // ---- what a prefix of the sequence costs -------------------------------------------------

  /** A later request for the same role replaces an earlier one. */
  function RequestFor(requests: seq<Request>, role: Role): Option<Request> {
    if requests == [] then None
    else if requests[|requests| - 1].role == role then Some(requests[|requests| - 1])
    else RequestFor(requests[..|requests| - 1], role)
  }

  predicate Usable(r: Request) {
    r.quantity.Some? && r.quantity.value > 0 && r.limit.Some? && r.limit.value > 0
  }

  predicate Priced(requests: seq<Request>, role: Role) {
    var r := RequestFor(requests, role);
    r.Some? && Usable(r.value)
  }

  function Notional(r: Request): int
    requires Usable(r)
  {
    r.limit.value * r.quantity.value
  }

  /** The premium the BUY legs of these slots have to pay. */
  function BuyPremium(requests: seq<Request>, slots: seq<Slot>): int {
    if slots == [] then 0
    else
      var last := slots[|slots| - 1];
      BuyPremium(requests, slots[..|slots| - 1]) +
      if last.side.Buy? && Priced(requests, last.role) then Notional(RequestFor(requests, last.role).value) else 0
  }

  /** The last request for a role. */
  predicate LastFor(requests: seq<Request>, role: Role, i: int) {
    && 0 <= i < |requests| && requests[i].role == role
    && forall j :: i < j < |requests| ==> requests[j].role != role
  }

  lemma {:induction false} LastIsTaken(requests: seq<Request>, role: Role, i: nat)
    requires LastFor(requests, role, i)
    ensures RequestFor(requests, role) == Some(requests[i])
  {
    if i < |requests| - 1 {
      LastIsTaken(requests[..|requests| - 1], role, i);
    }
  }

  lemma {:induction false} TakenIsLast(requests: seq<Request>, role: Role) returns (i: nat)
    requires RequestFor(requests, role).Some?
    ensures LastFor(requests, role, i)
  {
    i := |requests| - 1;
    if requests[i].role != role {
      i := TakenIsLast(requests[..i], role);
    }
  }

  /** The last request for the role has a positive quantity and a positive limit. */
  ghost predicate PricedByLast(requests: seq<Request>, role: Role) {
    exists i :: && LastFor(requests, role, i)
                && requests[i].quantity.Some? && requests[i].quantity.value > 0
                && requests[i].limit.Some? && requests[i].limit.value > 0
  }

  lemma PricedIff(requests: seq<Request>, role: Role)
    ensures Priced(requests, role) <==> PricedByLast(requests, role)
  {
    if RequestFor(requests, role).Some? {
      var i := TakenIsLast(requests, role);
      LastIsTaken(requests, role, i);
    }
    if j :| LastFor(requests, role, j) {
      LastIsTaken(requests, role, j);
      forall k | LastFor(requests, role, k)
        ensures k == j
      {
      }
    }
  }

  /** A BUY adds limit times quantity of the role's last request; a SELL and an unpriced leg add nothing. */
  lemma PremiumAdds(requests: seq<Request>, slots: seq<Slot>, slot: Slot, i: nat)
    requires LastFor(requests, slot.role, i)
    ensures var r := requests[i];
            BuyPremium(requests, slots + [slot]) - BuyPremium(requests, slots) ==
            if slot.side.Buy? && r.quantity.Some? && r.quantity.value > 0 && r.limit.Some? && r.limit.value > 0
            then r.limit.value * r.quantity.value else 0
  {
    LastIsTaken(requests, slot.role, i);
    assert (slots + [slot])[..|slots|] == slots;
  }

  // ---- stages ------------------------------------------------------------------------------

  datatype Stage = Stage(slot: Slot, requirement: Option<int>)
  datatype Gap = Unpriced(role: Role) | NoInitialMargin(role: Role) | NoFinalMargin(role: Role) | NotHedgeFirst

  /** A required margin of zero is not a credible figure for a box. */
  function Credible(margin: Option<int>): Option<int> {
    if margin.Some? && margin.value > 0 then margin else None
  }

  /** Only the stage with every leg on the book has the spread benefit. */
  function MarginAt(n: nat, i: nat, initial: Option<int>, final: Option<int>): Option<int> {
    Credible(if i + 1 == n then final else initial)
  }

  /** The greater of the margin in force and the premium paid so far. */
  function RequirementAt(requests: seq<Request>, ordered: seq<Slot>, i: nat, initial: Option<int>, final: Option<int>): Option<int>
    requires i < |ordered|
  {
    var margin := MarginAt(|ordered|, i, initial, final);
    if Priced(requests, ordered[i].role) && margin.Some?
    then Some(Max(margin.value, BuyPremium(requests, ordered[..i + 1])))
    else None
  }

  /** One stage: what has been paid by then, and what it takes to get there. */
  method BuildStage(requests: seq<Request>, ordered: seq<Slot>, i: nat, paid: int, initial: Option<int>, final: Option<int>)
    returns (debit: int, stage: Stage, gap: Option<Gap>)
    requires i < |ordered| && paid == BuyPremium(requests, ordered[..i])
    ensures debit == BuyPremium(requests, ordered[..i + 1])
    ensures stage == Stage(ordered[i], RequirementAt(requests, ordered, i, initial, final))
    ensures gap.None? <==> stage.requirement.Some?
    ensures gap == Some(Unpriced(ordered[i].role)) <==> !Priced(requests, ordered[i].role)
    ensures Priced(requests, ordered[i].role) && i + 1 == |ordered| ==>
              if final.Some? && final.value > 0 then gap.None? else gap == Some(NoFinalMargin(ordered[i].role))
    ensures Priced(requests, ordered[i].role) && i + 1 < |ordered| ==>
              if initial.Some? && initial.value > 0 then gap.None? else gap == Some(NoInitialMargin(ordered[i].role))
  {
    var slot := ordered[i];
    assert ordered[..i + 1][..i] == ordered[..i];
    var request := RequestFor(requests, slot.role);
    var priced := request.Some? && Usable(request.value);
    debit := paid;
    if priced && slot.side.Buy? {
      debit := debit + Notional(request.value);
    }
    var isFinal := i + 1 == |ordered|;
    var margin := Credible(if isFinal then final else initial);
    var requirement: Option<int> := None;
    gap := None;
    if !priced {
      gap := Some(Unpriced(slot.role));
    } else if margin.None? {
      gap := Some(if isFinal then NoFinalMargin(slot.role) else NoInitialMargin(slot.role));
    } else {
      requirement := Some(Max(margin.value, debit));
    }
    stage := Stage(slot, requirement);
  }

  predicate SellAmong(slots: seq<Slot>) {
    exists j :: 0 <= j < |slots| && slots[j].side.Sell?
  }

  lemma OneMoreSlot(slots: seq<Slot>, slot: Slot)
    ensures HedgeFirst(slots + [slot]) <==> HedgeFirst(slots) && !(slot.side.Buy? && SellAmong(slots))
    ensures SellAmong(slots + [slot]) <==> SellAmong(slots) || slot.side.Sell?
  {
    var more := slots + [slot];
    assert more[|slots|] == slot && forall j :: 0 <= j < |slots| ==> more[j] == slots[j];
  }

  /** These are the stages of the first legs of the sequence. */
  predicate StagesOf(stages: seq<Stage>, requests: seq<Request>, ordered: seq<Slot>, initial: Option<int>, final: Option<int>) {
    && |stages| <= |ordered|
    && forall i :: 0 <= i < |stages| ==>
                     stages[i] == Stage(ordered[i], RequirementAt(requests, ordered, i, initial, final))
  }

  predicate AllKnown(stages: seq<Stage>) {
    forall i :: 0 <= i < |stages| ==> stages[i].requirement.Some?
  }

  lemma OneMoreStage(stages: seq<Stage>, stage: Stage, requests: seq<Request>, ordered: seq<Slot>,
                     initial: Option<int>, final: Option<int>)
    requires StagesOf(stages, requests, ordered, initial, final) && |stages| < |ordered|
    requires stage == Stage(ordered[|stages|], RequirementAt(requests, ordered, |stages|, initial, final))
    ensures StagesOf(stages + [stage], requests, ordered, initial, final)
    ensures AllKnown(stages + [stage]) <==> AllKnown(stages) && stage.requirement.Some?
  {
    var more := stages + [stage];
    assert more[|stages|] == stage && forall i :: 0 <= i < |stages| ==> more[i] == stages[i];
  }

  /** Runs over the legs in transport order, keeping what has been paid and whether a SELL has gone. */
  method WalkStages(requests: seq<Request>, ordered: seq<Slot>, initial: Option<int>, final: Option<int>)
    returns (stages: seq<Stage>, hedgeFirst: bool, gaps: seq<Gap>)
    ensures |stages| == |ordered| && StagesOf(stages, requests, ordered, initial, final)
    ensures hedgeFirst <==> HedgeFirst(ordered)
    ensures gaps == [] <==> AllKnown(stages)
  {
    stages, hedgeFirst, gaps := [], true, [];
    var debit, seenSell := 0, false;
    for i := 0 to |ordered|
      invariant |stages| == i && StagesOf(stages, requests, ordered, initial, final)
      invariant debit == BuyPremium(requests, ordered[..i])
      invariant seenSell <==> SellAmong(ordered[..i])
      invariant hedgeFirst <==> HedgeFirst(ordered[..i])
      invariant gaps == [] <==> AllKnown(stages)
    {
      assert ordered[..i + 1] == ordered[..i] + [ordered[i]];
      OneMoreSlot(ordered[..i], ordered[i]);
      if ordered[i].side.Sell? {
        seenSell := true;
      } else if seenSell {
        hedgeFirst := false;
      }
      var stage, gap;
      debit, stage, gap := BuildStage(requests, ordered, i, debit, initial, final);
      OneMoreStage(stages, stage, requests, ordered, initial, final);
      if gap.Some? {
        gaps := gaps + [gap.value];
      }
      stages := stages + [stage];
    }
    assert ordered[..|ordered|] == ordered;
  }

  method BuildFundingStages(requests: seq<Request>, order: seq<Slot>, initial: Option<int>, final: Option<int>)
    returns (stages: seq<Stage>, hedgeFirst: bool, gaps: seq<Gap>)
    ensures |stages| == |Sorted(order)| && StagesOf(stages, requests, Sorted(order), initial, final)
    ensures hedgeFirst <==> HedgeFirst(Sorted(order))
    ensures gaps == [] <==> hedgeFirst && AllKnown(stages)
  {
    stages, hedgeFirst, gaps := WalkStages(requests, Sorted(order), initial, final);
    if !hedgeFirst {
      gaps := gaps + [NotHedgeFirst];
    }
  }

  // ---- the funding picture -----------------------------------------------------------------

  datatype Provenance = BrokerConfirmed | Estimate | Unavailable | Stale | Invalid
  datatype Figure = Figure(value: Option<int>, provenance: Provenance, usable: bool)

  const UNKNOWN := Figure(None, Unavailable, false)

  datatype Funding = Funding(stages: seq<Stage>, hedgeFirst: bool, gaps: seq<Gap>, worst: Option<int>, binding: Figure)

  /** What the binding requirement is made of, besides the stages. */
  datatype Costs = Costs(charges: Option<int>, reserve: Option<int>, encumbrance: Option<int>, netted: bool)

  function WorstOf(stages: seq<Stage>): Option<int> {
    if stages == [] then None
    else
      var rest, r := WorstOf(stages[..|stages| - 1]), stages[|stages| - 1].requirement;
      if r.None? then rest else if rest.None? then r else Some(Max(rest.value, r.value))
  }

  /** An unusable reserve setting is no reserve. */
  function ReserveOf(costs: Costs): int {
    if costs.reserve.Some? && costs.reserve.value >= 0 then costs.reserve.value else 0
  }

  /** The encumbrance counts only when it has not been deducted from the funds already. */
  function Added(costs: Costs): Option<int> {
    if costs.netted then Some(0) else costs.encumbrance
  }

  method WorstStage(stages: seq<Stage>) returns (worst: Option<int>)
    ensures worst == WorstOf(stages)
  {
    worst := None;
    for i := 0 to |stages|
      invariant worst == WorstOf(stages[..i])
    {
      assert stages[..i + 1][..i] == stages[..i];
      var r := stages[i].requirement;
      if r.Some? && (worst.None? || r.value > worst.value) {
        worst := r;
      }
    }
    assert stages[..|stages|] == stages;
  }

  /** The binding requirement: the worst stage with everything the account must hold beside it. */
  method Bind(stage: Option<int>, costs: Costs) returns (binding: Figure)
    ensures binding.usable <==> binding.value.Some?
    ensures binding.value.Some? <==> stage.Some? && costs.charges.Some? && Added(costs).Some?
    ensures binding.value.Some? ==>
              && binding.value.value == stage.value + costs.charges.value + ReserveOf(costs) + Added(costs).value
              && binding.provenance == BrokerConfirmed
  {
    binding := UNKNOWN;
    if stage.Some? && costs.charges.Some? && (costs.netted || costs.encumbrance.Some?) {
      var total := stage.value + costs.charges.value + ReserveOf(costs);
      if !costs.netted {
        total := total + costs.encumbrance.value;
      }
      binding := Figure(Some(total), BrokerConfirmed, true);
    }
  }

  method BuildFundingPicture(requests: seq<Request>, order: seq<Slot>, initial: Option<int>, final: Option<int>,
                             costs: Costs, marginUsable: bool) returns (funding: Funding)
    ensures |funding.stages| == |Sorted(order)| && StagesOf(funding.stages, requests, Sorted(order), initial, final)
    ensures funding.hedgeFirst <==> HedgeFirst(Sorted(order))
    ensures funding.gaps == [] <==> funding.hedgeFirst && AllKnown(funding.stages)
    ensures funding.worst == WorstOf(funding.stages)
    ensures funding.binding.usable <==> funding.binding.value.Some?
    ensures funding.binding.value.Some? <==>
            && funding.gaps == [] && funding.worst.Some? && marginUsable
            && costs.charges.Some? && Added(costs).Some?
    ensures funding.binding.value.Some? ==>
              funding.binding.value.value
              == funding.worst.value + costs.charges.value + ReserveOf(costs) + Added(costs).value
  {
    var stages, hedgeFirst, gaps := BuildFundingStages(requests, order, initial, final);
    var worst := WorstStage(stages);
    var binding := Bind(if gaps == [] && marginUsable then worst else None, costs);
    funding := Funding(stages, hedgeFirst, gaps, worst, binding);
  }

  // ---- gross notional ----------------------------------------------------------------------

  datatype Gross = Gross(paise: int, complete: bool)

  function GrossTotal(requests: seq<Request>): int {
    if requests == [] then 0
    else
      var last := requests[|requests| - 1];
      GrossTotal(requests[..|requests| - 1]) + if Usable(last) then Notional(last) else 0
  }

  /** A leg counts with limit times quantity, whichever side it trades. */
  lemma GrossAdds(requests: seq<Request>, r: Request)
    ensures GrossTotal(requests + [r]) - GrossTotal(requests) ==
            if r.quantity.Some? && r.quantity.value > 0 && r.limit.Some? && r.limit.value > 0
            then r.limit.value * r.quantity.value else 0
  {
    assert (requests + [r])[..|requests|] == requests;
  }

  method GrossEntryOrderNotional(requests: seq<Request>, expectedLegs: nat) returns (gross: Gross)
    ensures gross.paise == GrossTotal(requests)
    ensures gross.complete <==> |requests| == expectedLegs && forall i :: 0 <= i < |requests| ==> Usable(requests[i])
  {
    var total, legs := 0, 0;
    for i := 0 to |requests|
      invariant total == GrossTotal(requests[..i])
      invariant legs <= i
      invariant legs == i <==> forall j :: 0 <= j < i ==> Usable(requests[j])
    {
      assert requests[..i + 1][..i] == requests[..i];
      if Usable(requests[i]) {
        total := total + requests[i].limit.value * requests[i].quantity.value;
        legs := legs + 1;
      }
    }
    assert requests[..|requests|] == requests;
    // A dropped or unpriced leg is a problem even when the count of priced legs happens to fit.
    gross := Gross(total, legs == |requests| && legs == expectedLegs);
  }

  // ---- admission ---------------------------------------------------------------------------

  datatype Picture = Picture(funds: Figure, margin: Figure, gross: Gross, funding: Option<Funding>)

  datatype Controls = Controls(grossCap: Option<int>, fundsCover: bool, marginEvidence: bool, stageFunding: bool)

  datatype Reason =
    | GrossOverCap | InsufficientFunds | MarginStaleOrMissing | MarginInvalid | FundsInvalid
    | StageUnknown | SequenceInvalid | MetricIncomplete

  function GrossReasons(p: Picture, c: Controls): seq<Reason> {
    if c.grossCap.None? || c.grossCap.value <= 0 then []
    else if !p.gross.complete then [MetricIncomplete]
    else if p.gross.paise > c.grossCap.value then [GrossOverCap]
    else []
  }

  function MarginReasons(p: Picture, c: Controls): seq<Reason> {
    if !c.marginEvidence || p.margin.usable then []
    else if p.margin.provenance.Invalid? then [MarginInvalid]
    else [MarginStaleOrMissing]
  }

  function StageReasons(p: Picture, c: Controls): seq<Reason> {
    if !c.stageFunding then []
    else if p.funding.None? then [StageUnknown]
    else
      (if p.funding.value.hedgeFirst then [] else [SequenceInvalid])
      + if p.funding.value.gaps != [] || !p.funding.value.binding.usable then [StageUnknown] else []
  }

  /** The binding stage requirement, or the broker margin; never the gross premium. */
  function Need(p: Picture): Option<int> {
    if p.funding.Some? && p.funding.value.binding.usable && p.funding.value.binding.value.Some?
    then p.funding.value.binding.value
    else if p.margin.usable then p.margin.value
    else None
  }

  /** Asking for the stage model implies the comparison with the funds. */
  function FundsReasons(p: Picture, c: Controls): seq<Reason> {
    if !c.fundsCover && !c.stageFunding then []
    else if p.funds.provenance.Invalid? then [FundsInvalid]
    else if !p.funds.usable || p.funds.value.None? then [InsufficientFunds]
    else if Need(p).None? then [MetricIncomplete]
    else if p.funds.value.value < Need(p).value then [InsufficientFunds]
    else []
  }

  function Refusals(p: Picture, c: Controls): seq<Reason> {
    GrossReasons(p, c) + MarginReasons(p, c) + StageReasons(p, c) + FundsReasons(p, c)
  }

  // ---- what an admission proves ------------------------------------------------------------

  lemma {:induction false} WorstIsGreatest(stages: seq<Stage>)
    requires AllKnown(stages)
    ensures WorstOf(stages).Some? <==> stages != []
    ensures forall i :: 0 <= i < |stages| ==> stages[i].requirement.value <= WorstOf(stages).value
    ensures stages != [] ==> exists i :: 0 <= i < |stages| && stages[i].requirement == WorstOf(stages)
  {
    if stages != [] {
      var before, last := stages[..|stages| - 1], stages[|stages| - 1];
      WorstIsGreatest(before);
      if WorstOf(stages) == last.requirement {
        assert stages[|stages| - 1].requirement == WorstOf(stages);
      } else {
        var i :| 0 <= i < |before| && before[i].requirement == WorstOf(before);
        assert stages[i].requirement == WorstOf(stages);
      }
    }
  }

  predicate WithinCap(gross: Gross, c: Controls) {
    c.grossCap.Some? && c.grossCap.value > 0 ==> gross.complete && gross.paise <= c.grossCap.value
  }

  predicate Covers(funds: Figure, need: Option<int>) {
    !funds.provenance.Invalid? && funds.usable && funds.value.Some? && need.Some? && funds.value.value >= need.value
  }

  /** Exactly when every enabled control is satisfied; asking for the stage model includes the funds. */
  lemma AdmittedIff(p: Picture, c: Controls)
    ensures Refusals(p, c) == [] <==>
            && WithinCap(p.gross, c)
            && (c.marginEvidence ==> p.margin.usable)
            && (c.stageFunding ==>
                  p.funding.Some? && p.funding.value.hedgeFirst && p.funding.value.gaps == []
                  && p.funding.value.binding.usable)
            && (c.fundsCover || c.stageFunding ==> Covers(p.funds, Need(p)))
  {
    var a, b, d, e := GrossReasons(p, c), MarginReasons(p, c), StageReasons(p, c), FundsReasons(p, c);
    assert |a + b + d + e| == |a| + |b| + |d| + |e|;
  }

  /** Why a reason is given. */
  predicate Why(p: Picture, c: Controls, reason: Reason) {
    var cap := c.grossCap.Some? && c.grossCap.value > 0;
    var compare := c.fundsCover || c.stageFunding;
    var funded := !p.funds.provenance.Invalid? && p.funds.usable && p.funds.value.Some?;
    match reason
    case GrossOverCap => cap && p.gross.complete && p.gross.paise > c.grossCap.value
    case MarginInvalid => c.marginEvidence && !p.margin.usable && p.margin.provenance.Invalid?
    case MarginStaleOrMissing => c.marginEvidence && !p.margin.usable && !p.margin.provenance.Invalid?
    case SequenceInvalid => c.stageFunding && p.funding.Some? && !p.funding.value.hedgeFirst
    case StageUnknown =>
      c.stageFunding && (p.funding.None? || p.funding.value.gaps != [] || !p.funding.value.binding.usable)
    case FundsInvalid => compare && p.funds.provenance.Invalid?
    case InsufficientFunds =>
      && compare && !p.funds.provenance.Invalid?
      && (funded ==> Need(p).Some? && p.funds.value.value < Need(p).value)
    case MetricIncomplete => (cap && !p.gross.complete) || (compare && funded && Need(p).None?)
  }

  /** A reason is given exactly when its control fails in that way. */
  lemma ReasonsIff(p: Picture, c: Controls, reason: Reason)
    ensures reason in Refusals(p, c) <==> Why(p, c, reason)
  {
    GrossReasonIs(p, c);
    MarginReasonIs(p, c);
    StageReasonIs(p, c);
    FundsReasonIs(p, c);
    ReasonFrom(p, c, reason);
  }

  lemma ReasonFrom(p: Picture, c: Controls, reason: Reason)
    ensures reason in Refusals(p, c) <==>
            || reason in GrossReasons(p, c) || reason in MarginReasons(p, c)
            || reason in StageReasons(p, c) || reason in FundsReasons(p, c)
  {
  }

  lemma GrossReasonIs(p: Picture, c: Controls)
    ensures var cap := c.grossCap.Some? && c.grossCap.value > 0;
            forall r :: r in GrossReasons(p, c) <==>
                        || (r.MetricIncomplete? && cap && !p.gross.complete)
                        || (r.GrossOverCap? && cap && p.gross.complete && p.gross.paise > c.grossCap.value)
  {
  }

  lemma MarginReasonIs(p: Picture, c: Controls)
    ensures forall r :: r in MarginReasons(p, c) <==>
                        && c.marginEvidence && !p.margin.usable
                        && if p.margin.provenance.Invalid? then r.MarginInvalid? else r.MarginStaleOrMissing?
  {
  }

  lemma StageReasonIs(p: Picture, c: Controls)
    ensures forall r :: r in StageReasons(p, c) <==>
                        || (r.SequenceInvalid? && c.stageFunding && p.funding.Some? && !p.funding.value.hedgeFirst)
                        || (&& r.StageUnknown? && c.stageFunding
                            && (p.funding.None? || p.funding.value.gaps != [] || !p.funding.value.binding.usable))
  {
  }

  lemma FundsReasonIs(p: Picture, c: Controls)
    ensures var compare := c.fundsCover || c.stageFunding;
            var funded := !p.funds.provenance.Invalid? && p.funds.usable && p.funds.value.Some?;
            forall r :: r in FundsReasons(p, c) <==>
                        || (r.FundsInvalid? && compare && p.funds.provenance.Invalid?)
                        || (&& r.InsufficientFunds? && compare && !p.funds.provenance.Invalid?
                            && (funded ==> Need(p).Some? && p.funds.value.value < Need(p).value))
                        || (r.MetricIncomplete? && compare && funded && Need(p).None?)
  {
  }

  /** The binding stage requirement comes first, the broker margin second, and nothing third. */
  lemma NeedIs(p: Picture)
    ensures var bound := p.funding.Some? && p.funding.value.binding.usable && p.funding.value.binding.value.Some?;
            && (bound ==> Need(p) == p.funding.value.binding.value)
            && (!bound && p.margin.usable ==> Need(p) == p.margin.value)
            && (!bound && !p.margin.usable ==> Need(p).None?)
  {
  }

  /** The requirement of every stage is known. */
  predicate Known(requests: seq<Request>, ordered: seq<Slot>, initial: Option<int>, final: Option<int>) {
    forall i :: 0 <= i < |ordered| ==> RequirementAt(requests, ordered, i, initial, final).Some?
  }

  /**
   * The greatest of the final margin, the initial margin while legs are missing, and the whole BUY
   * premium; and so enough for every prefix of the sequence.
   */
  predicate IsWorst(worst: int, requests: seq<Request>, ordered: seq<Slot>, initial: Option<int>, final: Option<int>)
    requires ordered != [] && Known(requests, ordered, initial, final)
  {
    && (forall k :: 0 <= k <= |ordered| ==> BuyPremium(requests, ordered[..k]) <= worst)
    && final.Some? && final.value <= worst
    && (|ordered| > 1 ==> initial.Some? && initial.value <= worst)
    && (worst == final.value || (|ordered| > 1 && worst == initial.value) || worst == BuyPremium(requests, ordered))
  }

  lemma {:induction false} PremiumGrows(requests: seq<Request>, ordered: seq<Slot>, k: nat)
    requires k <= |ordered|
    ensures BuyPremium(requests, ordered[..k]) <= BuyPremium(requests, ordered)
  {
    var n := |ordered|;
    if k == n {
      assert ordered[..k] == ordered;
    } else {
      assert ordered[..n - 1][..k] == ordered[..k];
      PremiumGrows(requests, ordered[..n - 1], k);
      NotionalIsPositive(requests, ordered[n - 1].role);
    }
  }

  lemma NotionalIsPositive(requests: seq<Request>, role: Role)
    ensures Priced(requests, role) ==> Notional(RequestFor(requests, role).value) > 0
  {
  }

  lemma {:induction false} WorstCoversPrefixes(requests: seq<Request>, ordered: seq<Slot>, initial: Option<int>,
                                               final: Option<int>, stages: seq<Stage>)
    requires |stages| == |ordered| && ordered != []
    requires StagesOf(stages, requests, ordered, initial, final) && AllKnown(stages)
    ensures Known(requests, ordered, initial, final)
    ensures WorstOf(stages).Some? && IsWorst(WorstOf(stages).value, requests, ordered, initial, final)
  {
    WorstIsGreatest(stages);
    var n := |ordered|;
    forall i | 0 <= i < n
      ensures RequirementAt(requests, ordered, i, initial, final).Some?
    {
      assert stages[i].requirement.Some?;
    }
    assert stages[n - 1].requirement.Some?;
    forall k | 0 <= k <= n
      ensures BuyPremium(requests, ordered[..k]) <= WorstOf(stages).value
    {
      if k > 0 {
        assert stages[k - 1].requirement.value <= WorstOf(stages).value;
      } else {
        assert stages[0].requirement.value <= WorstOf(stages).value;
      }
    }
    assert stages[0].requirement.Some? && stages[0].requirement.value <= WorstOf(stages).value;
    assert ordered[..n] == ordered;
    var i :| 0 <= i < n && stages[i].requirement == WorstOf(stages);
    PremiumGrows(requests, ordered, i + 1);
  }

  /** Every stage is known exactly when every requirement is. */
  lemma KnownStages(requests: seq<Request>, ordered: seq<Slot>, initial: Option<int>, final: Option<int>, stages: seq<Stage>)
    requires |stages| == |ordered| && StagesOf(stages, requests, ordered, initial, final)
    ensures AllKnown(stages) <==> Known(requests, ordered, initial, final)
  {
    assert forall i :: 0 <= i < |stages| ==> stages[i].requirement == RequirementAt(requests, ordered, i, initial, final);
  }

  /**
   * The sequence can be funded: it is hedge-first, every stage is known, and the funds cover the worst
   * stage, the charges, the reserve and any encumbrance not yet deducted.
   */
  predicate Fundable(requests: seq<Request>, ordered: seq<Slot>, initial: Option<int>, final: Option<int>,
                     costs: Costs, funds: Figure, worst: int) {
    && ordered != [] && HedgeFirst(ordered) && Known(requests, ordered, initial, final)
    && costs.charges.Some? && (costs.netted || costs.encumbrance.Some?)
    && Covers(funds, Some(worst + costs.charges.value
                          + (if costs.reserve.Some? && costs.reserve.value >= 0 then costs.reserve.value else 0)
                          + (if costs.netted then 0 else costs.encumbrance.value)))
  }

  /** An entry is admitted under stage funding exactly when it is fundable and the other controls pass. */
  method AdmitEntry(requests: seq<Request>, order: seq<Slot>, initial: Option<int>, final: Option<int>, costs: Costs,
                    marginUsable: bool, funds: Figure, margin: Figure, controls: Controls)
    returns (allowed: bool, reasons: seq<Reason>, worst: int, gross: Gross)
    ensures allowed <==> reasons == []
    ensures gross.paise == GrossTotal(requests)
    ensures gross.complete <==>
            && |requests| == 4
            && forall i :: 0 <= i < |requests| ==>
                             && requests[i].quantity.Some? && requests[i].quantity.value > 0
                             && requests[i].limit.Some? && requests[i].limit.value > 0
    ensures controls.stageFunding ==>
              (allowed <==>
               && Fundable(requests, Sorted(order), initial, final, costs, funds, worst)
               && marginUsable
               && (controls.marginEvidence ==> margin.usable)
               && WithinCap(gross, controls))
    ensures Sorted(order) != [] && Known(requests, Sorted(order), initial, final) ==>
              IsWorst(worst, requests, Sorted(order), initial, final)
  {
    gross := GrossEntryOrderNotional(requests, 4);
    var funding := BuildFundingPicture(requests, order, initial, final, costs, marginUsable);
    KnownStages(requests, Sorted(order), initial, final, funding.stages);
    if Sorted(order) != [] && Known(requests, Sorted(order), initial, final) {
      WorstCoversPrefixes(requests, Sorted(order), initial, final, funding.stages);
    }
    var picture := Picture(funds, margin, gross, Some(funding));
    AdmittedIff(picture, controls);
    reasons := Refusals(picture, controls);
    allowed := reasons == [];
    worst := if funding.worst.Some? then funding.worst.value else 0;
  }

  /** Exactly when no stage is unknown. */
  lemma StagesKnownIff(requests: seq<Request>, ordered: seq<Slot>, initial: Option<int>, final: Option<int>)
    requires ordered != []
    ensures Known(requests, ordered, initial, final) <==>
            && (forall i :: 0 <= i < |ordered| ==> PricedByLast(requests, ordered[i].role))
            && final.Some? && final.value > 0
            && (|ordered| > 1 ==> initial.Some? && initial.value > 0)
  {
    var n := |ordered|;
    forall i | 0 <= i < n {
      PricedIff(requests, ordered[i].role);
    }
    if Known(requests, ordered, initial, final) {
      assert RequirementAt(requests, ordered, n - 1, initial, final).Some?;
      assert n > 1 ==> RequirementAt(requests, ordered, 0, initial, final).Some?;
      forall i | 0 <= i < n
        ensures Priced(requests, ordered[i].role)
      {
        assert RequirementAt(requests, ordered, i, initial, final).Some?;
      }
    }
  }
}
