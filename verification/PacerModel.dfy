/**
 * The transport pacer as a transition system. One step is one stretch of code that runs without
 * yielding, and it sees one clock reading.
 */
module PacerModel {
  import opened Prelude

  datatype PacingClass = OrderMutation | General
  datatype Urgency = Recovery | Placement | Read

  /** The gaps in force: between any two calls, and between two general calls. */
  datatype Pacing = Pacing(orderMs: nat, generalMs: nat)

  datatype Limits = Limits(maxInFlight: nat, reserve: nat, maxReads: nat)

  const STARVATION_GRACE_MS := 2000

  datatype Entry = Entry(id: nat, klass: PacingClass, urgency: Urgency, deadline: Option<int>, enqueuedAt: int)

  datatype Dispatch = Dispatch(entry: Entry, at: int, pacing: Pacing)

  /** Where the one drain loop is. `Closing` is the gap between its last pass and its `finally`. */
  datatype Phase = Idle | Draining | Sleeping(picked: Entry, since: int) | Closing

  datatype State = State(
    pacing: Pacing,
    limits: Limits,
    queue: seq<Entry>,
    inFlight: nat,
    readsInFlight: nat,
    lastOrder: Option<int>,
    lastGeneral: Option<int>,
    lastAny: Option<int>,
    created: nat,
    phase: Phase,
    mutations: nat,
    generals: nat,
    abandoned: nat,
    refused: nat,
    // history
    clock: int,
    flying: seq<Entry>,
    log: seq<Dispatch>,
    withdrawn: set<nat>,       // `abandon` returned true
    unsent: seq<Entry>,        // settled without reaching the transport
    completed: seq<Entry>)     // settled by the transport

  // ---- limits ------------------------------------------------------------------------------

  predicate ValidLimits(l: Limits) {
    2 <= l.maxInFlight && l.reserve < l.maxInFlight && 1 <= l.maxReads <= l.maxInFlight
  }

  /** `None` stands for an absent or non-finite setting. */
  function AtLeastOr(value: Option<int>, least: int, fallback: int): int {
    if value.Some? && value.value >= least then value.value else fallback
  }

  /** Whatever is configured, the total is capped, a slot is left for non-recovery and one for reads. */
  function SanitisedLimits(maxInFlight: Option<int>, reserve: Option<int>, maxReads: Option<int>): (l: Limits)
    ensures ValidLimits(l)
    ensures maxInFlight.Some? && maxInFlight.value >= 2 ==> l.maxInFlight == maxInFlight.value
    ensures maxInFlight.None? || maxInFlight.value < 1 ==> l.maxInFlight == 4
    ensures reserve.Some? && 0 <= reserve.value < l.maxInFlight ==> l.reserve == reserve.value
    ensures reserve.None? || reserve.value < 0 ==> l.reserve == 1
    ensures maxReads.Some? && 1 <= maxReads.value <= l.maxInFlight ==> l.maxReads == maxReads.value
    ensures maxReads.None? || maxReads.value < 1 ==> l.maxReads == 1
  {
    var total := Max(2, AtLeastOr(maxInFlight, 1, 4));
    Limits(total, Min(total - 1, AtLeastOr(reserve, 0, 1)), Min(total, AtLeastOr(maxReads, 1, 1)))
  }

  function Initial(pacing: Pacing, limits: Limits): State {
    State(pacing, limits, [], 0, 0, None, None, None, 0, Idle, 0, 0, 0, 0, 0, [], [], {}, [], [])
  }

  // ---- queue surgery -----------------------------------------------------------------------

  predicate Expired(e: Entry, now: int) {
    e.deadline.Some? && now >= e.deadline.value
  }

  /** Which entries leave the queue: one by identity, or every expired one. */
  datatype Cut = ById(id: nat) | Overdue(now: int)

  predicate Hit(e: Entry, cut: Cut) {
    match cut
    case ById(id) => e.id == id
    case Overdue(now) => Expired(e, now)
  }

  function Keep(q: seq<Entry>, cut: Cut): seq<Entry> {
    if q == [] then []
    else if Hit(q[|q| - 1], cut) then Keep(q[..|q| - 1], cut)
    else Keep(q[..|q| - 1], cut) + [q[|q| - 1]]
  }

  function Dropped(q: seq<Entry>, cut: Cut): seq<Entry> {
    if q == [] then []
    else if Hit(q[|q| - 1], cut) then Dropped(q[..|q| - 1], cut) + [q[|q| - 1]]
    else Dropped(q[..|q| - 1], cut)
  }

  predicate Queued(s: State, id: nat) {
    exists i :: 0 <= i < |s.queue| && s.queue[i].id == id
  }

  // ---- admission and choice ----------------------------------------------------------------

  predicate Admits(limits: Limits, inFlight: nat, readsNow: nat, urgency: Urgency) {
    && inFlight < limits.maxInFlight
    && (urgency.Read? ==> readsNow < limits.maxReads)
    && (!urgency.Recovery? ==> limits.maxInFlight - inFlight > limits.reserve)
  }

  /** Capacity for this entry right now, ignoring pacing. */
  predicate Admissible(s: State, e: Entry) {
    Admits(s.limits, s.inFlight, s.readsInFlight, e.urgency)
  }

  predicate Aged(e: Entry, now: int) {
    now - e.enqueuedAt >= STARVATION_GRACE_MS
  }

  datatype Want = Starved(now: int) | Tier(urgency: Urgency)

  predicate Suits(s: State, e: Entry, want: Want) {
    Admissible(s, e) && match want case Starved(now) => Aged(e, now) case Tier(u) => e.urgency == u
  }

  /** The earliest queued entry that suits. */
  function FirstSuiting(s: State, q: seq<Entry>, want: Want): Option<Entry> {
    if q == [] then None
    else if Suits(s, q[0], want) then Some(q[0])
    else FirstSuiting(s, q[1..], want)
  }

  /** A starved entry first, in arrival order; otherwise the most urgent tier, in arrival order. */
  function Pick(s: State, now: int): Option<Entry> {
    FirstSuiting(s, s.queue, Starved(now))
    .OrElse(FirstSuiting(s, s.queue, Tier(Recovery)))
    .OrElse(FirstSuiting(s, s.queue, Tier(Placement)))
    .OrElse(FirstSuiting(s, s.queue, Tier(Read)))
  }

  // ---- pacing ------------------------------------------------------------------------------

  /** A negative elapsed time is a clock step: serve the full interval. */
  function PacingWait(required: nat, last: Option<int>, now: int): nat {
    if last.None? then 0
    else if now < last.value then required
    else Max(0, required - (now - last.value))
  }

  function WaitFor(s: State, klass: PacingClass, now: int): nat {
    var classWait :=
      if klass.OrderMutation? then PacingWait(s.pacing.orderMs, s.lastOrder, now)
      else PacingWait(s.pacing.generalMs, s.lastGeneral, now);
    Max(classWait, PacingWait(s.pacing.orderMs, s.lastAny, now))
  }

  // ---- steps -------------------------------------------------------------------------------

  datatype Step =
    | Submit(klass: PacingClass, urgency: Urgency, deadline: Option<int>, now: int)
    | Abandon(id: nat)
    | DrainPass(now: int, admit: bool)   // `admit` is what the entry's dispatch-time check decides
    | Wake(now: int, admit: bool)
    | CloseLoop
    | Complete(slot: nat)
    | Repoint(pacing: Pacing)

  /** Scheduling starts the loop when it is not running. */
  function Started(phase: Phase): Phase {
    if phase.Idle? then Draining else phase
  }

  /** Take entries off the queue without sending them. */
  function Discard(s: State, cut: Cut): State {
    s.(queue := Keep(s.queue, cut),
    abandoned := s.abandoned + |Dropped(s.queue, cut)|,
    unsent := s.unsent + Dropped(s.queue, cut))
  }

  function AfterSubmit(s: State, klass: PacingClass, urgency: Urgency, deadline: Option<int>, now: int): State {
    var e := Entry(s.created, klass, urgency, deadline, now);
    var s1 := s.(created := s.created + 1, clock := now);
    if Expired(e, now) then s1.(abandoned := s.abandoned + 1, unsent := s.unsent + [e])
    else s1.(queue := s.queue + [e], phase := Started(s.phase))
  }

  function AfterAbandon(s: State, id: nat): State {
    if Queued(s, id) then
      Discard(s, ById(id)).(withdrawn := s.withdrawn + {id}, phase := Started(s.phase))
    else s
  }

  /** Hand an entry to the transport, unless its dispatch-time admission check refuses. */
  function Sent(s: State, e: Entry, now: int, admit: bool): State {
    var s1 := s.(queue := Keep(s.queue, ById(e.id)));
    if admit then Launched(s1, e, now) else s1.(refused := s.refused + 1, unsent := s.unsent + [e])
  }

  /** Stamp the watermarks, take a slot and put the call on the wire. */
  function Launched(s: State, e: Entry, now: int): State {
    s.(lastAny := Some(now),
    lastOrder := if e.klass.OrderMutation? then Some(now) else s.lastOrder,
    lastGeneral := if e.klass.General? then Some(now) else s.lastGeneral,
    mutations := if e.klass.OrderMutation? then s.mutations + 1 else s.mutations,
    generals := if e.klass.General? then s.generals + 1 else s.generals,
    inFlight := s.inFlight + 1,
    readsInFlight := if e.urgency.Read? then s.readsInFlight + 1 else s.readsInFlight,
    flying := s.flying + [e],
    log := s.log + [Dispatch(e, now, s.pacing)])
  }

  /** One scheduling decision: refuse the overdue, pick, then sleep or send. */
  function AfterDrain(s: State, now: int, admit: bool): State {
    var s1 := Discard(s, Overdue(now)).(clock := now);
    var pick := Pick(s1, now);
    if pick.None? then s1.(phase := Closing)
    else if WaitFor(s1, pick.value.klass, now) > 0 then s1.(phase := Sleeping(pick.value, now))
    else Sent(s1, pick.value, now, admit)
  }

  /** After a pacing sleep. Only a clock that stood still falls through to dispatch. */
  function AfterWake(s: State, now: int, admit: bool): State
    requires s.phase.Sleeping?
  {
    var e := s.phase.picked;
    var s1 := s.(clock := now, phase := Draining);
    if !Queued(s, e.id) || now != s.phase.since then s1
    else if Expired(e, now) then Discard(s1, ById(e.id))
    else Sent(s1, e, now, admit)
  }

  predicate CanDispatchSomething(s: State) {
    exists i :: 0 <= i < |s.queue| && Admissible(s, s.queue[i])
  }

  function AfterClose(s: State): State {
    s.(phase := if CanDispatchSomething(s) then Draining else Idle)
  }

  function AfterComplete(s: State, slot: nat): State
    requires slot < |s.flying|
  {
    var e := s.flying[slot];
    s.(flying := s.flying[..slot] + s.flying[slot + 1..],
    completed := s.completed + [e],
    inFlight := Max(0, s.inFlight - 1),
    readsInFlight := if e.urgency.Read? then Max(0, s.readsInFlight - 1) else s.readsInFlight,
    phase := Started(s.phase))
  }

  predicate Enabled(s: State, step: Step) {
    match step
    case DrainPass(_, _) => s.phase.Draining?
    case Wake(_, _) => s.phase.Sleeping?
    case CloseLoop => s.phase.Closing?
    case Complete(slot) => slot < |s.flying|
    case _ => true
  }

  function Next(s: State, step: Step): State
    requires Enabled(s, step)
  {
    match step
    case Submit(klass, urgency, deadline, now) => AfterSubmit(s, klass, urgency, deadline, now)
    case Abandon(id) => AfterAbandon(s, id)
    case DrainPass(now, admit) => AfterDrain(s, now, admit)
    case Wake(now, admit) => AfterWake(s, now, admit)
    case CloseLoop => AfterClose(s)
    case Complete(slot) => AfterComplete(s, slot)
    case Repoint(pacing) => s.(pacing := pacing)
  }

  /** Steps that are not enabled do not happen. */
  function Run(s: State, steps: seq<Step>): State {
    if steps == [] then s
    else
      var before := Run(s, steps[..|steps| - 1]);
      var step := steps[|steps| - 1];
      if Enabled(before, step) then Next(before, step) else before
  }
}
