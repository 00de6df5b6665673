/** Who goes next and who never goes: urgency, age, capacity and deadlines, read off the queue and the log. */
module PacerChoice {
  import opened Prelude
  import opened PacerModel
  import opened PacerSafety
  import opened PacerTiming

  // ---- capacity ----------------------------------------------------------------------------

  /** Capacity, counted on the calls in flight: a free slot, a read slot for a read, and the reserve left alone. */
  lemma AdmissibleIff(s: State, e: Entry)
    requires Safe(s)
    ensures Admissible(s, e) <==>
            && |s.flying| < s.limits.maxInFlight
            && (e.urgency.Read? ==> Count(s.flying, Read) < s.limits.maxReads)
            && (!e.urgency.Recovery? ==> |s.flying| + s.limits.reserve < s.limits.maxInFlight)
  {
  }

  // ---- choice ------------------------------------------------------------------------------

  /** Recovery before placement before read. */
  predicate MoreUrgent(a: Entry, b: Entry) {
    || (a.urgency.Recovery? && (b.urgency.Placement? || b.urgency.Read?))
    || (a.urgency.Placement? && b.urgency.Read?)
  }

  /** Queued for two seconds or more. */
  predicate WaitedLong(e: Entry, now: int) {
    now - e.enqueuedAt >= 2000
  }

  predicate SomeStarved(s: State, now: int) {
    exists a :: a in s.queue && Admissible(s, a) && WaitedLong(a, now)
  }

  /**
   * The entry that should go: the earliest starved one, and when none is starved the most urgent, the
   * earliest of its tier.
   */
  predicate ShouldGo(s: State, now: int, e: Entry) {
    && e in s.queue && Admissible(s, e)
    && if SomeStarved(s, now) then
         WaitedLong(e, now) && forall a :: a in s.queue && Admissible(s, a) && WaitedLong(a, now) ==> e.id <= a.id
       else
         forall a :: a in s.queue && Admissible(s, a) ==>
                       !MoreUrgent(a, e) && (a.urgency == e.urgency ==> e.id <= a.id)
  }

  lemma PickShouldGo(s: State, now: int)
    requires Sorted(s.queue) && Pick(s, now).Some?
    ensures ShouldGo(s, now, Pick(s, now).value)
  {
    SuitingIsFirst(s, s.queue, Starved(now));
    SuitingIsFirst(s, s.queue, Tier(Recovery));
    SuitingIsFirst(s, s.queue, Tier(Placement));
    SuitingIsFirst(s, s.queue, Tier(Read));
    forall a | a in s.queue && Admissible(s, a)
      ensures Suits(s, a, Tier(a.urgency)) && (WaitedLong(a, now) <==> Suits(s, a, Starved(now)))
    {
    }
  }

  lemma SameId(q: seq<Entry>, a: Entry, b: Entry)
    requires Sorted(q) && a in q && b in q && a.id == b.id
    ensures a == b
  {
    var i :| 0 <= i < |q| && q[i] == a;
    var j :| 0 <= j < |q| && q[j] == b;
    assert i == j;
  }

  lemma OneShouldGo(s: State, now: int, a: Entry, b: Entry)
    requires Sorted(s.queue) && ShouldGo(s, now, a) && ShouldGo(s, now, b)
    ensures a == b
  {
    assert a.id <= b.id <= a.id;
    SameId(s.queue, a, b);
  }

  /** The choice is exactly the entry that should go. */
  lemma PickIff(s: State, now: int, e: Entry)
    requires Sorted(s.queue)
    ensures Pick(s, now) == Some(e) <==> ShouldGo(s, now, e)
  {
    PickIsAdmissible(s, now);
    if Pick(s, now).Some? {
      PickShouldGo(s, now);
      if ShouldGo(s, now, e) {
        OneShouldGo(s, now, Pick(s, now).value, e);
      }
    }
  }

  /** Due: not past its deadline. */
  predicate Due(e: Entry, now: int) {
    e.deadline.Some? ==> now < e.deadline.value
  }

  lemma LiveQueue(s: State, now: int)
    requires Safe(s)
    ensures var s1 := Discard(s, Overdue(now)).(clock := now);
            && Sorted(s1.queue)
            && (forall e :: e in s1.queue <==> e in s.queue && Due(e, now))
            && (forall e :: Admissible(s1, e) <==> Admissible(s, e))
  {
    CutKeepsSorted(s.queue, Overdue(now));
    CutMembers(s.queue, Overdue(now));
  }

  /** What a pass sends is due, was queued, and is not outranked by a waiting call unless it is starved. */
  lemma NoPriorityInversion(s: State, now: int, admit: bool, waiting: Entry)
    requires Safe(s) && s.phase.Draining?
    requires waiting in s.queue && Due(waiting, now) && Admissible(s, waiting)
    ensures var s' := AfterDrain(s, now, admit);
            s'.log != s.log ==>
              && |s'.log| == |s.log| + 1
              && var sent := s'.log[|s.log|].entry;
                 && sent in s.queue && Due(sent, now)
                 && (WaitedLong(sent, now) || !MoreUrgent(waiting, sent))
  {
    LiveQueue(s, now);
    var s1 := Discard(s, Overdue(now)).(clock := now);
    if Pick(s1, now).Some? {
      PickShouldGo(s1, now);
    }
  }

  /** On every run: a pass that sends a less urgent call past a waiting admissible one sends a starved call. */
  lemma UrgencyOnEveryRun(pacing: Pacing, limits: Limits, steps: seq<Step>, now: int, admit: bool, waiting: Entry)
    requires ValidLimits(limits)
    requires var s := Run(Initial(pacing, limits), steps);
             s.phase.Draining? && waiting in s.queue && Due(waiting, now) && Admissible(s, waiting)
    ensures var s := Run(Initial(pacing, limits), steps);
            var s' := Next(s, DrainPass(now, admit));
            s'.log != s.log && MoreUrgent(waiting, s'.log[|s'.log| - 1].entry) ==>
              WaitedLong(s'.log[|s'.log| - 1].entry, now)
  {
    InitialIsSafe(pacing, limits);
    RunKeepsSafe(Initial(pacing, limits), steps);
    NoPriorityInversion(Run(Initial(pacing, limits), steps), now, admit, waiting);
  }

  // ---- progress ----------------------------------------------------------------------------

  /** Both gaps have passed since the calls on the log. */
  predicate GapsPassed(s: State, now: int) {
    && (s.log != [] ==> now - s.log[|s.log| - 1].at >= s.pacing.orderMs)
    && forall i :: 0 <= i < |s.log| && s.log[i].entry.klass.General? ==> now - s.log[i].at >= s.pacing.generalMs
  }

  /** A pass with both gaps passed and a due admissible call waiting sends one call, at that instant. */
  lemma PassSends(s: State, now: int, waiting: Entry)
    requires Safe(s) && Watermarked(s) && s.phase.Draining? && s.clock <= now
    requires waiting in s.queue && Due(waiting, now) && Admissible(s, waiting) && GapsPassed(s, now)
    ensures var s' := AfterDrain(s, now, true);
            |s'.log| == |s.log| + 1 && s'.log[..|s.log|] == s.log && s'.log[|s.log|].at == now
  {
    LiveQueue(s, now);
    var s1 := Discard(s, Overdue(now)).(clock := now);
    PickIsAdmissible(s1, now);
    FarEnoughIffNothingOwed(s1, Pick(s1, now).value, now);
  }

  /** A clock that stepped behind the last call buys nothing: that pass sends no call. */
  lemma BackwardClockSendsNothing(s: State, now: int, admit: bool)
    requires s.lastAny.Some? && now < s.lastAny.value && s.pacing.orderMs > 0
    ensures AfterDrain(s, now, admit).log == s.log
  {
  }

  // ---- deadlines ---------------------------------------------------------------------------

  predicate OnTime(log: seq<Dispatch>) {
    forall i :: 0 <= i < |log| ==> Due(log[i].entry, log[i].at)
  }

  lemma NextKeepsOnTime(s: State, step: Step)
    requires Safe(s) && OnTime(s.log) && Enabled(s, step)
    ensures OnTime(Next(s, step).log)
  {
    if step.DrainPass? {
      LiveQueue(s, step.now);
      PickIsAdmissible(Discard(s, Overdue(step.now)).(clock := step.now), step.now);
    }
  }

  /** No call is ever sent at or after its deadline, on any run and under any clock. */
  lemma {:induction false} NothingSentLate(pacing: Pacing, limits: Limits, steps: seq<Step>)
    requires ValidLimits(limits)
    ensures OnTime(Run(Initial(pacing, limits), steps).log)
  {
    if steps != [] {
      var before := steps[..|steps| - 1];
      NothingSentLate(pacing, limits, before);
      InitialIsSafe(pacing, limits);
      RunKeepsSafe(Initial(pacing, limits), before);
      if Enabled(Run(Initial(pacing, limits), before), steps[|steps| - 1]) {
        NextKeepsOnTime(Run(Initial(pacing, limits), before), steps[|steps| - 1]);
      }
    }
  }

  // ---- doors -------------------------------------------------------------------------------

  /** A spent deadline is refused at the door; anything else is queued last, as given, and the loop runs. */
  lemma SubmitOutcome(s: State, klass: PacingClass, urgency: Urgency, deadline: Option<int>, now: int)
    ensures var s' := Next(s, Submit(klass, urgency, deadline, now));
            var e := Entry(s.created, klass, urgency, deadline, now);
            if Due(e, now) then s'.queue == s.queue + [e] && s'.unsent == s.unsent && !s'.phase.Idle?
            else s'.queue == s.queue && s'.unsent == s.unsent + [e]
  {
  }

  /** A withdrawal takes that entry and no other. */
  lemma AbandonTakesOne(s: State, id: nat)
    ensures var s' := Next(s, Abandon(id));
            && (forall e :: e in s'.queue <==> e in s.queue && e.id != id)
            && s'.log == s.log
  {
    CutMembers(s.queue, ById(id));
    if !Queued(s, id) {
      assert forall e :: e in s.queue ==> exists i :: 0 <= i < |s.queue| && s.queue[i] == e;
    }
  }

  // ---- counters ----------------------------------------------------------------------------

  function SentOf(log: seq<Dispatch>, klass: PacingClass): nat {
    if log == [] then 0 else SentOf(log[..|log| - 1], klass) + if log[|log| - 1].entry.klass == klass then 1 else 0
  }

  predicate Counted(s: State) {
    && s.mutations == SentOf(s.log, OrderMutation)
    && s.generals == SentOf(s.log, General)
    && s.abandoned + s.refused == |s.unsent|
  }

  lemma SentKeepsCounted(s: State, e: Entry, now: int, admit: bool)
    requires Counted(s)
    ensures Counted(Sent(s, e, now, admit))
  {
    assert (s.log + [Dispatch(e, now, s.pacing)])[..|s.log|] == s.log;
  }

  lemma NextKeepsCounted(s: State, step: Step)
    requires Counted(s) && Enabled(s, step)
    ensures Counted(Next(s, step))
  {
    match step
    case DrainPass(now, admit) =>
      var s1 := Discard(s, Overdue(now)).(clock := now);
      if Pick(s1, now).Some? {
        SentKeepsCounted(s1, Pick(s1, now).value, now, admit);
      }
    case Wake(now, admit) =>
      SentKeepsCounted(s.(clock := now, phase := Draining), s.phase.picked, now, admit);
    case _ =>
  }

  /** The published counters are what the log shows, class by class, on every run. */
  lemma {:induction false} CountersOnEveryRun(pacing: Pacing, limits: Limits, steps: seq<Step>)
    ensures Counted(Run(Initial(pacing, limits), steps))
  {
    if steps != [] {
      var before := Run(Initial(pacing, limits), steps[..|steps| - 1]);
      CountersOnEveryRun(pacing, limits, steps[..|steps| - 1]);
      if Enabled(before, steps[|steps| - 1]) {
        NextKeepsCounted(before, steps[|steps| - 1]);
      }
    }
  }

  /** A due entry left the queue. */
  predicate DueLeft(s: State, s': State, now: int) {
    exists e :: e in s.queue && Due(e, now) && e !in s'.queue
  }

  /** A dispatch-time refusal is counted exactly when a due entry leaves and its check said no. */
  lemma RefusalCountedIff(s: State, now: int, admit: bool)
    requires Safe(s) && s.phase.Draining?
    ensures var s' := AfterDrain(s, now, admit);
            s'.refused == s.refused + if !admit && DueLeft(s, s', now) then 1 else 0
  {
    LiveQueue(s, now);
    var s1 := Discard(s, Overdue(now)).(clock := now);
    PickIsAdmissible(s1, now);
    if Pick(s1, now).Some? {
      var e := Pick(s1, now).value;
      CutMembers(s1.queue, ById(e.id));
      if WaitFor(s1, e.klass, now) == 0 {
        assert e in s.queue && Due(e, now) && e !in AfterDrain(s, now, admit).queue;
      }
    }
  }
}
