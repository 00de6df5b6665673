/** Fairness: arrival order inside a tier, and no overtaking of a starved entry. Needs a monotone clock. */
module PacerOrder {
  import opened Prelude
  import opened PacerModel
  import opened PacerSafety

  /** The step's clock reading is not before the last one. */
  predicate Monotone(s: State, step: Step) {
    match step
    case Submit(_, _, _, now) => s.clock <= now
    case DrainPass(now, _) => s.clock <= now
    case Wake(now, _) => s.clock <= now
    case _ => true
  }

  /** Every step of the run reads the clock in order. */
  predicate MonotoneRun(s: State, steps: seq<Step>) {
    steps != [] ==>
      && MonotoneRun(s, steps[..|steps| - 1])
      && Monotone(Run(s, steps[..|steps| - 1]), steps[|steps| - 1])
  }

  /** An entry with this urgency, next to be sent, has no earlier rival in the queue. */
  predicate Foremost(q: seq<Entry>, e: Entry) {
    forall i :: 0 <= i < |q| && q[i].urgency == e.urgency ==> e.id <= q[i].id
  }

  predicate Overdispatched(log: seq<Dispatch>, q: seq<Entry>) {
    exists i, j :: 0 <= i < |log| && 0 <= j < |q| && log[i].entry.urgency == q[j].urgency && q[j].id <= log[i].entry.id
  }

  predicate InArrivalOrder(log: seq<Dispatch>) {
    forall i, j :: 0 <= i < j < |log| && log[i].entry.urgency == log[j].entry.urgency
                   ==> log[i].entry.id < log[j].entry.id
  }

  ghost predicate Fair(s: State) {
    && InArrivalOrder(s.log)
    && !Overdispatched(s.log, s.queue)
    && (forall i :: 0 <= i < |s.log| ==> s.log[i].entry.id < s.created)
    && (forall i :: 0 <= i < |s.queue| ==> s.queue[i].id < s.created && s.queue[i].enqueuedAt <= s.clock)
    && ByArrival(s.queue)
    && (s.phase.Sleeping? ==> s.phase.picked.id < s.created && Foremost(s.queue, s.phase.picked))
  }

  predicate ByArrival(q: seq<Entry>) {
    forall i, j :: 0 <= i < j < |q| ==> q[i].enqueuedAt <= q[j].enqueuedAt
  }

  lemma {:induction false} CutKeepsArrivals(q: seq<Entry>, cut: Cut)
    requires ByArrival(q)
    ensures ByArrival(Keep(q, cut))
  {
    if q != [] {
      var rest := q[..|q| - 1];
      var k := Keep(rest, cut);
      CutKeepsArrivals(rest, cut);
      CutMembers(rest, cut);
      assert forall i :: 0 <= i < |k| ==> k[i] in rest;
    }
  }

  lemma CutKeepsFair(s: State, cut: Cut)
    requires Fair(s)
    ensures Fair(s.(queue := Keep(s.queue, cut)))
  {
    CutKeepsArrivals(s.queue, cut);
    CutMembers(s.queue, cut);
    var k := Keep(s.queue, cut);
    assert forall i :: 0 <= i < |k| ==> k[i] in s.queue;
  }

  lemma ArrivedFirst(q: seq<Entry>, a: Entry, b: Entry)
    requires Sorted(q) && ByArrival(q) && a in q && b in q && a.id <= b.id
    ensures a.enqueuedAt <= b.enqueuedAt
  {
    var i :| 0 <= i < |q| && q[i] == a;
    var j :| 0 <= j < |q| && q[j] == b;
    assert i <= j;
  }

  /** The picked entry is the earliest of its own tier. */
  lemma PickIsForemost(s: State, now: int)
    requires Sorted(s.queue) && Fair(s) && Pick(s, now).Some?
    ensures Pick(s, now).value in s.queue && Foremost(s.queue, Pick(s, now).value)
  {
    var e := Pick(s, now).value;
    SuitingIsFirst(s, s.queue, Starved(now));
    SuitingIsFirst(s, s.queue, Tier(Recovery));
    SuitingIsFirst(s, s.queue, Tier(Placement));
    SuitingIsFirst(s, s.queue, Tier(Read));
    forall i | 0 <= i < |s.queue| && s.queue[i].urgency == e.urgency
      ensures e.id <= s.queue[i].id
    {
      if s.queue[i].id < e.id {
        ArrivedFirst(s.queue, s.queue[i], e);
      }
    }
  }

  lemma SentKeepsFair(s: State, e: Entry, now: int, admit: bool)
    requires Sorted(s.queue) && Fair(s) && e in s.queue && Foremost(s.queue, e) && !s.phase.Sleeping?
    ensures Fair(Sent(s, e, now, admit))
  {
    CutKeepsFair(s, ById(e.id));
    CutMembers(s.queue, ById(e.id));
    var q := Keep(s.queue, ById(e.id));
    var k :| 0 <= k < |s.queue| && s.queue[k] == e;
    forall j | 0 <= j < |q| && q[j].urgency == e.urgency
      ensures e.id < q[j].id
    {
      assert q[j] in q;
      assert q[j] in s.queue && q[j].id != e.id;
    }
  }

  lemma DrainKeepsFair(s: State, now: int, admit: bool)
    requires Safe(s) && Fair(s) && s.phase.Draining? && s.clock <= now
    ensures Fair(AfterDrain(s, now, admit))
  {
    var s1 := Discard(s, Overdue(now)).(clock := now);
    CutKeepsFair(s, Overdue(now));
    CutKeepsSorted(s.queue, Overdue(now));
    if Pick(s1, now).Some? {
      PickIsForemost(s1, now);
      SentKeepsFair(s1, Pick(s1, now).value, now, admit);
    }
  }

  lemma WakeKeepsFair(s: State, now: int, admit: bool)
    requires Safe(s) && Fair(s) && s.phase.Sleeping? && s.clock <= now
    ensures Fair(AfterWake(s, now, admit))
  {
    var e := s.phase.picked;
    var s1 := s.(clock := now, phase := Draining);
    CutKeepsFair(s1, ById(e.id));
    if Queued(s, e.id) {
      SentKeepsFair(s1, e, now, admit);
    }
  }

  lemma NextKeepsFair(s: State, step: Step)
    requires Safe(s) && Fair(s) && Enabled(s, step) && Monotone(s, step)
    ensures Fair(Next(s, step))
  {
    match step
    case Submit(klass, urgency, deadline, now) =>
    case Abandon(id) => CutKeepsFair(s, ById(id));
    case DrainPass(now, admit) => DrainKeepsFair(s, now, admit);
    case Wake(now, admit) => WakeKeepsFair(s, now, admit);
    case CloseLoop =>
    case Complete(slot) =>
    case Repoint(pacing) =>
  }

  lemma {:induction false} RunKeepsFair(s: State, steps: seq<Step>)
    requires Safe(s) && Fair(s) && MonotoneRun(s, steps)
    ensures Fair(Run(s, steps))
  {
    if steps != [] {
      var before := steps[..|steps| - 1];
      RunKeepsFair(s, before);
      RunKeepsSafe(s, before);
      if Enabled(Run(s, before), steps[|steps| - 1]) {
        NextKeepsFair(Run(s, before), steps[|steps| - 1]);
      }
    }
  }

  /** Within a tier, requests leave in the order they were submitted, on every run. */
  lemma TierIsFirstInFirstOut(pacing: Pacing, limits: Limits, steps: seq<Step>)
    requires ValidLimits(limits) && MonotoneRun(Initial(pacing, limits), steps)
    ensures InArrivalOrder(Run(Initial(pacing, limits), steps).log)
  {
    InitialIsSafe(pacing, limits);
    RunKeepsFair(Initial(pacing, limits), steps);
  }

  // ---- starvation --------------------------------------------------------------------------

  function Ahead(q: seq<Entry>, id: nat): nat {
    if q == [] then 0 else Ahead(q[..|q| - 1], id) + if q[|q| - 1].id < id then 1 else 0
  }

  lemma AheadAppend(q: seq<Entry>, e: Entry, id: nat)
    ensures Ahead(q + [e], id) == Ahead(q, id) + if e.id < id then 1 else 0
  {
    assert (q + [e])[..|q|] == q;
  }

  lemma {:induction false} CutLowersAhead(q: seq<Entry>, cut: Cut, id: nat, hit: Option<Entry>)
    requires hit.Some? ==> hit.value in q && Hit(hit.value, cut) && hit.value.id < id
    ensures Ahead(Keep(q, cut), id) + (if hit.Some? then 1 else 0) <= Ahead(q, id)
  {
    if q != [] {
      var rest, last := q[..|q| - 1], q[|q| - 1];
      assert q == rest + [last];
      AheadAppend(Keep(rest, cut), last, id);
      CutLowersAhead(rest, cut, id, if hit == Some(last) then None else hit);
    }
  }

  lemma {:induction false} AheadIsBounded(q: seq<Entry>, id: nat)
    requires Sorted(q)
    ensures Ahead(q, id) <= id
    ensures q != [] ==> Ahead(q, id) <= q[|q| - 1].id + 1
  {
    if q != [] {
      AheadIsBounded(q[..|q| - 1], id);
    }
  }

  /** A pass that sends something while `e` is starved and admissible sends `e` or an earlier entry. */
  lemma StarvedIsNotOvertaken(s: State, now: int, admit: bool, e: Entry)
    requires Safe(s) && s.phase.Draining? && e in s.queue && !Expired(e, now)
    requires Aged(e, now) && Admissible(s, e)
    ensures var s' := AfterDrain(s, now, admit);
            s'.log != s.log ==> |s'.log| == |s.log| + 1 && s'.log[|s.log|].entry.id <= e.id
  {
    var s1 := Discard(s, Overdue(now)).(clock := now);
    CutMembers(s.queue, Overdue(now));
    CutKeepsSorted(s.queue, Overdue(now));
    SuitingIsFirst(s1, s1.queue, Starved(now));
    assert Suits(s1, e, Starved(now));
  }

  /** `e` is queued and starved throughout, admissible at every pass, and every wait moves the clock. */
  predicate WaitsItsTurn(s: State, steps: seq<Step>, e: Entry) {
    if steps == [] then e in s.queue && Aged(e, s.clock)
    else
      var before := Run(s, steps[..|steps| - 1]);
      var step := steps[|steps| - 1];
      && WaitsItsTurn(s, steps[..|steps| - 1], e)
      && Enabled(before, step) && Monotone(before, step)
      && (step.DrainPass? ==> Admissible(before, e))
      && (step.Wake? ==> step.now != before.phase.since)
      && e in Next(before, step).queue
  }

  lemma SendingSpendsAhead(s: State, d: Entry, now: int, admit: bool, e: Entry)
    requires d in s.queue && d.id <= e.id && e in Sent(s, d, now, admit).queue
    ensures var s' := Sent(s, d, now, admit);
            |s'.log| + Ahead(s'.queue, e.id) <= |s.log| + Ahead(s.queue, e.id)
  {
    CutMembers(s.queue, ById(d.id));
    CutLowersAhead(s.queue, ById(d.id), e.id, Some(d));
  }

  lemma DrainSpendsAhead(s: State, now: int, admit: bool, e: Entry)
    requires Safe(s) && s.phase.Draining? && e in s.queue && e in AfterDrain(s, now, admit).queue
    requires Aged(e, now) && Admissible(s, e)
    ensures var s' := AfterDrain(s, now, admit);
            && |s.log| <= |s'.log|
            && |s'.log| + Ahead(s'.queue, e.id) <= |s.log| + Ahead(s.queue, e.id)
  {
    var s1 := Discard(s, Overdue(now)).(clock := now);
    CutLowersAhead(s.queue, Overdue(now), e.id, None);
    var pick := Pick(s1, now);
    if pick.Some? && WaitFor(s1, pick.value.klass, now) == 0 {
      CutMembers(s1.queue, ById(pick.value.id));
      assert e in s1.queue;
      CutKeepsSorted(s.queue, Overdue(now));
      SuitingIsFirst(s1, s1.queue, Starved(now));
      assert Suits(s1, e, Starved(now));
      SendingSpendsAhead(s1, pick.value, now, admit, e);
    }
  }

  lemma StepSpendsAhead(s: State, step: Step, e: Entry)
    requires Safe(s) && Enabled(s, step) && Monotone(s, step)
    requires e in s.queue && Aged(e, s.clock) && e in Next(s, step).queue
    requires step.DrainPass? ==> Admissible(s, e)
    requires step.Wake? ==> step.now != s.phase.since
    ensures var s' := Next(s, step);
            && |s.log| <= |s'.log|
            && |s'.log| + Ahead(s'.queue, e.id) <= |s.log| + Ahead(s.queue, e.id)
            && Aged(e, s'.clock)
  {
    match step
    case Submit(klass, urgency, deadline, now) =>
      var q := s.queue + [Entry(s.created, klass, urgency, deadline, now)];
      assert q[..|q| - 1] == s.queue;
      QueuedOnce(s, e);
    case Abandon(id) => CutLowersAhead(s.queue, ById(id), e.id, None);
    case DrainPass(now, admit) => DrainSpendsAhead(s, now, admit, e);
    case Wake(now, admit) =>
    case CloseLoop =>
    case Complete(slot) =>
    case Repoint(pacing) =>
  }

  /**
   * Bounded overtaking: while a starved entry waits, admissible whenever the loop decides, the
   * transport is handed at most the entries submitted before it, hence at most `e.id` requests.
   */
  lemma {:induction false} StarvationIsBounded(s: State, steps: seq<Step>, e: Entry)
    requires Safe(s) && WaitsItsTurn(s, steps, e)
    ensures |Run(s, steps).log| - |s.log| <= Ahead(s.queue, e.id) <= e.id
    ensures |Run(s, steps).log| + Ahead(Run(s, steps).queue, e.id) <= |s.log| + Ahead(s.queue, e.id)
    ensures e in Run(s, steps).queue && Aged(e, Run(s, steps).clock)
  {
    AheadIsBounded(s.queue, e.id);
    if steps != [] {
      var before := steps[..|steps| - 1];
      StarvationIsBounded(s, before, e);
      RunKeepsSafe(s, before);
      StepSpendsAhead(Run(s, before), steps[|steps| - 1], e);
    }
  }
}
