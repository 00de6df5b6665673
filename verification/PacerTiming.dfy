/** Dispatch spacing. Needs a monotone clock that every pacing wait advances. */
module PacerTiming {
  import opened Prelude
  import opened PacerModel
  import opened PacerSafety
  import opened PacerOrder

  /** Any two consecutive calls are the order-mutation interval apart. */
  predicate Spaced(log: seq<Dispatch>) {
    forall i :: 0 < i < |log| ==> log[i].at - log[i - 1].at >= log[i].pacing.orderMs
  }

  /** Any two general calls are the general interval apart. */
  predicate GeneralSpaced(log: seq<Dispatch>) {
    forall i, j :: 0 <= i < j < |log| && log[i].entry.klass.General? && log[j].entry.klass.General?
                   ==> log[j].at - log[i].at >= log[j].pacing.generalMs
  }

  function LastAt(log: seq<Dispatch>): Option<int> {
    if log == [] then None else Some(log[|log| - 1].at)
  }

  function LastOf(log: seq<Dispatch>, klass: PacingClass): Option<int> {
    if log == [] then None
    else if log[|log| - 1].entry.klass == klass then Some(log[|log| - 1].at)
    else LastOf(log[..|log| - 1], klass)
  }

  /** Times never go back along the log, and none lies in the future. */
  predicate Ordered(log: seq<Dispatch>, clock: int) {
    && (forall i, j :: 0 <= i < j < |log| ==> log[i].at <= log[j].at)
    && (forall i :: 0 <= i < |log| ==> log[i].at <= clock)
  }

  /** The watermarks are the last dispatch times the log shows. */
  predicate Watermarked(s: State) {
    && Ordered(s.log, s.clock)
    && s.lastAny == LastAt(s.log)
    && s.lastOrder == LastOf(s.log, OrderMutation)
    && s.lastGeneral == LastOf(s.log, General)
  }

  predicate Paced(s: State) {
    Watermarked(s) && Spaced(s.log) && GeneralSpaced(s.log)
  }

  lemma {:induction false} LastOfIsLatest(log: seq<Dispatch>, klass: PacingClass, clock: int)
    requires Ordered(log, clock)
    ensures LastOf(log, klass).Some? ==>
              && LastOf(log, klass).value <= clock
              && (exists i :: 0 <= i < |log| && log[i].entry.klass == klass && log[i].at == LastOf(log, klass).value)
    ensures forall i :: 0 <= i < |log| && log[i].entry.klass == klass
                        ==> LastOf(log, klass).Some? && log[i].at <= LastOf(log, klass).value
  {
    if log != [] && log[|log| - 1].entry.klass != klass {
      LastOfIsLatest(log[..|log| - 1], klass, clock);
    }
  }

  lemma SentKeepsWatermarks(s: State, e: Entry, now: int)
    requires Watermarked(s) && s.clock <= now
    ensures Watermarked(Sent(s, e, now, true).(clock := now))
  {
    assert Sent(s, e, now, true).log[..|s.log|] == s.log;
  }

  /** What spacing asks of the next dispatch, given that the log so far is spaced. */
  predicate FarEnough(log: seq<Dispatch>, d: Dispatch) {
    && (log != [] ==> d.at - log[|log| - 1].at >= d.pacing.orderMs)
    && (d.entry.klass.General? ==>
          forall i :: 0 <= i < |log| && log[i].entry.klass.General? ==> d.at - log[i].at >= d.pacing.generalMs)
  }

  lemma AppendSpaced(log: seq<Dispatch>, d: Dispatch)
    requires Spaced(log) && GeneralSpaced(log)
    ensures Spaced(log + [d]) && GeneralSpaced(log + [d]) <==> FarEnough(log, d)
  {
    var log' := log + [d];
    assert forall i :: 0 <= i < |log| ==> log'[i] == log[i];
    if Spaced(log') && GeneralSpaced(log') && log != [] {
      assert log'[|log|].at - log'[|log| - 1].at >= d.pacing.orderMs;
    }
  }

  lemma FarEnoughIffNothingOwed(s: State, e: Entry, now: int)
    requires Watermarked(s) && s.clock <= now
    ensures FarEnough(s.log, Dispatch(e, now, s.pacing)) <==> WaitFor(s, e.klass, now) == 0
  {
    LastOfIsLatest(s.log, OrderMutation, s.clock);
    LastOfIsLatest(s.log, General, s.clock);
  }

  /**
   * The exact condition: a dispatch keeps both spacings if and only if no wait was owed at that
   * instant. The pass that sends checks it; the frozen-clock fall-through does not.
   */
  lemma DispatchSpacedIffNothingOwed(s: State, e: Entry, now: int)
    requires Paced(s) && s.clock <= now
    ensures Paced(Sent(s, e, now, true).(clock := now)) <==> WaitFor(s, e.klass, now) == 0
  {
    SentKeepsWatermarks(s, e, now);
    AppendSpaced(s.log, Dispatch(e, now, s.pacing));
    FarEnoughIffNothingOwed(s, e, now);
  }

  /** The clock moved across the wait. */
  predicate Advancing(s: State, step: Step)
    requires Enabled(s, step)
  {
    step.Wake? ==> step.now != s.phase.since
  }

  lemma NextKeepsPaced(s: State, step: Step)
    requires Paced(s) && Enabled(s, step) && Monotone(s, step) && Advancing(s, step)
    ensures Paced(Next(s, step))
  {
    if step.DrainPass? {
      var s1 := Discard(s, Overdue(step.now)).(clock := step.now);
      if Pick(s1, step.now).Some? {
        DispatchSpacedIffNothingOwed(s1, Pick(s1, step.now).value, step.now);
      }
    }
  }

  /** Every step reads the clock in order, and every wait advances it. */
  predicate WellTimed(s: State, steps: seq<Step>) {
    steps != [] ==>
      var before := Run(s, steps[..|steps| - 1]);
      var step := steps[|steps| - 1];
      && WellTimed(s, steps[..|steps| - 1])
      && (Enabled(before, step) ==> Monotone(before, step) && Advancing(before, step))
  }

  /** Whatever the priorities, arrivals, withdrawals and repoints, both spacings hold on every run. */
  lemma {:induction false} DispatchesAreSpaced(pacing: Pacing, limits: Limits, steps: seq<Step>)
    requires WellTimed(Initial(pacing, limits), steps)
    ensures Paced(Run(Initial(pacing, limits), steps))
  {
    if steps != [] {
      var before := Run(Initial(pacing, limits), steps[..|steps| - 1]);
      DispatchesAreSpaced(pacing, limits, steps[..|steps| - 1]);
      if Enabled(before, steps[|steps| - 1]) {
        NextKeepsPaced(before, steps[|steps| - 1]);
      }
    }
  }

  /**
   * A clock that stands still across a wait defeats the limiter: whenever a pass puts the loop to
   * sleep, waking at the same instant sends the picked entry too close to its predecessor.
   */
  lemma FrozenClockBreaksSpacing(s: State, now: int, admit: bool)
    requires Paced(s) && Safe(s) && s.phase.Draining? && s.clock <= now
    requires AfterDrain(s, now, admit).phase.Sleeping?
    ensures !Paced(AfterWake(AfterDrain(s, now, admit), now, true))
  {
    var s1 := Discard(s, Overdue(now)).(clock := now);
    var e := Pick(s1, now).value;
    CutKeepsSorted(s.queue, Overdue(now));
    PickIsAdmissible(s1, now);
    CutMembers(s.queue, Overdue(now));
    var i :| 0 <= i < |s1.queue| && s1.queue[i] == e;
    assert Queued(s1, e.id);
    DispatchSpacedIffNothingOwed(s1.(phase := Draining), e, now);
  }

  // ---- windows -----------------------------------------------------------------------------

  /** When calls were sent: all of them, or only the general ones. */
  function Times(log: seq<Dispatch>, generalOnly: bool): seq<int> {
    if log == [] then []
    else
      var rest, last := Times(log[..|log| - 1], generalOnly), log[|log| - 1];
      if generalOnly && last.entry.klass.OrderMutation? then rest else rest + [last.at]
  }

  /** Calls with `from <= at < to`. */
  function CountIn(times: seq<int>, from: int, to: int): nat {
    if times == [] then 0
    else CountIn(times[..|times| - 1], from, to) + if from <= times[|times| - 1] < to then 1 else 0
  }

  function CeilDiv(a: nat, b: nat): nat
    requires b > 0
  {
    (a + b - 1) / b
  }

  /** The pacing in force at every dispatch asked for at least this gap. */
  predicate NeverTighter(log: seq<Dispatch>, interval: nat, generalOnly: bool) {
    forall i :: 0 <= i < |log| ==>
                  interval <= if generalOnly then log[i].pacing.generalMs else log[i].pacing.orderMs
  }

  predicate Apart(times: seq<int>, interval: nat) {
    forall i :: 0 < i < |times| ==> times[i] - times[i - 1] >= interval
  }

  lemma {:induction false} LastTime(log: seq<Dispatch>, generalOnly: bool)
    ensures var times := Times(log, generalOnly);
            times != [] ==>
              exists i :: 0 <= i < |log| && log[i].at == times[|times| - 1]
                          && if generalOnly then log[i].entry.klass.General? else i == |log| - 1
  {
    if log != [] {
      var last := log[|log| - 1];
      if generalOnly && last.entry.klass.OrderMutation? {
        LastTime(log[..|log| - 1], generalOnly);
      } else {
        assert last.at == Times(log, generalOnly)[|Times(log, generalOnly)| - 1];
      }
    }
  }

  lemma {:induction false} TimesAreApart(log: seq<Dispatch>, interval: nat, generalOnly: bool)
    requires Spaced(log) && GeneralSpaced(log) && NeverTighter(log, interval, generalOnly)
    ensures Apart(Times(log, generalOnly), interval)
  {
    if log != [] {
      TimesAreApart(log[..|log| - 1], interval, generalOnly);
      LastTime(log[..|log| - 1], generalOnly);
    }
  }

  /** If the window holds `k` calls up to here, the last of them is `(k - 1)` intervals in. */
  lemma {:induction false} WindowSpread(times: seq<int>, from: int, to: int, interval: nat)
    requires Apart(times, interval)
    ensures var k := CountIn(times, from, to);
            k > 0 ==> times != [] && times[|times| - 1] - from >= (k - 1) * interval
    ensures CountIn(times, from, to) > 1 ==> (CountIn(times, from, to) - 1) * interval < to - from
    ensures CountIn(times, from, to) == 1 ==> from < to
  {
    if times != [] {
      var rest := times[..|times| - 1];
      WindowSpread(rest, from, to, interval);
      var k := CountIn(rest, from, to);
      if k > 0 {
        assert times[|times| - 1] >= rest[|rest| - 1] + interval;
        assert k * interval == (k - 1) * interval + interval;
      }
    }
  }

  /** Any half-open window of length `span` sees at most ceil(span / interval) calls of either kind. */
  lemma WindowsAreBounded(pacing: Pacing, limits: Limits, steps: seq<Step>, generalOnly: bool, interval: nat,
                          from: int, span: nat)
    requires WellTimed(Initial(pacing, limits), steps) && interval > 0
    requires NeverTighter(Run(Initial(pacing, limits), steps).log, interval, generalOnly)
    ensures CountIn(Times(Run(Initial(pacing, limits), steps).log, generalOnly), from, from + span)
            <= CeilDiv(span, interval)
  {
    DispatchesAreSpaced(pacing, limits, steps);
    var log := Run(Initial(pacing, limits), steps).log;
    TimesAreApart(log, interval, generalOnly);
    WindowSpread(Times(log, generalOnly), from, from + span, interval);
    CeilBounds(CountIn(Times(log, generalOnly), from, from + span), interval, span);
  }

  lemma CeilBounds(k: nat, interval: nat, span: nat)
    requires interval > 0
    requires k > 1 ==> (k - 1) * interval < span
    requires k == 1 ==> 0 < span
    ensures k <= CeilDiv(span, interval)
  {
    var c := CeilDiv(span, interval);
    assert c * interval >= span;
    assert c < k ==> c * interval <= (k - 1) * interval;
  }
}
