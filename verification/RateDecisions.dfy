/** The order budget in plain arithmetic: who is let through, what is remembered, and until when. */
module RateDecisions {
  import opened Prelude
  import opened RateBudget
  import opened RateBudgetProofs

  // ---- the decision ------------------------------------------------------------------------

  /** The recorded requests later than `cutoff`. */
  function Recent(times: seq<int>, cutoff: int): set<int> {
    set i | 0 <= i < |times| && times[i] > cutoff
  }

  lemma RecentGrows(times: seq<int>, cutoff: int)
    requires times != []
    ensures var n := |times| - 1;
            |Recent(times, cutoff)| == |Recent(times[..n], cutoff)| + if times[n] > cutoff then 1 else 0
  {
    var n := |times| - 1;
    var before, after := Recent(times[..n], cutoff), Recent(times, cutoff);
    forall i | 0 <= i < n
      ensures i in after <==> i in before
    {
      assert times[..n][i] == times[i];
    }
    assert n !in before;
    if times[n] > cutoff {
      assert after == before + {n};
    } else {
      assert after == before;
    }
  }

  lemma {:induction false} RecentIsCount(times: seq<int>, cutoff: int)
    ensures |Recent(times, cutoff)| == CountAfter(times, cutoff)
  {
    if times != [] {
      RecentIsCount(times[..|times| - 1], cutoff);
      RecentGrows(times, cutoff);
    }
  }

  /** How many recorded requests of either kind the last `span` milliseconds hold. */
  function InSpan(l: Ledger, span: int, now: int): nat {
    |Recent(l.placements, now - span)| + |Recent(l.recoveries, now - span)|
  }

  /** One worker's share of an account limit. */
  function Share(limit: int, workers: int): nat {
    if limit <= 0 then 0 else if workers > 1 then limit / workers else limit
  }

  predicate RoomForRecovery(l: Ledger, w: RateWindow, now: int) {
    w.limit.Some? ==> InSpan(l, w.spanMs, now) < Share(w.limit.value, l.policy.workers)
  }

  /** After one more request at least this fraction of the share is left. */
  predicate Leaves(share: int, used: int, fraction: real) {
    (share - used - 1) as real >= share as real * fraction
  }

  predicate RoomForPlacement(l: Ledger, w: RateWindow, now: int) {
    w.limit.Some? ==>
      Leaves(Share(w.limit.value, l.policy.workers), InSpan(l, w.spanMs, now), l.policy.reserveFraction)
  }

  /** The reserve is rounded up: `n` covers it exactly when it covers the fraction. */
  lemma CeilRoundsUp(x: real, n: int)
    ensures n >= Ceil(x) <==> n as real >= x
  {
  }

  lemma PlacementRoomIff(limit: int, policy: BudgetPolicy, used: nat)
    ensures used < Ceiling(limit, policy, false) <==> Leaves(Share(limit, policy.workers), used, policy.reserveFraction)
  {
    var share := PerWorker(limit, policy);
    ShareIs(limit, policy);
    CeilRoundsUp(share as real * policy.reserveFraction, share - used - 1);
  }

  lemma FullIff(l: Ledger, w: RateWindow, now: int)
    ensures Full(l, w, true, now) <==> !RoomForRecovery(l, w, now)
    ensures Full(l, w, false, now) <==> !RoomForPlacement(l, w, now)
  {
    UsedIsInSpan(l, w.spanMs, now);
    if w.limit.Some? {
      ShareIs(w.limit.value, l.policy);
      PlacementRoomIff(w.limit.value, l.policy, Used(l, w.spanMs, now));
    }
  }

  lemma UsedIsInSpan(l: Ledger, span: int, now: int)
    ensures Used(l, span, now) == InSpan(l, span, now)
  {
    RecentIsCount(l.placements, now - span);
    RecentIsCount(l.recoveries, now - span);
  }

  lemma ShareIs(limit: int, policy: BudgetPolicy)
    ensures PerWorker(limit, policy) == Share(limit, policy.workers)
  {
  }

  /**
   * Exactly who is let through. A data read always is. In a cooldown no order request is. Otherwise a
   * cancel, a modify and a protective placement need room in the worker's share of every finite window,
   * and any other placement needs room in the share without the reserve.
   */
  lemma AllowedIff(l: Ledger, endpoint: Endpoint, protective: bool, now: int)
    ensures var allowed := Decide(l, endpoint, protective, now).Allowed?;
            var cooling := l.cooldown.Some? && now < l.cooldown.value;
            && (endpoint.DataRead? ==> allowed)
            && (!endpoint.DataRead? && cooling ==>
                  Decide(l, endpoint, protective, now) == Cooling(l.cooldown.value))
            && (!cooling && (endpoint.OrderCancel? || endpoint.OrderModify? || (endpoint.OrderPlace? && protective)) ==>
                  (allowed <==> forall i :: 0 <= i < 4 ==> RoomForRecovery(l, Windows(l.limits)[i], now)))
            && (!cooling && endpoint.OrderPlace? && !protective ==>
                  (allowed <==> forall i :: 0 <= i < 4 ==> RoomForPlacement(l, Windows(l.limits)[i], now)))
  {
    forall i | 0 <= i < 4
      ensures Full(l, Windows(l.limits)[i], true, now) <==> !RoomForRecovery(l, Windows(l.limits)[i], now)
      ensures Full(l, Windows(l.limits)[i], false, now) <==> !RoomForPlacement(l, Windows(l.limits)[i], now)
    {
      FullIff(l, Windows(l.limits)[i], now);
    }
    BindingIsAny(l, Windows(l.limits), true, now);
    BindingIsAny(l, Windows(l.limits), false, now);
  }

  lemma {:induction false} FirstFullIs(l: Ledger, windows: seq<RateWindow>, recovery: bool, now: int, k: nat)
    requires k < |windows| && Full(l, windows[k], recovery, now)
    requires forall j :: 0 <= j < k ==> !Full(l, windows[j], recovery, now)
    ensures Binding(l, windows, recovery, now) == Refused(windows[k], RetryAt(l, windows[k].spanMs, now))
  {
    if k > 0 {
      FirstFullIs(l, windows[1..], recovery, now, k - 1);
    }
  }

  /** A refusal names the shortest window without room: second, minute, hour, day. */
  lemma RefusalNamesFirst(l: Ledger, endpoint: Endpoint, protective: bool, now: int, k: nat)
    requires k < 4 && !endpoint.DataRead? && (l.cooldown.Some? ==> l.cooldown.value <= now)
    requires var recovery := !(endpoint.OrderPlace? && !protective);
             var windows := [l.limits.perSecond, l.limits.perMinute, l.limits.perHour, l.limits.perDay];
             if recovery then
               !RoomForRecovery(l, windows[k], now) && forall j :: 0 <= j < k ==> RoomForRecovery(l, windows[j], now)
             else
               !RoomForPlacement(l, windows[k], now) && forall j :: 0 <= j < k ==> RoomForPlacement(l, windows[j], now)
    ensures Decide(l, endpoint, protective, now).Refused?
    ensures Decide(l, endpoint, protective, now).window
            == [l.limits.perSecond, l.limits.perMinute, l.limits.perHour, l.limits.perDay][k]
  {
    var windows := Windows(l.limits);
    forall j | 0 <= j < 4
      ensures Full(l, windows[j], true, now) <==> !RoomForRecovery(l, windows[j], now)
      ensures Full(l, windows[j], false, now) <==> !RoomForPlacement(l, windows[j], now)
    {
      FullIff(l, windows[j], now);
    }
    FirstFullIs(l, windows, IsRecovery(endpoint, protective), now, k);
  }

  /** Cancels and modifies are remembered apart from placements, protective or not; data reads not at all. */
  lemma RecordedByEndpoint(l: Ledger, endpoint: Endpoint, now: int)
    ensures var l' := Noted(l, endpoint, now);
            && l'.placements == (if endpoint.OrderPlace? then l.placements + [now] else l.placements)
            && l'.recoveries ==
               (if endpoint.OrderCancel? || endpoint.OrderModify? then l.recoveries + [now] else l.recoveries)
  {
  }

  /** The same for the object after any run, counted on everything ever sent. */
  lemma CheckAnswersFromHistory(limits: RateLimits, policy: BudgetPolicy, ops: seq<Op>,
                                endpoint: Endpoint, protective: bool, now: int)
    requires Chronological(ops) && (ops != [] ==> Clock(ops).value <= now)
    requires !endpoint.DataRead?
    ensures var full := RunFull(Fresh(limits, policy), ops);
            var answer := Decide(Checked(RunPruned(Fresh(limits, policy), ops), endpoint, now), endpoint, protective, now);
            full.cooldown.None? || full.cooldown.value <= now ==>
              (answer.Allowed? <==>
               forall i :: 0 <= i < 4 ==>
                             var w := Windows(full.limits)[i];
                             if endpoint.OrderPlace? && !protective then RoomForPlacement(full, w, now)
                             else RoomForRecovery(full, w, now))
  {
    ForgettingIsInvisible(limits, policy, ops, endpoint, protective, now);
    AllowedIff(RunFull(Fresh(limits, policy), ops), endpoint, protective, now);
  }

  // ---- what leaves -------------------------------------------------------------------------

  /** The times of the requests that left, with this one if the object lets it through. */
  function Left(l: Ledger, op: Op, out: seq<int>): seq<int>
    requires op.Send?
  {
    if !op.endpoint.DataRead? && Decide(Checked(l, op.endpoint, op.now), op.endpoint, op.protective, op.now).Allowed?
    then out + [op.now] else out
  }

  /** When order requests actually left, by the object's own decisions. */
  function Outgoing(l: Ledger, ops: seq<Op>): seq<int> {
    if ops == [] then []
    else
      var before, op := ops[..|ops| - 1], ops[|ops| - 1];
      if op.Send? then Left(RunPruned(l, before), op, Outgoing(l, before)) else Outgoing(l, before)
  }

  lemma CountInAppend(times: seq<int>, t: int, lo: int, hi: int)
    ensures CountIn(times + [t], lo, hi) == CountIn(times, lo, hi) + if lo < t <= hi then 1 else 0
  {
    assert (times + [t])[..|times|] == times;
  }

  /** The requests in a window. */
  function Remembered(l: Ledger, lo: int, hi: int): nat {
    CountIn(l.placements, lo, hi) + CountIn(l.recoveries, lo, hi)
  }

  lemma RecordedOnce(l: Ledger, full: Ledger, out: seq<int>, op: Op, lo: int, hi: int)
    requires op.Send?
    requires Decide(Checked(l, op.endpoint, op.now), op.endpoint, op.protective, op.now)
             == Decide(full, op.endpoint, op.protective, op.now)
    ensures CountIn(Left(l, op, out), lo, hi) - CountIn(out, lo, hi)
            == Remembered(FullStep(full, op), lo, hi) - Remembered(full, lo, hi)
  {
    CountInAppend(out, op.now, lo, hi);
    CountInAppend(full.placements, op.now, lo, hi);
    CountInAppend(full.recoveries, op.now, lo, hi);
  }

  /** Every order request that left is remembered, once and with its time. */
  lemma {:induction false} EverySendIsRemembered(limits: RateLimits, policy: BudgetPolicy, ops: seq<Op>, lo: int, hi: int)
    requires Chronological(ops)
    ensures CountIn(Outgoing(Fresh(limits, policy), ops), lo, hi)
            == Remembered(RunFull(Fresh(limits, policy), ops), lo, hi)
  {
    if ops != [] {
      var before, op := ops[..|ops| - 1], ops[|ops| - 1];
      var start := Fresh(limits, policy);
      EverySendIsRemembered(limits, policy, before, lo, hi);
      if op.Send? {
        ForgettingIsInvisible(limits, policy, before, op.endpoint, op.protective, op.now);
        RecordedOnce(RunPruned(start, before), RunFull(start, before), Outgoing(start, before), op, lo, hi);
      }
    }
  }

  /** No window of a published span, wherever it ends, sees more requests leave than the worker's share. */
  lemma SendsStayWithinShare(limits: RateLimits, policy: BudgetPolicy, ops: seq<Op>, w: RateWindow, end: int)
    requires Chronological(ops) && 0.0 <= policy.reserveFraction <= 1.0 && w in Windows(limits) && w.limit.Some?
    ensures CountIn(Outgoing(Fresh(limits, policy), ops), end - w.spanMs, end) <= Share(w.limit.value, policy.workers)
  {
    EverySendIsRemembered(limits, policy, ops, end - w.spanMs, end);
    EveryWindowIsBounded(limits, policy, ops, w, if ops == [] then 0 else Clock(ops).value);
    ShareIs(w.limit.value, policy);
    var full := RunFull(Fresh(limits, policy), ops);
    assert InWindow(full.placements, full.recoveries, w.spanMs, end) <= PerWorker(w.limit.value, policy);
  }

  // ---- retry -------------------------------------------------------------------------------

  lemma {:induction false} OldestIsThere(times: seq<int>, cutoff: int, start: int)
    ensures var oldest := OldestAfter(times, cutoff, start);
            oldest == start || exists i :: 0 <= i < |times| && times[i] == oldest && times[i] > cutoff
  {
    if times != [] {
      var before := times[..|times| - 1];
      OldestIsThere(before, cutoff, start);
      var oldest := OldestAfter(times, cutoff, start);
      if oldest != start && oldest == OldestAfter(before, cutoff, start) {
        var i :| 0 <= i < |before| && before[i] == oldest && before[i] > cutoff;
        assert times[i] == oldest;
      } else if oldest != start {
        assert times[|times| - 1] == oldest;
      }
    }
  }

  lemma {:induction false} CountDrops(times: seq<int>, cutoff: int, cutoff': int, i: nat)
    requires cutoff <= cutoff' && i < |times| && cutoff < times[i] <= cutoff'
    ensures CountAfter(times, cutoff') < CountAfter(times, cutoff)
  {
    var before := times[..|times| - 1];
    CountCovers(before, cutoff', cutoff);
    if i < |times| - 1 {
      CountDrops(before, cutoff, cutoff', i);
    }
  }

  lemma {:induction false} SomeCounted(times: seq<int>, cutoff: int) returns (i: nat)
    requires CountAfter(times, cutoff) > 0
    ensures i < |times| && times[i] > cutoff
  {
    i := |times| - 1;
    if times[i] <= cutoff {
      i := SomeCounted(times[..|times| - 1], cutoff);
    }
  }

  /** Where the oldest request of a window is. */
  lemma OldestInWindow(l: Ledger, span: int, now: int) returns (i: nat, placement: bool)
    requires UpTo(l.placements, now) && UpTo(l.recoveries, now) && Used(l, span, now) > 0
    ensures var times := if placement then l.placements else l.recoveries;
            i < |times| && times[i] > now - span && times[i] + span == RetryAt(l, span, now)
  {
    var cutoff := now - span;
    var first := OldestAfter(l.placements, cutoff, now);
    var oldest := OldestAfter(l.recoveries, cutoff, first);
    OldestIsThere(l.placements, cutoff, now);
    OldestIsThere(l.recoveries, cutoff, first);
    OldestIsFirst(l.placements, cutoff, now);
    OldestIsFirst(l.recoveries, cutoff, first);
    if j :| 0 <= j < |l.placements| && l.placements[j] == oldest && l.placements[j] > cutoff {
      i, placement := j, true;
    } else if j :| 0 <= j < |l.recoveries| && l.recoveries[j] == oldest && l.recoveries[j] > cutoff {
      i, placement := j, false;
    } else {
      // Nothing older than now, so whatever is counted was recorded now.
      assert oldest == now;
      placement := CountAfter(l.placements, cutoff) > 0;
      i := SomeCounted(if placement then l.placements else l.recoveries, cutoff);
    }
  }

  /**
   * The retry time of a refusal is the instant the window first loses a request: nothing leaves it
   * before, and at that instant something has.
   */
  lemma RetryIsWhenRoomAppears(l: Ledger, span: int, now: int, later: int)
    requires UpTo(l.placements, now) && UpTo(l.recoveries, now) && Used(l, span, now) > 0
    requires now <= later
    ensures InSpan(l, span, later) < InSpan(l, span, now) <==> later >= RetryAt(l, span, now)
  {
    UsedIsInSpan(l, span, now);
    UsedIsInSpan(l, span, later);
    CountCovers(l.placements, later - span, now - span);
    CountCovers(l.recoveries, later - span, now - span);
    if later < RetryAt(l, span, now) {
      StillUsed(l, l, span, now, later);
    } else {
      var i, placement := OldestInWindow(l, span, now);
      CountDrops(if placement then l.placements else l.recoveries, now - span, later - span, i);
    }
  }

  // ---- memory ------------------------------------------------------------------------------

  lemma {:induction false} HorizonOfIsLongest(windows: seq<RateWindow>)
    ensures forall i :: 0 <= i < |windows| && windows[i].limit.Some? ==>
                          HorizonOf(windows).Some? && windows[i].spanMs <= HorizonOf(windows).value
    ensures HorizonOf(windows).Some? ==>
              exists i :: 0 <= i < |windows| && windows[i].limit.Some? && windows[i].spanMs == HorizonOf(windows).value
  {
    if windows != [] {
      var rest := windows[1..];
      HorizonOfIsLongest(rest);
      assert forall i :: 0 < i < |windows| ==> windows[i] == rest[i - 1];
      if HorizonOf(windows).Some? && HorizonOf(windows) == HorizonOf(rest) {
        var i :| 0 <= i < |rest| && rest[i].limit.Some? && rest[i].spanMs == HorizonOf(rest).value;
        assert windows[i + 1].spanMs == HorizonOf(windows).value;
      } else if HorizonOf(windows).Some? {
        assert windows[0].spanMs == HorizonOf(windows).value;
      }
    }
  }

  lemma {:induction false} ForgetDrops(times: seq<int>, cutoff: int)
    requires forall i, j :: 0 <= i < j < |times| ==> times[i] <= times[j]
    ensures forall i :: 0 <= i < |Forget(times, cutoff)| ==> Forget(times, cutoff)[i] > cutoff
  {
    if times != [] && times[0] <= cutoff {
      ForgetDrops(times[1..], cutoff);
    }
  }

  /**
   * Memory is bounded: pruning a history kept in time order leaves only requests younger than the longest
   * finite window, or than a day when no window is finite.
   */
  lemma PruningForgets(l: Ledger, now: int)
    requires forall i, j :: 0 <= i < j < |l.placements| ==> l.placements[i] <= l.placements[j]
    requires forall i, j :: 0 <= i < j < |l.recoveries| ==> l.recoveries[i] <= l.recoveries[j]
    ensures exists horizon ::
              && (forall i :: 0 <= i < |Prune(l, now).placements| ==> Prune(l, now).placements[i] > now - horizon)
              && (forall i :: 0 <= i < |Prune(l, now).recoveries| ==> Prune(l, now).recoveries[i] > now - horizon)
              && LongestSpan(l.limits, horizon)
  {
    HorizonOfIsLongest(Windows(l.limits));
    ForgetDrops(l.placements, now - Horizon(l.limits));
    ForgetDrops(l.recoveries, now - Horizon(l.limits));
    assert LongestSpan(l.limits, Horizon(l.limits));
  }

  predicate LongestSpan(limits: RateLimits, horizon: int) {
    var windows := Windows(limits);
    if forall i :: 0 <= i < 4 ==> windows[i].limit.None? then horizon == 24 * 60 * 60 * 1000
    else
      && (forall i :: 0 <= i < 4 && windows[i].limit.Some? ==> windows[i].spanMs <= horizon)
      && (exists i :: 0 <= i < 4 && windows[i].limit.Some? && windows[i].spanMs == horizon)
  }
}
