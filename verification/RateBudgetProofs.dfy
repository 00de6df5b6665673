/** What the order budget guarantees over every run of checks, sends and throttle signals. */
module RateBudgetProofs {
  import opened Prelude
  import opened RateBudget

  // ---- counting ----------------------------------------------------------------------------

  /** Requests with `lo < t <= hi`. */
  function CountIn(times: seq<int>, lo: int, hi: int): nat {
    if times == [] then 0 else CountIn(times[..|times| - 1], lo, hi) + if lo < times[|times| - 1] <= hi then 1 else 0
  }

  function InWindow(placements: seq<int>, recoveries: seq<int>, span: int, end: int): nat {
    CountIn(placements, end - span, end) + CountIn(recoveries, end - span, end)
  }

  predicate UpTo(times: seq<int>, clock: int) {
    forall i :: 0 <= i < |times| ==> times[i] <= clock
  }

  lemma {:induction false} WindowIsCount(times: seq<int>, lo: int, hi: int)
    requires UpTo(times, hi)
    ensures CountIn(times, lo, hi) == CountAfter(times, lo)
  {
    if times != [] {
      WindowIsCount(times[..|times| - 1], lo, hi);
    }
  }

  /** Counting from a cutoff that still covers everything counted before finds no fewer. */
  lemma {:induction false} CountCovers(times: seq<int>, cutoff: int, cutoff': int)
    requires forall i :: 0 <= i < |times| && times[i] > cutoff ==> times[i] > cutoff'
    ensures CountAfter(times, cutoff) <= CountAfter(times, cutoff')
  {
    if times != [] {
      CountCovers(times[..|times| - 1], cutoff, cutoff');
    }
  }

  lemma CountAppend(times: seq<int>, t: int, cutoff: int, hi: int)
    ensures CountAfter(times + [t], cutoff) == CountAfter(times, cutoff) + if t > cutoff then 1 else 0
    ensures CountIn(times + [t], cutoff, hi) == CountIn(times, cutoff, hi) + if cutoff < t <= hi then 1 else 0
  {
    assert (times + [t])[..|times|] == times;
  }

  lemma {:induction false} OldestIsFirst(times: seq<int>, cutoff: int, default: int)
    ensures OldestAfter(times, cutoff, default) <= default
    ensures forall i :: 0 <= i < |times| && times[i] > cutoff ==> OldestAfter(times, cutoff, default) <= times[i]
  {
    if times != [] {
      OldestIsFirst(times[..|times| - 1], cutoff, default);
    }
  }

  // ---- decisions ---------------------------------------------------------------------------

  lemma {:induction false} BindingIsAny(l: Ledger, windows: seq<RateWindow>, recovery: bool, now: int)
    ensures Binding(l, windows, recovery, now).Allowed? <==>
            forall i :: 0 <= i < |windows| ==> !Full(l, windows[i], recovery, now)
    ensures var d := Binding(l, windows, recovery, now);
            && !d.Cooling?
            && (d.Refused? ==>
                  && d.window in windows && Full(l, d.window, recovery, now)
                  && d.retryAt == RetryAt(l, d.window.spanMs, now))
  {
    if windows != [] {
      BindingIsAny(l, windows[1..], recovery, now);
      assert windows == [windows[0]] + windows[1..];
    }
  }

  lemma PartOf(whole: real, fraction: real)
    requires 0.0 <= whole && 0.0 <= fraction <= 1.0
    ensures 0.0 <= whole * fraction <= whole
  {
    assert whole * (1.0 - fraction) >= 0.0;
  }

  /** The reserve lies inside the worker's share. */
  lemma ReserveFits(limit: int, policy: BudgetPolicy)
    requires 0.0 <= policy.reserveFraction <= 1.0
    ensures 0 <= Reserve(limit, policy) <= PerWorker(limit, policy)
    ensures Ceiling(limit, policy, false) + Reserve(limit, policy) == PerWorker(limit, policy)
  {
    var share := PerWorker(limit, policy) as real;
    PartOf(share, policy.reserveFraction);
    CeilBetween(share * policy.reserveFraction, PerWorker(limit, policy));
  }

  lemma CeilBetween(x: real, n: int)
    requires 0.0 <= x <= n as real
    ensures 0 <= Ceil(x) <= n
  {
    assert (-n) as real <= -x;
    assert -n <= (-x).Floor;
  }

  /** A refusal's retry time is a true lower bound: any earlier check of the same kind is refused too. */
  lemma RetryIsALowerBound(l: Ledger, l': Ledger, endpoint: Endpoint, protective: bool,
                           endpoint': Endpoint, protective': bool, now: int, now': int)
    requires !endpoint.DataRead? && !endpoint'.DataRead?
    requires IsRecovery(endpoint, protective) == IsRecovery(endpoint', protective')
    requires Decide(l, endpoint, protective, now).Refused?
    requires now <= now' < Decide(l, endpoint, protective, now).retryAt
    requires l'.limits == l.limits && l'.policy == l.policy
    requires l.placements <= l'.placements && l.recoveries <= l'.recoveries
    ensures !Decide(l', endpoint', protective', now').Allowed?
  {
    var recovery := IsRecovery(endpoint, protective);
    BindingIsAny(l, Windows(l.limits), recovery, now);
    BindingIsAny(l', Windows(l.limits), recovery, now');
    var w := Decide(l, endpoint, protective, now).window;
    StillUsed(l, l', w.spanMs, now, now');
    assert Full(l', w, recovery, now');
    var i :| 0 <= i < |Windows(l.limits)| && Windows(l.limits)[i] == w;
  }

  /** Nothing leaves a window before its oldest request does. */
  lemma StillUsed(l: Ledger, l': Ledger, span: int, now: int, now': int)
    requires now <= now' < RetryAt(l, span, now)
    requires l.placements <= l'.placements && l.recoveries <= l'.recoveries
    ensures Used(l, span, now) <= Used(l', span, now')
  {
    var cutoff, cutoff' := now - span, now' - span;
    OldestIsFirst(l.placements, cutoff, now);
    OldestIsFirst(l.recoveries, cutoff, OldestAfter(l.placements, cutoff, now));
    CountCovers(l.placements, cutoff, cutoff');
    CountCovers(l.recoveries, cutoff, cutoff');
    CountGrows(l.placements, l'.placements, cutoff');
    CountGrows(l.recoveries, l'.recoveries, cutoff');
  }

  lemma {:induction false} CountGrows(times: seq<int>, times': seq<int>, cutoff: int)
    requires times <= times'
    ensures CountAfter(times, cutoff) <= CountAfter(times', cutoff)
  {
    if |times| < |times'| {
      CountGrows(times, times'[..|times'| - 1], cutoff);
    } else {
      assert times == times';
    }
  }

  // ---- runs --------------------------------------------------------------------------------

  datatype Op =
    | Send(endpoint: Endpoint, protective: bool, now: int)   // check, and record when allowed
    | Ask(endpoint: Endpoint, protective: bool, now: int)    // check only
    | Throttle(now: int, retryAfter: Option<int>)

  /** The ledger as the code keeps it, pruning on every check and every record. */
  function Step(l: Ledger, op: Op): Ledger {
    match op
    case Send(endpoint, protective, now) =>
      var l1 := Checked(l, endpoint, now);
      if Decide(l1, endpoint, protective, now).Allowed? then Recorded(l1, endpoint, now) else l1
    case Ask(endpoint, protective, now) => Checked(l, endpoint, now)
    case Throttle(now, retryAfter) => Penalized(l, now, retryAfter)
  }

  /** The same ledger with a memory that never forgets. */
  function FullStep(l: Ledger, op: Op): Ledger {
    match op
    case Send(endpoint, protective, now) =>
      if Decide(l, endpoint, protective, now).Allowed? then Noted(l, endpoint, now) else l
    case Ask(endpoint, protective, now) => l
    case Throttle(now, retryAfter) => Penalized(l, now, retryAfter)
  }

  function RunPruned(l: Ledger, ops: seq<Op>): Ledger {
    if ops == [] then l else Step(RunPruned(l, ops[..|ops| - 1]), ops[|ops| - 1])
  }

  function RunFull(l: Ledger, ops: seq<Op>): Ledger {
    if ops == [] then l else FullStep(RunFull(l, ops[..|ops| - 1]), ops[|ops| - 1])
  }

  function Clock(ops: seq<Op>): Option<int> {
    if ops == [] then None else Some(ops[|ops| - 1].now)
  }

  /** The clock never runs backwards. */
  predicate Chronological(ops: seq<Op>) {
    forall i, j :: 0 <= i < j < |ops| ==> ops[i].now <= ops[j].now
  }

  function Fresh(limits: RateLimits, policy: BudgetPolicy): Ledger {
    Ledger(limits, policy, [], [], None)
  }

  // ---- forgetting is invisible -------------------------------------------------------------

  /** `kept` is `all` without a prefix that is too old to matter from `clock` on. */
  ghost predicate Remembers(kept: seq<int>, all: seq<int>, clock: int, horizon: int) {
    exists k :: 0 <= k <= |all| && kept == all[k..] && UpTo(all[..k], clock - horizon)
  }

  ghost predicate SameAnswers(l: Ledger, full: Ledger, clock: int) {
    && l.limits == full.limits && l.policy == full.policy && l.cooldown == full.cooldown
    && Remembers(l.placements, full.placements, clock, Horizon(l.limits))
    && Remembers(l.recoveries, full.recoveries, clock, Horizon(l.limits))
  }

  lemma {:induction false} OldPrefixIsNotCounted(all: seq<int>, k: nat, cutoff: int, default: int)
    requires k <= |all| && UpTo(all[..k], cutoff)
    ensures CountAfter(all, cutoff) == CountAfter(all[k..], cutoff)
    ensures OldestAfter(all, cutoff, default) == OldestAfter(all[k..], cutoff, default)
  {
    if all != [] {
      var rest := all[..|all| - 1];
      if k == |all| {
        assert UpTo(rest[..|rest|], cutoff) by { assert rest[..|rest|] == all[..k][..|rest|]; }
        OldPrefixIsNotCounted(rest, |rest|, cutoff, default);
        assert all[..k][|all| - 1] <= cutoff;
      } else {
        assert rest[..k] == all[..k] && all[k..][..|all| - 1 - k] == rest[k..];
        OldPrefixIsNotCounted(rest, k, cutoff, default);
      }
    }
  }

  lemma RememberedCounts(kept: seq<int>, all: seq<int>, clock: int, horizon: int, cutoff: int, default: int)
    requires Remembers(kept, all, clock, horizon) && cutoff >= clock - horizon
    ensures CountAfter(kept, cutoff) == CountAfter(all, cutoff)
    ensures OldestAfter(kept, cutoff, default) == OldestAfter(all, cutoff, default)
  {
    var k :| 0 <= k <= |all| && kept == all[k..] && UpTo(all[..k], clock - horizon);
    OldPrefixIsNotCounted(all, k, cutoff, default);
  }

  lemma {:induction false} HorizonCovers(windows: seq<RateWindow>)
    ensures forall i :: 0 <= i < |windows| && windows[i].limit.Some?
                        ==> HorizonOf(windows).Some? && windows[i].spanMs <= HorizonOf(windows).value
  {
    if windows != [] {
      HorizonCovers(windows[1..]);
      assert windows == [windows[0]] + windows[1..];
    }
  }

  lemma {:induction false} SameBinding(l: Ledger, full: Ledger, windows: seq<RateWindow>, recovery: bool, clock: int, now: int)
    requires SameAnswers(l, full, clock) && clock <= now
    requires forall i :: 0 <= i < |windows| && windows[i].limit.Some? ==> windows[i].spanMs <= Horizon(l.limits)
    ensures Binding(l, windows, recovery, now) == Binding(full, windows, recovery, now)
  {
    if windows != [] {
      var w := windows[0];
      SameBinding(l, full, windows[1..], recovery, clock, now);
      if w.limit.Some? {
        var h, c := Horizon(l.limits), now - w.spanMs;
        RememberedCounts(l.placements, full.placements, clock, h, c, now);
        RememberedCounts(l.recoveries, full.recoveries, clock, h, c, OldestAfter(full.placements, c, now));
      }
    }
  }

  lemma SameDecision(l: Ledger, full: Ledger, endpoint: Endpoint, protective: bool, clock: int, now: int)
    requires SameAnswers(l, full, clock) && clock <= now
    ensures Decide(l, endpoint, protective, now) == Decide(full, endpoint, protective, now)
  {
    HorizonCovers(Windows(l.limits));
    SameBinding(l, full, Windows(l.limits), IsRecovery(endpoint, protective), clock, now);
  }

  lemma {:induction false} ForgetRemembers(kept: seq<int>, all: seq<int>, clock: int, now: int, horizon: int)
    requires Remembers(kept, all, clock, horizon) && clock <= now
    ensures Remembers(Forget(kept, now - horizon), all, now, horizon)
    decreases |kept|
  {
    var k :| 0 <= k <= |all| && kept == all[k..] && UpTo(all[..k], clock - horizon);
    if kept != [] && kept[0] <= now - horizon {
      assert kept[1..] == all[k + 1..];
      assert UpTo(all[..k + 1], now - horizon);
      assert Remembers(kept[1..], all, now, horizon);
      ForgetRemembers(kept[1..], all, now, now, horizon);
    }
  }

  lemma NotingRemembers(kept: seq<int>, all: seq<int>, clock: int, horizon: int, t: int)
    requires Remembers(kept, all, clock, horizon)
    ensures Remembers(kept + [t], all + [t], clock, horizon)
  {
    var k :| 0 <= k <= |all| && kept == all[k..] && UpTo(all[..k], clock - horizon);
    assert kept + [t] == (all + [t])[k..] && (all + [t])[..k] == all[..k];
  }

  lemma PruneKeepsAnswers(l: Ledger, full: Ledger, clock: int, now: int)
    requires SameAnswers(l, full, clock) && clock <= now
    ensures SameAnswers(Prune(l, now), full, now) && SameAnswers(l, full, now)
  {
    ForgetRemembers(l.placements, full.placements, clock, now, Horizon(l.limits));
    ForgetRemembers(l.recoveries, full.recoveries, clock, now, Horizon(l.limits));
  }

  lemma NotedKeepsAnswers(l: Ledger, full: Ledger, endpoint: Endpoint, now: int)
    requires SameAnswers(l, full, now)
    ensures SameAnswers(Noted(l, endpoint, now), Noted(full, endpoint, now), now)
  {
    NotingRemembers(l.placements, full.placements, now, Horizon(l.limits), now);
    NotingRemembers(l.recoveries, full.recoveries, now, Horizon(l.limits), now);
  }

  lemma SendKeepsAnswers(l: Ledger, full: Ledger, endpoint: Endpoint, protective: bool, now: int)
    requires SameAnswers(l, full, now)
    ensures SameAnswers(Step(l, Send(endpoint, protective, now)), FullStep(full, Send(endpoint, protective, now)), now)
  {
    PruneKeepsAnswers(l, full, now, now);
    var l1 := Checked(l, endpoint, now);
    SameDecision(l1, full, endpoint, protective, now, now);
    NotedKeepsAnswers(l1, full, endpoint, now);
    PruneKeepsAnswers(Noted(l1, endpoint, now), Noted(full, endpoint, now), now, now);
  }

  lemma StepKeepsAnswers(l: Ledger, full: Ledger, op: Op, clock: int)
    requires SameAnswers(l, full, clock) && clock <= op.now
    ensures SameAnswers(Step(l, op), FullStep(full, op), op.now)
  {
    PruneKeepsAnswers(l, full, clock, op.now);
    if op.Send? {
      SendKeepsAnswers(l, full, op.endpoint, op.protective, op.now);
    }
  }

  lemma {:induction false} RunKeepsAnswers(limits: RateLimits, policy: BudgetPolicy, ops: seq<Op>, now: int)
    requires Chronological(ops) && (ops != [] ==> Clock(ops).value <= now)
    ensures SameAnswers(RunPruned(Fresh(limits, policy), ops), RunFull(Fresh(limits, policy), ops), now)
  {
    var start := Fresh(limits, policy);
    if ops == [] {
      var none: seq<int> := [];
      assert none[0..] == none && UpTo(none[..0], now - Horizon(limits));
    } else {
      var op := ops[|ops| - 1];
      RunKeepsAnswers(limits, policy, ops[..|ops| - 1], op.now);
      StepKeepsAnswers(RunPruned(start, ops[..|ops| - 1]), RunFull(start, ops[..|ops| - 1]), op, op.now);
      PruneKeepsAnswers(RunPruned(start, ops), RunFull(start, ops), op.now, now);
    }
  }

  /** After any run, the pruned history answers every later check exactly as the full history would. */
  lemma ForgettingIsInvisible(limits: RateLimits, policy: BudgetPolicy, ops: seq<Op>,
                              endpoint: Endpoint, protective: bool, now: int)
    requires Chronological(ops) && (ops != [] ==> Clock(ops).value <= now)
    ensures Decide(Checked(RunPruned(Fresh(limits, policy), ops), endpoint, now), endpoint, protective, now)
            == Decide(RunFull(Fresh(limits, policy), ops), endpoint, protective, now)
  {
    var l, full := RunPruned(Fresh(limits, policy), ops), RunFull(Fresh(limits, policy), ops);
    RunKeepsAnswers(limits, policy, ops, now);
    PruneKeepsAnswers(l, full, now, now);
    SameDecision(Checked(l, endpoint, now), full, endpoint, protective, now, now);
  }

  // ---- the published limits hold -----------------------------------------------------------

  /** No window of this span, ending anywhere, ever held more than the worker's share. */
  ghost predicate Bounded(l: Ledger, w: RateWindow) {
    w.limit.Some? ==> forall end :: InWindow(l.placements, l.recoveries, w.spanMs, end) <= PerWorker(w.limit.value, l.policy)
  }

  lemma AllowedIsBelowShare(l: Ledger, endpoint: Endpoint, protective: bool, now: int, w: RateWindow)
    requires 0.0 <= l.policy.reserveFraction <= 1.0 && w in Windows(l.limits) && w.limit.Some?
    requires Decide(l, endpoint, protective, now).Allowed? && !endpoint.DataRead?
    ensures Used(l, w.spanMs, now) < PerWorker(w.limit.value, l.policy)
  {
    BindingIsAny(l, Windows(l.limits), IsRecovery(endpoint, protective), now);
    var i :| 0 <= i < |Windows(l.limits)| && Windows(l.limits)[i] == w;
    assert !Full(l, Windows(l.limits)[i], IsRecovery(endpoint, protective), now);
    ReserveFits(w.limit.value, l.policy);
  }

  /** A window that contains the new request reaches back no further than the check looked. */
  lemma WindowFitsCheck(times: seq<int>, span: int, now: int, end: int)
    requires UpTo(times, now) && now <= end
    ensures CountIn(times, end - span, end) <= CountAfter(times, now - span)
  {
    WindowIsCount(times, end - span, end);
    CountCovers(times, end - span, now - span);
  }

  lemma SlidingWindow(l: Ledger, endpoint: Endpoint, now: int, span: int, share: nat, end: int)
    requires UpTo(l.placements, now) && UpTo(l.recoveries, now) && !endpoint.DataRead?
    requires Used(l, span, now) < share && InWindow(l.placements, l.recoveries, span, end) <= share
    ensures var l' := Noted(l, endpoint, now);
            InWindow(l'.placements, l'.recoveries, span, end) <= share
  {
    CountAppend(l.placements, now, end - span, end);
    CountAppend(l.recoveries, now, end - span, end);
    if now <= end {
      WindowFitsCheck(l.placements, span, now, end);
      WindowFitsCheck(l.recoveries, span, now, end);
    }
  }

  lemma SendKeepsBounded(l: Ledger, endpoint: Endpoint, protective: bool, now: int, w: RateWindow)
    requires 0.0 <= l.policy.reserveFraction <= 1.0
    requires w in Windows(l.limits) && Bounded(l, w)
    requires UpTo(l.placements, now) && UpTo(l.recoveries, now)
    requires Decide(l, endpoint, protective, now).Allowed? && !endpoint.DataRead?
    ensures Bounded(Noted(l, endpoint, now), w)
  {
    if w.limit.Some? {
      AllowedIsBelowShare(l, endpoint, protective, now, w);
      var l', share := Noted(l, endpoint, now), PerWorker(w.limit.value, l.policy);
      forall end
        ensures InWindow(l'.placements, l'.recoveries, w.spanMs, end) <= share
      {
        SlidingWindow(l, endpoint, now, w.spanMs, share, end);
      }
    }
  }

  ghost predicate Kept(l: Ledger, limits: RateLimits, policy: BudgetPolicy, w: RateWindow, now: int) {
    && l.limits == limits && l.policy == policy
    && UpTo(l.placements, now) && UpTo(l.recoveries, now)
    && Bounded(l, w)
  }

  lemma FullStepKeeps(l: Ledger, op: Op, w: RateWindow)
    requires 0.0 <= l.policy.reserveFraction <= 1.0 && w in Windows(l.limits)
    requires Kept(l, l.limits, l.policy, w, op.now)
    ensures Kept(FullStep(l, op), l.limits, l.policy, w, op.now)
  {
    if op.Send? && !op.endpoint.DataRead? && Decide(l, op.endpoint, op.protective, op.now).Allowed? {
      SendKeepsBounded(l, op.endpoint, op.protective, op.now, w);
    }
  }

  /** Every sliding window of every published span stays within this worker's share, on every run. */
  lemma {:induction false} EveryWindowIsBounded(limits: RateLimits, policy: BudgetPolicy, ops: seq<Op>, w: RateWindow, now: int)
    requires Chronological(ops) && (ops != [] ==> Clock(ops).value <= now)
    requires 0.0 <= policy.reserveFraction <= 1.0 && w in Windows(limits)
    ensures Kept(RunFull(Fresh(limits, policy), ops), limits, policy, w, now)
  {
    if ops != [] {
      var before, op := ops[..|ops| - 1], ops[|ops| - 1];
      EveryWindowIsBounded(limits, policy, before, w, op.now);
      FullStepKeeps(RunFull(Fresh(limits, policy), before), op, w);
    }
  }

  /** The workers of one account, each with its own run. */
  function AccountTotal(limits: RateLimits, policy: BudgetPolicy, runs: seq<seq<Op>>, span: int, end: int): nat {
    if runs == [] then 0
    else
      var last := RunFull(Fresh(limits, policy), runs[|runs| - 1]);
      AccountTotal(limits, policy, runs[..|runs| - 1], span, end) + InWindow(last.placements, last.recoveries, span, end)
  }

  lemma {:induction false} SharesAddUp(limits: RateLimits, policy: BudgetPolicy, runs: seq<seq<Op>>, w: RateWindow, end: int)
    requires forall i :: 0 <= i < |runs| ==> Chronological(runs[i])
    requires 0.0 <= policy.reserveFraction <= 1.0 && w in Windows(limits) && w.limit.Some?
    ensures AccountTotal(limits, policy, runs, w.spanMs, end) <= |runs| * PerWorker(w.limit.value, policy)
  {
    if runs != [] {
      SharesAddUp(limits, policy, runs[..|runs| - 1], w, end);
      var run := runs[|runs| - 1];
      EveryWindowIsBounded(limits, policy, run, w, if run == [] then 0 else Clock(run).value);
      var last := RunFull(Fresh(limits, policy), runs[|runs| - 1]);
      assert InWindow(last.placements, last.recoveries, w.spanMs, end) <= PerWorker(w.limit.value, policy);
      assert |runs| * PerWorker(w.limit.value, policy)
          == (|runs| - 1) * PerWorker(w.limit.value, policy) + PerWorker(w.limit.value, policy);
    }
  }

  /** All the declared workers together stay within what the broker publishes for the account. */
  lemma AccountLimitHolds(limits: RateLimits, policy: BudgetPolicy, runs: seq<seq<Op>>, w: RateWindow, end: int)
    requires forall i :: 0 <= i < |runs| ==> Chronological(runs[i])
    requires 0.0 <= policy.reserveFraction <= 1.0 && w in Windows(limits) && w.limit.Some? && w.limit.value >= 0
    requires |runs| <= policy.workers
    ensures AccountTotal(limits, policy, runs, w.spanMs, end) <= w.limit.value
  {
    SharesAddUp(limits, policy, runs, w, end);
    if runs != [] {
      SharesFit(|runs|, policy.workers, w.limit.value);
    }
  }

  lemma SharesFit(k: nat, n: nat, limit: nat)
    requires 0 < k <= n
    ensures k * (limit / n) <= limit
  {
    assert limit == n * (limit / n) + limit % n;
    Scales(k, n, limit / n);
  }

  lemma Scales(k: nat, n: nat, share: nat)
    requires k <= n
    ensures k * share <= n * share
  {
  }

  // ---- the reserve -------------------------------------------------------------------------

  /** Every finite window has room for `n` more recovery mutations. */
  predicate Headroom(l: Ledger, now: int, n: int) {
    forall i :: 0 <= i < 4 && Windows(l.limits)[i].limit.Some? ==>
                  var w := Windows(l.limits)[i];
                  Used(l, w.spanMs, now) + n <= PerWorker(w.limit.value, l.policy)
  }

  lemma PlacementLeavesHeadroom(l: Ledger, now: int, n: nat)
    requires 0.0 <= l.policy.reserveFraction <= 1.0
    requires Decide(l, OrderPlace, false, now).Allowed?
    requires forall w :: w in Windows(l.limits) && w.limit.Some? ==> n <= Reserve(w.limit.value, l.policy)
    ensures Headroom(Noted(l, OrderPlace, now), now, n)
  {
    BindingIsAny(l, Windows(l.limits), false, now);
    forall i | 0 <= i < 4 && Windows(l.limits)[i].limit.Some?
      ensures var w := Windows(l.limits)[i];
              Used(Noted(l, OrderPlace, now), w.spanMs, now) + n <= PerWorker(w.limit.value, l.policy)
    {
      var w := Windows(l.limits)[i];
      assert !Full(l, w, false, now) && n <= Reserve(w.limit.value, l.policy);
      ReserveFits(w.limit.value, l.policy);
      CountAppend(l.placements, now, now - w.spanMs, now);
    }
  }

  lemma NotedUses(l: Ledger, endpoint: Endpoint, span: int, clock: int, now: int)
    requires clock <= now
    ensures Used(l, span, now) <= Used(l, span, clock)
    ensures Used(Noted(l, endpoint, now), span, now) <= Used(l, span, now) + 1
  {
    CountCovers(l.placements, now - span, clock - span);
    CountCovers(l.recoveries, now - span, clock - span);
    CountAppend(l.placements, now, now - span, now);
    CountAppend(l.recoveries, now, now - span, now);
  }

  lemma HeadroomAdmitsOne(l: Ledger, endpoint: Endpoint, protective: bool, clock: int, now: int, n: nat)
    requires Headroom(l, clock, n) && n > 0 && clock <= now
    requires !endpoint.DataRead? && IsRecovery(endpoint, protective)
    requires l.cooldown.Some? ==> l.cooldown.value <= now
    ensures Decide(l, endpoint, protective, now).Allowed?
    ensures Headroom(Noted(l, endpoint, now), now, n - 1)
  {
    BindingIsAny(l, Windows(l.limits), true, now);
    forall i | 0 <= i < 4 && Windows(l.limits)[i].limit.Some?
      ensures !Full(l, Windows(l.limits)[i], true, now)
      ensures var w := Windows(l.limits)[i];
              Used(Noted(l, endpoint, now), w.spanMs, now) + n - 1 <= PerWorker(w.limit.value, l.policy)
    {
      NotedUses(l, endpoint, Windows(l.limits)[i].spanMs, clock, now);
    }
  }

  /** Recovery mutations only, at times from `clock` on, outside any cooldown. */
  predicate RecoveryBurst(ops: seq<Op>, clock: int) {
    && Chronological(ops)
    && forall i :: 0 <= i < |ops| ==>
                     && ops[i].Send? && !ops[i].endpoint.DataRead?
                     && IsRecovery(ops[i].endpoint, ops[i].protective)
                     && clock <= ops[i].now
  }

  lemma {:induction false} BurstIsAdmitted(l: Ledger, ops: seq<Op>, clock: int, n: nat)
    requires Headroom(l, clock, n) && |ops| <= n && RecoveryBurst(ops, clock)
    requires l.cooldown.Some? ==> l.cooldown.value <= clock
    ensures var l' := RunFull(l, ops);
            && Headroom(l', if ops == [] then clock else Clock(ops).value, n - |ops|)
            && l'.cooldown == l.cooldown && l'.limits == l.limits
            && |l'.placements| + |l'.recoveries| == |l.placements| + |l.recoveries| + |ops|
  {
    if ops != [] {
      var before, op := ops[..|ops| - 1], ops[|ops| - 1];
      BurstIsAdmitted(l, before, clock, n);
      var at := if before == [] then clock else Clock(before).value;
      HeadroomAdmitsOne(RunFull(l, before), op.endpoint, op.protective, at, op.now, n - |before|);
    }
  }

  /**
   * The reserve is real: right after any entry placement is admitted and recorded, as many recovery
   * mutations as the smallest reserve are all admitted, whenever they come.
   */
  lemma ReserveSurvivesPlacement(l: Ledger, now: int, burst: seq<Op>)
    requires 0.0 <= l.policy.reserveFraction <= 1.0
    requires Decide(l, OrderPlace, false, now).Allowed?
    requires RecoveryBurst(burst, now)
    requires forall w :: w in Windows(l.limits) && w.limit.Some? ==> |burst| <= Reserve(w.limit.value, l.policy)
    ensures var placed := Noted(l, OrderPlace, now);
            var after := RunFull(placed, burst);
            |after.placements| + |after.recoveries| == |placed.placements| + |placed.recoveries| + |burst|
  {
    PlacementLeavesHeadroom(l, now, |burst|);
    BurstIsAdmitted(Noted(l, OrderPlace, now), burst, now, |burst|);
  }

  // ---- how far the reserve reaches ---------------------------------------------------------

  function Cancels(n: nat, now: int): seq<Op> {
    seq(n, _ => Send(OrderCancel, false, now))
  }

  function Sent(l: Ledger): nat {
    |l.placements| + |l.recoveries|
  }

  lemma {:induction false} CancelsSpend(l: Ledger, n: nat, now: int, span: int)
    requires span > 0
    ensures var after := RunFull(l, Cancels(n, now));
            && after.limits == l.limits && after.policy == l.policy && after.cooldown == l.cooldown
            && Sent(l) <= Sent(after) <= Sent(l) + n
            && Used(after, span, now) - Used(l, span, now) == Sent(after) - Sent(l)
  {
    if n > 0 {
      assert Cancels(n, now)[..n - 1] == Cancels(n - 1, now);
      CancelsSpend(l, n - 1, now, span);
      CountAppend(RunFull(l, Cancels(n - 1, now)).recoveries, now, now - span, now);
    }
  }

  lemma LastCancelLeavesRoom(l: Ledger, n: nat, now: int, w: RateWindow)
    requires n > 0 && w in Windows(l.limits) && w.spanMs > 0 && w.limit.Some?
    requires Sent(RunFull(l, Cancels(n, now))) == Sent(l) + n
    ensures Used(l, w.spanMs, now) + n <= PerWorker(w.limit.value, l.policy)
  {
    var before := RunFull(l, Cancels(n - 1, now));
    assert Cancels(n, now)[..n - 1] == Cancels(n - 1, now);
    CancelsSpend(l, n - 1, now, w.spanMs);
    assert Decide(before, OrderCancel, false, now).Allowed?;
    BindingIsAny(before, Windows(l.limits), true, now);
    var i :| 0 <= i < |Windows(l.limits)| && Windows(l.limits)[i] == w;
    assert !Full(before, Windows(l.limits)[i], true, now);
  }

  /** Exactly when `n` cancels at one instant all get through: every finite window has room for them. */
  lemma CancelsFitIffHeadroom(l: Ledger, n: nat, now: int)
    requires n > 0 && (l.cooldown.Some? ==> l.cooldown.value <= now)
    requires forall w :: w in Windows(l.limits) ==> w.spanMs > 0
    ensures Sent(RunFull(l, Cancels(n, now))) == Sent(l) + n <==> Headroom(l, now, n)
  {
    if Headroom(l, now, n) {
      BurstIsAdmitted(l, Cancels(n, now), now, n);
    }
    if Sent(RunFull(l, Cancels(n, now))) == Sent(l) + n {
      forall i | 0 <= i < 4 && Windows(l.limits)[i].limit.Some?
        ensures var w := Windows(l.limits)[i];
                Used(l, w.spanMs, now) + n <= PerWorker(w.limit.value, l.policy)
      {
        assert Windows(l.limits)[i] in Windows(l.limits);
        LastCancelLeavesRoom(l, n, now, Windows(l.limits)[i]);
      }
    }
  }

  lemma {:induction false} AllCounted(times: seq<int>, cutoff: int)
    requires forall i :: 0 <= i < |times| ==> times[i] > cutoff
    ensures CountAfter(times, cutoff) == |times|
  {
    if times != [] {
      AllCounted(times[..|times| - 1], cutoff);
    }
  }

  /**
   * The default reserve is two slots of the ten-per-second window, so a four-leg unwind in the
   * second of an admitted placement does not fit it.
   */
  lemma FourLegUnwindCanExceedReserve()
    ensures Reserve(10, DEFAULT_POLICY) == 2
    ensures exists l: Ledger ::
              && l.limits == ZERODHA_LIMITS && l.policy == DEFAULT_POLICY
              && Decide(l, OrderPlace, false, 0).Allowed?
              && Sent(RunFull(Noted(l, OrderPlace, 0), Cancels(4, 0))) < Sent(l) + 1 + 4
  {
    var l := Ledger(ZERODHA_LIMITS, DEFAULT_POLICY, [0, 0, 0, 0, 0, 0, 0], [], None);
    var placed := Noted(l, OrderPlace, 0);
    forall span | span > 0
      ensures Used(l, span, 0) == 7 && Used(placed, span, 0) == 8
    {
      AllCounted(l.placements, 0 - span);
      AllCounted(placed.placements, 0 - span);
    }
    assert Ceiling(10, DEFAULT_POLICY, false) == 8 && Ceiling(400, DEFAULT_POLICY, false) == 320
        && Ceiling(5000, DEFAULT_POLICY, false) == 4000;
    BindingIsAny(l, Windows(l.limits), false, 0);
    assert Decide(l, OrderPlace, false, 0).Allowed?;
    var w := Windows(placed.limits)[0];
    assert Used(placed, w.spanMs, 0) == 8 && PerWorker(w.limit.value, placed.policy) == 10;
    assert !Headroom(placed, 0, 4);
    CancelsSpend(placed, 4, 0, 1);
    CancelsFitIffHeadroom(placed, 4, 0);
  }
}
