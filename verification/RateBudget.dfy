/** The rolling-window order budget of one broker account, seen from one worker. */
module RateBudget {
  import opened Prelude

  datatype Endpoint = OrderPlace | OrderModify | OrderCancel | DataRead

  /** `None` is an explicitly unlimited window. */
  datatype RateWindow = RateWindow(spanMs: int, limit: Option<int>)

  datatype RateLimits = RateLimits(perSecond: RateWindow, perMinute: RateWindow, perHour: RateWindow, perDay: RateWindow)

  datatype BudgetPolicy = BudgetPolicy(workers: int, reserveFraction: real)

  const DAY_MS := 86400000

  /** The order limits Zerodha publishes; it has no hourly cap. */
  const ZERODHA_LIMITS :=
    RateLimits(RateWindow(1000, Some(10)), RateWindow(60000, Some(400)), RateWindow(3600000, None),
               RateWindow(DAY_MS, Some(5000)))

  const DHAN_LIMITS :=
    RateLimits(RateWindow(1000, Some(10)), RateWindow(60000, Some(250)), RateWindow(3600000, Some(1000)),
               RateWindow(DAY_MS, Some(7000)))

  const DEFAULT_POLICY := BudgetPolicy(1, 0.2)

  /** `None` stands for an absent or non-finite setting. */
  function ResolvePolicy(workers: Option<int>, reserve: Option<real>): (p: BudgetPolicy)
    ensures p.workers >= 1 && 0.0 <= p.reserveFraction <= 0.5
    ensures p.workers == 1 || workers == Some(p.workers)
    ensures workers.Some? && workers.value >= 1 ==> p.workers == workers.value
    ensures reserve.Some? && 0.0 <= reserve.value <= 0.5 ==> p.reserveFraction == reserve.value
    ensures !(reserve.Some? && 0.0 <= reserve.value <= 0.5) ==> p.reserveFraction == 0.2
  {
    BudgetPolicy(if workers.Some? && workers.value >= 1 then workers.value else 1,
                 if reserve.Some? && 0.0 <= reserve.value <= 0.5 then reserve.value else DEFAULT_POLICY.reserveFraction)
  }

  function Windows(limits: RateLimits): seq<RateWindow> {
    [limits.perSecond, limits.perMinute, limits.perHour, limits.perDay]
  }

  // ---- budgets -----------------------------------------------------------------------------

  function Ceil(x: real): int {
    -((-x).Floor)
  }

  /** The account limit shared among the workers. */
  function PerWorker(limit: int, policy: BudgetPolicy): nat {
    Max(0, limit / Max(1, policy.workers))
  }

  /** Rounded up, so a partial slot favours recovery. */
  function Reserve(limit: int, policy: BudgetPolicy): int {
    Ceil(PerWorker(limit, policy) as real * policy.reserveFraction)
  }

  function Ceiling(limit: int, policy: BudgetPolicy, recovery: bool): nat {
    if recovery then PerWorker(limit, policy) else Max(0, PerWorker(limit, policy) - Reserve(limit, policy))
  }

  // ---- the ledger --------------------------------------------------------------------------

  datatype Ledger = Ledger(
    limits: RateLimits,
    policy: BudgetPolicy,
    placements: seq<int>,
    recoveries: seq<int>,
    cooldown: Option<int>)

  function CountAfter(times: seq<int>, cutoff: int): nat {
    if times == [] then 0 else CountAfter(times[..|times| - 1], cutoff) + if times[|times| - 1] > cutoff then 1 else 0
  }

  /** The earliest time after `cutoff`, or `default` when there is none before it. */
  function OldestAfter(times: seq<int>, cutoff: int, default: int): int {
    if times == [] then default
    else
      var t, oldest := times[|times| - 1], OldestAfter(times[..|times| - 1], cutoff, default);
      if cutoff < t < oldest then t else oldest
  }

  function Used(l: Ledger, span: int, now: int): nat {
    CountAfter(l.placements, now - span) + CountAfter(l.recoveries, now - span)
  }

  function RetryAt(l: Ledger, span: int, now: int): int {
    OldestAfter(l.recoveries, now - span, OldestAfter(l.placements, now - span, now)) + span
  }

  datatype Decision = Allowed | Cooling(until: int) | Refused(window: RateWindow, retryAt: int)

  /** Risk purpose decides who may spend the reserve. */
  predicate IsRecovery(endpoint: Endpoint, protective: bool) {
    endpoint.OrderCancel? || endpoint.OrderModify? || protective
  }

  predicate Full(l: Ledger, w: RateWindow, recovery: bool, now: int) {
    w.limit.Some? && Used(l, w.spanMs, now) >= Ceiling(w.limit.value, l.policy, recovery)
  }

  /** The first window that is full. */
  function Binding(l: Ledger, windows: seq<RateWindow>, recovery: bool, now: int): Decision {
    if windows == [] then Allowed
    else if Full(l, windows[0], recovery, now) then Refused(windows[0], RetryAt(l, windows[0].spanMs, now))
    else Binding(l, windows[1..], recovery, now)
  }

  function Decide(l: Ledger, endpoint: Endpoint, protective: bool, now: int): Decision {
    if endpoint.DataRead? then Allowed
    else if l.cooldown.Some? && now < l.cooldown.value then Cooling(l.cooldown.value)
    else Binding(l, Windows(l.limits), IsRecovery(endpoint, protective), now)
  }

  /** The longest finite span. */
  function HorizonOf(windows: seq<RateWindow>): Option<int> {
    if windows == [] then None
    else
      var rest := HorizonOf(windows[1..]);
      if windows[0].limit.None? then rest
      else if rest.None? then Some(windows[0].spanMs)
      else Some(Max(windows[0].spanMs, rest.value))
  }

  function Horizon(limits: RateLimits): int {
    var longest := HorizonOf(Windows(limits));
    if longest.Some? then longest.value else DAY_MS
  }

  function Forget(times: seq<int>, cutoff: int): seq<int> {
    if times != [] && times[0] <= cutoff then Forget(times[1..], cutoff) else times
  }

  function Prune(l: Ledger, now: int): Ledger {
    var cutoff := now - Horizon(l.limits);
    l.(placements := Forget(l.placements, cutoff), recoveries := Forget(l.recoveries, cutoff))
  }

  /** The request as sent, without pruning. */
  function Noted(l: Ledger, endpoint: Endpoint, now: int): Ledger {
    match endpoint
    case DataRead => l
    case OrderPlace => l.(placements := l.placements + [now])
    case _ => l.(recoveries := l.recoveries + [now])
  }

  function Recorded(l: Ledger, endpoint: Endpoint, now: int): Ledger {
    if endpoint.DataRead? then l else Prune(Noted(l, endpoint, now), now)
  }

  /** A refusal by cooldown returns before the history is touched. */
  function Checked(l: Ledger, endpoint: Endpoint, now: int): Ledger {
    if endpoint.DataRead? || (l.cooldown.Some? && now < l.cooldown.value) then l else Prune(l, now)
  }

  function Penalized(l: Ledger, now: int, retryAfter: Option<int>): Ledger {
    var pause := if retryAfter.Some? && retryAfter.value > 0 then retryAfter.value else l.limits.perSecond.spanMs;
    var until := now + pause;
    if l.cooldown.None? || until > l.cooldown.value then l.(cooldown := Some(until)) else l
  }

  // ---- the object --------------------------------------------------------------------------

  class RateBudgetLedger {
    var limits: RateLimits
    var policy: BudgetPolicy
    var placementTimes: seq<int>
    var recoveryTimes: seq<int>
    var cooldownUntil: Option<int>

    ghost function View(): Ledger
      reads this
    {
      Ledger(limits, policy, placementTimes, recoveryTimes, cooldownUntil)
    }

    constructor (limits: RateLimits, policy: BudgetPolicy)
      ensures View() == Ledger(limits, policy, [], [], None)
    {
      this.limits, this.policy := limits, policy;
      placementTimes, recoveryTimes, cooldownUntil := [], [], None;
    }

    method HorizonMs() returns (horizon: int)
      ensures horizon == Horizon(limits)
    {
      var windows := Windows(limits);
      var longest: Option<int> := None;
      for i := |windows| downto 0
        invariant longest == HorizonOf(windows[i..])
      {
        if windows[i].limit.Some? {
          longest := Some(if longest.Some? then Max(windows[i].spanMs, longest.value) else windows[i].spanMs);
        }
      }
      return if longest.Some? then longest.value else DAY_MS;
    }

    /** Shift expired times off the front. */
    static method ShiftExpired(times: seq<int>, cutoff: int) returns (kept: seq<int>)
      ensures kept == Forget(times, cutoff)
    {
      kept := times;
      while |kept| > 0 && kept[0] <= cutoff
        invariant Forget(kept, cutoff) == Forget(times, cutoff)
      {
        kept := kept[1..];
      }
    }

    method PruneHistory(now: int)
      modifies this`placementTimes, this`recoveryTimes
      ensures View() == Prune(old(View()), now)
    {
      var horizon := HorizonMs();
      placementTimes := ShiftExpired(placementTimes, now - horizon);
      recoveryTimes := ShiftExpired(recoveryTimes, now - horizon);
    }

    static method CountTimes(times: seq<int>, cutoff: int) returns (n: nat)
      ensures n == CountAfter(times, cutoff)
    {
      n := 0;
      for i := 0 to |times|
        invariant n == CountAfter(times[..i], cutoff)
      {
        assert times[..i + 1][..i] == times[..i];
        if times[i] > cutoff {
          n := n + 1;
        }
      }
      assert times[..|times|] == times;
    }

    static method Oldest(times: seq<int>, cutoff: int, start: int) returns (oldest: int)
      ensures oldest == OldestAfter(times, cutoff, start)
    {
      oldest := start;
      for i := 0 to |times|
        invariant oldest == OldestAfter(times[..i], cutoff, start)
      {
        assert times[..i + 1][..i] == times[..i];
        if times[i] > cutoff && times[i] < oldest {
          oldest := times[i];
        }
      }
      assert times[..|times|] == times;
    }

    method Check(endpoint: Endpoint, now: int, protective: bool) returns (decision: Decision)
      modifies this`placementTimes, this`recoveryTimes
      ensures View() == Checked(old(View()), endpoint, now)
      ensures decision == Decide(View(), endpoint, protective, now)
    {
      if endpoint.DataRead? {
        return Allowed;
      }
      if cooldownUntil.Some? && now < cooldownUntil.value {
        return Cooling(cooldownUntil.value);
      }
      PruneHistory(now);
      decision := FirstFull(endpoint.OrderCancel? || endpoint.OrderModify? || protective, now);
    }

    /** Walk the published windows until one is full. */
    method FirstFull(recovery: bool, now: int) returns (decision: Decision)
      ensures decision == Binding(View(), Windows(limits), recovery, now)
    {
      var windows := Windows(limits);
      for i := 0 to |windows|
        invariant Binding(View(), windows, recovery, now) == Binding(View(), windows[i..], recovery, now)
      {
        var w := windows[i];
        if w.limit.Some? {
          var placed := CountTimes(placementTimes, now - w.spanMs);
          var recovered := CountTimes(recoveryTimes, now - w.spanMs);
          if placed + recovered >= Ceiling(w.limit.value, policy, recovery) {
            var oldest := Oldest(placementTimes, now - w.spanMs, now);
            oldest := Oldest(recoveryTimes, now - w.spanMs, oldest);
            return Refused(w, oldest + w.spanMs);
          }
        }
      }
      return Allowed;
    }

    method Record(endpoint: Endpoint, now: int)
      modifies this`placementTimes, this`recoveryTimes
      ensures View() == Recorded(old(View()), endpoint, now)
    {
      if endpoint.DataRead? {
        return;
      }
      if endpoint.OrderCancel? || endpoint.OrderModify? {
        recoveryTimes := recoveryTimes + [now];
      } else {
        placementTimes := placementTimes + [now];
      }
      PruneHistory(now);
    }

    /** A throttle signal. The end of a cooldown never moves earlier. */
    method Penalize(now: int, retryAfter: Option<int>)
      modifies this`cooldownUntil
      ensures View() == Penalized(old(View()), now, retryAfter)
      ensures cooldownUntil.Some?
      ensures old(cooldownUntil).Some? ==> cooldownUntil.value >= old(cooldownUntil).value
      ensures var pause := if retryAfter.Some? && retryAfter.value > 0 then retryAfter.value else limits.perSecond.spanMs;
              && cooldownUntil.value >= now + pause
              && (cooldownUntil == old(cooldownUntil) || cooldownUntil.value == now + pause)
    {
      var pause := if retryAfter.Some? && retryAfter.value > 0 then retryAfter.value else limits.perSecond.spanMs;
      if cooldownUntil.None? || now + pause > cooldownUntil.value {
        cooldownUntil := Some(now + pause);
      }
    }
  }
}
