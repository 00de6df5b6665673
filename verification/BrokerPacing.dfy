/** The pacing policy per broker, and what it means for the broker's published ten calls a second. */
module BrokerPacing {
  import opened Prelude
  import opened PacerModel
  import opened PacerSafety
  import opened PacerTiming

  datatype Broker = Zerodha | DhanHq | Unrecognised

  datatype Profile = Profile(defaultMs: nat, floorMs: nat)

  const ZERODHA := Profile(110, 100)
  const DHAN := Profile(120, 120)

  /** An unrecognised broker gets the largest floor and the largest default. */
  function ProfileOf(broker: Broker): Profile {
    match broker
    case Zerodha => ZERODHA
    case DhanHq => DHAN
    case Unrecognised => Profile(Max(ZERODHA.defaultMs, DHAN.defaultMs), Max(ZERODHA.floorMs, DHAN.floorMs))
  }

  /** `None` stands for a non-finite setting; a non-positive override means the broker default. */
  function Resolve(broker: Broker, generalMs: Option<int>, overrideMs: Option<int>): (p: Pacing)
    ensures p.orderMs >= ProfileOf(broker).floorMs >= 100
    ensures var floor := if broker.Zerodha? then 100 else 120;
            && p.orderMs >= floor
            && (overrideMs.Some? && overrideMs.value >= floor ==> p.orderMs == overrideMs.value)
            && (overrideMs.Some? && 0 < overrideMs.value < floor ==> p.orderMs == floor)
    ensures overrideMs.None? || overrideMs.value <= 0 ==> p.orderMs == if broker.Zerodha? then 110 else 120
    ensures generalMs.Some? && generalMs.value >= 0 ==> p.generalMs == generalMs.value
    ensures generalMs.Some? && generalMs.value < 0 ==> p.generalMs == 0
    ensures generalMs.None? ==> p.generalMs == 250
  {
    var profile := ProfileOf(broker);
    var general := if generalMs.Some? then Max(0, generalMs.value) else 250;
    var order :=
      if overrideMs.Some? && overrideMs.value > 0 then Max(profile.floorMs, overrideMs.value)
      else profile.defaultMs;
    Pacing(Max(order, profile.floorMs), general)
  }

  /** Every repoint installs a resolved policy. */
  ghost predicate ResolvedRepoints(steps: seq<Step>) {
    forall i :: 0 <= i < |steps| && steps[i].Repoint? ==>
                  exists broker, general, order :: steps[i].pacing == Resolve(broker, general, order)
  }

  lemma {:induction false} FloorIsKept(pacing: Pacing, limits: Limits, steps: seq<Step>)
    requires pacing.orderMs >= 100 && ResolvedRepoints(steps)
    ensures Run(Initial(pacing, limits), steps).pacing.orderMs >= 100
    ensures NeverTighter(Run(Initial(pacing, limits), steps).log, 100, false)
  {
    if steps != [] {
      FloorIsKept(pacing, limits, steps[..|steps| - 1]);
    }
  }

  /**
   * Whatever the operator configures and however often the broker is switched, no window of one
   * second sees more than ten calls.
   */
  lemma AtMostTenPerSecond(broker: Broker, general: Option<int>, order: Option<int>, limits: Limits,
                           steps: seq<Step>, from: int)
    requires var s := Initial(Resolve(broker, general, order), limits);
             WellTimed(s, steps) && ResolvedRepoints(steps)
    ensures var log := Run(Initial(Resolve(broker, general, order), limits), steps).log;
            CountIn(Times(log, false), from, from + 1000) <= 10
  {
    FloorIsKept(Resolve(broker, general, order), limits, steps);
    WindowsAreBounded(Resolve(broker, general, order), limits, steps, false, 100, from, 1000);
  }
}
