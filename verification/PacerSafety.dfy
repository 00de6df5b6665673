/** What every step of the pacer keeps, whatever the clock does. */
module PacerSafety {
  import opened Prelude
  import opened PacerModel

  // ---- facts about queues and identities ---------------------------------------------------

  predicate Sorted(q: seq<Entry>) {
    forall i, j :: 0 <= i < j < |q| ==> q[i].id < q[j].id
  }

  /** How often an identity occurs. */
  function Occurs(q: seq<Entry>, id: nat): nat {
    if q == [] then 0 else Occurs(q[..|q| - 1], id) + if q[|q| - 1].id == id then 1 else 0
  }

  function TimesSent(log: seq<Dispatch>, id: nat): nat {
    if log == [] then 0 else TimesSent(log[..|log| - 1], id) + if log[|log| - 1].entry.id == id then 1 else 0
  }

  lemma OccursAppend(q: seq<Entry>, e: Entry, id: nat)
    ensures Occurs(q + [e], id) == Occurs(q, id) + if e.id == id then 1 else 0
  {
    assert (q + [e])[..|q|] == q;
  }

  lemma TimesSentAppend(log: seq<Dispatch>, d: Dispatch, id: nat)
    ensures TimesSent(log + [d], id) == TimesSent(log, id) + if d.entry.id == id then 1 else 0
  {
    assert (log + [d])[..|log|] == log;
  }

  lemma {:induction false} OccursSplits(a: seq<Entry>, b: seq<Entry>, id: nat)
    ensures Occurs(a + b, id) == Occurs(a, id) + Occurs(b, id)
  {
    if b == [] {
      assert a + b == a;
    } else {
      assert (a + b)[..|a + b| - 1] == a + b[..|b| - 1];
      OccursSplits(a, b[..|b| - 1], id);
    }
  }

  lemma {:induction false} OccursWhere(q: seq<Entry>, id: nat)
    ensures Occurs(q, id) > 0 <==> exists i :: 0 <= i < |q| && q[i].id == id
  {
    if q != [] {
      var rest, last := q[..|q| - 1], q[|q| - 1];
      OccursWhere(rest, id);
      if last.id == id {
        assert q[|q| - 1].id == id;
      } else if Occurs(rest, id) > 0 {
        var i :| 0 <= i < |rest| && rest[i].id == id;
        assert q[i].id == id;
      } else if i :| 0 <= i < |q| && q[i].id == id {
        assert rest[i].id == id;
      }
    }
  }

  lemma {:induction false} CutMembers(q: seq<Entry>, cut: Cut)
    ensures forall e :: e in Keep(q, cut) <==> e in q && !Hit(e, cut)
    ensures forall e :: e in Dropped(q, cut) <==> e in q && Hit(e, cut)
  {
    if q != [] {
      assert q == q[..|q| - 1] + [q[|q| - 1]];
      CutMembers(q[..|q| - 1], cut);
    }
  }

  lemma {:induction false} CutSplits(q: seq<Entry>, cut: Cut, id: nat)
    ensures Occurs(q, id) == Occurs(Keep(q, cut), id) + Occurs(Dropped(q, cut), id)
    ensures |q| == |Keep(q, cut)| + |Dropped(q, cut)|
  {
    if q != [] {
      var rest, last := q[..|q| - 1], q[|q| - 1];
      CutSplits(rest, cut, id);
      OccursAppend(Keep(rest, cut), last, id);
      OccursAppend(Dropped(rest, cut), last, id);
    }
  }

  lemma {:induction false} CutKeepsSorted(q: seq<Entry>, cut: Cut)
    requires Sorted(q)
    ensures Sorted(Keep(q, cut))
  {
    if q != [] {
      var rest := q[..|q| - 1];
      CutKeepsSorted(rest, cut);
      CutMembers(rest, cut);
      assert forall i :: 0 <= i < |Keep(rest, cut)| ==> Keep(rest, cut)[i] in rest;
    }
  }

  /** Cutting one identity drops exactly its occurrences. */
  lemma {:induction false} CutOne(q: seq<Entry>, id: nat, other: nat)
    ensures |Dropped(q, ById(id))| == Occurs(q, id)
    ensures Occurs(Dropped(q, ById(id)), other) == if other == id then Occurs(q, id) else 0
  {
    if q != [] {
      var rest, last := q[..|q| - 1], q[|q| - 1];
      CutOne(rest, id, other);
      OccursAppend(Dropped(rest, ById(id)), last, other);
    }
  }

  lemma {:induction false} SuitingIsFirst(s: State, q: seq<Entry>, want: Want)
    requires Sorted(q)
    ensures var pick := FirstSuiting(s, q, want);
            && (pick.Some? ==> pick.value in q && Suits(s, pick.value, want))
            && (forall e :: e in q && Suits(s, e, want) ==> pick.Some? && pick.value.id <= e.id)
  {
    if q != [] {
      SuitingIsFirst(s, q[1..], want);
      assert q == [q[0]] + q[1..];
    }
  }

  lemma PickIsAdmissible(s: State, now: int)
    requires Sorted(s.queue)
    ensures var pick := Pick(s, now);
            && (pick.Some? ==> pick.value in s.queue && Admissible(s, pick.value))
            && (pick.None? ==> forall e :: e in s.queue ==> !Admissible(s, e))
  {
    SuitingIsFirst(s, s.queue, Starved(now));
    SuitingIsFirst(s, s.queue, Tier(Recovery));
    SuitingIsFirst(s, s.queue, Tier(Placement));
    SuitingIsFirst(s, s.queue, Tier(Read));
    forall e | e in s.queue && Admissible(s, e)
      ensures Suits(s, e, Tier(e.urgency))
    {
    }
  }

  // ---- the identity books ------------------------------------------------------------------

  /**
   * Every issued identity is in exactly one place: queued, handed to the transport, or settled
   * unsent; and every transmitted one is in flight or completed.
   */
  predicate Placed(queue: seq<Entry>, log: seq<Dispatch>, flying: seq<Entry>, unsent: seq<Entry>,
                   completed: seq<Entry>, created: nat, id: nat) {
    && Occurs(queue, id) + TimesSent(log, id) + Occurs(unsent, id) == (if id < created then 1 else 0)
    && TimesSent(log, id) == Occurs(flying, id) + Occurs(completed, id)
  }

  ghost predicate Books(s: State) {
    && Sorted(s.queue)
    && (forall id: nat :: Placed(s.queue, s.log, s.flying, s.unsent, s.completed, s.created, id))
    && (forall id :: id in s.withdrawn ==> Occurs(s.unsent, id) > 0)
  }

  predicate PlacedIn(s: State, id: nat) {
    Placed(s.queue, s.log, s.flying, s.unsent, s.completed, s.created, id)
  }

  /** The published counters account for every entry. */
  predicate Conserved(s: State) {
    && s.created == |s.queue| + s.mutations + s.generals + s.abandoned + s.refused
    && |s.log| == s.mutations + s.generals
  }

  function Count(q: seq<Entry>, u: Urgency): nat {
    if q == [] then 0
    else Count(q[..|q| - 1], u) + if q[|q| - 1].urgency == u then 1 else 0
  }

  lemma {:induction false} CountSplits(a: seq<Entry>, b: seq<Entry>, u: Urgency)
    ensures Count(a + b, u) == Count(a, u) + Count(b, u)
    ensures Count(a, u) <= |a|
  {
    if b == [] {
      assert a + b == a;
      if a != [] {
        CountSplits(a[..|a| - 1], [], u);
        assert a[..|a| - 1] + [] == a[..|a| - 1];
      }
    } else {
      assert (a + b)[..|a + b| - 1] == a + b[..|b| - 1];
      CountSplits(a, b[..|b| - 1], u);
    }
  }

  /** The concurrency caps, read off the calls actually in flight. */
  predicate Capped(s: State) {
    && ValidLimits(s.limits)
    && s.inFlight == |s.flying| <= s.limits.maxInFlight
    && s.readsInFlight == Count(s.flying, Read) <= s.limits.maxReads
    && |s.flying| - Count(s.flying, Recovery) <= s.limits.maxInFlight - s.limits.reserve
  }

  /** An idle loop leaves nothing it could send; a sleeping one holds an entry it may still send. */
  ghost predicate Attentive(s: State) {
    && (s.phase.Idle? ==> forall e :: e in s.queue ==> !Admissible(s, e))
    && (s.phase.Sleeping? ==>
          && s.phase.picked.id < s.created
          && Admissible(s, s.phase.picked)
          && (Queued(s, s.phase.picked.id) ==> s.phase.picked in s.queue))
  }

  ghost predicate Safe(s: State) {
    Books(s) && Conserved(s) && Capped(s) && Attentive(s)
  }

  // ---- each kind of step -------------------------------------------------------------------

  lemma DiscardKeepsBooks(s: State, cut: Cut)
    requires Books(s) && Conserved(s)
    ensures Books(Discard(s, cut)) && Conserved(Discard(s, cut))
  {
    CutKeepsSorted(s.queue, cut);
    forall id: nat
      ensures var d := Discard(s, cut);
              && Placed(d.queue, d.log, d.flying, d.unsent, d.completed, d.created, id)
              && Occurs(d.unsent, id) >= Occurs(s.unsent, id)
    {
      assert PlacedIn(s, id);
      CutSplits(s.queue, cut, id);
      OccursSplits(s.unsent, Dropped(s.queue, cut), id);
    }
    CutSplits(s.queue, cut, 0);
  }

  lemma QueuedOnce(s: State, e: Entry)
    requires Books(s) && e in s.queue
    ensures Occurs(s.queue, e.id) == 1 && e.id < s.created
    ensures |Keep(s.queue, ById(e.id))| == |s.queue| - 1
  {
    var i :| 0 <= i < |s.queue| && s.queue[i] == e;
    OccursWhere(s.queue, e.id);
    assert PlacedIn(s, e.id);
    CutOne(s.queue, e.id, e.id);
    CutSplits(s.queue, ById(e.id), e.id);
  }

  lemma CutTakesOne(s: State, e: Entry, id: nat)
    requires Books(s) && e in s.queue
    ensures Occurs(Keep(s.queue, ById(e.id)), id) == if id == e.id then 0 else Occurs(s.queue, id)
  {
    QueuedOnce(s, e);
    CutOne(s.queue, e.id, id);
    CutSplits(s.queue, ById(e.id), id);
  }

  lemma SentPlaces(s: State, e: Entry, now: int, admit: bool, id: nat)
    requires PlacedIn(s, id)
    requires Occurs(Keep(s.queue, ById(e.id)), id) + (if e.id == id then 1 else 0) == Occurs(s.queue, id)
    ensures PlacedIn(Sent(s, e, now, admit), id)
    ensures Occurs(Sent(s, e, now, admit).unsent, id) >= Occurs(s.unsent, id)
  {
    if admit {
      TimesSentAppend(s.log, Dispatch(e, now, s.pacing), id);
      OccursAppend(s.flying, e, id);
    } else {
      OccursAppend(s.unsent, e, id);
    }
  }

  lemma SentKeepsBooks(s: State, e: Entry, now: int, admit: bool)
    requires Books(s) && Conserved(s) && e in s.queue
    ensures Books(Sent(s, e, now, admit)) && Conserved(Sent(s, e, now, admit))
  {
    CutKeepsSorted(s.queue, ById(e.id));
    QueuedOnce(s, e);
    forall id: nat
      ensures var t := Sent(s, e, now, admit);
              && Placed(t.queue, t.log, t.flying, t.unsent, t.completed, t.created, id)
              && Occurs(t.unsent, id) >= Occurs(s.unsent, id)
    {
      assert PlacedIn(s, id);
      CutTakesOne(s, e, id);
      SentPlaces(s, e, now, admit, id);
    }
  }

  lemma SentKeepsCaps(s: State, e: Entry, now: int, admit: bool)
    requires Capped(s) && Admissible(s, e)
    ensures Capped(Sent(s, e, now, admit))
  {
    var s' := Sent(s, e, now, admit);
    if admit {
      assert s'.flying[..|s'.flying| - 1] == s.flying;
      CountSplits(s.flying, [], Recovery);
    }
  }

  lemma CompletePlaces(s: State, slot: nat, id: nat)
    requires slot < |s.flying| && PlacedIn(s, id)
    ensures PlacedIn(AfterComplete(s, slot), id)
  {
    var a, e, b := s.flying[..slot], s.flying[slot], s.flying[slot + 1..];
    assert s.flying == a + [e] + b;
    OccursSplits(a + [e], b, id);
    OccursAppend(a, e, id);
    OccursSplits(a, b, id);
    OccursAppend(s.completed, e, id);
  }

  lemma CompleteKeepsBooks(s: State, slot: nat)
    requires Books(s) && slot < |s.flying|
    ensures Books(AfterComplete(s, slot))
  {
    var s' := AfterComplete(s, slot);
    forall id: nat
      ensures Placed(s'.queue, s'.log, s'.flying, s'.unsent, s'.completed, s'.created, id)
    {
      assert PlacedIn(s, id);
      CompletePlaces(s, slot, id);
    }
  }

  lemma CompleteKeepsCaps(s: State, slot: nat)
    requires Capped(s) && slot < |s.flying|
    ensures Capped(AfterComplete(s, slot))
  {
    var a, e, b := s.flying[..slot], s.flying[slot], s.flying[slot + 1..];
    assert s.flying == a + [e] + b && [e][..0] == [];
    forall u
      ensures Count(s.flying, u) == Count(a + b, u) + if e.urgency == u then 1 else 0
    {
      CountSplits(a + [e], b, u);
      CountSplits(a, [e], u);
      CountSplits(a, b, u);
    }
  }

  lemma SubmitKeepsBooks(s: State, klass: PacingClass, urgency: Urgency, deadline: Option<int>, now: int)
    requires Books(s)
    ensures Books(AfterSubmit(s, klass, urgency, deadline, now))
  {
    var s' := AfterSubmit(s, klass, urgency, deadline, now);
    var e := Entry(s.created, klass, urgency, deadline, now);
    forall i | 0 <= i < |s.queue|
      ensures s.queue[i].id < s.created
    {
      QueuedOnce(s, s.queue[i]);
    }
    forall id: nat
      ensures Placed(s'.queue, s'.log, s'.flying, s'.unsent, s'.completed, s'.created, id)
      ensures Occurs(s'.unsent, id) >= Occurs(s.unsent, id)
    {
      assert PlacedIn(s, id);
      OccursAppend(s.queue, e, id);
      OccursAppend(s.unsent, e, id);
    }
  }

  lemma AbandonKeepsBooks(s: State, id: nat)
    requires Books(s) && Conserved(s)
    ensures Books(AfterAbandon(s, id)) && Conserved(AfterAbandon(s, id))
    ensures Queued(s, id) ==> id in AfterAbandon(s, id).withdrawn
  {
    if Queued(s, id) {
      DiscardKeepsBooks(s, ById(id));
      OccursWhere(s.queue, id);
      CutOne(s.queue, id, id);
      OccursSplits(s.unsent, Dropped(s.queue, ById(id)), id);
    }
  }

  lemma AbandonKeepsAttention(s: State, id: nat)
    requires Attentive(s)
    ensures Attentive(AfterAbandon(s, id))
  {
    CutMembers(s.queue, ById(id));
    if s.phase.Sleeping? && Queued(AfterAbandon(s, id), s.phase.picked.id) && Queued(s, id) {
      var q := Keep(s.queue, ById(id));
      var i :| 0 <= i < |q| && q[i].id == s.phase.picked.id;
      assert q[i] in s.queue;
    }
  }

  lemma DrainKeepsSafe(s: State, now: int, admit: bool)
    requires Safe(s) && s.phase.Draining?
    ensures Safe(AfterDrain(s, now, admit))
  {
    var s1 := Discard(s, Overdue(now)).(clock := now);
    DiscardKeepsBooks(s, Overdue(now));
    PickIsAdmissible(s1, now);
    var pick := Pick(s1, now);
    if pick.Some? {
      QueuedOnce(s1, pick.value);
      SentKeepsBooks(s1, pick.value, now, admit);
      SentKeepsCaps(s1, pick.value, now, admit);
    }
  }

  lemma WakeKeepsSafe(s: State, now: int, admit: bool)
    requires Safe(s) && s.phase.Sleeping?
    ensures Safe(AfterWake(s, now, admit))
  {
    var e := s.phase.picked;
    var s1 := s.(clock := now, phase := Draining);
    if Queued(s, e.id) {
      DiscardKeepsBooks(s1, ById(e.id));
      SentKeepsBooks(s1, e, now, admit);
      SentKeepsCaps(s1, e, now, admit);
    }
  }

  lemma NextKeepsSafe(s: State, step: Step)
    requires Safe(s) && Enabled(s, step)
    ensures Safe(Next(s, step))
  {
    match step
    case Submit(klass, urgency, deadline, now) => SubmitKeepsBooks(s, klass, urgency, deadline, now);
    case Abandon(id) =>
      AbandonKeepsBooks(s, id);
      AbandonKeepsAttention(s, id);
    case DrainPass(now, admit) => DrainKeepsSafe(s, now, admit);
    case Wake(now, admit) => WakeKeepsSafe(s, now, admit);
    case CloseLoop =>
    case Complete(slot) =>
      CompleteKeepsBooks(s, slot);
      CompleteKeepsCaps(s, slot);
    case Repoint(pacing) =>
  }

  lemma {:induction false} RunKeepsSafe(s: State, steps: seq<Step>)
    requires Safe(s)
    ensures Safe(Run(s, steps))
  {
    if steps != [] {
      var before := steps[..|steps| - 1];
      RunKeepsSafe(s, before);
      if Enabled(Run(s, before), steps[|steps| - 1]) {
        NextKeepsSafe(Run(s, before), steps[|steps| - 1]);
      }
    }
  }

  lemma InitialIsSafe(pacing: Pacing, limits: Limits)
    requires ValidLimits(limits)
    ensures Safe(Initial(pacing, limits))
  {
  }

  // ---- what every run keeps ----------------------------------------------------------------

  /**
   * Withdrawal is proof: once `abandon` returned true the entry is never handed to the transport,
   * however the rest of the run goes and even if the pacing sleep was for that very entry.
   */
  lemma {:induction false} WithdrawnIsNeverSent(s: State, id: nat, steps: seq<Step>)
    requires Safe(s) && Queued(s, id)
    ensures var s' := Run(AfterAbandon(s, id), steps);
            id in s'.withdrawn && TimesSent(s'.log, id) == 0 && Occurs(s'.unsent, id) == 1
  {
    NextKeepsSafe(s, Abandon(id));
    AbandonKeepsBooks(s, id);
    RunKeepsSafe(AfterAbandon(s, id), steps);
    WithdrawnStays(AfterAbandon(s, id), id, steps);
    assert PlacedIn(Run(AfterAbandon(s, id), steps), id);
  }

  lemma {:induction false} WithdrawnStays(s: State, id: nat, steps: seq<Step>)
    requires id in s.withdrawn
    ensures id in Run(s, steps).withdrawn
  {
    if steps != [] {
      WithdrawnStays(s, id, steps[..|steps| - 1]);
    }
  }

  /** A failed withdrawal of an issued entry means it was sent or already settled. */
  lemma RefusedWithdrawal(s: State, id: nat)
    requires Safe(s) && id < s.created && !Queued(s, id)
    ensures TimesSent(s.log, id) == 1 || Occurs(s.unsent, id) == 1
  {
    OccursWhere(s.queue, id);
    assert PlacedIn(s, id);
  }

  /** No entry is invoked twice or settled twice, and the counters lose none. */
  lemma EachEntryOnce(pacing: Pacing, limits: Limits, steps: seq<Step>, id: nat)
    requires ValidLimits(limits)
    ensures var s := Run(Initial(pacing, limits), steps);
            && TimesSent(s.log, id) <= 1
            && Occurs(s.unsent, id) + Occurs(s.completed, id) <= 1
            && s.created == |s.queue| + s.mutations + s.generals + s.abandoned + s.refused
  {
    InitialIsSafe(pacing, limits);
    RunKeepsSafe(Initial(pacing, limits), steps);
    assert PlacedIn(Run(Initial(pacing, limits), steps), id);
  }

  /** The caps hold on every run, and other work alone never locks recovery out. */
  lemma CapsOnEveryRun(pacing: Pacing, limits: Limits, steps: seq<Step>, recovery: Entry)
    requires ValidLimits(limits) && recovery.urgency.Recovery?
    ensures var s := Run(Initial(pacing, limits), steps);
            && s.limits == limits
            && s.inFlight == |s.flying| <= limits.maxInFlight
            && Count(s.flying, Read) <= limits.maxReads
            && |s.flying| - Count(s.flying, Recovery) <= limits.maxInFlight - limits.reserve
            && (limits.reserve >= 1 && Count(s.flying, Recovery) == 0 ==> Admissible(s, recovery))
  {
    InitialIsSafe(pacing, limits);
    RunKeepsSafe(Initial(pacing, limits), steps);
    LimitsStay(Initial(pacing, limits), steps);
  }

  lemma {:induction false} LimitsStay(s: State, steps: seq<Step>)
    ensures Run(s, steps).limits == s.limits
  {
    if steps != [] {
      LimitsStay(s, steps[..|steps| - 1]);
    }
  }

  /** No lost wake-up: when the loop is not running, nothing in the queue could be sent. */
  lemma IdleMeansNothingAdmissible(pacing: Pacing, limits: Limits, steps: seq<Step>)
    requires ValidLimits(limits)
    ensures var s := Run(Initial(pacing, limits), steps);
            s.phase.Idle? ==> !CanDispatchSomething(s)
  {
    InitialIsSafe(pacing, limits);
    RunKeepsSafe(Initial(pacing, limits), steps);
    var s := Run(Initial(pacing, limits), steps);
    assert forall i :: 0 <= i < |s.queue| ==> s.queue[i] in s.queue;
  }
}
