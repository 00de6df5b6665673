/** The pacer both live adapters share: its fields, changed in place by the steps of the model. */
module TransportPacing {
  import opened Prelude
  import opened PacerModel
  import opened PacerSafety

  lemma {:induction false} SuitingAppend(s: State, q: seq<Entry>, e: Entry, want: Want)
    ensures FirstSuiting(s, q + [e], want)
            == FirstSuiting(s, q, want).OrElse(if Suits(s, e, want) then Some(e) else None)
  {
    if q == [] {
      assert (q + [e])[1..] == [];
    } else {
      assert (q + [e])[1..] == q[1..] + [e];
      SuitingAppend(s, q[1..], e, want);
    }
  }

  lemma {:induction false} CutIsSplice(q: seq<Entry>, i: nat)
    requires Sorted(q) && i < |q|
    ensures Keep(q, ById(q[i].id)) == q[..i] + q[i + 1..]
    ensures Dropped(q, ById(q[i].id)) == [q[i]]
  {
    var rest, last, id := q[..|q| - 1], q[|q| - 1], q[i].id;
    if i == |q| - 1 {
      CutOfNone(rest, id);
    } else {
      CutIsSplice(rest, i);
      assert rest[..i] == q[..i] && rest[i + 1..] + [last] == q[i + 1..];
    }
  }

  lemma {:induction false} CutOfNone(q: seq<Entry>, id: nat)
    requires forall i :: 0 <= i < |q| ==> q[i].id != id
    ensures Keep(q, ById(id)) == q && Dropped(q, ById(id)) == []
  {
    if q != [] {
      CutOfNone(q[..|q| - 1], id);
    }
  }

  /** What has happened so far, kept for the specification. */
  datatype History = History(
    clock: int, flying: seq<Entry>, log: seq<Dispatch>, withdrawn: set<nat>, unsent: seq<Entry>, completed: seq<Entry>)

  class TransportPacer {
    const limits: Limits
    var pacing: Pacing
    var queue: seq<Entry>
    var inFlight: nat
    var readsInFlight: nat
    var lastOrder: Option<int>
    var lastGeneral: Option<int>
    var lastAny: Option<int>
    var nextId: nat
    var phase: Phase
    var orderMutations: nat
    var generalCalls: nat
    var abandonedBeforeDispatch: nat
    var refusedAtDispatch: nat

    ghost var past: History

    ghost function View(): State
      reads this
    {
      State(pacing, limits, queue, inFlight, readsInFlight, lastOrder, lastGeneral, lastAny, nextId, phase,
            orderMutations, generalCalls, abandonedBeforeDispatch, refusedAtDispatch,
            past.clock, past.flying, past.log, past.withdrawn, past.unsent, past.completed)
    }

    ghost predicate Valid()
      reads this
    {
      Safe(View())
    }

    constructor (pacing: Pacing, maxInFlight: Option<int>, reserve: Option<int>, maxReads: Option<int>)
      ensures Valid()
      ensures View() == Initial(pacing, SanitisedLimits(maxInFlight, reserve, maxReads))
    {
      this.limits := SanitisedLimits(maxInFlight, reserve, maxReads);
      this.pacing := pacing;
      queue, phase, nextId := [], Idle, 0;
      inFlight, readsInFlight := 0, 0;
      lastOrder, lastGeneral, lastAny := None, None, None;
      orderMutations, generalCalls, abandonedBeforeDispatch, refusedAtDispatch := 0, 0, 0, 0;
      past := History(0, [], [], {}, [], []);
      new;
      InitialIsSafe(pacing, limits);
    }

    /** After a broker switch. The watermarks are retained. */
    method Switch(to: Pacing)
      requires Valid()
      modifies this`pacing
      ensures Valid() && View() == Next(old(View()), Repoint(to))
    {
      NextKeepsSafe(View(), Repoint(to));
      pacing := to;
    }

    method Submit(klass: PacingClass, urgency: Urgency, deadline: Option<int>, now: int) returns (id: nat)
      requires Valid()
      modifies this
      ensures Valid() && id == old(nextId)
      ensures View() == Next(old(View()), PacerModel.Submit(klass, urgency, deadline, now))
    {
      NextKeepsSafe(View(), PacerModel.Submit(klass, urgency, deadline, now));
      id := nextId;
      var entry := Entry(id, klass, urgency, deadline, now);
      nextId := nextId + 1;
      if deadline.Some? && now >= deadline.value {
        abandonedBeforeDispatch := abandonedBeforeDispatch + 1;
        past := past.(clock := now, unsent := past.unsent + [entry]);
      } else {
        past := past.(clock := now);
        queue := queue + [entry];
        phase := Started(phase);
      }
    }

    /** Where the entry sits in the queue, if it is still queued. */
    method IndexOf(id: nat) returns (index: Option<nat>)
      ensures index.Some? ==> index.value < |queue| && queue[index.value].id == id
      ensures index.None? ==> forall i :: 0 <= i < |queue| ==> queue[i].id != id
    {
      for i := 0 to |queue|
        invariant forall j :: 0 <= j < i ==> queue[j].id != id
      {
        if queue[i].id == id {
          return Some(i);
        }
      }
      return None;
    }

    /** True is a proof that nothing was, or ever will be, transmitted. */
    method Abandon(id: nat) returns (proven: bool)
      requires Valid()
      modifies this
      ensures Valid() && View() == Next(old(View()), PacerModel.Abandon(id))
      ensures proven == Queued(old(View()), id)
    {
      NextKeepsSafe(View(), PacerModel.Abandon(id));
      var index := IndexOf(id);
      proven := index.Some?;
      if proven {
        var i := index.value;
        CutIsSplice(queue, i);
        past := past.(unsent := past.unsent + [queue[i]], withdrawn := past.withdrawn + {id});
        queue := queue[..i] + queue[i + 1..];
        abandonedBeforeDispatch := abandonedBeforeDispatch + 1;
        phase := Started(phase);
      }
    }

    /** Separate the live entries from those whose deadline passed while they were queued. */
    static method SplitExpired(q: seq<Entry>, now: int) returns (live: seq<Entry>, refused: nat, ghost gone: seq<Entry>)
      ensures live == Keep(q, Overdue(now)) && gone == Dropped(q, Overdue(now)) && refused == |gone|
    {
      live, refused, gone := q, 0, [];
      var kept := 0;
      ghost var front: seq<Entry> := [];
      for i := 0 to |q|
        invariant kept == |front| && live == front + q[i..]
        invariant front == Keep(q[..i], Overdue(now))
        invariant gone == Dropped(q[..i], Overdue(now)) && refused == |gone|
      {
        assert q[..i + 1][..i] == q[..i];
        Splice(front, q[i], q[i + 1..]);
        assert q[i..] == [q[i]] + q[i + 1..];
        var deadline := q[i].deadline;
        if deadline.Some? && now >= deadline.value {
          gone := gone + [q[i]];
          live := live[..kept] + live[kept + 1..];
          refused := refused + 1;
        } else {
          front := front + [q[i]];
          kept := kept + 1;
        }
      }
      assert q[..|q|] == q;
    }

    static lemma Splice(front: seq<Entry>, e: Entry, rest: seq<Entry>)
      ensures var all := front + ([e] + rest);
              all == (front + [e]) + rest && all[..|front|] == front && all[|front| + 1..] == rest
    {
    }

    method RefuseExpiredEntries(now: int)
      modifies this
      ensures View() == Discard(old(View()), Overdue(now)).(clock := now)
    {
      var live, refused, gone := SplitExpired(queue, now);
      queue := live;
      abandonedBeforeDispatch := abandonedBeforeDispatch + refused;
      past := past.(clock := now, unsent := past.unsent + gone);
    }

    /** Refuse one queued entry whose deadline passed; nothing is sent, no watermark is stamped. */
    method RefuseExpired(entry: Entry)
      requires Sorted(queue) && Queued(View(), entry.id)
      modifies this
      ensures View() == Discard(old(View()), ById(entry.id))
    {
      var index := IndexOf(entry.id);
      var i := index.value;
      CutIsSplice(queue, i);
      past := past.(unsent := past.unsent + [queue[i]]);
      queue := queue[..i] + queue[i + 1..];
      abandonedBeforeDispatch := abandonedBeforeDispatch + 1;
    }

    function Rank(urgency: Urgency): nat {
      match urgency case Recovery => 0 case Placement => 1 case Read => 2
    }

    ghost function MostUrgent(q: seq<Entry>): Option<Entry>
      reads this
    {
      FirstSuiting(View(), q, Tier(Recovery))
      .OrElse(FirstSuiting(View(), q, Tier(Placement)))
      .OrElse(FirstSuiting(View(), q, Tier(Read)))
    }

    predicate Fits(urgency: Urgency)
      reads this
    {
      Admits(limits, inFlight, readsInFlight, urgency)
    }

    /** One scan keeping the best and the starved candidate. */
    method PickNext(now: int) returns (best: Option<Entry>)
      requires Sorted(queue)
      ensures best == Pick(View(), now)
    {
      var starved: Option<Entry> := None;
      best := None;
      for i := 0 to |queue|
        invariant starved == FirstSuiting(View(), queue[..i], Starved(now))
        invariant best == MostUrgent(queue[..i])
      {
        var candidate := queue[i];
        assert queue[..i + 1] == queue[..i] + [candidate];
        ScanStep(i, now);
        if Fits(candidate.urgency) {
          if now - candidate.enqueuedAt >= STARVATION_GRACE_MS
             && (starved.None? || candidate.id < starved.value.id) {
            starved := Some(candidate);
          }
          if best.None?
             || Rank(candidate.urgency) < Rank(best.value.urgency)
             || (candidate.urgency == best.value.urgency && candidate.id < best.value.id) {
            best := Some(candidate);
          }
        }
      }
      assert queue[..|queue|] == queue;
      if starved.Some? {
        best := starved;
      }
    }

    lemma ScanStep(i: nat, now: int)
      requires Sorted(queue) && i < |queue|
      ensures forall want :: FirstSuiting(View(), queue[..i] + [queue[i]], want)
                             == FirstSuiting(View(), queue[..i], want)
                                .OrElse(if Suits(View(), queue[i], want) then Some(queue[i]) else None)
      ensures forall want :: var first := FirstSuiting(View(), queue[..i], want);
                             first.Some? ==> first.value.id < queue[i].id && Suits(View(), first.value, want)
    {
      forall want
        ensures FirstSuiting(View(), queue[..i] + [queue[i]], want)
                == FirstSuiting(View(), queue[..i], want)
                   .OrElse(if Suits(View(), queue[i], want) then Some(queue[i]) else None)
      {
        SuitingAppend(View(), queue[..i], queue[i], want);
      }
      forall want
        ensures var first := FirstSuiting(View(), queue[..i], want);
                first.Some? ==> first.value.id < queue[i].id && Suits(View(), first.value, want)
      {
        SuitingIsFirst(View(), queue[..i], want);
      }
    }

    /** Splice one entry out of the queue. */
    method Take(entry: Entry)
      requires Sorted(queue) && entry in queue
      modifies this`queue
      ensures queue == Keep(old(queue), ById(entry.id))
    {
      var index := IndexOf(entry.id);
      CutIsSplice(queue, index.value);
      queue := queue[..index.value] + queue[index.value + 1..];
    }

    /** Move the watermarks of the class and of the transport. */
    method Stamp(klass: PacingClass, now: int)
      modifies this`lastAny, this`lastOrder, this`lastGeneral, this`orderMutations, this`generalCalls
      ensures lastAny == Some(now)
      ensures lastOrder == if klass.OrderMutation? then Some(now) else old(lastOrder)
      ensures lastGeneral == if klass.General? then Some(now) else old(lastGeneral)
      ensures orderMutations == old(orderMutations) + if klass.OrderMutation? then 1 else 0
      ensures generalCalls == old(generalCalls) + if klass.General? then 1 else 0
    {
      lastAny := Some(now);
      if klass.OrderMutation? {
        lastOrder, orderMutations := Some(now), orderMutations + 1;
      } else {
        lastGeneral, generalCalls := Some(now), generalCalls + 1;
      }
    }

    /** The only place that puts a request on the wire. */
    method Dispatch(entry: Entry, now: int, admit: bool)
      requires Sorted(queue) && entry in queue
      modifies this
      ensures View() == Sent(old(View()), entry, now, admit)
    {
      Take(entry);
      if admit {
        Transmit(entry, now);
      } else {
        refusedAtDispatch := refusedAtDispatch + 1;
        past := past.(unsent := past.unsent + [entry]);
      }
    }

    method Transmit(entry: Entry, now: int)
      modifies this`lastAny, this`lastOrder, this`lastGeneral, this`orderMutations, this`generalCalls,
               this`inFlight, this`readsInFlight, this`past
      ensures View() == Launched(old(View()), entry, now)
    {
      Stamp(entry.klass, now);
      inFlight := inFlight + 1;
      readsInFlight := if entry.urgency.Read? then readsInFlight + 1 else readsInFlight;
      past := past.(log := past.log + [PacerModel.Dispatch(entry, now, pacing)], flying := past.flying + [entry]);
    }

    /** One scheduling decision, up to its return or to its pacing sleep. */
    method DrainStep(now: int, admit: bool)
      requires Valid() && phase.Draining?
      modifies this
      ensures Valid() && View() == Next(old(View()), DrainPass(now, admit))
    {
      NextKeepsSafe(View(), DrainPass(now, admit));
      CutKeepsSorted(queue, Overdue(now));
      RefuseExpiredEntries(now);
      PickIsAdmissible(View(), now);
      var next := PickNext(now);
      if next.None? {
        phase := Closing;
        return;
      }
      var entry := next.value;
      var classLast := if entry.klass.OrderMutation? then lastOrder else lastGeneral;
      var classMs := if entry.klass.OrderMutation? then pacing.orderMs else pacing.generalMs;
      var wait := Max(PacingWait(classMs, classLast, now), PacingWait(pacing.orderMs, lastAny, now));
      if wait > 0 {
        phase := Sleeping(entry, now);
      } else {
        Dispatch(entry, now, admit);
      }
    }

    /** The rest of a scheduling decision, after its pacing sleep. */
    method WakeUp(now: int, admit: bool)
      requires Valid() && phase.Sleeping?
      modifies this
      ensures Valid() && View() == Next(old(View()), Wake(now, admit))
    {
      NextKeepsSafe(View(), Wake(now, admit));
      var entry, served := phase.picked, now - phase.since;
      var index := IndexOf(entry.id);
      phase, past := Draining, past.(clock := now);
      if index.None? || served > 0 || served < 0 {
        return;
      }
      if entry.deadline.Some? && now >= entry.deadline.value {
        RefuseExpired(entry);
      } else {
        Dispatch(entry, now, admit);
      }
    }

    /** The loop's `finally`: an arrival in the last gap must not be left behind. */
    method FinishDraining()
      requires Valid() && phase.Closing?
      modifies this`phase
      ensures Valid() && View() == Next(old(View()), CloseLoop)
    {
      NextKeepsSafe(View(), CloseLoop);
      var found := false;
      for i := 0 to |queue|
        invariant found == exists j :: 0 <= j < i && Admissible(View(), queue[j])
      {
        found := found || Fits(queue[i].urgency);
      }
      phase := if found then Draining else Idle;
    }

    /** A call settled: free its slot and look again. */
    method Release(entry: Entry, ghost slot: nat)
      requires Valid() && slot < |past.flying| && past.flying[slot] == entry
      modifies this
      ensures Valid() && View() == Next(old(View()), Complete(slot))
    {
      NextKeepsSafe(View(), Complete(slot));
      inFlight := Max(0, inFlight - 1);
      readsInFlight := if entry.urgency.Read? then Max(0, readsInFlight - 1) else readsInFlight;
      past := past.(flying := past.flying[..slot] + past.flying[slot + 1..], completed := past.completed + [entry]);
      phase := Started(phase);
    }
  }
}
