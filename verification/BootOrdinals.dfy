/** Processes claiming boot ordinals from one database row, and the clients of their decisions. */
module BootOrdinals {
  import opened Prelude
  import opened ReadinessOrder

  /** What the epoch query came back with. */
  datatype Reply = Row(ordinal: int) | NoRow | Failed

  /** The claim state of one process. */
  datatype Instance = Instance(id: string, ordinal: Option<int>, resolved: bool, inFlight: bool)

  /** A call starts a claim only when none is settled and none is in flight. */
  function Called(i: Instance): Instance {
    if i.resolved || i.inFlight then i else i.(inFlight := true)
  }

  /** A usable row is adopted; a missing or unusable one is final; a failure may be retried. */
  function Answered(i: Instance, reply: Reply): Instance {
    match reply
    case Row(v) => i.(ordinal := if v > 0 then Some(v) else i.ordinal, resolved := true, inFlight := false)
    case NoRow => i.(resolved := true, inFlight := false)
    case Failed => i.(inFlight := false)
  }

  class BackendInstance {
    const instanceId: string
    var bootOrdinal: Option<int>
    var resolved: bool
    var inFlight: bool

    ghost function View(): Instance
      reads this
    {
      Instance(instanceId, bootOrdinal, resolved, inFlight)
    }

    constructor (id: string)
      ensures View() == Instance(id, None, false, false)
    {
      instanceId, bootOrdinal, resolved, inFlight := id, None, false, false;
    }

    /** Returns whether this call is the one that issues the query. */
    method ResolveBootOrdinal() returns (issues: bool)
      modifies this`inFlight
      ensures View() == Called(old(View()))
      ensures issues <==> !old(resolved) && !old(inFlight)
    {
      issues := !resolved && !inFlight;
      if issues {
        inFlight := true;
      }
    }

    /** One claim attempt comes back. */
    method ClaimSettled(reply: Reply) returns (ordinal: Option<int>)
      modifies this
      ensures View() == Answered(old(View()), reply)
      ensures !inFlight
      ensures reply.Row? && reply.ordinal > 0 ==> ordinal == bootOrdinal == Some(reply.ordinal) && resolved
      ensures reply.NoRow? || (reply.Row? && reply.ordinal <= 0) ==>
                ordinal.None? && bootOrdinal == old(bootOrdinal) && resolved
      ensures reply.Failed? ==> ordinal.None? && bootOrdinal == old(bootOrdinal) && resolved == old(resolved)
    {
      inFlight, ordinal := false, None;
      if reply.NoRow? {
        resolved := true;
      } else if reply.Row? {
        resolved := true;
        if reply.ordinal > 0 {
          bootOrdinal := Some(reply.ordinal);
          ordinal := bootOrdinal;
        }
      }
    }
  }

  // ---- the system --------------------------------------------------------------------------

  datatype Query = NoQuery | Sent | Back(reply: Reply)

  datatype Process = Process(claim: Instance, query: Query, generation: nat)

  datatype System = System(
    row: Option<int>,              // the epoch row, absent before its migration
    processes: seq<Process>,
    published: seq<Stamp>,
    clients: seq<seq<Stamp>>)      // what each client has received, in order

  datatype Step =
    | Boot(id: string)
    | Call(p: nat)
    | Commit(p: nat)               // the update commits and its row is on the way
    | Fail(p: nat)                 // the query fails, or its answer is lost after the commit
    | Settle(p: nat)
    | Publish(p: nat)
    | Deliver(client: nat, message: nat)

  predicate Enabled(s: System, step: Step) {
    match step
    case Boot(id) => id != "" && forall i :: 0 <= i < |s.processes| ==> s.processes[i].claim.id != id
    case Call(p) => p < |s.processes|
    case Commit(p) => p < |s.processes| && s.processes[p].query.Sent?
    case Fail(p) => p < |s.processes| && !s.processes[p].query.NoQuery?
    case Settle(p) => p < |s.processes| && s.processes[p].query.Back?
    case Publish(p) => p < |s.processes|
    case Deliver(client, message) => client < |s.clients| && message < |s.published|
  }

  function Next(s: System, step: Step): System
    requires Enabled(s, step)
  {
    match step
    case Boot(id) => s.(processes := s.processes + [Process(Instance(id, None, false, false), NoQuery, 0)])
    case Call(p) =>
      var proc := s.processes[p];
      var claim := Called(proc.claim);
      s.(processes := s.processes[p := proc.(claim := claim, query := if claim != proc.claim then Sent else proc.query)])
    case Commit(p) =>
      if s.row.None? then s.(processes := s.processes[p := s.processes[p].(query := Back(NoRow))])
      else
        s.(row := Some(s.row.value + 1),
        processes := s.processes[p := s.processes[p].(query := Back(Row(s.row.value + 1)))])
    case Fail(p) => s.(processes := s.processes[p := s.processes[p].(query := Back(Failed))])
    case Settle(p) =>
      var proc := s.processes[p];
      s.(processes := s.processes[p := proc.(claim := Answered(proc.claim, proc.query.reply), query := NoQuery)])
    case Publish(p) =>
      var proc := s.processes[p];
      s.(processes := s.processes[p := proc.(generation := proc.generation + 1)],
      published := s.published + [Stamp(Some(proc.claim.id), proc.claim.ordinal, Some(proc.generation + 1))])
    case Deliver(client, message) =>
      s.(clients := s.clients[client := s.clients[client] + [s.published[message]]])
  }

  function Run(s: System, steps: seq<Step>): System {
    if steps == [] then s
    else
      var before := Run(s, steps[..|steps| - 1]);
      if Enabled(before, steps[|steps| - 1]) then Next(before, steps[|steps| - 1]) else before
  }

  function Start(row: Option<int>, clients: nat): System {
    System(row, [], [], seq(clients, _ => []))
  }

  // ---- distinct ordinals -------------------------------------------------------------------

  /** The ordinal a process holds or is about to hold. */
  function Holding(p: Process): Option<int> {
    if p.claim.ordinal.Some? then p.claim.ordinal
    else if p.query.Back? && p.query.reply.Row? then Some(p.query.reply.ordinal)
    else None
  }

  predicate SingleFlight(p: Process) {
    && (p.claim.inFlight <==> !p.query.NoQuery?)
    && (p.claim.resolved ==> !p.claim.inFlight)
    && (p.claim.ordinal.Some? ==> p.claim.resolved)
    && p.claim.id != ""
  }

  predicate Distinct(s: System) {
    && (forall i :: 0 <= i < |s.processes| ==> SingleFlight(s.processes[i]))
    && (forall i :: 0 <= i < |s.processes| && Holding(s.processes[i]).Some? ==>
                      s.row.Some? && Holding(s.processes[i]).value <= s.row.value)
    && (forall i, j :: 0 <= i < j < |s.processes| ==>
                         && s.processes[i].claim.id != s.processes[j].claim.id
                         && (Holding(s.processes[i]).Some? ==> Holding(s.processes[i]) != Holding(s.processes[j])))
  }

  /** Every orderable message names a process and the ordinal it holds. */
  ghost predicate Signed(s: System) {
    forall k :: 0 <= k < |s.published| && Orderable(s.published[k]) ==>
                  exists p :: 0 <= p < |s.processes|
                              && s.published[k].instance == Some(s.processes[p].claim.id)
                              && s.published[k].ordinal == s.processes[p].claim.ordinal
  }

  predicate Delivered(s: System) {
    forall c, k :: 0 <= c < |s.clients| && 0 <= k < |s.clients[c]| ==> s.clients[c][k] in s.published
  }

  ghost predicate Inv(s: System) {
    Distinct(s) && Signed(s) && Delivered(s)
  }

  /** One process moves: it keeps, gives up, or takes the ordinal the row has just reached. */
  lemma MoveKeepsDistinct(s: System, p: nat, moved: Process, row: Option<int>)
    requires Distinct(s) && p < |s.processes|
    requires moved.claim.id == s.processes[p].claim.id && SingleFlight(moved)
    requires row == s.row || (s.row.Some? && row == Some(s.row.value + 1))
    requires Holding(moved).None? || Holding(moved) == Holding(s.processes[p]) || (row == Holding(moved) && row != s.row)
    ensures Distinct(s.(processes := s.processes[p := moved], row := row))
  {
  }

  lemma NextKeepsDistinct(s: System, step: Step)
    requires Distinct(s) && Enabled(s, step)
    ensures Distinct(Next(s, step))
  {
    var s' := Next(s, step);
    if !step.Boot? && !step.Deliver? {
      assert SingleFlight(s.processes[step.p]);
      assert Distinct(System(s'.row, s'.processes, s.published, s.clients)) by {
        MoveKeepsDistinct(s, step.p, s'.processes[step.p], s'.row);
      }
    }
  }

  /** A held ordinal and an identity are permanent. */
  lemma NextKeepsOrdinals(s: System, step: Step, p: nat)
    requires Distinct(s) && Enabled(s, step) && p < |s.processes|
    ensures var s' := Next(s, step);
            && p < |s'.processes|
            && s'.processes[p].claim.id == s.processes[p].claim.id
            && (s.processes[p].claim.ordinal.Some? ==> s'.processes[p].claim.ordinal == s.processes[p].claim.ordinal)
  {
  }

  lemma NextKeepsSigned(s: System, step: Step)
    requires Inv(s) && Enabled(s, step)
    ensures Signed(Next(s, step))
  {
    var s' := Next(s, step);
    forall k | 0 <= k < |s'.published| && Orderable(s'.published[k])
      ensures exists p :: 0 <= p < |s'.processes|
                          && s'.published[k].instance == Some(s'.processes[p].claim.id)
                          && s'.published[k].ordinal == s'.processes[p].claim.ordinal
    {
      if k < |s.published| {
        assert s'.published[k] == s.published[k];
        var p :| 0 <= p < |s.processes|
              && s.published[k].instance == Some(s.processes[p].claim.id)
              && s.published[k].ordinal == s.processes[p].claim.ordinal;
        NextKeepsOrdinals(s, step, p);
        assert s'.published[k].ordinal == s'.processes[p].claim.ordinal;
      } else {
        assert s'.published[k].ordinal == s'.processes[step.p].claim.ordinal;
      }
    }
  }

  lemma {:induction false} RunKeepsInv(s: System, steps: seq<Step>)
    requires Inv(s)
    ensures Inv(Run(s, steps))
  {
    if steps != [] {
      var before := Run(s, steps[..|steps| - 1]);
      RunKeepsInv(s, steps[..|steps| - 1]);
      if Enabled(before, steps[|steps| - 1]) {
        NextKeepsDistinct(before, steps[|steps| - 1]);
        NextKeepsSigned(before, steps[|steps| - 1]);
      }
    }
  }

  /** Under any interleaving of retries and failures no two processes hold the same ordinal. */
  lemma OrdinalsAreDistinct(row: Option<int>, clients: nat, steps: seq<Step>, p: nat, q: nat)
    requires var s := Run(Start(row, clients), steps); p < |s.processes| && q < |s.processes| && p != q
    ensures var s := Run(Start(row, clients), steps);
            s.processes[p].claim.ordinal.Some? ==> s.processes[p].claim.ordinal != s.processes[q].claim.ordinal
  {
    RunKeepsInv(Start(row, clients), steps);
  }

  /** A process never changes its ordinal, however often the claim is repeated. */
  lemma {:induction false} OrdinalIsPermanent(s: System, steps: seq<Step>, p: nat)
    requires Inv(s) && p < |s.processes|
    ensures var s' := Run(s, steps);
            && p < |s'.processes|
            && s'.processes[p].claim.id == s.processes[p].claim.id
            && (s.processes[p].claim.ordinal.Some? ==> s'.processes[p].claim.ordinal == s.processes[p].claim.ordinal)
  {
    if steps != [] {
      var before := Run(s, steps[..|steps| - 1]);
      OrdinalIsPermanent(s, steps[..|steps| - 1], p);
      RunKeepsInv(s, steps[..|steps| - 1]);
      if Enabled(before, steps[|steps| - 1]) {
        NextKeepsOrdinals(before, steps[|steps| - 1], p);
      }
    }
  }

  lemma {:induction false} LaterClaimIsAbove(s: System, steps: seq<Step>, q: nat)
    requires Inv(s) && s.row.Some? && q < |s.processes| && Holding(s.processes[q]).None?
    ensures var s' := Run(s, steps);
            && q < |s'.processes| && s'.row.Some? && s'.row.value >= s.row.value
            && (Holding(s'.processes[q]).Some? ==> Holding(s'.processes[q]).value > s.row.value)
  {
    if steps != [] {
      LaterClaimIsAbove(s, steps[..|steps| - 1], q);
      RunKeepsInv(s, steps[..|steps| - 1]);
    }
  }

  /** "Newer" means newer: a claim that commits after another process holds its ordinal is larger. */
  lemma LaterBootIsNewer(s: System, steps: seq<Step>, p: nat, q: nat)
    requires Inv(s) && p < |s.processes| && q < |s.processes|
    requires s.processes[p].claim.ordinal.Some? && Holding(s.processes[q]).None?
    ensures var s' := Run(s, steps);
            && q < |s'.processes|
            && (s'.processes[q].claim.ordinal.Some? ==>
                  s'.processes[q].claim.ordinal.value > s.processes[p].claim.ordinal.value)
  {
    assert Holding(s.processes[p]).Some?;
    LaterClaimIsAbove(s, steps, q);
  }

  // ---- claims succeed ----------------------------------------------------------------------

  /** The steps neither lose nor settle this process's answer. */
  predicate LeavesAnswer(steps: seq<Step>, p: nat) {
    forall i :: 0 <= i < |steps| ==> steps[i] != Fail(p) && steps[i] != Settle(p)
  }

  lemma {:induction false} AnswerWaits(s: System, steps: seq<Step>, p: nat)
    requires Inv(s) && p < |s.processes| && s.processes[p].query.Back? && LeavesAnswer(steps, p)
    ensures var s' := Run(s, steps);
            && p < |s'.processes|
            && s'.processes[p].query == s.processes[p].query
            && s'.processes[p].claim == s.processes[p].claim
  {
    if steps != [] {
      var before := steps[..|steps| - 1];
      AnswerWaits(s, before, p);
      RunKeepsInv(s, before);
      assert SingleFlight(Run(s, before).processes[p]);
    }
  }

  /**
   * A claim that committed and was not lost is held: whatever happens in between, settling it gives the
   * process the value its own update produced, and every later decision of it can be ordered.
   */
  lemma CommittedClaimIsHeld(s: System, p: nat, between: seq<Step>, after: seq<Step>)
    requires Inv(s) && p < |s.processes| && s.processes[p].query.Sent?
    requires s.row.Some? && s.row.value >= 0 && LeavesAnswer(between, p)
    ensures var answered := Run(Next(s, Commit(p)), between);
            && Enabled(answered, Settle(p))
            && var settled := Run(Next(answered, Settle(p)), after);
               && p < |settled.processes|
               && settled.processes[p].claim.ordinal == Some(s.row.value + 1)
               && var published := Next(settled, Publish(p)).published;
                  var decision := published[|published| - 1];
                  && Orderable(decision) && decision.ordinal == Some(s.row.value + 1)
                  && decision.instance == Some(s.processes[p].claim.id)
  {
    var committed := Next(s, Commit(p));
    NextKeepsInv(s, Commit(p));
    AnswerWaits(committed, between, p);
    var answered := Run(committed, between);
    RunKeepsInv(committed, between);
    NextKeepsInv(answered, Settle(p));
    OrdinalIsPermanent(Next(answered, Settle(p)), after, p);
    RunKeepsInv(Next(answered, Settle(p)), after);
    assert SingleFlight(Run(Next(answered, Settle(p)), after).processes[p]);
  }

  lemma NextKeepsInv(s: System, step: Step)
    requires Inv(s) && Enabled(s, step)
    ensures Inv(Next(s, step))
  {
    NextKeepsDistinct(s, step);
    NextKeepsSigned(s, step);
  }

  /** A lost or failed attempt costs nothing but itself: the next call issues a new query. */
  lemma FailureIsRetried(s: System, p: nat)
    requires Inv(s) && p < |s.processes| && !s.processes[p].query.NoQuery?
    ensures var failed := Next(Next(s, Fail(p)), Settle(p));
            && failed.processes[p].claim.ordinal == s.processes[p].claim.ordinal
            && Next(failed, Call(p)).processes[p].query.Sent?
  {
    assert SingleFlight(s.processes[p]);
  }

  // ---- end to end --------------------------------------------------------------------------

  lemma SignedIsConsistent(s: System, messages: seq<Stamp>)
    requires Distinct(s) && Signed(s) && forall m :: m in messages ==> m in s.published
    ensures Consistent(messages)
  {
    forall a, b | a in messages && b in messages && Orderable(a) && Orderable(b)
      ensures a.instance == b.instance <==> a.ordinal == b.ordinal
    {
      assert a in s.published && b in s.published;
      var k :| 0 <= k < |s.published| && s.published[k] == a;
      var l :| 0 <= l < |s.published| && s.published[l] == b;
      var p :| 0 <= p < |s.processes|
            && s.published[k].instance == Some(s.processes[p].claim.id)
            && s.published[k].ordinal == s.processes[p].claim.ordinal;
      var q :| 0 <= q < |s.processes|
            && s.published[l].instance == Some(s.processes[q].claim.id)
            && s.published[l].ordinal == s.processes[q].claim.ordinal;
      assert Holding(s.processes[p]) == a.ordinal && Holding(s.processes[q]) == b.ordinal;
    }
  }

  /**
   * On every run of claims, retries, losses, decisions and deliveries, each client shows the newest
   * decision it received, and clients that received the same decisions show the same one.
   */
  lemma EveryClientShowsNewest(row: Option<int>, clients: nat, steps: seq<Step>, c: nat, d: nat)
    requires c < |Run(Start(row, clients), steps).clients| && d < |Run(Start(row, clients), steps).clients|
    ensures var s := Run(Start(row, clients), steps);
            && IsNewest(Rendered(s.clients[c]), s.clients[c])
            && ((forall m :: m in s.clients[c] <==> m in s.clients[d]) ==>
                  Rendered(s.clients[c]) == Rendered(s.clients[d]))
  {
    var s := Run(Start(row, clients), steps);
    RunKeepsInv(Start(row, clients), steps);
    SignedIsConsistent(s, s.clients[c]);
    ClientShowsNewest(s.clients[c]);
    if forall m :: m in s.clients[c] <==> m in s.clients[d] {
      ClientsAgree(s.clients[c], s.clients[d]);
    }
  }
}
