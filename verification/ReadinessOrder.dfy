/** How a client orders readiness decisions across restarts. */
module ReadinessOrder {
  import opened Prelude

  /** The ordering fields of a decision. `None` is a null or non-finite field. */
  datatype Stamp = Stamp(instance: Option<string>, ordinal: Option<int>, generation: Option<int>)

  datatype Verdict = Accept | AdoptNewInstance | RejectStale | RejectIncompatible

  /** What a client shows before anything arrived. */
  const NOTHING := Stamp(None, None, None)

  function Judge(rendered: Stamp, incoming: Stamp): Verdict {
    if incoming.generation.None? then RejectIncompatible
    else if incoming.instance.None? || incoming.instance.value == "" then RejectIncompatible
    else if incoming.ordinal.None? then RejectIncompatible
    else if rendered.instance.None? || rendered.generation.None? then Accept
    else if incoming.instance == rendered.instance then
      if incoming.generation.value > rendered.generation.value then Accept else RejectStale
    else if rendered.ordinal.None? then AdoptNewInstance
    else if incoming.ordinal.value > rendered.ordinal.value then AdoptNewInstance
    else if incoming.ordinal.value < rendered.ordinal.value then RejectStale
    else RejectIncompatible
  }

  /** Something orderable enough to compare with is on the screen. */
  predicate Showing(rendered: Stamp) {
    rendered.instance.Some? && rendered.generation.Some?
  }

  /** Which verdict a message gets. */
  lemma VerdictIff(rendered: Stamp, incoming: Stamp)
    ensures var same := incoming.instance == rendered.instance;
            if !Orderable(incoming) then Judge(rendered, incoming) == RejectIncompatible
            else if !Showing(rendered) then Judge(rendered, incoming) == Accept
            else
              && (Judge(rendered, incoming) == Accept <==>
                  same && incoming.generation.value > rendered.generation.value)
              && (Judge(rendered, incoming) == AdoptNewInstance <==>
                  !same && (rendered.ordinal.None? || incoming.ordinal.value > rendered.ordinal.value))
              && (Judge(rendered, incoming) == RejectIncompatible <==> !same && incoming.ordinal == rendered.ordinal)
  {
  }

  function Receive(rendered: Stamp, incoming: Stamp): Stamp {
    var verdict := Judge(rendered, incoming);
    if verdict.Accept? || verdict.AdoptNewInstance? then incoming else rendered
  }

  /** What a client shows after a sequence of deliveries. */
  function Rendered(delivered: seq<Stamp>): Stamp {
    if delivered == [] then NOTHING
    else Receive(Rendered(delivered[..|delivered| - 1]), delivered[|delivered| - 1])
  }

  predicate Orderable(m: Stamp) {
    m.generation.Some? && m.instance.Some? && m.instance.value != "" && m.ordinal.Some?
  }

  /** Lexicographic on (ordinal, generation). */
  predicate Newer(a: Stamp, b: Stamp)
    requires Orderable(a) && Orderable(b)
  {
    a.ordinal.value > b.ordinal.value
    || (a.ordinal == b.ordinal && a.generation.value > b.generation.value)
  }

  /** One ordinal per instance and one instance per ordinal. */
  predicate Consistent(messages: seq<Stamp>) {
    forall a, b :: a in messages && b in messages && Orderable(a) && Orderable(b)
                   ==> (a.instance == b.instance <==> a.ordinal == b.ordinal)
  }

  /** The newest orderable message, or nothing when there is none. */
  predicate IsNewest(r: Stamp, messages: seq<Stamp>) {
    if Orderable(r) then
      r in messages && forall m :: m in messages && Orderable(m) ==> !Newer(m, r)
    else
      r == NOTHING && forall m :: m in messages ==> !Orderable(m)
  }

  /** Any order, delay or duplication: the client shows the lexicographic maximum it received. */
  lemma {:induction false} ClientShowsNewest(delivered: seq<Stamp>)
    requires Consistent(delivered)
    ensures IsNewest(Rendered(delivered), delivered)
  {
    if delivered != [] {
      var before, last := delivered[..|delivered| - 1], delivered[|delivered| - 1];
      assert delivered == before + [last];
      ClientShowsNewest(before);
    }
  }

  lemma NewestIsUnique(r: Stamp, r': Stamp, messages: seq<Stamp>)
    requires Consistent(messages) && IsNewest(r, messages) && IsNewest(r', messages)
    ensures r == r'
  {
  }

  /** Clients that received the same messages, however often and in whatever order, agree. */
  lemma ClientsAgree(delivered: seq<Stamp>, delivered': seq<Stamp>)
    requires Consistent(delivered)
    requires forall m :: m in delivered <==> m in delivered'
    ensures Rendered(delivered) == Rendered(delivered')
  {
    ClientShowsNewest(delivered);
    ClientShowsNewest(delivered');
    NewestIsUnique(Rendered(delivered), Rendered(delivered'), delivered);
  }

  /**
   * Exactly when two messages render alike in both orders: they are one message, two generations of
   * one instance, or two instances with different ordinals. A shared ordinal splits the clients.
   */
  lemma PairAgreesIff(a: Stamp, b: Stamp)
    requires Orderable(a) && Orderable(b)
    ensures Rendered([a, b]) == Rendered([b, a]) <==>
            || a == b
            || (a.instance == b.instance && a.generation != b.generation)
            || (a.instance != b.instance && a.ordinal != b.ordinal)
  {
    assert [a, b][..1] == [a] && [b, a][..1] == [b] && [a][..0] == [] && [b][..0] == [];
    assert Rendered([a]) == a && Rendered([b]) == b;
  }
}
