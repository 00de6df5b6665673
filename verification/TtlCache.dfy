/** A cache bounded in age and in size, and the history it answers for. */
module TtlCache {
  import opened Prelude

  /** Keys are only compared, and cached values are never looked into. */
  datatype Key = Key(id: nat)
  datatype Value = Value(handle: nat)

  datatype Entry = Entry(key: Key, at: int, value: Value)

  // ---- lists of entries in insertion order -------------------------------------------------

  /** Which entries leave a list: those under one key, or those set at or before a cutoff. */
  datatype Cut = Under(key: Key) | SetBy(cutoff: int)

  predicate Gone(e: Entry, cut: Cut) {
    match cut
    case Under(key) => e.key == key
    case SetBy(cutoff) => e.at <= cutoff
  }

  function Keep(s: seq<Entry>, cut: Cut): seq<Entry> {
    if s == [] then []
    else if Gone(s[0], cut) then Keep(s[1..], cut)
    else [s[0]] + Keep(s[1..], cut)
  }

  function LastN(s: seq<Entry>, n: nat): seq<Entry> {
    if |s| > n then s[|s| - n..] else s
  }

  function Find(s: seq<Entry>, key: Key): Option<Entry> {
    if s == [] then None else if s[0].key == key then Some(s[0]) else Find(s[1..], key)
  }

  lemma SweepOne(kept: seq<Entry>, e: Entry, rest: seq<Entry>, cut: Cut)
    ensures kept + Keep([e] + rest, cut) == (if Gone(e, cut) then kept else kept + [e]) + Keep(rest, cut)
  {
    assert ([e] + rest)[1..] == rest;
  }

  // ---- operations --------------------------------------------------------------------------

  /** Delete, re-insert at the end, drop the expired, then the oldest beyond the cap. */
  function AfterSet(s: seq<Entry>, e: Entry, ttl: int, max: nat): seq<Entry> {
    LastN(Keep(Keep(s, Under(e.key)) + [e], SetBy(e.at - ttl)), max)
  }

  function Result(s: seq<Entry>, key: Key, now: int, ttl: int): Option<Value> {
    var hit := Find(s, key);
    if hit.Some? && now - hit.value.at < ttl then Some(hit.value.value) else None
  }

  /** An expired entry is deleted by the read that finds it. */
  function AfterGet(s: seq<Entry>, key: Key, now: int, ttl: int): seq<Entry> {
    var hit := Find(s, key);
    if hit.Some? && now - hit.value.at >= ttl then Keep(s, Under(key)) else s
  }

  class BoundedTtlCache {
    const ttlMs: int
    const maxEntries: nat
    var entries: seq<Entry>

    constructor (ttlMs: int, maxEntries: int)
      ensures this.ttlMs == ttlMs && this.maxEntries == Max(1, maxEntries) && entries == []
    {
      this.ttlMs, this.maxEntries, entries := ttlMs, Max(1, maxEntries), [];
    }

    method Lookup(key: Key) returns (hit: Option<Entry>)
      ensures hit == Find(entries, key)
    {
      for i := 0 to |entries|
        invariant Find(entries, key) == Find(entries[i..], key)
      {
        if entries[i].key == key {
          return Some(entries[i]);
        }
      }
      return None;
    }

    /** Delete while iterating in insertion order. */
    static method Sweep(s: seq<Entry>, cut: Cut) returns (kept: seq<Entry>)
      ensures kept == Keep(s, cut)
    {
      kept := [];
      for i := 0 to |s|
        invariant Keep(s, cut) == kept + Keep(s[i..], cut)
      {
        SweepOne(kept, s[i], s[i + 1..], cut);
        assert s[i..] == [s[i]] + s[i + 1..];
        if !Gone(s[i], cut) {
          kept := kept + [s[i]];
        }
      }
    }

    method Get(key: Key, now: int) returns (value: Option<Value>)
      modifies this
      ensures value == Result(old(entries), key, now, ttlMs)
      ensures entries == AfterGet(old(entries), key, now, ttlMs)
    {
      var hit := Lookup(key);
      if hit.None? {
        return None;
      }
      if now - hit.value.at >= ttlMs {
        entries := Sweep(entries, Under(key));
        return None;
      }
      return Some(hit.value.value);
    }

    /** Drop expired entries, then oldest first until within the cap. */
    method Evict(now: int)
      modifies this
      ensures entries == LastN(Keep(old(entries), SetBy(now - ttlMs)), maxEntries)
    {
      var kept := Sweep(entries, SetBy(now - ttlMs));
      ghost var young := kept;
      while |kept| > maxEntries
        invariant LastN(kept, maxEntries) == LastN(young, maxEntries)
      {
        kept := kept[1..];
      }
      entries := kept;
    }

    method Set(key: Key, value: Value, now: int)
      modifies this
      ensures entries == AfterSet(old(entries), Entry(key, now, value), ttlMs, maxEntries)
    {
      entries := Sweep(entries, Under(key));
      entries := entries + [Entry(key, now, value)];
      Evict(now);
    }
  }

  // ---- the history and its answer ----------------------------------------------------------

  function KeysOf(h: seq<Entry>): set<Key> {
    if h == [] then {} else KeysOf(h[..|h| - 1]) + {h[|h| - 1].key}
  }

  /** The index of the last time `key` was set. */
  function LastSet(h: seq<Entry>, key: Key): (i: Option<nat>)
    ensures i.Some? ==> i.value < |h| && h[i.value].key == key
  {
    if h == [] then None
    else if h[|h| - 1].key == key then Some(|h| - 1)
    else LastSet(h[..|h| - 1], key)
  }

  /**
   * What an ideal reader of the full history answers: the last value of the key, if it is younger
   * than the TTL and fewer than `max` other keys were set since.
   */
  function Answer(h: seq<Entry>, key: Key, now: int, ttl: int, max: nat): Option<Value> {
    var last := LastSet(h, key);
    if last.Some? && now - h[last.value].at < ttl && |KeysOf(h[last.value + 1..])| < max
    then Some(h[last.value].value)
    else None
  }

  /** Every key with its last set, in the order of those last sets. */
  function Latest(h: seq<Entry>): seq<Entry> {
    if h == [] then [] else Keep(Latest(h[..|h| - 1]), Under(h[|h| - 1].key)) + [h[|h| - 1]]
  }

  // ---- facts about the lists ---------------------------------------------------------------

  /** `e` may stand in front of these entries. */
  predicate Before(e: Entry, s: seq<Entry>) {
    forall i :: 0 <= i < |s| ==> e.key != s[i].key && e.at <= s[i].at
  }

  /** Distinct keys, in time order. */
  predicate Ordered(s: seq<Entry>) {
    s == [] || (Before(s[0], s[1..]) && Ordered(s[1..]))
  }

  predicate UpTo(s: seq<Entry>, clock: int) {
    forall i :: 0 <= i < |s| ==> s[i].at <= clock
  }

  predicate Free(s: seq<Entry>, key: Key) {
    forall i :: 0 <= i < |s| ==> s[i].key != key
  }

  lemma {:induction false} KeepAll(s: seq<Entry>, cut: Cut)
    requires forall i :: 0 <= i < |s| ==> !Gone(s[i], cut)
    ensures Keep(s, cut) == s
  {
    if s != [] {
      KeepAll(s[1..], cut);
    }
  }

  lemma {:induction false} KeepNone(s: seq<Entry>, cut: Cut)
    requires forall i :: 0 <= i < |s| ==> Gone(s[i], cut)
    ensures Keep(s, cut) == []
  {
    if s != [] {
      KeepNone(s[1..], cut);
    }
  }

  lemma {:induction false} KeepSplits(a: seq<Entry>, b: seq<Entry>, cut: Cut)
    ensures Keep(a + b, cut) == Keep(a, cut) + Keep(b, cut)
  {
    if a == [] {
      assert a + b == b;
    } else {
      assert (a + b)[1..] == a[1..] + b;
      KeepSplits(a[1..], b, cut);
    }
  }

  lemma {:induction false} KeepCommutes(s: seq<Entry>, x: Cut, y: Cut)
    ensures Keep(Keep(s, x), y) == Keep(Keep(s, y), x)
  {
    if s != [] {
      var rest := s[1..];
      KeepCommutes(rest, x, y);
      assert ([s[0]] + Keep(rest, x))[1..] == Keep(rest, x) && ([s[0]] + Keep(rest, y))[1..] == Keep(rest, y);
    }
  }

  /** Ageing in two steps is ageing in one. */
  lemma {:induction false} AgeingTwice(s: seq<Entry>, cutoff: int, later: int)
    requires cutoff <= later
    ensures Keep(Keep(s, SetBy(cutoff)), SetBy(later)) == Keep(s, SetBy(later))
  {
    if s != [] {
      AgeingTwice(s[1..], cutoff, later);
      assert ([s[0]] + Keep(s[1..], SetBy(cutoff)))[1..] == Keep(s[1..], SetBy(cutoff));
    }
  }

  lemma {:induction false} KeepBefore(e: Entry, s: seq<Entry>, cut: Cut)
    requires Before(e, s)
    ensures Before(e, Keep(s, cut))
  {
    if s != [] {
      assert Before(e, s[1..]);
      KeepBefore(e, s[1..], cut);
    }
  }

  lemma {:induction false} KeepOrdered(s: seq<Entry>, cut: Cut)
    requires Ordered(s)
    ensures Ordered(Keep(s, cut))
    ensures |Keep(s, cut)| <= |s|
  {
    if s != [] {
      KeepOrdered(s[1..], cut);
      KeepBefore(s[0], s[1..], cut);
      assert ([s[0]] + Keep(s[1..], cut))[1..] == Keep(s[1..], cut);
    }
  }

  lemma {:induction false} KeepUpTo(s: seq<Entry>, cut: Cut, clock: int)
    requires UpTo(s, clock)
    ensures UpTo(Keep(s, cut), clock)
  {
    if s != [] {
      KeepUpTo(s[1..], cut, clock);
    }
  }

  lemma {:induction false} KeepFree(s: seq<Entry>, key: Key)
    ensures Free(Keep(s, Under(key)), key)
  {
    if s != [] {
      KeepFree(s[1..], key);
    }
  }

  lemma {:induction false} OrderedAppend(s: seq<Entry>, e: Entry)
    requires Ordered(s) && Free(s, e.key) && UpTo(s, e.at)
    ensures Ordered(s + [e])
  {
    if s == [] {
      assert s + [e] == [e] && [e][1..] == [];
    } else {
      assert Free(s[1..], e.key) && UpTo(s[1..], e.at);
      OrderedAppend(s[1..], e);
      assert (s + [e])[1..] == s[1..] + [e];
    }
  }

  lemma {:induction false} LastOrdered(s: seq<Entry>, n: nat)
    requires Ordered(s)
    ensures Ordered(LastN(s, n))
  {
    if |s| > n {
      LastOrdered(s[1..], n);
      assert LastN(s, n) == LastN(s[1..], n);
    }
  }

  /** In time order, ageing and capping commute. */
  lemma {:induction false} AgeingCommutesWithCap(s: seq<Entry>, n: nat, cutoff: int)
    requires Ordered(s)
    ensures Keep(LastN(s, n), SetBy(cutoff)) == LastN(Keep(s, SetBy(cutoff)), n)
  {
    if |s| <= n {
      KeepOrdered(s, SetBy(cutoff));
    } else if s[0].at > cutoff {
      KeepAll(s, SetBy(cutoff));
      KeepAll(LastN(s, n), SetBy(cutoff));
    } else {
      AgeingCommutesWithCap(s[1..], n, cutoff);
      assert LastN(s, n) == LastN(s[1..], n);
    }
  }

  lemma {:induction false} OrderedIsDistinct(s: seq<Entry>)
    requires Ordered(s)
    ensures Distinct(s)
  {
    if s != [] {
      OrderedIsDistinct(s[1..]);
    }
  }

  lemma LastOfJoin(a: seq<Entry>, b: seq<Entry>, n: nat)
    requires |b| >= n
    ensures LastN(a + b, n) == LastN(b, n)
  {
  }

  /** Capping before a re-insertion changes nothing that survives the cap after it. */
  lemma CapBeforeReinsert(s: seq<Entry>, e: Entry, n: nat)
    requires Ordered(s) && n > 0
    ensures LastN(Keep(LastN(s, n), Under(e.key)) + [e], n) == LastN(Keep(s, Under(e.key)) + [e], n)
  {
    if |s| > n {
      var p, q := s[..|s| - n], s[|s| - n..];
      assert s == p + q;
      KeepSplits(p, q, Under(e.key));
      LastOrdered(s, n);
      OrderedIsDistinct(q);
      KeepDistinct(q, e.key);
      var tail := Keep(q, Under(e.key)) + [e];
      assert Keep(s, Under(e.key)) + [e] == Keep(p, Under(e.key)) + tail;
      LastOfJoin(Keep(p, Under(e.key)), tail, n);
    }
  }

  // ---- the cache is a window on the history ------------------------------------------------

  predicate Tidy(s: seq<Entry>, clock: int) {
    Ordered(s) && UpTo(s, clock)
  }

  /** Among what is still young, the cache holds exactly the last `max` keys of the history. */
  predicate Mirrors(s: seq<Entry>, h: seq<Entry>, clock: int, ttl: int, max: nat) {
    && Tidy(s, clock) && Tidy(Latest(h), clock)
    && Keep(s, SetBy(clock - ttl)) == Keep(LastN(Latest(h), max), SetBy(clock - ttl))
  }

  lemma Ageing(s: seq<Entry>, h: seq<Entry>, clock: int, now: int, ttl: int, max: nat)
    requires Mirrors(s, h, clock, ttl, max) && clock <= now
    ensures Mirrors(s, h, now, ttl, max)
  {
    AgeingTwice(s, clock - ttl, now - ttl);
    AgeingTwice(LastN(Latest(h), max), clock - ttl, now - ttl);
  }

  lemma ReinsertIsTidy(s: seq<Entry>, e: Entry)
    requires Tidy(s, e.at)
    ensures Tidy(Keep(s, Under(e.key)) + [e], e.at)
  {
    KeepOrdered(s, Under(e.key));
    KeepUpTo(s, Under(e.key), e.at);
    KeepFree(s, e.key);
    OrderedAppend(Keep(s, Under(e.key)), e);
  }

  lemma EvictionIsTidy(s: seq<Entry>, now: int, cutoff: int, n: nat)
    requires Tidy(s, now)
    ensures Tidy(LastN(Keep(s, SetBy(cutoff)), n), now)
  {
    KeepOrdered(s, SetBy(cutoff));
    KeepUpTo(s, SetBy(cutoff), now);
    LastOrdered(Keep(s, SetBy(cutoff)), n);
  }

  /** The young part of a re-insertion depends only on the young part of the list. */
  lemma ReinsertedYoung(s: seq<Entry>, e: Entry, cutoff: int)
    requires e.at > cutoff
    ensures Keep(Keep(s, Under(e.key)) + [e], SetBy(cutoff)) == Keep(Keep(s, SetBy(cutoff)), Under(e.key)) + [e]
  {
    KeepSplits(Keep(s, Under(e.key)), [e], SetBy(cutoff));
    KeepCommutes(s, Under(e.key), SetBy(cutoff));
    KeepAll([e], SetBy(cutoff));
  }

  lemma YoungWindowAfterSet(s: seq<Entry>, all: seq<Entry>, e: Entry, cutoff: int, max: nat)
    requires Tidy(s, e.at) && Tidy(all, e.at) && max > 0 && e.at > cutoff
    requires Keep(s, SetBy(cutoff)) == Keep(LastN(all, max), SetBy(cutoff))
    ensures LastN(Keep(Keep(s, Under(e.key)) + [e], SetBy(cutoff)), max)
            == LastN(Keep(Keep(all, Under(e.key)) + [e], SetBy(cutoff)), max)
  {
    var young := Keep(all, SetBy(cutoff));
    AgeingCommutesWithCap(all, max, cutoff);
    KeepOrdered(all, SetBy(cutoff));
    ReinsertedYoung(s, e, cutoff);
    ReinsertedYoung(all, e, cutoff);
    CapBeforeReinsert(young, e, max);
  }

  lemma SetKeepsMirror(s: seq<Entry>, h: seq<Entry>, e: Entry, ttl: int, max: nat)
    requires Mirrors(s, h, e.at, ttl, max) && max > 0
    ensures Mirrors(AfterSet(s, e, ttl, max), h + [e], e.at, ttl, max)
  {
    var c, all := e.at - ttl, Latest(h);
    var s1, all1 := Keep(s, Under(e.key)) + [e], Keep(all, Under(e.key)) + [e];
    assert (h + [e])[..|h|] == h;
    ReinsertIsTidy(s, e);
    ReinsertIsTidy(all, e);
    EvictionIsTidy(s1, e.at, c, max);
    AgeingCommutesWithCap(all1, max, c);
    KeepOrdered(s1, SetBy(c));
    AgeingCommutesWithCap(Keep(s1, SetBy(c)), max, c);
    AgeingTwice(s1, c, c);
    if ttl > 0 {
      YoungWindowAfterSet(s, all, e, c, max);
    } else {
      KeepNone(s1, SetBy(c));
      KeepNone(all1, SetBy(c));
    }
  }

  lemma {:induction false} FindWhere(s: seq<Entry>, key: Key)
    ensures Find(s, key).Some? ==> Find(s, key).value.key == key && Find(s, key).value in s
    ensures Find(s, key).None? <==> Free(s, key)
  {
    if s != [] {
      FindWhere(s[1..], key);
    }
  }

  /** Looking up among the young is looking up and then asking whether it is young. */
  lemma {:induction false} FindYoung(s: seq<Entry>, key: Key, cutoff: int)
    requires Ordered(s)
    ensures var hit := Find(s, key);
            Find(Keep(s, SetBy(cutoff)), key) == if hit.Some? && hit.value.at > cutoff then hit else None
  {
    if s != [] {
      FindYoung(s[1..], key, cutoff);
      assert ([s[0]] + Keep(s[1..], SetBy(cutoff)))[1..] == Keep(s[1..], SetBy(cutoff));
      if s[0].key == key && s[0].at <= cutoff {
        FindWhere(s[1..], key);
      }
    }
  }

  lemma GetKeepsMirror(s: seq<Entry>, h: seq<Entry>, key: Key, now: int, ttl: int, max: nat)
    requires Mirrors(s, h, now, ttl, max)
    ensures Mirrors(AfterGet(s, key, now, ttl), h, now, ttl, max)
  {
    var hit, c := Find(s, key), now - ttl;
    if hit.Some? && now - hit.value.at >= ttl {
      KeepOrdered(s, Under(key));
      KeepUpTo(s, Under(key), now);
      KeepCommutes(s, Under(key), SetBy(c));
      FindYoung(s, key, c);
      FindWhere(Keep(s, SetBy(c)), key);
      KeepAll(Keep(s, SetBy(c)), Under(key));
    }
  }

  // ---- from the window to the answer -------------------------------------------------------

  lemma {:induction false} FindSplits(a: seq<Entry>, b: seq<Entry>, key: Key)
    ensures Find(a + b, key) == Find(a, key).OrElse(Find(b, key))
  {
    if a == [] {
      assert a + b == b;
    } else {
      assert (a + b)[1..] == a[1..] + b;
      FindSplits(a[1..], b, key);
    }
  }

  lemma {:induction false} FindOther(s: seq<Entry>, key: Key, other: Key)
    requires key != other
    ensures Find(Keep(s, Under(other)), key) == Find(s, key)
  {
    if s != [] {
      FindOther(s[1..], key, other);
      assert ([s[0]] + Keep(s[1..], Under(other)))[1..] == Keep(s[1..], Under(other));
    }
  }

  lemma {:induction false} LatestFinds(h: seq<Entry>, key: Key)
    ensures Find(Latest(h), key).Some? <==> key in KeysOf(h)
  {
    if h != [] {
      var before, e := h[..|h| - 1], h[|h| - 1];
      LatestFinds(before, key);
      FindSplits(Keep(Latest(before), Under(e.key)), [e], key);
      assert [e][1..] == [];
      if key != e.key {
        FindOther(Latest(before), key, e.key);
      }
    }
  }

  lemma {:induction false} LatestIsTidy(h: seq<Entry>)
    ensures Distinct(Latest(h))
    ensures |Latest(h)| == |KeysOf(h)|
  {
    if h != [] {
      var before, e := h[..|h| - 1], h[|h| - 1];
      LatestIsTidy(before);
      LatestFinds(before, e.key);
      KeepDistinct(Latest(before), e.key);
      DistinctAppend(Keep(Latest(before), Under(e.key)), e);
      assert e.key in KeysOf(before) ==> KeysOf(h) == KeysOf(before);
    }
  }

  /** Distinct keys, whatever the times. */
  predicate Distinct(s: seq<Entry>) {
    s == [] || (Free(s[1..], s[0].key) && Distinct(s[1..]))
  }

  lemma {:induction false} KeepDistinct(s: seq<Entry>, key: Key)
    requires Distinct(s)
    ensures Distinct(Keep(s, Under(key))) && Free(Keep(s, Under(key)), key)
    ensures |Keep(s, Under(key))| == |s| - if Find(s, key).Some? then 1 else 0
  {
    if s != [] {
      KeepDistinct(s[1..], key);
      if s[0].key == key {
        KeepAll(s[1..], Under(key));
      } else {
        KeepsFree(s[1..], key, s[0].key);
        assert ([s[0]] + Keep(s[1..], Under(key)))[1..] == Keep(s[1..], Under(key));
      }
    }
  }

  lemma {:induction false} KeepsFree(s: seq<Entry>, key: Key, other: Key)
    requires Free(s, other)
    ensures Free(Keep(s, Under(key)), other)
  {
    if s != [] {
      KeepsFree(s[1..], key, other);
    }
  }

  lemma {:induction false} DistinctAppend(s: seq<Entry>, e: Entry)
    requires Distinct(s) && Free(s, e.key)
    ensures Distinct(s + [e])
  {
    if s == [] {
      assert s + [e] == [e] && [e][1..] == [];
    } else {
      assert Free(s[1..], e.key);
      DistinctAppend(s[1..], e);
      assert (s + [e])[1..] == s[1..] + [e];
    }
  }

  /** After the last set of a key, the latest entries end with it and the keys set since. */
  lemma KeepAround(a: seq<Entry>, kept: Entry, b: seq<Entry>, e: Entry)
    requires kept.key != e.key
    ensures Keep(a + ([kept] + b), Under(e.key)) + [e]
            == Keep(a, Under(e.key)) + ([kept] + (Keep(b, Under(e.key)) + [e]))
  {
    KeepSplits(a, [kept] + b, Under(e.key));
    KeepSplits([kept], b, Under(e.key));
    KeepAll([kept], Under(e.key));
  }

  lemma {:induction false} LatestEndsWith(h: seq<Entry>, key: Key) returns (front: seq<Entry>)
    requires LastSet(h, key).Some?
    ensures var i := LastSet(h, key).value;
            Latest(h) == front + ([h[i]] + Latest(h[i + 1..]))
    ensures Free(front, key)
  {
    var before, e := h[..|h| - 1], h[|h| - 1];
    if e.key == key {
      front := Keep(Latest(before), Under(key));
      KeepFree(Latest(before), key);
      assert h[|h|..] == [];
    } else {
      var i := LastSet(before, key).value;
      var since := before[i + 1..];
      assert h[i + 1..] == since + [e] && (since + [e])[..|since|] == since;
      var front' := LatestEndsWith(before, key);
      front := Keep(front', Under(e.key));
      KeepsFree(front', e.key, key);
      KeepAround(front', h[i], Latest(since), e);
    }
  }

  /** An entry is within the cap exactly when fewer entries follow it. */
  lemma FindInWindow(front: seq<Entry>, e: Entry, tail: seq<Entry>, n: nat)
    requires Free(front, e.key) && Free(tail, e.key)
    ensures Find(LastN(front + ([e] + tail), n), e.key) == if |tail| < n then Some(e) else None
  {
    var all := front + ([e] + tail);
    if |tail| < n {
      var k := Max(0, |all| - n);
      assert LastN(all, n) == front[k..] + ([e] + tail);
      FindSplits(front[k..], [e] + tail, e.key);
      FindWhere(front[k..], e.key);
    } else {
      assert LastN(all, n) == tail[|tail| - n..];
      FindWhere(tail[|tail| - n..], e.key);
    }
  }

  lemma {:induction false} SinceIsFree(h: seq<Entry>, key: Key)
    ensures LastSet(h, key).None? <==> key !in KeysOf(h)
    ensures LastSet(h, key).Some? ==> key !in KeysOf(h[LastSet(h, key).value + 1..])
  {
    if h != [] {
      var before, e := h[..|h| - 1], h[|h| - 1];
      SinceIsFree(before, key);
      if e.key == key {
        assert h[|h|..] == [];
      } else if LastSet(before, key).Some? {
        var since := before[LastSet(before, key).value + 1..];
        assert h[LastSet(before, key).value + 1..] == since + [e] && (since + [e])[..|since|] == since;
      }
    }
  }

  lemma WindowAnswers(h: seq<Entry>, key: Key, max: nat)
    ensures var last := LastSet(h, key);
            Find(LastN(Latest(h), max), key)
            == if last.Some? && |KeysOf(h[last.value + 1..])| < max then Some(h[last.value]) else None
  {
    SinceIsFree(h, key);
    if LastSet(h, key).Some? {
      var i := LastSet(h, key).value;
      var front := LatestEndsWith(h, key);
      LatestIsTidy(h[i + 1..]);
      LatestFinds(h[i + 1..], key);
      FindWhere(Latest(h[i + 1..]), key);
      FindInWindow(front, h[i], Latest(h[i + 1..]), max);
    } else {
      LatestFinds(h, key);
      FindWhere(Latest(h), key);
      FindWhere(LastN(Latest(h), max), key);
    }
  }

  lemma MirrorAnswers(s: seq<Entry>, h: seq<Entry>, key: Key, now: int, ttl: int, max: nat)
    requires Mirrors(s, h, now, ttl, max)
    ensures Result(s, key, now, ttl) == Answer(h, key, now, ttl, max)
  {
    LastOrdered(Latest(h), max);
    FindYoung(s, key, now - ttl);
    FindYoung(LastN(Latest(h), max), key, now - ttl);
    WindowAnswers(h, key, max);
  }

  // ---- runs --------------------------------------------------------------------------------

  datatype Op = Set(key: Key, value: Value, now: int) | Get(key: Key, now: int)

  /** The entries after a run, and the history of sets. */
  function Run(ops: seq<Op>, ttl: int, max: nat): (seq<Entry>, seq<Entry>) {
    if ops == [] then ([], [])
    else
      var (s, h) := Run(ops[..|ops| - 1], ttl, max);
      match ops[|ops| - 1]
      case Set(key, value, now) => (AfterSet(s, Entry(key, now, value), ttl, max), h + [Entry(key, now, value)])
      case Get(key, now) => (AfterGet(s, key, now, ttl), h)
  }

  predicate InOrder(ops: seq<Op>) {
    forall i, j :: 0 <= i < j < |ops| ==> ops[i].now <= ops[j].now
  }

  lemma {:induction false} RunMirrors(ops: seq<Op>, ttl: int, max: nat, now: int)
    requires InOrder(ops) && max > 0 && (ops != [] ==> ops[|ops| - 1].now <= now)
    ensures Mirrors(Run(ops, ttl, max).0, Run(ops, ttl, max).1, now, ttl, max)
  {
    if ops != [] {
      var op := ops[|ops| - 1];
      var (s, h) := Run(ops[..|ops| - 1], ttl, max);
      RunMirrors(ops[..|ops| - 1], ttl, max, op.now);
      match op {
        case Set(key, value, at) => SetKeepsMirror(s, h, Entry(key, at, value), ttl, max);
        case Get(key, at) => GetKeepsMirror(s, h, key, at, ttl, max);
      }
      Ageing(Run(ops, ttl, max).0, Run(ops, ttl, max).1, op.now, now, ttl, max);
    }
  }

  /** After any run of sets and gets, a get answers exactly as the full history does. */
  lemma CacheAnswersFromHistory(ops: seq<Op>, ttl: int, max: nat, key: Key, now: int)
    requires InOrder(ops) && max > 0 && (ops != [] ==> ops[|ops| - 1].now <= now)
    ensures var (s, h) := Run(ops, ttl, max);
            Result(s, key, now, ttl) == Answer(h, key, now, ttl, max)
  {
    RunMirrors(ops, ttl, max, now);
    MirrorAnswers(Run(ops, ttl, max).0, Run(ops, ttl, max).1, key, now, ttl, max);
  }

  /** The cache never holds more than the cap, whatever the clock does. */
  lemma {:induction false} CacheIsBounded(ops: seq<Op>, ttl: int, max: nat)
    ensures |Run(ops, ttl, max).0| <= max
  {
    if ops != [] {
      CacheIsBounded(ops[..|ops| - 1], ttl, max);
      var (s, h) := Run(ops[..|ops| - 1], ttl, max);
      if ops[|ops| - 1].Get? {
        KeepIsShorter(s, Under(ops[|ops| - 1].key));
      }
    }
  }

  lemma {:induction false} KeepIsShorter(s: seq<Entry>, cut: Cut)
    ensures |Keep(s, cut)| <= |s|
  {
    if s != [] {
      KeepIsShorter(s[1..], cut);
    }
  }

  /** A set leaves nothing expired behind, and an expired entry found by a get is gone. */
  lemma NothingExpiredAfterSet(s: seq<Entry>, e: Entry, ttl: int, max: nat)
    ensures forall i :: 0 <= i < |AfterSet(s, e, ttl, max)| ==> e.at - AfterSet(s, e, ttl, max)[i].at < ttl
  {
    KeptIsYoung(Keep(s, Under(e.key)) + [e], e.at - ttl);
  }

  lemma {:induction false} KeptIsYoung(s: seq<Entry>, cutoff: int)
    ensures forall i :: 0 <= i < |Keep(s, SetBy(cutoff))| ==> Keep(s, SetBy(cutoff))[i].at > cutoff
  {
    if s != [] {
      KeptIsYoung(s[1..], cutoff);
    }
  }
}
