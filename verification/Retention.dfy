/** What the nickname cache keeps: which entry a Put evicts, and how often a key must be used to stay. */
module Retention {
  import opened Wrappers
  import opened RecencyList

  // ---- what one event loses

  /** The entry just put stands in front. */
  lemma PutIsHeld(cap: nat, ttl: int, trace: seq<Event>)
    requires cap >= 1 && trace != [] && trace[|trace|-1].op.Put?
    ensures var ev := trace[|trace|-1];
            && Run(cap, ttl, trace) != [] && Run(cap, ttl, trace)[0] == Entry(ev.op.tid, ev.op.user, ev.now)
  {
  }

  ghost predicate LeastUsed(trace: seq<Event>, s: seq<Entry>, e: Entry) {
    forall x :: x in s && x != e ==> LastNamed(trace, x.tid) > LastNamed(trace, e.tid)
  }

  /**
   A Put loses another key's entry if and only if its own key is not held, the cache is full, and that entry is the one
   whose key was used least recently.
   */
  lemma PutEvictsLeastUsed(cap: nat, ttl: int, trace: seq<Event>, ev: Event, e: Entry)
    requires cap >= 1 && ev.op.Put? && e in Run(cap, ttl, trace) && e.tid != ev.op.tid
    ensures var s := Run(cap, ttl, trace);
            e !in Run(cap, ttl, trace + [ev]) <==>
              (forall x :: x in s ==> x.tid != ev.op.tid) && |s| == cap && LeastUsed(trace, s, e)
  {
    var s := Run(cap, ttl, trace);
    assert (trace + [ev])[..|trace|] == trace;
    RunKeepsInv(cap, ttl, trace);
    OrderedByUse(cap, ttl, trace);
    LookupMember(s, ev.op.tid);
    RemoveFacts(s, ev.op.tid);
    if Lookup(s, ev.op.tid).None? { PutTrims(cap, trace, s, Entry(ev.op.tid, ev.op.user, ev.now), e); }
    hide LastNamed, LeastUsed, Lookup, Remove, ByUse, CacheInv;
  }

  lemma PutTrims(cap: nat, trace: seq<Event>, s: seq<Entry>, put: Entry, e: Entry)
    requires CacheInv(s, cap) && ByUse(trace, s) && e in s && e != put
    ensures e !in Trim([put] + s, cap) <==> |s| == cap && LeastUsed(trace, s, e)
  {
    hide LeastUsed, ByUse, Trim;
    LastIsLeast(trace, s, e);
    TrimLosesLast(cap, s, put, e);
  }

  lemma TrimLosesLast(cap: nat, s: seq<Entry>, put: Entry, e: Entry)
    requires CacheInv(s, cap) && e in s && e != put
    ensures e !in Trim([put] + s, cap) <==> |s| == cap && e == s[|s|-1]
  {
    if |s| == cap {
      var front, last := s[..cap-1], s[cap-1];
      assert s == front + [last];
      assert Trim([put] + s, cap) == [put] + front;
      assert last !in front;
    }
  }

  lemma LastIsLeast(trace: seq<Event>, s: seq<Entry>, e: Entry)
    requires ByUse(trace, s) && e in s
    ensures LeastUsed(trace, s, e) <==> e == s[|s|-1]
  {
    hide LastNamed;
    var last := s[|s|-1];
    forall x | x in s && x != last ensures LastNamed(trace, x.tid) > LastNamed(trace, last.tid) {
      var i :| 0 <= i < |s| && s[i] == x;
    }
    assert last in s;
  }

  /** Other events lose at most the entry of the key they name: an invalidated one, or one that has expired. */
  lemma OthersLoseTheirOwn(cap: nat, ttl: int, trace: seq<Event>, ev: Event, e: Entry)
    requires cap >= 1 && !ev.op.Put? && e in Run(cap, ttl, trace)
    ensures e !in Run(cap, ttl, trace + [ev]) <==>
              e.tid == ev.op.tid && (ev.op.Get? ==> ev.now - e.fetchedAt > ttl)
  {
    var s := Run(cap, ttl, trace);
    assert (trace + [ev])[..|trace|] == trace;
    RunKeepsInv(cap, ttl, trace);
    LookupMember(s, ev.op.tid);
    RemoveFacts(s, ev.op.tid);
    var i :| 0 <= i < |s| && s[i] == e;
    LookupOf(s, i);
    hide Lookup, Remove, CacheInv;
  }

  // ---- keys that are used often enough stay

  /** The other keys named since tid was named last. */
  function NamedSince(trace: seq<Event>, tid: Tid): set<Tid> {
    if trace == [] || trace[|trace|-1].op.tid == tid then {}
    else NamedSince(trace[..|trace|-1], tid) + {trace[|trace|-1].op.tid}
  }

  /**
   The key was put, not invalidated since, never asked for after its time was over, and between one use and the next
   fewer than cap other keys were named.
   */
  predicate InUse(cap: nat, ttl: int, trace: seq<Event>, tid: Tid) {
    trace != [] &&
    var front, ev := trace[..|trace|-1], trace[|trace|-1];
    if ev.op.tid != tid then InUse(cap, ttl, front, tid) && |NamedSince(trace, tid)| < cap
    else match ev.op
      case Put(_, _) => true
      case Invalidate(_) => false
      case Get(_) => InUse(cap, ttl, front, tid) && Remembered(front, tid).Some?
                     && ev.now - Remembered(front, tid).value.fetchedAt <= ttl
  }

  lemma {:induction false} NamedLater(trace: seq<Event>, tid: Tid, k: Tid)
    requires LastNamed(trace, k) > LastNamed(trace, tid)
    ensures k in NamedSince(trace, tid)
  {
    if trace[|trace|-1].op.tid != k { NamedLater(trace[..|trace|-1], tid, k); }
  }

  function TidsOf(s: seq<Entry>): set<Tid> { set e | e in s :: e.tid }

  lemma {:induction false} TidsCount(s: seq<Entry>)
    requires DistinctTids(s)
    ensures |TidsOf(s)| == |s|
  {
    if s != [] {
      var front, last := s[..|s|-1], s[|s|-1];
      TidsCount(front);
      assert s == front + [last];
      assert TidsOf(s) == TidsOf(front) + {last.tid};
    }
  }

  lemma SubsetCount(a: set<Tid>, b: set<Tid>)
    requires a <= b
    ensures |a| <= |b|
  {
    assert b == a + (b - a);
  }

  /** In front of a key stand only keys used since. */
  lemma FrontNamedSince(trace: seq<Event>, s: seq<Entry>, i: nat)
    requires DistinctTids(s) && ByUse(trace, s) && i < |s|
    ensures TidsOf(s[..i]) <= NamedSince(trace, s[i].tid) && |TidsOf(s[..i])| == i
  {
    TidsCount(s[..i]);
    forall j | 0 <= j < i ensures s[j].tid in NamedSince(trace, s[i].tid) { NamedLater(trace, s[i].tid, s[j].tid); }
    hide LastNamed, NamedSince;
  }

  /** A key in use is not the one a Put of another key evicts. */
  lemma NotEvicted(cap: nat, ttl: int, trace: seq<Event>, ev: Event, e: Entry)
    requires cap >= 1 && ev.op.Put? && e in Run(cap, ttl, trace) && e.tid != ev.op.tid
    requires |NamedSince(trace, e.tid) + {ev.op.tid}| < cap
    ensures e in Run(cap, ttl, trace + [ev])
  {
    var s := Run(cap, ttl, trace);
    RunKeepsInv(cap, ttl, trace);
    OrderedByUse(cap, ttl, trace);
    PutEvictsLeastUsed(cap, ttl, trace, ev, e);
    if |s| == cap && forall x :: x in s ==> x.tid != ev.op.tid { NotLast(cap, trace, s, ev.op.tid, e); }
    hide Run, NamedSince, LeastUsed;
  }

  lemma NotLast(cap: nat, trace: seq<Event>, s: seq<Entry>, tid: Tid, e: Entry)
    requires CacheInv(s, cap) && ByUse(trace, s) && |s| == cap && e in s
    requires (forall x :: x in s ==> x.tid != tid) && |NamedSince(trace, e.tid) + {tid}| < cap
    ensures !LeastUsed(trace, s, e)
  {
    hide LastNamed, NamedSince;
    var i :| 0 <= i < |s| && s[i] == e;
    FrontNamedSince(trace, s, i);
    assert tid !in TidsOf(s[..i]);
    assert |TidsOf(s[..i]) + {tid}| == i + 1;
    SubsetCount(TidsOf(s[..i]) + {tid}, NamedSince(trace, e.tid) + {tid});
    LastIsLeast(trace, s, e);
    assert s[i].tid != s[|s|-1].tid;
  }

  /** A key in use is held, as it was put last. */
  lemma {:induction false} InUseIsHeld(cap: nat, ttl: int, trace: seq<Event>, tid: Tid)
    requires cap >= 1 && InUse(cap, ttl, trace, tid)
    ensures Remembered(trace, tid).Some? && Remembered(trace, tid).value in Run(cap, ttl, trace)
    ensures Remembered(trace, tid).value.tid == tid
  {
    var front, ev := trace[..|trace|-1], trace[|trace|-1];
    assert trace == front + [ev];
    if ev.op.Put? && ev.op.tid == tid {
      PutIsHeld(cap, ttl, trace);
    } else {
      InUseIsHeld(cap, ttl, front, tid);
      var e := Remembered(front, tid).value;
      assert Remembered(trace, tid) == Some(e);
      hide Run, Remembered, LastNamed;
      if ev.op.Put? { NotEvicted(cap, ttl, front, ev, e); } else { OthersLoseTheirOwn(cap, ttl, front, ev, e); }
    }
  }

  /** So asking for it within its time is a hit, with the user put last. */
  lemma InUseIsHit(cap: nat, ttl: int, trace: seq<Event>, tid: Tid, now: int)
    requires cap >= 1 && InUse(cap, ttl, trace, tid)
    ensures var r := Remembered(trace, tid);
            r.Some? &&
            (now - r.value.fetchedAt <= ttl ==> Answer(Run(cap, ttl, trace), ttl, now, tid) == Some(r.value.user))
  {
    var s := Run(cap, ttl, trace);
    InUseIsHeld(cap, ttl, trace, tid);
    RunKeepsInv(cap, ttl, trace);
    var i :| 0 <= i < |s| && s[i] == Remembered(trace, tid).value;
    LookupOf(s, i);
    hide Run, Remembered, Lookup, InUse;
  }
}
