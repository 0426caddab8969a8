/**
 What the nickname cache of pkg/identity/s21_nick_cache.go holds, as a value: its entries with the most
 recently used first.
 */
module RecencyList {
  import opened Wrappers

  type Tid = int

  /** A record of the identity service; `found == false` means the service knows no such user. */
  datatype User = User(
    telegramId: int, nickname: string, campusId: string, campusName: string, coalitionName: string, found: bool)

  /** Times and the TTL are nanoseconds. */
  datatype Entry = Entry(tid: Tid, user: User, fetchedAt: int)

  function Lookup(s: seq<Entry>, tid: Tid): Option<Entry> {
    if s == [] then None else if s[0].tid == tid then Some(s[0]) else Lookup(s[1..], tid)
  }

  function Remove(s: seq<Entry>, tid: Tid): seq<Entry> {
    if s == [] then [] else if s[0].tid == tid then Remove(s[1..], tid) else [s[0]] + Remove(s[1..], tid)
  }

  function Trim(s: seq<Entry>, cap: nat): seq<Entry> { if |s| > cap then s[..cap] else s }

  function AfterGet(s: seq<Entry>, ttl: int, now: int, tid: Tid): seq<Entry> {
    match Lookup(s, tid)
    case None => s
    case Some(e) => if now - e.fetchedAt > ttl then Remove(s, tid) else [e] + Remove(s, tid)
  }

  function Answer(s: seq<Entry>, ttl: int, now: int, tid: Tid): Option<User> {
    match Lookup(s, tid)
    case None => None
    case Some(e) => if now - e.fetchedAt > ttl then None else Some(e.user)
  }

  function AfterPut(s: seq<Entry>, cap: nat, now: int, tid: Tid, u: User): seq<Entry> {
    if Lookup(s, tid).Some? then [Entry(tid, u, now)] + Remove(s, tid)
    else Trim([Entry(tid, u, now)] + s, cap)
  }

  datatype Op = Get(tid: Tid) | Put(tid: Tid, user: User) | Invalidate(tid: Tid)

  /** An operation and the clock reading it made. */
  datatype Event = Event(op: Op, now: int)

  function After(s: seq<Entry>, cap: nat, ttl: int, ev: Event): seq<Entry> {
    match ev.op
    case Get(tid) => AfterGet(s, ttl, ev.now, tid)
    case Put(tid, u) => AfterPut(s, cap, ev.now, tid, u)
    case Invalidate(tid) => Remove(s, tid)
  }

  /** The cache after a whole trace. */
  function Run(cap: nat, ttl: int, trace: seq<Event>): seq<Entry> {
    if trace == [] then [] else After(Run(cap, ttl, trace[..|trace|-1]), cap, ttl, trace[|trace|-1])
  }

  // ---- distinct keys

  ghost predicate DistinctTids(s: seq<Entry>) {
    forall i, j :: 0 <= i < j < |s| ==> s[i].tid != s[j].tid
  }

  lemma {:induction false} LookupMember(s: seq<Entry>, tid: Tid)
    ensures Lookup(s, tid).Some? ==> Lookup(s, tid).value in s && Lookup(s, tid).value.tid == tid
    ensures Lookup(s, tid).None? ==> forall e :: e in s ==> e.tid != tid
  {
    if s != [] { LookupMember(s[1..], tid); assert s == [s[0]] + s[1..]; }
  }

  lemma {:induction false} LookupOf(s: seq<Entry>, i: nat)
    requires DistinctTids(s) && i < |s|
    ensures Lookup(s, s[i].tid) == Some(s[i])
  {
    if i > 0 { LookupOf(s[1..], i - 1); }
  }

  lemma {:induction false} RemoveMembers(s: seq<Entry>, tid: Tid)
    ensures forall e :: e in Remove(s, tid) <==> e in s && e.tid != tid
    ensures |Remove(s, tid)| <= |s|
  {
    if s != [] {
      RemoveMembers(s[1..], tid);
      assert s == [s[0]] + s[1..];
    }
  }

  lemma {:induction false} RemoveDistinct(s: seq<Entry>, tid: Tid)
    requires DistinctTids(s)
    ensures DistinctTids(Remove(s, tid))
  {
    if s != [] && s[0].tid != tid {
      RemoveDistinct(s[1..], tid);
      RemoveMembers(s[1..], tid);
      var r := Remove(s[1..], tid);
      forall j | 0 < j < |[s[0]] + r| ensures ([s[0]] + r)[j].tid != s[0].tid {
        assert r[j-1] in r;
        assert r[j-1] in s[1..];
      }
    } else if s != [] {
      RemoveDistinct(s[1..], tid);
    }
  }

  lemma {:induction false} RemoveCount(s: seq<Entry>, tid: Tid)
    ensures Lookup(s, tid).None? ==> Remove(s, tid) == s
    ensures DistinctTids(s) && Lookup(s, tid).Some? ==> |Remove(s, tid)| == |s| - 1
  {
    if s != [] {
      RemoveCount(s[1..], tid);
      LookupMember(s[1..], tid);
      assert s == [s[0]] + s[1..];
    }
  }

  lemma RemoveFacts(s: seq<Entry>, tid: Tid)
    ensures forall e :: e in Remove(s, tid) <==> e in s && e.tid != tid
    ensures DistinctTids(s) ==> DistinctTids(Remove(s, tid))
    ensures |Remove(s, tid)| <= |s|
    ensures Lookup(s, tid).None? ==> Remove(s, tid) == s
    ensures DistinctTids(s) && Lookup(s, tid).Some? ==> |Remove(s, tid)| == |s| - 1
  {
    RemoveMembers(s, tid);
    RemoveCount(s, tid);
    if DistinctTids(s) { RemoveDistinct(s, tid); }
    hide Remove, Lookup, DistinctTids;
  }

  ghost predicate CacheInv(s: seq<Entry>, cap: nat) { DistinctTids(s) && |s| <= cap }

  lemma AfterKeepsInv(s: seq<Entry>, cap: nat, ttl: int, ev: Event)
    requires CacheInv(s, cap) && cap >= 1
    ensures CacheInv(After(s, cap, ttl, ev), cap)
  {
    var tid := ev.op.tid;
    RemoveFacts(s, tid);
    LookupMember(s, tid);
    ConsDistinct(s, tid);
  }

  lemma ConsDistinct(s: seq<Entry>, tid: Tid)
    requires DistinctTids(s)
    ensures forall e: Entry :: e.tid == tid ==> DistinctTids([e] + Remove(s, tid))
    ensures Lookup(s, tid).None? ==> forall e: Entry :: e.tid == tid ==> DistinctTids([e] + s)
  {
    RemoveFacts(s, tid);
    forall e: Entry | e.tid == tid ensures DistinctTids([e] + Remove(s, tid)) {
      var r := Remove(s, tid);
      forall j | 0 < j < |[e] + r| ensures ([e] + r)[j].tid != tid { assert r[j-1] in r; }
    }
  }

  /** Keys are unique and the cap is never exceeded, over every trace. */
  lemma {:induction false} RunKeepsInv(cap: nat, ttl: int, trace: seq<Event>)
    requires cap >= 1
    ensures CacheInv(Run(cap, ttl, trace), cap)
  {
    if trace != [] {
      RunKeepsInv(cap, ttl, trace[..|trace|-1]);
      AfterKeepsInv(Run(cap, ttl, trace[..|trace|-1]), cap, ttl, trace[|trace|-1]);
    }
  }

  // ---- a hit is the latest Put

  /** What a plain map without cap or TTL would hold for tid. */
  function Remembered(trace: seq<Event>, tid: Tid): Option<Entry> {
    if trace == [] then None else
    var ev := trace[|trace|-1];
    if ev.op.tid != tid || ev.op.Get? then Remembered(trace[..|trace|-1], tid)
    else if ev.op.Put? then Some(Entry(tid, ev.op.user, ev.now))
    else None
  }

  /** Whatever the cache holds is the latest Put of that key, with its time. */
  lemma {:induction false} HoldsLatestPut(cap: nat, ttl: int, trace: seq<Event>, e: Entry)
    requires cap >= 1 && e in Run(cap, ttl, trace)
    ensures Remembered(trace, e.tid) == Some(e)
  {
    var front, ev := trace[..|trace|-1], trace[|trace|-1];
    var s := Run(cap, ttl, front);
    RunKeepsInv(cap, ttl, front);
    RemoveFacts(s, ev.op.tid);
    LookupMember(s, ev.op.tid);
    if e in s { HoldsLatestPut(cap, ttl, front, e); }
  }

  /** A hit answers with the latest Put of the key, made no longer than the TTL ago. */
  lemma HitIsLatestPut(cap: nat, ttl: int, trace: seq<Event>, now: int, tid: Tid)
    requires cap >= 1 && Answer(Run(cap, ttl, trace), ttl, now, tid).Some?
    ensures var r := Remembered(trace, tid);
            r.Some? && Answer(Run(cap, ttl, trace), ttl, now, tid) == Some(r.value.user)
                && now - r.value.fetchedAt <= ttl
  {
    LookupMember(Run(cap, ttl, trace), tid);
    HoldsLatestPut(cap, ttl, trace, Lookup(Run(cap, ttl, trace), tid).value);
  }

  // ---- the order is the order of use

  /** The position of the latest event that names tid, counted from 1. */
  function LastNamed(trace: seq<Event>, tid: Tid): (n: nat)
    ensures n <= |trace|
  {
    if trace == [] then 0
    else if trace[|trace|-1].op.tid == tid then |trace|
    else LastNamed(trace[..|trace|-1], tid)
  }

  ghost predicate ByUse(trace: seq<Event>, s: seq<Entry>) {
    forall i, j :: 0 <= i < j < |s| ==> LastNamed(trace, s[i].tid) > LastNamed(trace, s[j].tid)
  }

  lemma {:induction false} RemoveByUse(trace: seq<Event>, s: seq<Entry>, tid: Tid)
    requires ByUse(trace, s)
    ensures ByUse(trace, Remove(s, tid))
  {
    hide LastNamed;
    if s != [] {
      RemoveByUse(trace, s[1..], tid);
      RemoveFacts(s[1..], tid);
      var r := Remove(s[1..], tid);
      if s[0].tid != tid {
        forall j | 0 <= j < |r| ensures LastNamed(trace, s[0].tid) > LastNamed(trace, r[j].tid) {
          assert r[j] in s[1..];
        }
      }
    }
  }

  lemma NamedNow(trace: seq<Event>, ev: Event, tid: Tid)
    ensures LastNamed(trace + [ev], tid) == if tid == ev.op.tid then |trace| + 1 else LastNamed(trace, tid)
  {
    assert (trace + [ev])[..|trace|] == trace;
  }

  /** One more event leaves the others in order, and what it names goes in front of them. */
  lemma FrontByUse(trace: seq<Event>, ev: Event, rest: seq<Entry>)
    requires ByUse(trace, rest) && forall x :: x in rest ==> x.tid != ev.op.tid
    ensures ByUse(trace + [ev], rest)
    ensures forall e: Entry :: e.tid == ev.op.tid ==> ByUse(trace + [ev], [e] + rest)
  {
    forall i | 0 <= i < |rest|
      ensures LastNamed(trace + [ev], rest[i].tid) == LastNamed(trace, rest[i].tid) <= |trace|
    {
      assert rest[i] in rest;
      NamedNow(trace, ev, rest[i].tid);
    }
    NamedNow(trace, ev, ev.op.tid);
    hide LastNamed;
  }

  /** The cache lists its entries from the most to the least recently used, so the one evicted is the least. */
  lemma {:induction false} OrderedByUse(cap: nat, ttl: int, trace: seq<Event>)
    requires cap >= 1
    ensures ByUse(trace, Run(cap, ttl, trace))
  {
    if trace != [] {
      var front, ev := trace[..|trace|-1], trace[|trace|-1];
      OrderedByUse(cap, ttl, front);
      assert trace == front + [ev];
      hide LastNamed, ByUse, After;
      UsedNow(Run(cap, ttl, front), cap, ttl, front, ev);
    }
  }

  lemma UsedNow(s: seq<Entry>, cap: nat, ttl: int, trace: seq<Event>, ev: Event)
    requires ByUse(trace, s)
    ensures ByUse(trace + [ev], After(s, cap, ttl, ev))
  {
    var rest := Remove(s, ev.op.tid);
    RemoveByUse(trace, s, ev.op.tid);
    RemoveFacts(s, ev.op.tid);
    LookupMember(s, ev.op.tid);
    FrontByUse(trace, ev, rest);
    if ev.op.Put? { TrimByUse(trace + [ev], [Entry(ev.op.tid, ev.op.user, ev.now)] + rest, cap); }
    hide LastNamed, Remove, ByUse, Trim;
  }

  lemma TrimByUse(trace: seq<Event>, s: seq<Entry>, cap: nat)
    requires ByUse(trace, s)
    ensures ByUse(trace, Trim(s, cap))
  {
    hide LastNamed;
  }

  // ---- a larger cap only helps

  /** s is l with some entries left out. */
  ghost predicate Sublist(s: seq<Entry>, l: seq<Entry>) {
    if s == [] then true
    else if l == [] then false
    else if s[0] == l[0] then Sublist(s[1..], l[1..])
    else Sublist(s, l[1..])
  }

  lemma {:induction false} SublistMember(s: seq<Entry>, l: seq<Entry>, e: Entry)
    requires Sublist(s, l) && e in s
    ensures e in l
  {
    assert l == [l[0]] + l[1..] && s == [s[0]] + s[1..];
    if s[0] != l[0] { SublistMember(s, l[1..], e); }
    else if e != s[0] { SublistMember(s[1..], l[1..], e); }
  }

  /** Without its head, a sublist is still one. */
  lemma {:induction false} SublistTail(s: seq<Entry>, l: seq<Entry>)
    requires Sublist(s, l) && s != []
    ensures Sublist(s[1..], l)
  {
    if s[0] == l[0] { SublistSkip(s[1..], l); } else { SublistTail(s, l[1..]); SublistSkip(s[1..], l); }
  }

  lemma {:induction false} SublistSkip(s: seq<Entry>, l: seq<Entry>)
    requires l != [] && Sublist(s, l[1..])
    ensures Sublist(s, l)
  {
    if s != [] && s[0] == l[0] { SublistTail(s, l[1..]); }
  }

  lemma {:induction false} SublistRemove(s: seq<Entry>, l: seq<Entry>, tid: Tid)
    requires Sublist(s, l)
    ensures Sublist(Remove(s, tid), Remove(l, tid))
  {
    if s != [] {
      if s[0] == l[0] {
        SublistRemove(s[1..], l[1..], tid);
      } else {
        SublistRemove(s, l[1..], tid);
        if l[0].tid != tid { SublistSkip(Remove(s, tid), Remove(l, tid)); }
      }
    }
  }

  lemma {:induction false} SublistDropLast(s: seq<Entry>, l: seq<Entry>)
    requires Sublist(s, l) && s != []
    ensures Sublist(s[..|s|-1], l[..|l|-1])
  {
    if |s| > 1 {
      if s[0] == l[0] {
        SublistDropLast(s[1..], l[1..]);
        assert s[..|s|-1][1..] == s[1..][..|s|-2] && l[..|l|-1][1..] == l[1..][..|l|-2];
      } else {
        SublistDropLast(s, l[1..]);
        assert l[..|l|-1][1..] == l[1..][..|l|-2];
      }
    }
  }

  lemma {:induction false} SublistOfPrefix(s: seq<Entry>, l: seq<Entry>, k: nat)
    requires k <= |l| && Sublist(s, l[..k])
    ensures Sublist(s, l)
  {
    if s != [] {
      assert l[..k][1..] == l[1..][..k-1];
      if s[0] == l[0] { SublistOfPrefix(s[1..], l[1..], k - 1); } else { SublistOfPrefix(s, l[1..], k - 1); }
    }
  }

  lemma SublistLookup(s: seq<Entry>, l: seq<Entry>, tid: Tid)
    requires Sublist(s, l) && DistinctTids(l) && Lookup(s, tid).Some?
    ensures Lookup(l, tid) == Lookup(s, tid)
  {
    LookupMember(s, tid);
    var e := Lookup(s, tid).value;
    SublistMember(s, l, e);
    var i :| 0 <= i < |l| && l[i] == e;
    LookupOf(l, i);
  }

  /** How the same trace leaves a small and a large cache; the gap clause is what makes it inductive. */
  ghost predicate Dominated(s: seq<Entry>, small: nat, l: seq<Entry>, large: nat) {
    && CacheInv(s, small) && CacheInv(l, large) && Sublist(s, l)
    && |l| - |s| <= large - small
  }

  lemma DominatedAfterGet(s: seq<Entry>, small: nat, l: seq<Entry>, large: nat, ttl: int, now: int, tid: Tid)
    requires 1 <= small <= large && Dominated(s, small, l, large)
    ensures Dominated(AfterGet(s, ttl, now, tid), small, AfterGet(l, ttl, now, tid), large)
  {
    AfterKeepsInv(s, small, ttl, Event(Get(tid), now));
    AfterKeepsInv(l, large, ttl, Event(Get(tid), now));
    RemoveFacts(s, tid);
    RemoveFacts(l, tid);
    SublistRemove(s, l, tid);
    if Lookup(s, tid).Some? {
      SublistLookup(s, l, tid);
      var e := Lookup(s, tid).value;
      assert ([e] + Remove(s, tid))[1..] == Remove(s, tid) && ([e] + Remove(l, tid))[1..] == Remove(l, tid);
    } else if Lookup(l, tid).Some? {
      var e := Lookup(l, tid).value;
      assert ([e] + Remove(l, tid))[1..] == Remove(l, tid);
      SublistSkip(s, [e] + Remove(l, tid));
    }
  }

  lemma SublistTrim(s: seq<Entry>, small: nat, l: seq<Entry>, large: nat, e: Entry)
    requires 1 <= small <= large && |s| <= small && |l| <= large && |l| - |s| <= large - small && Sublist(s, l)
    ensures Sublist(Trim([e] + s, small), Trim([e] + l, large))
    ensures |Trim([e] + l, large)| - |Trim([e] + s, small)| <= large - small
  {
    var s', l' := [e] + s, [e] + l;
    assert s'[1..] == s && l'[1..] == l;
    assert Sublist(s', l');
    hide Sublist;
    assert |s'| > small ==> Trim(s', small) == s'[..|s'|-1];
    assert |l'| > large ==> |s'| > small && Trim(l', large) == l'[..|l'|-1];
    if |s'| > small {
      SublistDropLast(s', l');
      if |l'| <= large { SublistOfPrefix(s'[..|s'|-1], l', |l'| - 1); }
    }
  }

  lemma DominatedAfterPut(s: seq<Entry>, small: nat, l: seq<Entry>, large: nat, now: int, tid: Tid, u: User)
    requires 1 <= small <= large && Dominated(s, small, l, large)
    ensures Dominated(AfterPut(s, small, now, tid, u), small, AfterPut(l, large, now, tid, u), large)
  {
    AfterKeepsInv(s, small, 0, Event(Put(tid, u), now));
    AfterKeepsInv(l, large, 0, Event(Put(tid, u), now));
    RemoveFacts(s, tid);
    RemoveFacts(l, tid);
    SublistRemove(s, l, tid);
    var e := Entry(tid, u, now);
    if Lookup(s, tid).Some? {
      SublistLookup(s, l, tid);
      assert ([e] + Remove(s, tid))[1..] == Remove(s, tid) && ([e] + Remove(l, tid))[1..] == Remove(l, tid);
    } else if Lookup(l, tid).Some? {
      var r := Remove(l, tid);
      SublistTrim(s, small, r, large, e);
    } else {
      SublistTrim(s, small, l, large, e);
    }
  }

  /**
   On any common trace with a common clock, the smaller cache holds an order-preserving sub-list of the larger
   one.
   */
  lemma {:induction false} CapMonotone(small: nat, large: nat, ttl: int, trace: seq<Event>)
    requires 1 <= small <= large
    ensures Dominated(Run(small, ttl, trace), small, Run(large, ttl, trace), large)
  {
    if trace != [] {
      var front, ev := trace[..|trace|-1], trace[|trace|-1];
      CapMonotone(small, large, ttl, front);
      var s, l := Run(small, ttl, front), Run(large, ttl, front);
      match ev.op
      case Get(tid) => DominatedAfterGet(s, small, l, large, ttl, ev.now, tid);
      case Put(tid, u) => DominatedAfterPut(s, small, l, large, ev.now, tid, u);
      case Invalidate(tid) => DominatedAfterRemove(s, small, l, large, tid);
    }
  }

  lemma DominatedAfterRemove(s: seq<Entry>, small: nat, l: seq<Entry>, large: nat, tid: Tid)
    requires 1 <= small <= large && Dominated(s, small, l, large)
    ensures Dominated(Remove(s, tid), small, Remove(l, tid), large)
  {
    RemoveFacts(s, tid);
    RemoveFacts(l, tid);
    SublistRemove(s, l, tid);
    if Lookup(s, tid).Some? { SublistLookup(s, l, tid); }
  }

  /** Raising the cap never turns a hit into a miss and never changes a hit's answer. */
  lemma HitsSurviveLargerCap(small: nat, large: nat, ttl: int, trace: seq<Event>, now: int, tid: Tid)
    requires 1 <= small <= large && Answer(Run(small, ttl, trace), ttl, now, tid).Some?
    ensures Answer(Run(large, ttl, trace), ttl, now, tid) == Answer(Run(small, ttl, trace), ttl, now, tid)
  {
    CapMonotone(small, large, ttl, trace);
    SublistLookup(Run(small, ttl, trace), Run(large, ttl, trace), tid);
  }
}
