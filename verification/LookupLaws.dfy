/** When a nickname lookup asks the identity service, and what it saves later lookups. */
module LookupLaws {
  import opened Wrappers
  import opened RecencyList
  import opened NickLookup

  const SEVEN_DAYS := 604_800_000_000_000
  const THIRTY_DAYS := 2_592_000_000_000_000

  /** The process holds a record of the key that was put at most seven days ago. */
  ghost predicate FreshLocally(s: seq<Entry>, tid: Tid, now: int) {
    exists e :: e in s && e.tid == tid && now - e.fetchedAt <= SEVEN_DAYS
  }

  /** The durable cache can be read and has a record of the key that was written at most thirty days ago. */
  predicate FreshDurably(durable: map<Tid, Row>, tid: Tid, q: Calls) {
    q.canRead && tid in durable && q.checkAt - durable[tid].cachedAt <= THIRTY_DAYS
  }

  lemma AnswersIfFresh(s: seq<Entry>, tid: Tid, now: int)
    requires DistinctTids(s)
    ensures Answer(s, LOCAL_TTL, now, tid).Some? <==> FreshLocally(s, tid, now)
    ensures forall e :: e in s && e.tid == tid && now - e.fetchedAt <= SEVEN_DAYS ==>
              Answer(s, LOCAL_TTL, now, tid) == Some(e.user)
  {
    LookupMember(s, tid);
    forall e | e in s && e.tid == tid ensures RecencyList.Lookup(s, tid) == Some(e) {
      var i :| 0 <= i < |s| && s[i] == e;
      LookupOf(s, i);
    }
  }

  /** The service's answer makes no difference if and only if one of the two caches has a fresh record. */
  lemma ServiceAskedIff(c: Caches, cap: nat, tid: Tid, q: Calls)
    requires DistinctTids(c.local)
    ensures (forall a :: LookedUp(c, cap, tid, q.(answer := a)).1 == LookedUp(c, cap, tid, q).1) <==>
              FreshLocally(c.local, tid, q.getAt) || FreshDurably(c.durable, tid, q)
  {
    AnswersIfFresh(c.local, tid, q.getAt);
    hide Answer, AfterGet, AfterPut, FreshLocally;
    if Answer(c.local, LOCAL_TTL, q.getAt, tid).None? && !UsableRow(c.durable, tid, q) {
      var u := User(tid, "", "", "", "", false);
      assert LookedUp(c, cap, tid, q.(answer := None)).1 == None;
      assert LookedUp(c, cap, tid, q.(answer := Some(u))).1 == Some(u);
    }
  }

  /** Who answers: the process's own cache, else the durable one, else the service. */
  lemma AnswerComesFrom(c: Caches, cap: nat, tid: Tid, q: Calls, e: Entry)
    requires DistinctTids(c.local)
    ensures e in c.local && e.tid == tid && q.getAt - e.fetchedAt <= SEVEN_DAYS ==>
              LookedUp(c, cap, tid, q).1 == Some(e.user) && LookedUp(c, cap, tid, q).0.durable == c.durable
    ensures !FreshLocally(c.local, tid, q.getAt) ==>
              LookedUp(c, cap, tid, q).1 ==
                if FreshDurably(c.durable, tid, q) then Some(c.durable[tid].user.(telegramId := tid)) else q.answer
  {
    AnswersIfFresh(c.local, tid, q.getAt);
    hide Answer, AfterGet, AfterPut, FreshLocally;
  }

  lemma PutInFront(s: seq<Entry>, cap: nat, now: int, tid: Tid, u: User)
    requires cap >= 1
    ensures AfterPut(s, cap, now, tid, u) != [] && AfterPut(s, cap, now, tid, u)[0] == Entry(tid, u, now)
  {
  }

  /** What a lookup learned it tells again for seven days, whatever the durable cache and the service say then. */
  lemma LearnedIsKept(c: Caches, cap: nat, tid: Tid, q: Calls, later: Calls, u: User)
    requires cap >= 1 && DistinctTids(c.local) && !FreshLocally(c.local, tid, q.getAt)
    requires LookedUp(c, cap, tid, q).1 == Some(u) && later.getAt - q.putAt <= SEVEN_DAYS
    ensures LookedUp(LookedUp(c, cap, tid, q).0, cap, tid, later).1 == Some(u)
  {
    AnswersIfFresh(c.local, tid, q.getAt);
    PutInFront(AfterGet(c.local, LOCAL_TTL, q.getAt, tid), cap, q.putAt, tid, u);
    hide AfterGet, AfterPut, FreshLocally;
    var c' := LookedUp(c, cap, tid, q).0;
    assert c'.local != [] && c'.local[0] == Entry(tid, u, q.putAt) by { hide Answer; }
    assert Answer(c'.local, LOCAL_TTL, later.getAt, tid) == Some(u);
  }

  /** And what the service said, written through, answers every other process's lookups for thirty days. */
  lemma LearnedIsShared(c: Caches, cap: nat, tid: Tid, q: Calls, other: seq<Entry>, later: Calls, u: User)
    requires DistinctTids(c.local) && !FreshLocally(c.local, tid, q.getAt) && !FreshDurably(c.durable, tid, q)
    requires q.answer == Some(u) && q.canWrite
    requires DistinctTids(other) && !FreshLocally(other, tid, later.getAt)
    requires later.canRead && later.checkAt - q.writeAt <= THIRTY_DAYS
    ensures var c' := LookedUp(c, cap, tid, q).0;
            LookedUp(Caches(other, c'.durable), cap, tid, later).1 == Some(u.(telegramId := tid))
  {
    AnswersIfFresh(c.local, tid, q.getAt);
    AnswersIfFresh(other, tid, later.getAt);
    hide Answer, AfterGet, AfterPut, FreshLocally;
  }
}
