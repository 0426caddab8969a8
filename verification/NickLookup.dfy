/**
 The nickname lookup of pkg/handlers/match.go: an LRU in each process in front of a durable cache shared by all, in
 front of the identity service. Lookups in flight are cut at their cache and service calls and interleave freely; the
 clock is common and monotone; either cache may lose what it holds and the durable one may fail at any call.
 */
module NickLookup {
  import opened Wrappers
  import opened RecencyList
  import opened NickCache

  type Process = nat

  const HOUR := 3_600_000_000_000
  const LOCAL_TTL := 7 * 24 * HOUR      // s21NickCacheTTL
  const DURABLE_TTL := 30 * 24 * HOUR   // s21NickDurableTTL

  datatype Row = Row(user: User, cachedAt: int)

  /** A lookup between two calls; `since` is when its record was last known fresh enough. */
  datatype Thread =
    | AskDurable(p: Process, tid: Tid)
    | HaveRow(p: Process, tid: Tid, row: Row)
    | Promote(p: Process, tid: Tid, user: User, since: int)     // the row is within its TTL; to be put in the LRU
    | AskService(p: Process, tid: Tid)
    | PutLocal(p: Process, tid: Tid, user: User, since: int)    // the service has answered
    | Upsert(p: Process, tid: Tid, user: User, since: int)

  /** What the service said about tid at a moment, and what a lookup returned at a moment. */
  datatype Statement = Statement(tid: Tid, user: User, at: int)

  datatype World = World(
    now: int,
    locals: map<Process, seq<Entry>>,
    durable: map<Tid, Row>,
    threads: map<nat, Thread>,
    said: set<Statement>,          // history of the service's answers
    returned: seq<Statement>)      // history of the lookups' answers

  datatype Action =
    | Tick(dt: nat)
    | Lookup(id: nat, p: Process, tid: Tid)
    | Advance(id: nat, works: bool, answer: Option<User>)   // whether the durable cache works; what the service says
    | Invalidate(p: Process, tid: Tid)
    | Recycle(p: Process)
    | Forget(tid: Tid)

  /** The LRU's cap, and the longest a lookup takes from knowing a record fresh to having stored and returned it. */
  datatype Setup = Setup(cap: nat, latency: nat)

  const INITIAL := World(0, map[], map[], map[], {}, [])

  function LocalOf(w: World, p: Process): seq<Entry> { if p in w.locals then w.locals[p] else [] }

  function WithLocal(w: World, p: Process, s: seq<Entry>): World { w.(locals := w.locals[p := s]) }

  function Return(w: World, id: nat, tid: Tid, u: User): World {
    w.(threads := w.threads - {id}, returned := w.returned + [Statement(tid, u, w.now)])
  }

  function Continue(w: World, id: nat, t: Thread): World { w.(threads := w.threads[id := t]) }

  /** A cached record carries the telegram id it was looked up by. */
  function Stored(tid: Tid, u: User): User { u.(telegramId := tid) }

  predicate Waits(t: Thread) { t.Promote? || t.PutLocal? || t.Upsert? }

  /** Nobody in flight is slower than the latency allows. */
  predicate InTime(w: World, c: Setup, now: int) {
    forall id :: id in w.threads && Waits(w.threads[id]) ==> now - w.threads[id].since <= c.latency
  }

  function Step(w: World, c: Setup, id: nat, t: Thread, works: bool, answer: Option<User>): World {
    match t
    case AskDurable(p, tid) =>
      Continue(w, id, if works && tid in w.durable then HaveRow(p, tid, w.durable[tid]) else AskService(p, tid))
    case HaveRow(p, tid, row) =>
      Continue(w, id, if w.now - row.cachedAt <= DURABLE_TTL then Promote(p, tid, Stored(tid, row.user), w.now)
               else AskService(p, tid))
    case Promote(p, tid, u, since) =>
      Return(WithLocal(w, p, AfterPut(LocalOf(w, p), c.cap, w.now, tid, u)), id, tid, u)
    case AskService(p, tid) =>
      (match answer
       case None => w.(threads := w.threads - {id})   // nothing to return, nothing cached
       case Some(u) => Continue(w.(said := w.said + {Statement(tid, u, w.now)}), id, PutLocal(p, tid, u, w.now)))
    case PutLocal(p, tid, u, since) =>
      Continue(WithLocal(w, p, AfterPut(LocalOf(w, p), c.cap, w.now, tid, u)), id, Upsert(p, tid, u, since))
    case Upsert(p, tid, u, since) =>
      Return(if works then w.(durable := w.durable[tid := Row(u, w.now)]) else w, id, tid, u)
  }

  function Next(w: World, c: Setup, a: Action): World {
    match a
    case Tick(dt) => if InTime(w, c, w.now + dt) then w.(now := w.now + dt) else w
    case Lookup(id, p, tid) =>
      if id in w.threads then w else
      var s := LocalOf(w, p);
      var w' := WithLocal(w, p, AfterGet(s, LOCAL_TTL, w.now, tid));
      (match Answer(s, LOCAL_TTL, w.now, tid)
       case Some(u) => Return(w', id, tid, u)
       case None => Continue(w', id, AskDurable(p, tid)))
    case Advance(id, works, answer) => if id in w.threads then Step(w, c, id, w.threads[id], works, answer) else w
    case Invalidate(p, tid) => WithLocal(w, p, Remove(LocalOf(w, p), tid))
    case Recycle(p) => w.(locals := w.locals - {p})
    case Forget(tid) => w.(durable := w.durable - {tid})
  }

  function Run(c: Setup, actions: seq<Action>): World {
    if actions == [] then INITIAL else Next(Run(c, actions[..|actions|-1]), c, actions[|actions|-1])
  }

  // ---- every record in circulation was the service's answer, and how long ago

  /** What a lookup reports of a record. */
  function Shown(u: User): (string, bool) { (u.nickname, u.found && u.nickname != "") }

  ghost predicate SameRecord(a: User, b: User) { a.(telegramId := 0) == b.(telegramId := 0) }

  /** The service gave this record for tid at or after `since`. */
  ghost predicate Backed(w: World, tid: Tid, u: User, since: int) {
    exists g :: g in w.said && g.tid == tid && SameRecord(g.user, u) && since <= g.at <= w.now
  }

  ghost predicate EntryOk(w: World, c: Setup, e: Entry) {
    e.fetchedAt <= w.now && Backed(w, e.tid, e.user, e.fetchedAt - DURABLE_TTL - 2 * c.latency)
  }

  ghost predicate RowOk(w: World, c: Setup, tid: Tid, row: Row) {
    row.cachedAt <= w.now && Backed(w, tid, row.user, row.cachedAt - c.latency)
  }

  ghost predicate ThreadOk(w: World, c: Setup, t: Thread) {
    match t
    case HaveRow(p, tid, row) => RowOk(w, c, tid, row)
    case Promote(p, tid, u, since) => since <= w.now <= since + c.latency
        && Backed(w, tid, u, since - DURABLE_TTL - c.latency)
    case PutLocal(p, tid, u, since) => since <= w.now <= since + c.latency && Backed(w, tid, u, since)
    case Upsert(p, tid, u, since) => since <= w.now <= since + c.latency && Backed(w, tid, u, since)
    case _ => true
  }

  /** A returned answer is at most the two lifetimes, and twice the latency, old. */
  ghost predicate ReturnOk(w: World, c: Setup, r: Statement) {
    exists g :: g in w.said && g.tid == r.tid && SameRecord(g.user, r.user)
                && r.at - LOCAL_TTL - DURABLE_TTL - 2 * c.latency <= g.at <= r.at
  }

  ghost predicate LocalsOk(w: World, c: Setup) { forall p, e :: p in w.locals && e in w.locals[p] ==> EntryOk(w, c, e) }

  ghost predicate DurableOk(w: World, c: Setup) { forall tid :: tid in w.durable ==> RowOk(w, c, tid, w.durable[tid]) }

  ghost predicate ThreadsOk(w: World, c: Setup) { forall id :: id in w.threads ==> ThreadOk(w, c, w.threads[id]) }

  ghost predicate ReturnedOk(w: World, c: Setup) { forall r :: r in w.returned ==> ReturnOk(w, c, r) }

  ghost predicate Inv(w: World, c: Setup) { LocalsOk(w, c) && DurableOk(w, c) && ThreadsOk(w, c) && ReturnedOk(w, c) }

  /** Histories only grow, and the clock only when nobody is late. */
  ghost predicate Later(w: World, c: Setup, w': World) {
    && w.now <= w'.now && w.said <= w'.said
    && (w'.now > w.now ==> InTime(w, c, w'.now))
  }

  lemma BackedLater(w: World, c: Setup, w': World, tid: Tid, u: User, since: int)
    requires Later(w, c, w') && Backed(w, tid, u, since)
    ensures Backed(w', tid, u, since)
  {
    var g :| g in w.said && g.tid == tid && SameRecord(g.user, u) && since <= g.at <= w.now;
    assert g in w'.said;
  }

  lemma BackedEarlier(w: World, tid: Tid, u: User, since: int, before: int)
    requires Backed(w, tid, u, since) && before <= since
    ensures Backed(w, tid, u, before)
  {
    var g :| g in w.said && g.tid == tid && SameRecord(g.user, u) && since <= g.at <= w.now;
    assert before <= g.at;
  }

  lemma EntryLater(w: World, c: Setup, w': World, e: Entry)
    requires Later(w, c, w') && EntryOk(w, c, e)
    ensures EntryOk(w', c, e)
  {
    BackedLater(w, c, w', e.tid, e.user, e.fetchedAt - DURABLE_TTL - 2 * c.latency);
    hide Backed;
  }

  lemma RowLater(w: World, c: Setup, w': World, tid: Tid, row: Row)
    requires Later(w, c, w') && RowOk(w, c, tid, row)
    ensures RowOk(w', c, tid, row)
  {
    BackedLater(w, c, w', tid, row.user, row.cachedAt - c.latency);
    hide Backed;
  }

  lemma ThreadLater(w: World, c: Setup, w': World, id: nat)
    requires Later(w, c, w') && id in w.threads && ThreadOk(w, c, w.threads[id])
    ensures ThreadOk(w', c, w.threads[id])
  {
    var t := w.threads[id];
    match t
    case HaveRow(p, tid, row) => RowLater(w, c, w', tid, row);
    case Promote(p, tid, u, since) => BackedLater(w, c, w', tid, u, since - DURABLE_TTL - c.latency);
    case PutLocal(p, tid, u, since) => BackedLater(w, c, w', tid, u, since);
    case Upsert(p, tid, u, since) => BackedLater(w, c, w', tid, u, since);
    case _ =>
    hide Backed, RowOk;
  }

  lemma ReturnLater(w: World, c: Setup, w': World, r: Statement)
    requires Later(w, c, w') && ReturnOk(w, c, r)
    ensures ReturnOk(w', c, r)
  {
    var g :| g in w.said && g.tid == r.tid && SameRecord(g.user, r.user)
             && r.at - LOCAL_TTL - DURABLE_TTL - 2 * c.latency <= g.at <= r.at;
    assert g in w'.said;
  }

  lemma ReturnNow(w: World, c: Setup, tid: Tid, u: User)
    requires Backed(w, tid, u, w.now - LOCAL_TTL - DURABLE_TTL - 2 * c.latency)
    ensures ReturnOk(w, c, Statement(tid, u, w.now))
  {
  }

  /** What a step may change, and what it has to show for it. */
  lemma StepKeeps(w: World, c: Setup, w': World, p: Process, id: nat, row: Option<Tid>)
    requires Inv(w, c) && Later(w, c, w')
    requires forall q :: q in w'.locals && q != p ==> q in w.locals && w'.locals[q] == w.locals[q]
    requires forall e :: e in LocalOf(w', p) ==> e in LocalOf(w, p) || EntryOk(w', c, e)
    requires forall tid :: tid in w'.durable && Some(tid) != row ==>
               tid in w.durable && w'.durable[tid] == w.durable[tid]
    requires row.Some? && row.value in w'.durable ==> RowOk(w', c, row.value, w'.durable[row.value])
    requires forall i :: i in w'.threads && i != id ==> i in w.threads && w'.threads[i] == w.threads[i]
    requires id in w'.threads ==> ThreadOk(w', c, w'.threads[id])
    requires forall r :: r in w'.returned ==> r in w.returned || ReturnOk(w', c, r)
    ensures Inv(w', c)
  {
    hide EntryOk, RowOk, ThreadOk, ReturnOk, Later;
    forall q, e | q in w'.locals && e in w'.locals[q] ensures EntryOk(w', c, e) {
      if q in w.locals && e in w.locals[q] { EntryLater(w, c, w', e); } else { assert e in LocalOf(w', p); }
    }
    forall tid | tid in w'.durable ensures RowOk(w', c, tid, w'.durable[tid]) {
      if Some(tid) != row { RowLater(w, c, w', tid, w'.durable[tid]); }
    }
    forall i | i in w'.threads ensures ThreadOk(w', c, w'.threads[i]) {
      if i != id { ThreadLater(w, c, w', i); }
    }
    forall r | r in w'.returned ensures ReturnOk(w', c, r) {
      if r in w.returned { ReturnLater(w, c, w', r); }
    }
  }

  // ---- the steps

  lemma TickKeeps(w: World, c: Setup, dt: nat)
    requires Inv(w, c)
    ensures Inv(Next(w, c, Tick(dt)), c)
  {
    var w' := Next(w, c, Tick(dt));
    assert Later(w, c, w');
    forall i | i in w'.threads ensures ThreadOk(w', c, w'.threads[i]) { ThreadLater(w, c, w', i); }
    hide EntryOk, RowOk, ThreadOk, ReturnOk, InTime;
    if 0 in w'.threads { assert ThreadOk(w', c, w'.threads[0]); }
    StepKeeps(w, c, w', 0, 0, None);
  }

  /** Records leave the caches. */
  lemma LossKeeps(w: World, c: Setup, a: Action)
    requires Inv(w, c) && (a.Invalidate? || a.Recycle? || a.Forget?)
    ensures Inv(Next(w, c, a), c)
  {
    var w' := Next(w, c, a);
    var p := if a.Invalidate? then a.p else 0;
    if a.Invalidate? { RemoveFacts(LocalOf(w, p), a.tid); }
    hide EntryOk, RowOk, ThreadOk, ReturnOk;
    if 0 in w'.threads { assert ThreadOk(w, c, w.threads[0]); SameClock(w, c, w', w.threads[0]); }
    StepKeeps(w, c, w', p, 0, None);
  }

  lemma SameClock(w: World, c: Setup, w': World, t: Thread)
    requires w'.now == w.now && w.said <= w'.said && ThreadOk(w, c, t)
    ensures ThreadOk(w', c, t)
  {
    assert Later(w, c, w');
    ThreadLater(w.(threads := map[0 := t]), c, w', 0);
  }

  lemma EntriesAfterGet(s: seq<Entry>, ttl: int, now: int, tid: Tid, e: Entry)
    requires e in AfterGet(s, ttl, now, tid)
    ensures e in s
  {
    RemoveFacts(s, tid);
    LookupMember(s, tid);
  }

  lemma EntriesAfterPut(s: seq<Entry>, cap: nat, now: int, tid: Tid, u: User, e: Entry)
    requires e in AfterPut(s, cap, now, tid, u)
    ensures e in s || e == Entry(tid, u, now)
  {
    RemoveFacts(s, tid);
  }

  /** A hit in the LRU is no older than its lifetime. */
  lemma HitOk(w: World, c: Setup, p: Process, tid: Tid)
    requires Inv(w, c) && Answer(LocalOf(w, p), LOCAL_TTL, w.now, tid).Some?
    ensures ReturnOk(w, c, Statement(tid, Answer(LocalOf(w, p), LOCAL_TTL, w.now, tid).value, w.now))
  {
    LookupMember(LocalOf(w, p), tid);
    var e := RecencyList.Lookup(LocalOf(w, p), tid).value;
    assert EntryOk(w, c, e);
    BackedEarlier(w, tid, e.user, e.fetchedAt - DURABLE_TTL - 2 * c.latency,
                  w.now - LOCAL_TTL - DURABLE_TTL - 2 * c.latency);
    ReturnNow(w, c, tid, e.user);
    hide Backed, ReturnOk;
  }

  lemma LookupKeeps(w: World, c: Setup, id: nat, p: Process, tid: Tid)
    requires Inv(w, c) && id !in w.threads
    ensures Inv(Next(w, c, Action.Lookup(id, p, tid)), c)
  {
    var w' := Next(w, c, Action.Lookup(id, p, tid));
    var s := LocalOf(w, p);
    forall e | e in LocalOf(w', p) ensures e in s { EntriesAfterGet(s, LOCAL_TTL, w.now, tid, e); }
    if Answer(s, LOCAL_TTL, w.now, tid).Some? {
      HitOk(w, c, p, tid);
      ReturnLater(w, c, w', Statement(tid, Answer(s, LOCAL_TTL, w.now, tid).value, w.now));
    }
    hide EntryOk, RowOk, ReturnOk, Answer, AfterGet;
    StepKeeps(w, c, w', p, id, None);
  }

  lemma AskDurableKeeps(w: World, c: Setup, id: nat, works: bool, answer: Option<User>)
    requires Inv(w, c) && id in w.threads && w.threads[id].AskDurable?
    ensures Inv(Step(w, c, id, w.threads[id], works, answer), c)
  {
    var w' := Step(w, c, id, w.threads[id], works, answer);
    var tid := w.threads[id].tid;
    if tid in w.durable { RowLater(w, c, w', tid, w.durable[tid]); }
    hide EntryOk, RowOk, ReturnOk;
    StepKeeps(w, c, w', w.threads[id].p, id, None);
  }

  lemma HaveRowKeeps(w: World, c: Setup, id: nat, works: bool, answer: Option<User>)
    requires Inv(w, c) && id in w.threads && w.threads[id].HaveRow?
    ensures Inv(Step(w, c, id, w.threads[id], works, answer), c)
  {
    var t := w.threads[id];
    var w' := Step(w, c, id, t, works, answer);
    assert ThreadOk(w, c, t);
    if w.now - t.row.cachedAt <= DURABLE_TTL {
      BackedAs(w, t.tid, t.row.user, Stored(t.tid, t.row.user), t.row.cachedAt - c.latency,
               w.now - DURABLE_TTL - c.latency);
      BackedLater(w, c, w', t.tid, Stored(t.tid, t.row.user), w.now - DURABLE_TTL - c.latency);
    }
    hide EntryOk, RowOk, ReturnOk, Backed;
    StepKeeps(w, c, w', t.p, id, None);
  }

  lemma BackedAs(w: World, tid: Tid, u: User, v: User, since: int, before: int)
    requires Backed(w, tid, u, since) && SameRecord(u, v) && before <= since
    ensures Backed(w, tid, v, before)
  {
    var g :| g in w.said && g.tid == tid && SameRecord(g.user, u) && since <= g.at <= w.now;
    assert SameRecord(g.user, v) && before <= g.at;
  }

  lemma PromoteKeeps(w: World, c: Setup, id: nat, works: bool, answer: Option<User>)
    requires Inv(w, c) && id in w.threads && w.threads[id].Promote?
    ensures Inv(Step(w, c, id, w.threads[id], works, answer), c)
  {
    var t := w.threads[id];
    var w' := Step(w, c, id, t, works, answer);
    assert ThreadOk(w, c, t);
    BackedLater(w, c, w', t.tid, t.user, t.since - DURABLE_TTL - c.latency);
    BackedEarlier(w', t.tid, t.user, t.since - DURABLE_TTL - c.latency, w.now - DURABLE_TTL - 2 * c.latency);
    BackedEarlier(w', t.tid, t.user, t.since - DURABLE_TTL - c.latency,
                  w.now - LOCAL_TTL - DURABLE_TTL - 2 * c.latency);
    ReturnNow(w', c, t.tid, t.user);
    assert EntryOk(w', c, Entry(t.tid, t.user, w.now)) by { hide Backed, ReturnOk; }
    forall e | e in LocalOf(w', t.p) ensures e in LocalOf(w, t.p) || e == Entry(t.tid, t.user, w.now) {
      EntriesAfterPut(LocalOf(w, t.p), c.cap, w.now, t.tid, t.user, e);
    }
    hide EntryOk, RowOk, ReturnOk, ThreadOk, AfterPut;
    StepKeeps(w, c, w', t.p, id, None);
  }

  lemma AskServiceKeeps(w: World, c: Setup, id: nat, works: bool, answer: Option<User>)
    requires Inv(w, c) && id in w.threads && w.threads[id].AskService?
    ensures Inv(Step(w, c, id, w.threads[id], works, answer), c)
  {
    var t := w.threads[id];
    var w' := Step(w, c, id, t, works, answer);
    if answer.Some? { assert Statement(t.tid, answer.value, w.now) in w'.said; }
    assert id in w'.threads ==> ThreadOk(w', c, w'.threads[id]);
    hide EntryOk, RowOk, ReturnOk, ThreadOk;
    StepKeeps(w, c, w', t.p, id, None);
  }

  lemma PutLocalKeeps(w: World, c: Setup, id: nat, works: bool, answer: Option<User>)
    requires Inv(w, c) && id in w.threads && w.threads[id].PutLocal?
    ensures Inv(Step(w, c, id, w.threads[id], works, answer), c)
  {
    var t := w.threads[id];
    var w' := Step(w, c, id, t, works, answer);
    assert ThreadOk(w, c, t);
    BackedLater(w, c, w', t.tid, t.user, t.since);
    BackedEarlier(w', t.tid, t.user, t.since, w.now - DURABLE_TTL - 2 * c.latency);
    assert EntryOk(w', c, Entry(t.tid, t.user, w.now)) && ThreadOk(w', c, w'.threads[id]) by { hide Backed; }
    forall e | e in LocalOf(w', t.p) ensures e in LocalOf(w, t.p) || e == Entry(t.tid, t.user, w.now) {
      EntriesAfterPut(LocalOf(w, t.p), c.cap, w.now, t.tid, t.user, e);
    }
    hide EntryOk, RowOk, ReturnOk, ThreadOk, AfterPut;
    StepKeeps(w, c, w', t.p, id, None);
  }

  lemma UpsertKeeps(w: World, c: Setup, id: nat, works: bool, answer: Option<User>)
    requires Inv(w, c) && id in w.threads && w.threads[id].Upsert?
    ensures Inv(Step(w, c, id, w.threads[id], works, answer), c)
  {
    var t := w.threads[id];
    var w' := Step(w, c, id, t, works, answer);
    assert ThreadOk(w, c, t);
    BackedLater(w, c, w', t.tid, t.user, t.since);
    BackedEarlier(w', t.tid, t.user, t.since, w.now - c.latency);
    BackedEarlier(w', t.tid, t.user, t.since, w.now - LOCAL_TTL - DURABLE_TTL - 2 * c.latency);
    ReturnNow(w', c, t.tid, t.user);
    assert RowOk(w', c, t.tid, Row(t.user, w.now)) by { hide Backed, ReturnOk; }
    hide EntryOk, RowOk, ReturnOk, ThreadOk;
    StepKeeps(w, c, w', t.p, id, if works then Some(t.tid) else None);
  }

  lemma NextKeeps(w: World, c: Setup, a: Action)
    requires Inv(w, c)
    ensures Inv(Next(w, c, a), c)
  {
    hide Inv, Step;
    match a
    case Tick(dt) => TickKeeps(w, c, dt);
    case Lookup(id, p, tid) => if id !in w.threads { LookupKeeps(w, c, id, p, tid); }
    case Advance(id, works, answer) =>
      if id in w.threads {
        match w.threads[id]
        case AskDurable(_, _) => AskDurableKeeps(w, c, id, works, answer);
        case HaveRow(_, _, _) => HaveRowKeeps(w, c, id, works, answer);
        case Promote(_, _, _, _) => PromoteKeeps(w, c, id, works, answer);
        case AskService(_, _) => AskServiceKeeps(w, c, id, works, answer);
        case PutLocal(_, _, _, _) => PutLocalKeeps(w, c, id, works, answer);
        case Upsert(_, _, _, _) => UpsertKeeps(w, c, id, works, answer);
      }
    case _ => LossKeeps(w, c, a);
  }

  lemma {:induction false} RunKeeps(c: Setup, actions: seq<Action>)
    ensures Inv(Run(c, actions), c)
  {
    if actions != [] {
      RunKeeps(c, actions[..|actions|-1]);
      NextKeeps(Run(c, actions[..|actions|-1]), c, actions[|actions|-1]);
    }
  }

  // ---- the theorems

  const BOUND := 37 * 24 * HOUR

  /**
   Staleness: every answer a lookup returns was given by the identity service, for that id, at most 37 days and twice
   the latency earlier, however many processes share the durable cache.
   */
  lemma AnswersAreRecent(c: Setup, actions: seq<Action>, r: Statement)
    requires r in Run(c, actions).returned
    ensures exists g :: g in Run(c, actions).said && g.tid == r.tid && Shown(g.user) == Shown(r.user)
                        && 0 <= r.at - g.at <= BOUND + 2 * c.latency
  {
    var w := Run(c, actions);
    RunKeeps(c, actions);
    assert ReturnOk(w, c, r);
    var g :| g in w.said && g.tid == r.tid && SameRecord(g.user, r.user)
             && r.at - LOCAL_TTL - DURABLE_TTL - 2 * c.latency <= g.at <= r.at;
    assert Shown(g.user) == Shown(r.user);
  }

  ghost predicate ServiceConstant(w: World) {
    forall a, b :: a in w.said && b in w.said && a.tid == b.tid ==> a.user == b.user
  }

  /**
   While the service's answers do not change, neither returned nor cached answers, negative ones included, differ from
   them.
   */
  lemma AnswersAreTrue(c: Setup, actions: seq<Action>, g: Statement, r: Statement, p: Process, e: Entry)
    requires var w := Run(c, actions); ServiceConstant(w) && g in w.said
    ensures var w := Run(c, actions);
            && (r in w.returned && r.tid == g.tid ==> Shown(r.user) == Shown(g.user))
            && (p in w.locals && e in w.locals[p] && e.tid == g.tid ==> Shown(e.user) == Shown(g.user))
            && (g.tid in w.durable ==> Shown(w.durable[g.tid].user) == Shown(g.user))
  {
    var w := Run(c, actions);
    RunKeeps(c, actions);
    hide Run;
    if r in w.returned && r.tid == g.tid { assert ReturnOk(w, c, r); }
    if p in w.locals && e in w.locals[p] && e.tid == g.tid { assert EntryOk(w, c, e); }
    if g.tid in w.durable { assert RowOk(w, c, g.tid, w.durable[g.tid]); }
  }

  // ---- the bound is reached

  ghost predicate Reachable(c: Setup, w: World) { exists actions :: Run(c, actions) == w }

  lemma ReachNext(c: Setup, w: World, a: Action, w': World)
    requires Reachable(c, w) && Next(w, c, a) == w'
    ensures Reachable(c, w')
  {
    var actions :| Run(c, actions) == w;
    assert (actions + [a])[..|actions|] == actions;
    assert Run(c, actions + [a]) == w';
  }

  const SOMEONE := User(5, "peer", "", "", "", true)
  const INSTANT := Setup(1, 0)

  lemma PutIntoEmpty(now: int)
    ensures AfterPut([], 1, now, 5, SOMEONE) == [Entry(5, SOMEONE, now)]
  {
    assert [Entry(5, SOMEONE, now)] + [] == [Entry(5, SOMEONE, now)];
  }

  const GAVE := Statement(5, SOMEONE, 0)

  /** Process 0 asks the service at time 0. */
  lemma Asking()
    ensures Reachable(INSTANT, World(0, map[0 := []], map[], map[0 := AskService(0, 5)], {}, []))
  {
    assert Run(INSTANT, []) == INITIAL;
    var w1 := World(0, map[0 := []], map[], map[0 := AskDurable(0, 5)], {}, []);
    ReachNext(INSTANT, INITIAL, Action.Lookup(0, 0, 5), w1);
    ReachNext(INSTANT, w1, Advance(0, true, None), World(0, map[0 := []], map[], map[0 := AskService(0, 5)], {}, []));
  }

  /** And stores its answer. */
  lemma AskedOnce()
    ensures Reachable(INSTANT,
                      World(0, map[0 := [Entry(5, SOMEONE, 0)]], map[5 := Row(SOMEONE, 0)], map[], {GAVE}, [GAVE]))
  {
    Asking();
    PutIntoEmpty(0);
    var w2 := World(0, map[0 := []], map[], map[0 := AskService(0, 5)], {}, []);
    var w3 := World(0, map[0 := []], map[], map[0 := PutLocal(0, 5, SOMEONE, 0)], {GAVE}, []);
    ReachNext(INSTANT, w2, Advance(0, true, Some(SOMEONE)), w3);
    var w4 := World(0, map[0 := [Entry(5, SOMEONE, 0)]], map[], map[0 := Upsert(0, 5, SOMEONE, 0)], {GAVE}, []);
    ReachNext(INSTANT, w3, Advance(0, true, None), w4);
    ReachNext(INSTANT, w4, Advance(0, true, None),
              World(0, map[0 := [Entry(5, SOMEONE, 0)]], map[5 := Row(SOMEONE, 0)], map[], {GAVE}, [GAVE]));
  }

  /** The world thirty days later. */
  function Later30(local1: seq<Entry>, threads: map<nat, Thread>, returned: seq<Statement>): World {
    World(DURABLE_TTL, map[0 := [Entry(5, SOMEONE, 0)], 1 := local1], map[5 := Row(SOMEONE, 0)], threads, {GAVE},
          returned)
  }

  /** Thirty days later process 1 finds the durable row. */
  lemma FoundLate()
    ensures Reachable(INSTANT, Later30([], map[1 := HaveRow(1, 5, Row(SOMEONE, 0))], [GAVE]))
  {
    AskedOnce();
    var w0 := World(0, map[0 := [Entry(5, SOMEONE, 0)]], map[5 := Row(SOMEONE, 0)], map[], {GAVE}, [GAVE]);
    var w1 := w0.(now := DURABLE_TTL);
    ReachNext(INSTANT, w0, Tick(DURABLE_TTL), w1);
    var w2 := Later30([], map[1 := AskDurable(1, 5)], [GAVE]);
    ReachNext(INSTANT, w1, Action.Lookup(1, 1, 5), w2);
    ReachNext(INSTANT, w2, Advance(1, true, None), Later30([], map[1 := HaveRow(1, 5, Row(SOMEONE, 0))], [GAVE]));
  }

  /** And stamps it anew in its own LRU. */
  lemma PromotedLate()
    ensures Reachable(INSTANT,
                      Later30([Entry(5, SOMEONE, DURABLE_TTL)], map[], [GAVE, Statement(5, SOMEONE, DURABLE_TTL)]))
  {
    FoundLate();
    PutIntoEmpty(DURABLE_TTL);
    var w3 := Later30([], map[1 := HaveRow(1, 5, Row(SOMEONE, 0))], [GAVE]);
    var w4 := Later30([], map[1 := Promote(1, 5, SOMEONE, DURABLE_TTL)], [GAVE]);
    ReachNext(INSTANT, w3, Advance(1, true, None), w4);
    ReachNext(INSTANT, w4, Advance(1, true, None),
              Later30([Entry(5, SOMEONE, DURABLE_TTL)], map[], [GAVE, Statement(5, SOMEONE, DURABLE_TTL)]));
  }

  /** And seven days after that it still answers from it: the bound of 37 days cannot be lowered. */
  lemma BoundIsReached()
    ensures exists w :: Reachable(INSTANT, w) && Statement(5, SOMEONE, BOUND) in w.returned && w.said == {GAVE}
  {
    PromotedLate();
    var w0 := Later30([Entry(5, SOMEONE, DURABLE_TTL)], map[], [GAVE, Statement(5, SOMEONE, DURABLE_TTL)]);
    var w1 := w0.(now := BOUND);
    ReachNext(INSTANT, w0, Tick(LOCAL_TTL), w1);
    assert Answer([Entry(5, SOMEONE, DURABLE_TTL)], LOCAL_TTL, BOUND, 5) == Some(SOMEONE);
    var w2 := Next(w1, INSTANT, Action.Lookup(2, 1, 5));
    ReachNext(INSTANT, w1, Action.Lookup(2, 1, 5), w2);
    assert w2.returned[2] == Statement(5, SOMEONE, BOUND);
  }

  // ---- one lookup from start to end

  datatype Caches = Caches(local: seq<Entry>, durable: map<Tid, Row>)

  /** What the calls of one lookup find: their clock readings, whether the durable cache works, the service's answer. */
  datatype Calls = Calls(
    getAt: int, checkAt: int, putAt: int, writeAt: int, canRead: bool, canWrite: bool, answer: Option<User>)

  function UsableRow(durable: map<Tid, Row>, tid: Tid, q: Calls): bool {
    q.canRead && tid in durable && q.checkAt - durable[tid].cachedAt <= DURABLE_TTL
  }

  /** The caches and the answer after `lookupS21Nickname`, run without interruption. */
  function LookedUp(c: Caches, cap: nat, tid: Tid, q: Calls): (Caches, Option<User>) {
    var s := AfterGet(c.local, LOCAL_TTL, q.getAt, tid);
    match Answer(c.local, LOCAL_TTL, q.getAt, tid)
    case Some(u) => (c.(local := s), Some(u))
    case None =>
      if UsableRow(c.durable, tid, q) then
        var u := Stored(tid, c.durable[tid].user);
        (c.(local := AfterPut(s, cap, q.putAt, tid, u)), Some(u))
      else if q.answer.None? then (c.(local := s), None)
      else
        var u := q.answer.value;
        (Caches(AfterPut(s, cap, q.putAt, tid, u),
                if q.canWrite then c.durable[tid := Row(u, q.writeAt)] else c.durable),
         Some(u))
  }

  class DurableCache {
    var rows: map<Tid, Row>

    constructor ()
      ensures rows == map[]
    {
      rows := map[];
    }

    method Get(tid: Tid, works: bool) returns (r: Option<Row>)
      ensures r == if works && tid in rows then Some(rows[tid]) else None
    {
      r := if works && tid in rows then Some(rows[tid]) else None;
    }

    method Upsert(tid: Tid, row: Row, works: bool)
      modifies this
      ensures rows == if works then old(rows)[tid := row] else old(rows)
    {
      if works { rows := rows[tid := row]; }
    }
  }

  method LookupS21Nickname(cache: S21NickCache, durable: DurableCache, tid: Tid, q: Calls)
    returns (nickname: string, ok: bool)
    requires cache.Valid() && cache.ttl == LOCAL_TTL
    modifies cache, cache.lru, durable
    ensures cache.Valid()
    ensures var r := LookedUp(Caches(old(cache.Contents()), old(durable.rows)), cache.maxEntries, tid, q);
            && Caches(cache.Contents(), durable.rows) == r.0
            && (nickname, ok) == if r.1.None? then ("", false) else Shown(r.1.value)
  {
    hide Answer, AfterGet, AfterPut, EntriesOf, Indexed;
    var hit := cache.Get(tid, q.getAt);
    if hit.Some? { return hit.value.nickname, hit.value.found && hit.value.nickname != ""; }
    var row := durable.Get(tid, q.canRead);
    if row.Some? && q.checkAt - row.value.cachedAt <= DURABLE_TTL {
      var u := Stored(tid, row.value.user);
      cache.Put(tid, u, q.putAt);
      return u.nickname, u.found && u.nickname != "";
    }
    if q.answer.None? { return "", false; }
    var got := q.answer.value;
    cache.Put(tid, got, q.putAt);
    durable.Upsert(tid, Row(got, q.writeAt), q.canWrite);
    return got.nickname, got.found && got.nickname != "";
  }

  // ---- a lookup of the interleaved model, left alone

  /** How long a lookup waits before each kind of call. */
  datatype Gaps = Gaps(read: nat, check: nat, ask: nat, put: nat, write: nat)
  {
    function Total(): nat { read + check + ask + put + write }
  }

  function GapOf(t: Thread, g: Gaps): nat {
    match t
    case AskDurable(_, _) => g.read
    case HaveRow(_, _, _) => g.check
    case AskService(_, _) => g.ask
    case Promote(_, _, _, _) => g.put
    case PutLocal(_, _, _, _) => g.put
    case Upsert(_, _, _, _) => g.write
  }

  /** The clock moves on and thread id makes its next call. */
  function Turn(w: World, c: Setup, id: nat, g: Gaps, q: Calls): World {
    if id !in w.threads then w else
    var t := w.threads[id];
    Next(Next(w, c, Tick(GapOf(t, g))), c, Advance(id, if t.Upsert? then q.canWrite else q.canRead, q.answer))
  }

  function Turns(w: World, c: Setup, id: nat, g: Gaps, q: Calls, n: nat): World
    decreases n
  {
    if n == 0 then w else Turns(Turn(w, c, id, g, q), c, id, g, q, n - 1)
  }

  /** The clock readings of a lookup that starts now and waits like this. */
  ghost predicate ReadsClock(w: World, tid: Tid, g: Gaps, q: Calls) {
    var checkAt := w.now + g.read + if q.canRead && tid in w.durable then g.check else 0;
    && q.getAt == w.now && q.checkAt == checkAt
    && q.putAt == (if UsableRow(w.durable, tid, q) then checkAt else checkAt + g.ask) + g.put
    && q.writeAt == checkAt + g.ask + g.put + g.write
  }

  /** World v with thread id standing at t, at a later time. */
  function At(v: World, id: nat, t: Thread, now: int): World { v.(now := now, threads := v.threads[id := t]) }

  /** A turn is the thread's step at the end of its wait, since nobody is late. */
  lemma TurnIs(v: World, c: Setup, id: nat, t: Thread, now: int, limit: int, g: Gaps, q: Calls)
    requires id !in v.threads && InTime(v, c, limit) && now + GapOf(t, g) <= limit
    requires Waits(t) ==> now + GapOf(t, g) - t.since <= c.latency
    ensures Turn(At(v, id, t, now), c, id, g, q) ==
            Step(At(v, id, t, now + GapOf(t, g)), c, id, t, if t.Upsert? then q.canWrite else q.canRead, q.answer)
  {
    var w := At(v, id, t, now);
    assert InTime(w, c, now + GapOf(t, g));
    hide Step, InTime;
    assert Next(w, c, Tick(GapOf(t, g))) == At(v, id, t, now + GapOf(t, g));
  }

  /** The lookup has returned u at this time. */
  function Returned(v: World, tid: Tid, u: User, now: int): World {
    v.(now := now, returned := v.returned + [Statement(tid, u, now)])
  }

  lemma PromotedAlone(v: World, c: Setup, id: nat, p: Process, tid: Tid, u: User, now: int, limit: int, g: Gaps,
                      q: Calls)
    requires id !in v.threads && InTime(v, c, limit) && now + g.put <= limit && g.put <= c.latency
    ensures Turn(At(v, id, Promote(p, tid, u, now), now), c, id, g, q) ==
            Returned(WithLocal(v, p, AfterPut(LocalOf(v, p), c.cap, now + g.put, tid, u)), tid, u, now + g.put)
  {
    TurnIs(v, c, id, Promote(p, tid, u, now), now, limit, g, q);
    hide AfterPut, InTime, Turn;
    assert v.threads[id := Promote(p, tid, u, now)] - {id} == v.threads;
  }

  /** The world once the service's answer, given at this time, is cached and returned. */
  function ServedBy(v: World, c: Setup, p: Process, tid: Tid, u: User, at: int, g: Gaps, canWrite: bool): World {
    var putAt, end := at + g.put, at + g.put + g.write;
    Returned(WithLocal(v, p, AfterPut(LocalOf(v, p), c.cap, putAt, tid, u))
               .(said := v.said + {Statement(tid, u, at)},
                 durable := if canWrite then v.durable[tid := Row(u, end)] else v.durable),
             tid, u, end)
  }

  /** The world after a question to the service at this time. */
  function AskEnd(v: World, c: Setup, p: Process, tid: Tid, at: int, g: Gaps, q: Calls): World {
    if q.answer.None? then v.(now := at) else ServedBy(v, c, p, tid, q.answer.value, at, g, q.canWrite)
  }

  lemma TurnRests(w: World, c: Setup, id: nat, g: Gaps, q: Calls)
    requires id !in w.threads
    ensures Turn(w, c, id, g, q) == w
  {
  }

  lemma AskedAlone(v: World, c: Setup, id: nat, p: Process, tid: Tid, now: int, limit: int, g: Gaps, q: Calls)
    requires id !in v.threads && InTime(v, c, limit)
    requires now + g.ask + g.put + g.write <= limit && g.put + g.write <= c.latency
    ensures Turns(At(v, id, AskService(p, tid), now), c, id, g, q, 3) ==
            AskEnd(v, c, p, tid, now + g.ask, g, q)
  {
    hide AfterPut, InTime, Turn;
    var w1 := At(v, id, AskService(p, tid), now);
    TurnIs(v, c, id, AskService(p, tid), now, limit, g, q);
    var w2 := Turn(w1, c, id, g, q);
    if q.answer.None? {
      assert w2.threads == v.threads;
      TurnRests(w2, c, id, g, q);
      ThreeTurns(w1, w2, w2, w2, c, id, g, q);
    } else {
      AnsweredAlone(v, c, id, p, tid, q.answer.value, now + g.ask, limit, g, q);
      assert w2 == At(v.(said := v.said + {Statement(tid, q.answer.value, now + g.ask)}), id,
                      PutLocal(p, tid, q.answer.value, now + g.ask), now + g.ask);
      var w3 := Turn(w2, c, id, g, q);
      ThreeTurns(w1, w2, w3, Turn(w3, c, id, g, q), c, id, g, q);
    }
  }

  lemma PutTurn(v: World, c: Setup, id: nat, p: Process, tid: Tid, u: User, at: int, limit: int, g: Gaps, q: Calls)
    requires id !in v.threads && InTime(v, c, limit) && at + g.put <= limit && g.put <= c.latency
    ensures Turn(At(v, id, PutLocal(p, tid, u, at), at), c, id, g, q) ==
            At(WithLocal(v, p, AfterPut(LocalOf(v, p), c.cap, at + g.put, tid, u)),
               id, Upsert(p, tid, u, at), at + g.put)
  {
    hide AfterPut, Turn;
    TurnIs(v, c, id, PutLocal(p, tid, u, at), at, limit, g, q);
    hide InTime;
  }

  lemma UpsertTurn(v: World, c: Setup, id: nat, p: Process, tid: Tid, u: User, at: int, limit: int, g: Gaps, q: Calls)
    requires id !in v.threads && InTime(v, c, limit) && at + g.put + g.write <= limit && g.put + g.write <= c.latency
    ensures Turn(At(v, id, Upsert(p, tid, u, at), at + g.put), c, id, g, q) ==
            Returned(v.(durable := if q.canWrite then v.durable[tid := Row(u, at + g.put + g.write)] else v.durable),
                     tid, u, at + g.put + g.write)
  {
    hide Turn;
    TurnIs(v, c, id, Upsert(p, tid, u, at), at + g.put, limit, g, q);
    hide InTime;
    assert v.threads[id := Upsert(p, tid, u, at)] - {id} == v.threads;
  }

  lemma AnsweredAlone(v: World, c: Setup, id: nat, p: Process, tid: Tid, u: User, at: int, limit: int, g: Gaps,
                      q: Calls)
    requires id !in v.threads && InTime(v, c, limit) && at + g.put + g.write <= limit && g.put + g.write <= c.latency
    ensures var v' := v.(said := v.said + {Statement(tid, u, at)});
            Turn(Turn(At(v', id, PutLocal(p, tid, u, at), at), c, id, g, q), c, id, g, q) ==
            ServedBy(v, c, p, tid, u, at, g, q.canWrite)
  {
    hide AfterPut, Turn;
    var v1 := v.(said := v.said + {Statement(tid, u, at)});
    var v2 := WithLocal(v1, p, AfterPut(LocalOf(v, p), c.cap, at + g.put, tid, u));
    assert InTime(v1, c, limit) && InTime(v2, c, limit);
    PutTurn(v1, c, id, p, tid, u, at, limit, g, q);
    UpsertTurn(v2, c, id, p, tid, u, at, limit, g, q);
    hide InTime;
  }

  lemma ThreeTurns(w1: World, w2: World, w3: World, w4: World, c: Setup, id: nat, g: Gaps, q: Calls)
    requires Turn(w1, c, id, g, q) == w2 && Turn(w2, c, id, g, q) == w3 && Turn(w3, c, id, g, q) == w4
    ensures Turns(w1, c, id, g, q, 1) == w2 && Turns(w1, c, id, g, q, 2) == w3 && Turns(w1, c, id, g, q, 3) == w4
  {
    hide Turn;
    assert Turns(w3, c, id, g, q, 1) == w4 && Turns(w2, c, id, g, q, 1) == w3;
    assert Turns(w2, c, id, g, q, 2) == w4;
  }

  lemma {:induction false} TurnsAdd(w: World, c: Setup, id: nat, g: Gaps, q: Calls, m: nat, n: nat)
    ensures Turns(w, c, id, g, q, m + n) == Turns(Turns(w, c, id, g, q, m), c, id, g, q, n)
    decreases m
  {
    hide Turn;
    if m > 0 { TurnsAdd(Turn(w, c, id, g, q), c, id, g, q, m - 1, n); }
  }

  lemma {:induction false} TurnsRest(w: World, c: Setup, id: nat, g: Gaps, q: Calls, n: nat)
    requires id !in w.threads
    ensures Turns(w, c, id, g, q, n) == w
    decreases n
  {
    if n > 0 { TurnsRest(w, c, id, g, q, n - 1); }
  }

  /** What `LookedUp` says became of the caches, the answers and the other threads. */
  ghost predicate EndsAs(w: World, w': World, c: Setup, p: Process, tid: Tid, q: Calls) {
    var r := LookedUp(Caches(LocalOf(w, p), w.durable), c.cap, tid, q);
    && LocalOf(w', p) == r.0.local && w'.durable == r.0.durable && w'.threads == w.threads
    && w'.returned == w.returned + (if r.1.None? then [] else [Statement(tid, r.1.value, w'.now)])
  }

  /** From the start to the check of the durable row, if there is one to be had. */
  lemma ReadAlone(v: World, c: Setup, id: nat, p: Process, tid: Tid, limit: int, g: Gaps, q: Calls)
    requires id !in v.threads && InTime(v, c, limit) && v.now + g.read + g.check <= limit && ReadsClock(v, tid, g, q)
    ensures var w1, t1 := At(v, id, AskDurable(p, tid), v.now), v.now + g.read;
            if q.canRead && tid in v.durable then
              Turns(w1, c, id, g, q, 2) ==
                if UsableRow(v.durable, tid, q)
                then At(v, id, Promote(p, tid, Stored(tid, v.durable[tid].user), q.checkAt), q.checkAt)
                else At(v, id, AskService(p, tid), q.checkAt)
            else Turns(w1, c, id, g, q, 1) == At(v, id, AskService(p, tid), q.checkAt)
  {
    hide Turn, InTime;
    var w1, t1 := At(v, id, AskDurable(p, tid), v.now), v.now + g.read;
    TurnIs(v, c, id, AskDurable(p, tid), v.now, limit, g, q);
    var w2 := Turn(w1, c, id, g, q);
    if q.canRead && tid in v.durable {
      var t := HaveRow(p, tid, v.durable[tid]);
      assert w2 == At(v, id, t, t1);
      TurnIs(v, c, id, t, t1, limit, g, q);
      var w3 := Turn(w2, c, id, g, q);
      ThreeTurns(w1, w2, w3, Turn(w3, c, id, g, q), c, id, g, q);
    } else {
      assert w2 == At(v, id, AskService(p, tid), t1);
      ThreeTurns(w1, w2, Turn(w2, c, id, g, q), Turn(Turn(w2, c, id, g, q), c, id, g, q), c, id, g, q);
    }
  }

  /** How a lookup that misses in the LRU ends. */
  function MissEnd(v: World, c: Setup, p: Process, tid: Tid, g: Gaps, q: Calls): World {
    if UsableRow(v.durable, tid, q) then
      var u := Stored(tid, v.durable[tid].user);
      Returned(WithLocal(v, p, AfterPut(LocalOf(v, p), c.cap, q.checkAt + g.put, tid, u)), tid, u, q.checkAt + g.put)
    else AskEnd(v, c, p, tid, q.checkAt + g.ask, g, q)
  }

  lemma UsableTurns(v: World, c: Setup, id: nat, p: Process, tid: Tid, limit: int, g: Gaps, q: Calls)
    requires id !in v.threads && InTime(v, c, limit) && limit == v.now + g.Total() && g.Total() <= c.latency
    requires ReadsClock(v, tid, g, q) && UsableRow(v.durable, tid, q)
    ensures Turns(At(v, id, AskDurable(p, tid), v.now), c, id, g, q, 5) == MissEnd(v, c, p, tid, g, q)
  {
    hide Turn, AfterPut, InTime, Stored, Step, Next;
    var u := Stored(tid, v.durable[tid].user);
    var w1, w3 := At(v, id, AskDurable(p, tid), v.now), At(v, id, Promote(p, tid, u, q.checkAt), q.checkAt);
    var end := Turn(w3, c, id, g, q);
    PromotedAlone(v, c, id, p, tid, u, q.checkAt, limit, g, q);
    assert end == MissEnd(v, c, p, tid, g, q);
    assert Turns(w3, c, id, g, q, 3) == Turns(end, c, id, g, q, 2);
    TurnsRest(end, c, id, g, q, 2);
    hide Turns, MissEnd;
    ReadAlone(v, c, id, p, tid, limit, g, q);
    TurnsAdd(w1, c, id, g, q, 2, 3);
  }

  lemma ClockBound(v: World, tid: Tid, g: Gaps, q: Calls)
    requires ReadsClock(v, tid, g, q)
    ensures v.now <= q.checkAt && q.checkAt + g.ask + g.put + g.write <= v.now + g.Total()
  {
  }

  lemma AskingTurns(v: World, c: Setup, id: nat, p: Process, tid: Tid, limit: int, g: Gaps, q: Calls)
    requires id !in v.threads && InTime(v, c, limit) && limit == v.now + g.Total() && g.Total() <= c.latency
    requires ReadsClock(v, tid, g, q) && !UsableRow(v.durable, tid, q)
    ensures Turns(At(v, id, AskService(p, tid), q.checkAt), c, id, g, q, 3) == MissEnd(v, c, p, tid, g, q)
    ensures id !in MissEnd(v, c, p, tid, g, q).threads
  {
    hide ReadsClock, Turns, AskEnd, InTime, At, UsableRow;
    ClockBound(v, tid, g, q);
    AskedAlone(v, c, id, p, tid, q.checkAt, limit, g, q);
    MissEndThreads(v, c, p, tid, g, q);
  }

  lemma MissEndThreads(v: World, c: Setup, p: Process, tid: Tid, g: Gaps, q: Calls)
    ensures MissEnd(v, c, p, tid, g, q).threads == v.threads
  {
    hide AfterPut, Stored;
  }

  lemma ServiceTurns(v: World, c: Setup, id: nat, p: Process, tid: Tid, limit: int, g: Gaps, q: Calls)
    requires id !in v.threads && InTime(v, c, limit) && limit == v.now + g.Total() && g.Total() <= c.latency
    requires ReadsClock(v, tid, g, q) && !UsableRow(v.durable, tid, q)
    ensures Turns(At(v, id, AskDurable(p, tid), v.now), c, id, g, q, 5) == MissEnd(v, c, p, tid, g, q)
  {
    ReadAlone(v, c, id, p, tid, limit, g, q);
    AskingTurns(v, c, id, p, tid, limit, g, q);
    hide Turn, Turns, InTime, ReadsClock, MissEnd;
    var w1, ask, end := At(v, id, AskDurable(p, tid), v.now), At(v, id, AskService(p, tid), q.checkAt),
        MissEnd(v, c, p, tid, g, q);
    if q.canRead && tid in v.durable {
      TurnsAdd(w1, c, id, g, q, 2, 3);
    } else {
      TurnsAdd(w1, c, id, g, q, 1, 4);
      TurnsAdd(ask, c, id, g, q, 3, 1);
      TurnsRest(end, c, id, g, q, 1);
    }
  }

  /** The end of a miss is what `LookedUp` says. */
  lemma MissEndsAs(w: World, v: World, c: Setup, p: Process, tid: Tid, g: Gaps, q: Calls)
    requires v == WithLocal(w, p, AfterGet(LocalOf(w, p), LOCAL_TTL, q.getAt, tid)) && ReadsClock(v, tid, g, q)
    requires Answer(LocalOf(w, p), LOCAL_TTL, q.getAt, tid).None?
    ensures EndsAs(w, MissEnd(v, c, p, tid, g, q), c, p, tid, q)
  {
    hide AfterPut, AfterGet, Answer, Stored;
  }

  lemma MissAlone(w: World, v: World, c: Setup, id: nat, p: Process, tid: Tid, limit: int, g: Gaps, q: Calls)
    requires id !in v.threads && InTime(v, c, limit) && limit == v.now + g.Total() && g.Total() <= c.latency
    requires ReadsClock(v, tid, g, q)
    requires v == WithLocal(w, p, AfterGet(LocalOf(w, p), LOCAL_TTL, q.getAt, tid))
    requires Answer(LocalOf(w, p), LOCAL_TTL, q.getAt, tid).None?
    ensures EndsAs(w, Turns(At(v, id, AskDurable(p, tid), v.now), c, id, g, q, 5), c, p, tid, q)
  {
    hide InTime, ReadsClock, MissEnd, EndsAs, Turns, Answer, AfterGet, UsableRow;
    MissEndsAs(w, v, c, p, tid, g, q);
    if UsableRow(v.durable, tid, q) {
      UsableTurns(v, c, id, p, tid, limit, g, q);
    } else {
      ServiceTurns(v, c, id, p, tid, limit, g, q);
    }
  }

  /**
   A lookup of the interleaved model that nobody interrupts changes the caches and answers exactly like the sequential
   one, with the clock readings its waits lead to; its waits stay within the latency and nobody else is late.
   */
  lemma LookupAlone(w: World, c: Setup, id: nat, p: Process, tid: Tid, g: Gaps, q: Calls)
    requires id !in w.threads && InTime(w, c, w.now + g.Total()) && g.Total() <= c.latency && ReadsClock(w, tid, g, q)
    ensures EndsAs(w, Turns(Next(w, c, Action.Lookup(id, p, tid)), c, id, g, q, 5), c, p, tid, q)
  {
    var w1 := Next(w, c, Action.Lookup(id, p, tid));
    var v := WithLocal(w, p, AfterGet(LocalOf(w, p), LOCAL_TTL, w.now, tid));
    if Answer(LocalOf(w, p), LOCAL_TTL, w.now, tid).Some? {
      assert w1.threads == w.threads;
      TurnsRest(w1, c, id, g, q, 5);
      hide AfterGet, Answer, Turns;
    } else {
      assert w1 == At(v, id, AskDurable(p, tid), v.now);
      assert InTime(v, c, v.now + g.Total());
      MissAlone(w, v, c, id, p, tid, v.now + g.Total(), g, q);
    }
  }
}
