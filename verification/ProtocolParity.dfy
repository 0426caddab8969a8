/**
 What an interleaved run makes of a match's status: the parity of its toggles, corrected by the parity of the stale
 writes. Run one after another, handlers make no stale write.
 */
module ProtocolParity {
  import opened StoreState
  import opened Protocol
  import opened ProtocolProofs

  // ---- toggles and stale writes

  /** The step writes the toggled status of a stored match k (`toggleMatchAndAnnounce`). */
  predicate WritesToggle(w: World, a: Action, k: MatchKey) {
    a.Advance? && a.tid in w.threads && w.threads[a.tid].UndoToggle? && w.threads[a.tid].key == k
        && k in w.store.matches
  }

  predicate WritesApproval(w: World, a: Action, k: MatchKey) {
    && a.Advance? && a.tid in w.threads && (w.threads[a.tid].ApproveAsAdmin? || w.threads[a.tid].ApproveAsBoth?)
    && w.threads[a.tid].key == k && k in w.store.matches
  }

  /**
   The write rests on a status the match no longer has: a toggle of another status, or an approval that finds UNDONE.
   */
  predicate WritesStale(w: World, a: Action, k: MatchKey) {
    || (WritesToggle(w, a, k) && w.threads[a.tid].row.status != w.store.matches[k].status)
    || (WritesApproval(w, a, k) && w.store.matches[k].status == Undone)
  }

  function Toggles(actions: seq<Action>, k: MatchKey): nat {
    if actions == [] then 0 else
    var front, last := actions[..|actions|-1], actions[|actions|-1];
    Toggles(front, k) + if WritesToggle(Run(front), last, k) then 1 else 0
  }

  function Stales(actions: seq<Action>, k: MatchKey): nat {
    if actions == [] then 0 else
    var front, last := actions[..|actions|-1], actions[|actions|-1];
    Stales(front, k) + if WritesStale(Run(front), last, k) then 1 else 0
  }

  // ---- the status they leave

  /** An undo in progress has read a match that was not PENDING. */
  ghost predicate SettledRow(t: Thread) {
    t.UndoRead? || t.UndoInsert? || t.UndoInserted? || t.UndoToggle? ==> t.row.status != Pending
  }

  ghost predicate SettledRows(w: World) { forall tid :: tid in w.threads ==> SettledRow(w.threads[tid]) }

  lemma SettledRowsNext(w: World, a: Action)
    requires SettledRows(w)
    ensures SettledRows(Next(w, a))
  {
    if a.Advance? && a.tid in w.threads { assert SettledRow(w.threads[a.tid]); }
  }

  lemma {:induction false} RunSettledRows(actions: seq<Action>)
    ensures SettledRows(Run(actions))
  {
    hide Next, SettledRow;
    if actions != [] {
      RunSettledRows(actions[..|actions|-1]);
      SettledRowsNext(Run(actions[..|actions|-1]), actions[|actions|-1]);
    }
  }

  /** Nothing happened yet to ids that are not issued and to PENDING matches; a settled status has the right parity. */
  ghost predicate ParityFor(s: State, k: MatchKey, toggles: nat, stales: nat) {
    && (!Issued(s, k) ==> toggles == 0 && stales == 0)
    && (k in s.matches && s.matches[k].status == Pending ==> toggles == 0 && stales == 0)
    && (k in s.matches && s.matches[k].status == Approved ==> (toggles + stales) % 2 == 0)
    && (k in s.matches && s.matches[k].status == Undone ==> (toggles + stales) % 2 == 1)
  }

  /** The status step a makes of k's stored status. */
  function StatusWritten(w: World, a: Action, k: MatchKey): Status
    requires k in w.store.matches
  {
    if WritesToggle(w, a, k) then Toggled(w.threads[a.tid].row.status)
    else if WritesApproval(w, a, k) then Approved
    else w.store.matches[k].status
  }

  lemma QuietMatches(w: World, tid: ThreadId, t: Thread, admin: bool, now: int)
    requires !t.UndoToggle? && !t.ApproveAsAdmin? && !t.ApproveAsBoth? && !t.CancelRead? && !t.ExpirySweep?
    ensures var s := Proceed(w, tid, t, admin, now).store;
            s.matches == w.store.matches && s.counters == w.store.counters
  {
  }

  lemma DeletedMatches(w: World, tid: ThreadId, t: Thread, admin: bool, now: int)
    requires t.CancelRead? || t.ExpirySweep?
    ensures var s := Proceed(w, tid, t, admin, now).store;
            && s.counters == w.store.counters
            && forall k :: k in s.matches ==> k in w.store.matches && s.matches[k] == w.store.matches[k]
  {
  }

  lemma WrittenMatches(w: World, tid: ThreadId, t: Thread, admin: bool, now: int)
    requires t.UndoToggle? || t.ApproveAsAdmin? || t.ApproveAsBoth?
    ensures Proceed(w, tid, t, admin, now).store ==
            SetStatus(w.store, t.key, if t.UndoToggle? then Toggled(t.row.status) else Approved)
  {
  }

  lemma AdvanceStatus(w: World, a: Action, k: MatchKey)
    requires a.Advance?
    ensures var w' := Next(w, a);
            k in w'.store.matches ==>
              k in w.store.matches && w'.store.matches[k].status == StatusWritten(w, a, k)
    ensures Counter(Next(w, a).store, k.group) == Counter(w.store, k.group)
  {
    if a.tid in w.threads {
      var t := w.threads[a.tid];
      if t.UndoToggle? || t.ApproveAsAdmin? || t.ApproveAsBoth? {
        WrittenMatches(w, a.tid, t, a.admin, a.now);
      } else if t.CancelRead? || t.ExpirySweep? {
        DeletedMatches(w, a.tid, t, a.admin, a.now);
      } else {
        QuietMatches(w, a.tid, t, a.admin, a.now);
      }
      hide Proceed;
    }
  }

  lemma StartStatus(w: World, a: Action, k: MatchKey)
    requires !a.Advance?
    ensures var w' := Next(w, a);
            k in w'.store.matches ==>
              if k in w.store.matches && Issued(w.store, k) then w'.store.matches[k] == w.store.matches[k]
              else k in w.store.matches || (!Issued(w.store, k) && w'.store.matches[k].status != Undone)
    ensures Counter(Next(w, a).store, k.group) >= Counter(w.store, k.group)
  {
  }

  /** A match that stays stored gets the status written; a new one is not UNDONE, and its id was not issued. */
  lemma StatusNext(w: World, a: Action, k: MatchKey)
    requires Inv(w)
    ensures var w' := Next(w, a);
            k in w'.store.matches ==>
              if k in w.store.matches then w'.store.matches[k].status == StatusWritten(w, a, k)
              else !Issued(w.store, k) && w'.store.matches[k].status != Undone
    ensures Issued(w.store, k) ==> Issued(Next(w, a).store, k)
  {
    IssuedRows(w, k);
    if a.Advance? { AdvanceStatus(w, a, k); } else { StartStatus(w, a, k); }
    hide Inv, Next, Counter;
  }

  lemma IssuedRows(w: World, k: MatchKey)
    requires Inv(w)
    ensures k in w.store.matches ==> Issued(w.store, k)
  {
  }

  /** Toggles are written on settled matches only. */
  lemma TogglesSettled(w: World, a: Action, k: MatchKey)
    requires Inv(w) && WritesToggle(w, a, k)
    ensures w.store.matches[k].status != Pending
  {
    assert ThreadOk(w, w.threads[a.tid]);
  }

  /** How a write moves the parities: a stale one changes both or neither of status and toggle count. */
  lemma ParityMoves(s: State, s': State, k: MatchKey, toggles: nat, stales: nat, toggle: bool, stale: bool)
    requires ParityFor(s, k, toggles, stales) && (Issued(s, k) ==> Issued(s', k))
    requires toggle || stale ==> k in s.matches && s.matches[k].status != Pending
    requires k in s.matches ==> Issued(s, k)
    requires k in s'.matches && k !in s.matches ==> !Issued(s, k) && s'.matches[k].status != Undone
    requires k in s'.matches && k in s.matches ==>
               if toggle == stale then s'.matches[k].status == s.matches[k].status || s.matches[k].status == Pending
               else s'.matches[k].status == Toggled(s.matches[k].status)
    requires k in s'.matches && k in s.matches && s.matches[k].status == Pending ==> s'.matches[k].status != Undone
    ensures ParityFor(s', k, toggles + if toggle then 1 else 0, stales + if stale then 1 else 0)
  {
    hide Issued;
  }

  lemma ParityNext(w: World, a: Action, k: MatchKey, toggles: nat, stales: nat)
    requires Inv(w) && SettledRows(w) && ParityFor(w.store, k, toggles, stales)
    ensures ParityFor(Next(w, a).store, k,
                      toggles + if WritesToggle(w, a, k) then 1 else 0, stales + if WritesStale(w, a, k) then 1 else 0)
  {
    StatusNext(w, a, k);
    IssuedRows(w, k);
    if WritesToggle(w, a, k) {
      TogglesSettled(w, a, k);
      assert SettledRow(w.threads[a.tid]);
    }
    hide Inv, Next, Issued, ParityFor;
    ParityMoves(w.store, Next(w, a).store, k, toggles, stales, WritesToggle(w, a, k), WritesStale(w, a, k));
  }

  lemma {:induction false} RunParity(actions: seq<Action>, k: MatchKey)
    ensures ParityFor(Run(actions).store, k, Toggles(actions, k), Stales(actions, k))
  {
    hide Next, ParityFor, WritesToggle, WritesStale;
    if actions == [] {
      NothingYet(k);
    } else {
      var front, last := actions[..|actions|-1], actions[|actions|-1];
      RunParity(front, k);
      RunKeepsInv(front);
      RunSettledRows(front);
      ParityNext(Run(front), last, k, Toggles(front, k), Stales(front, k));
      hide Inv;
    }
  }

  lemma NothingYet(k: MatchKey)
    ensures ParityFor(INITIAL.store, k, 0, 0)
  {
  }

  /**
   After every interleaved run, a stored match that is not PENDING has the status its toggles account for (APPROVED
   after an even and UNDONE after an odd number of them) if and only if the number of stale writes to it is even.
   */
  lemma ParityIffStalesEven(actions: seq<Action>, k: MatchKey)
    ensures var s := Run(actions).store;
            k in s.matches && s.matches[k].status != Pending ==>
              ((s.matches[k].status == Approved <==> Toggles(actions, k) % 2 == 0) <==> Stales(actions, k) % 2 == 0)
  {
    RunParity(actions, k);
    hide Run, Toggles, Stales;
  }

  // ---- handlers one after another

  /** Never two handlers under way. */
  ghost predicate OneAtATime(actions: seq<Action>) {
    actions == [] || (OneAtATime(actions[..|actions|-1]) && |Run(actions).threads| <= 1)
  }

  /** The thread has the row as it is stored. */
  ghost predicate FreshRow(s: State, t: Thread) {
    && (t.UndoRead? || t.UndoInsert? || t.UndoInserted? || t.UndoToggle? ==>
          t.key in s.matches ==> t.row.status == s.matches[t.key].status)
    && (t.ConfirmRead? || t.ConfirmInserted? || t.ConfirmListing? || t.ApproveAsAdmin? || t.ApproveAsBoth? ==>
          t.key in s.matches ==> s.matches[t.key].status == Pending)
  }

  ghost predicate FreshRows(w: World) { forall tid :: tid in w.threads ==> FreshRow(w.store, w.threads[tid]) }

  lemma AtMostOne(m: map<ThreadId, Thread>, i: ThreadId, j: ThreadId)
    requires |m| <= 1 && i in m && j in m
    ensures i == j
  {
    if i != j {
      assert {i, j} <= m.Keys;
      CardinalityOfSubset({i, j}, m.Keys);
    }
  }

  lemma CardinalityOfSubset(a: set<ThreadId>, b: set<ThreadId>)
    requires a <= b
    ensures |a| <= |b|
  {
    assert b == a + (b - a);
  }

  lemma StartedFresh(w: World, a: Action)
    requires !a.Advance? && a.tid !in w.threads
    ensures a.tid in Next(w, a).threads ==> FreshRow(Next(w, a).store, Next(w, a).threads[a.tid])
  {
  }

  lemma AdvancedFresh(w: World, a: Action)
    requires a.Advance? && a.tid in w.threads && FreshRow(w.store, w.threads[a.tid])
    ensures a.tid in Next(w, a).threads ==> FreshRow(Next(w, a).store, Next(w, a).threads[a.tid])
  {
  }

  /** A step that starts a handler without leaving it under way changes no match another handler has read. */
  lemma OthersFresh(w: World, a: Action, t: Thread)
    requires Inv(w) && !a.Advance? && FreshRow(w.store, t) && ThreadOk(w, t)
    ensures FreshRow(Next(w, a).store, t)
  {
    hide ThreadsOk, OneRegistrar, AuthorsFirst, AllJustified, NoneLost;
  }

  lemma OnlyOwnThread(w: World, a: Action, tid: ThreadId)
    requires tid != a.tid
    ensures tid in w.threads <==> tid in Next(w, a).threads
    ensures tid in w.threads ==> Next(w, a).threads[tid] == w.threads[tid]
  {
  }

  lemma FreshNext(w: World, a: Action)
    requires Inv(w) && FreshRows(w) && |w.threads| <= 1 && |Next(w, a).threads| <= 1
    ensures FreshRows(Next(w, a))
  {
    var w' := Next(w, a);
    forall tid | tid in w'.threads ensures FreshRow(w'.store, w'.threads[tid]) {
      if tid == a.tid {
        if a.Advance? { AdvancedFresh(w, a); }
        else if tid in w.threads { assert w' == w; }
        else { StartedFresh(w, a); }
      } else {
        OnlyOwnThread(w, a, tid);
        if a.Advance? {
          if a.tid in w.threads { AtMostOne(w.threads, tid, a.tid); }
        } else {
          assert ThreadOk(w, w.threads[tid]);
          OthersFresh(w, a, w.threads[tid]);
        }
      }
      hide Inv, Next, FreshRow;
    }
  }

  lemma FreshWrites(w: World, a: Action, k: MatchKey)
    requires FreshRows(w)
    ensures !WritesStale(w, a, k)
  {
    if a.Advance? && a.tid in w.threads { assert FreshRow(w.store, w.threads[a.tid]); }
  }

  lemma {:induction false} AloneFresh(actions: seq<Action>, k: MatchKey)
    requires OneAtATime(actions)
    ensures FreshRows(Run(actions)) && Stales(actions, k) == 0
  {
    hide Next, Inv, FreshRows, WritesStale;
    if actions == [] {
      NothingFresh();
    } else {
      var front, last := actions[..|actions|-1], actions[|actions|-1];
      AloneFresh(front, k);
      RunKeepsInv(front);
      AtMostOneEarlier(front);
      FreshNext(Run(front), last);
      FreshWrites(Run(front), last, k);
    }
  }

  lemma NothingFresh()
    ensures FreshRows(INITIAL)
  {
  }

  lemma AtMostOneEarlier(actions: seq<Action>)
    requires OneAtATime(actions)
    ensures |Run(actions).threads| <= 1
  {
  }

  /** While handlers run one after another no write is stale, and the toggles alone account for the status. */
  lemma AloneParity(actions: seq<Action>, k: MatchKey)
    requires OneAtATime(actions)
    ensures Stales(actions, k) == 0
    ensures var s := Run(actions).store;
            k in s.matches && s.matches[k].status != Pending ==>
              (s.matches[k].status == Approved <==> Toggles(actions, k) % 2 == 0)
  {
    hide Run, Toggles, Stales, OneAtATime, FreshRows;
    AloneFresh(actions, k);
    ParityIffStalesEven(actions, k);
  }

  // ---- a run with a stale write

  /** A run of this many toggles of and stale writes to match 7:1 ends in w. */
  ghost predicate Reached(w: World, toggles: nat, stales: nat) {
    exists actions :: Run(actions) == w && Toggles(actions, KEY) == toggles && Stales(actions, KEY) == stales
  }

  lemma ReachNext(w: World, toggles: nat, stales: nat, a: Action, w': World)
    requires Reached(w, toggles, stales) && Next(w, a) == w'
    ensures Reached(w', toggles + if WritesToggle(w, a, KEY) then 1 else 0,
                    stales + if WritesStale(w, a, KEY) then 1 else 0)
  {
    hide WritesToggle, WritesStale, Next;
    var actions :| Run(actions) == w && Toggles(actions, KEY) == toggles && Stales(actions, KEY) == stales;
    var all := actions + [a];
    assert all[..|actions|] == actions;
    assert Run(all) == w';
  }

  /** A step that writes neither. */
  lemma ReachQuiet(w: World, toggles: nat, stales: nat, a: Action, w': World)
    requires Reached(w, toggles, stales) && Next(w, a) == w'
    requires !a.Advance? || (a.tid in w.threads && !w.threads[a.tid].UndoToggle?
                             && !w.threads[a.tid].ApproveAsAdmin? && !w.threads[a.tid].ApproveAsBoth?)
    ensures Reached(w', toggles, stales)
  {
    ReachNext(w, toggles, stales, a, w');
    hide Reached, Next;
  }

  const KEY := MatchKey(7, 1)

  /** Match 7:1 between players 1 and 2, registered by player 1. */
  function Row(status: Status): MatchRow { MatchRow(7, 1, 1, 2, 3, 1, 1, status, 0, 0) }

  function Scene(status: Status, confirmations: map<RowKey, int>, undos: map<RowKey, int>,
                 threads: map<ThreadId, Thread>): World {
    World(State(map[KEY := Row(status)], confirmations, undos, map[7 := 1]), threads, {KEY}, {}, {})
  }

  const ONE := map[RowKey(KEY, 1) := 0]
  const TWO := map[RowKey(KEY, 1) := 0, RowKey(KEY, 2) := 0]
  const ADMINS := map[RowKey(KEY, 9) := 0]
  const STALE := ConfirmRead(KEY, 2, Row(Pending))

  lemma PostedScene()
    ensures Reached(Scene(Pending, ONE, map[], map[]), 0, 0)
  {
    assert Run([]) == INITIAL;
    var w1 := World(State(map[KEY := Row(Pending)], map[], map[], map[7 := 1]),
                    map[0 := RegInserted(KEY, 1)], {}, {}, {});
    ReachQuiet(INITIAL, 0, 0, Register(0, Row(Pending), false), w1);
    var w2 := World(State(map[KEY := Row(Pending)], ONE, map[], map[7 := 1]), map[0 := RegConfirmed(KEY)], {}, {}, {});
    ReachQuiet(w1, 0, 0, Advance(0, false, 0), w2);
    ReachQuiet(w2, 0, 0, Advance(0, false, 0), Scene(Pending, ONE, map[], map[]));
  }

  /** Two confirm taps by player 2 have read PENDING. */
  lemma TwoTapsScene()
    ensures Reached(Scene(Pending, ONE, map[], map[1 := STALE, 2 := STALE]), 0, 0)
  {
    PostedScene();
    var w1 := Scene(Pending, ONE, map[], map[1 := STALE]);
    ReachQuiet(Scene(Pending, ONE, map[], map[]), 0, 0, TapConfirm(1, KEY, 2, false), w1);
    ReachQuiet(w1, 0, 0, TapConfirm(2, KEY, 2, false), Scene(Pending, ONE, map[], map[1 := STALE, 2 := STALE]));
  }

  lemma ListingScene()
    ensures Reached(Scene(Pending, TWO, map[], map[1 := ConfirmListing(KEY, Row(Pending)), 2 := STALE]), 0, 0)
  {
    TwoTapsScene();
    var w3 := Scene(Pending, TWO, map[], map[1 := ConfirmInserted(KEY, 2, Row(Pending)), 2 := STALE]);
    ReachQuiet(Scene(Pending, ONE, map[], map[1 := STALE, 2 := STALE]), 0, 0, Advance(1, false, 0), w3);
    ReachQuiet(w3, 0, 0, Advance(1, false, 0),
               Scene(Pending, TWO, map[], map[1 := ConfirmListing(KEY, Row(Pending)), 2 := STALE]));
  }

  /** The first of the two taps goes on to approve the match. */
  lemma ApprovedScene()
    ensures Reached(Scene(Approved, TWO, map[], map[2 := STALE]), 0, 0)
  {
    ListingScene();
    var w4 := Scene(Pending, TWO, map[], map[1 := ConfirmListing(KEY, Row(Pending)), 2 := STALE]);
    var w5 := Scene(Pending, TWO, map[], map[1 := ApproveAsBoth(KEY, Row(Pending)), 2 := STALE]);
    UsersOfMember(TWO, KEY, 1);
    UsersOfMember(TWO, KEY, 2);
    ReachQuiet(w4, 0, 0, Advance(1, false, 0), w5);
    ReachNext(w5, 0, 0, Advance(1, false, 0), Scene(Approved, TWO, map[], map[2 := STALE]));
  }

  lemma UndoingScene()
    ensures Reached(Scene(Approved, TWO, map[], map[2 := STALE, 3 := UndoInsert(KEY, 9, true, Row(Approved))]), 0, 0)
  {
    ApprovedScene();
    var w1 := Scene(Approved, TWO, map[], map[2 := STALE, 3 := UndoRead(KEY, 9, true, Row(Approved))]);
    ReachQuiet(Scene(Approved, TWO, map[], map[2 := STALE]), 0, 0, Undo(3, KEY, 9, true), w1);
    ReachQuiet(w1, 0, 0, Advance(3, false, 0),
               Scene(Approved, TWO, map[], map[2 := STALE, 3 := UndoInsert(KEY, 9, true, Row(Approved))]));
  }

  lemma RequestedScene()
    ensures Reached(Scene(Approved, TWO, ADMINS, map[2 := STALE, 3 := UndoToggle(KEY, Row(Approved))]), 0, 0)
  {
    UndoingScene();
    ReachQuiet(Scene(Approved, TWO, map[], map[2 := STALE, 3 := UndoInsert(KEY, 9, true, Row(Approved))]), 0, 0,
               Advance(3, false, 0),
               Scene(Approved, TWO, ADMINS, map[2 := STALE, 3 := UndoToggle(KEY, Row(Approved))]));
  }

  lemma ToggledScene()
    ensures Reached(Scene(Undone, TWO, ADMINS, map[2 := STALE, 3 := UndoClear(KEY)]), 1, 0)
  {
    RequestedScene();
    ReachNext(Scene(Approved, TWO, ADMINS, map[2 := STALE, 3 := UndoToggle(KEY, Row(Approved))]), 0, 0,
              Advance(3, false, 0),
              Scene(Undone, TWO, ADMINS, map[2 := STALE, 3 := UndoClear(KEY)]));
  }

  /** Meanwhile an admin, user 9, undoes the match. */
  lemma UndoneScene()
    ensures Reached(Scene(Undone, TWO, map[], map[2 := STALE]), 1, 0)
  {
    ToggledScene();
    assert WithoutMatch(ADMINS, KEY) == map[];
    ReachQuiet(Scene(Undone, TWO, ADMINS, map[2 := STALE, 3 := UndoClear(KEY)]), 1, 0, Advance(3, false, 0),
               Scene(Undone, TWO, map[], map[2 := STALE]));
  }

  const W0 := Scene(Undone, TWO, map[], map[2 := STALE])
  const W1 := Scene(Undone, TWO, map[], map[2 := ConfirmInserted(KEY, 2, Row(Pending))])
  const W2 := Scene(Undone, TWO, map[], map[2 := ConfirmListing(KEY, Row(Pending))])
  const W3 := Scene(Undone, TWO, map[], map[2 := ApproveAsBoth(KEY, Row(Pending))])
  const W4 := Scene(Approved, TWO, map[], map[])

  /** The remaining steps of the old confirm tap. */
  lemma StaleSteps()
    ensures Next(W0, Advance(2, false, 0)) == W1 && Next(W1, Advance(2, false, 0)) == W2
    ensures Next(W2, Advance(2, false, 0)) == W3
  {
    UsersOfMember(TWO, KEY, 1);
    UsersOfMember(TWO, KEY, 2);
  }

  lemma StaleApproval()
    ensures Next(W3, Advance(2, false, 0)) == W4
    ensures WritesStale(W3, Advance(2, false, 0), KEY) && !WritesToggle(W3, Advance(2, false, 0), KEY)
  {
  }

  /**
   A stale confirm writes APPROVED over a later UNDONE: the match has been undone once and no undo is in progress, yet
   the remaining steps of one old confirm tap restore it. That run has one toggle and one stale write, so by
   `ParityIffStalesEven` its toggles do not account for its status.
   */
  lemma StaleConfirmRestores()
    ensures Reached(Scene(Undone, TWO, map[], map[2 := STALE]), 1, 0)
    ensures Reached(Scene(Approved, TWO, map[], map[]), 1, 1)
    ensures RunFrom(Scene(Undone, TWO, map[], map[2 := STALE]), 2, 4, false, 0) == Scene(Approved, TWO, map[], map[])
  {
    UndoneScene();
    StaleSteps();
    StaleApproval();
    hide Next, Reached, WritesStale, WritesToggle, RunFrom;
    ReachQuiet(W0, 1, 0, Advance(2, false, 0), W1);
    ReachQuiet(W1, 1, 0, Advance(2, false, 0), W2);
    ReachQuiet(W2, 1, 0, Advance(2, false, 0), W3);
    ReachNext(W3, 1, 0, Advance(2, false, 0), W4);
    RunFromSteps(W0, W1, W2, W3, W4);
  }

  lemma RunFromSteps(w0: World, w1: World, w2: World, w3: World, w4: World)
    requires Next(w0, Advance(2, false, 0)) == w1 && Next(w1, Advance(2, false, 0)) == w2
    requires Next(w2, Advance(2, false, 0)) == w3 && Next(w3, Advance(2, false, 0)) == w4
    ensures RunFrom(w0, 2, 4, false, 0) == w4
  {
    assert RunFrom(w3, 2, 1, false, 0) == w4;
    assert RunFrom(w2, 2, 2, false, 0) == w4;
    assert RunFrom(w1, 2, 3, false, 0) == w4;
  }
}
