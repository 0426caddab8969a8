/** Undo requests when handlers interleave: whoever completes the pair of requests is there to act on it. */
module ProtocolUndos {
  import opened StoreState
  import opened Protocol
  import opened ProtocolProofs

  ghost predicate Requested(s: State, k: MatchKey, u: UserId) { RowKey(k, u) in s.undos }

  ghost predicate BothRequested(s: State, k: MatchKey) {
    k in s.matches && Requested(s, k, s.matches[k].player1) && Requested(s, k, s.matches[k].player2)
  }

  /** An /undo that has written its request and not yet found the other one missing or cleared them all. */
  predicate Undoing(t: Thread, k: MatchKey) { (t.UndoInserted? || t.UndoToggle? || t.UndoClear?) && t.key == k }

  ghost predicate SomeUndoing(w: World, k: MatchKey) { exists tid :: tid in w.threads && Undoing(w.threads[tid], k) }

  /** An /undo under way knows the players of its match. */
  ghost predicate UndoRowOk(s: State, t: Thread) {
    t.UndoRead? || t.UndoInsert? || t.UndoInserted? ==> KnowsPlayers(s, t.key, t.row)
  }

  ghost predicate UndosOk(w: World) {
    && (forall r :: r in w.store.undos ==> Issued(w.store, r.match_))
    && (forall tid :: tid in w.threads ==> UndoRowOk(w.store, w.threads[tid]))
    && (forall k :: BothRequested(w.store, k) ==> SomeUndoing(w, k))
  }

  // ---- one step

  /** A request is new only right after its handler wrote it. */
  lemma NewRequest(w: World, a: Action, r: RowKey)
    requires r in Next(w, a).store.undos && r !in w.store.undos
    ensures a.Advance? && a.tid in w.threads && w.threads[a.tid].UndoInsert? && w.threads[a.tid].key == r.match_
    ensures a.tid in Next(w, a).threads && Undoing(Next(w, a).threads[a.tid], r.match_)
  {
    if a.Advance? {
      if a.tid in w.threads { AdvanceRequests(w, a.tid, w.threads[a.tid], a.admin, a.now, r); }
    } else {
      StartRequestsNothing(w, a);
    }
    hide Proceed, DoRegister, DoTapConfirm, DoTapCancel, DoUndo;
  }

  lemma StartRequestsNothing(w: World, a: Action)
    requires !a.Advance?
    ensures Next(w, a).store.undos == w.store.undos
  {
  }

  lemma AdvanceRequests(w: World, tid: ThreadId, t: Thread, admin: bool, now: int, r: RowKey)
    requires r in Proceed(w, tid, t, admin, now).store.undos && r !in w.store.undos
    ensures var w' := Proceed(w, tid, t, admin, now);
            t.UndoInsert? && t.key == r.match_ && tid in w'.threads && Undoing(w'.threads[tid], r.match_)
  {
  }

  lemma OthersStay(w: World, a: Action, tid: ThreadId)
    requires tid != a.tid
    ensures tid in w.threads <==> tid in Next(w, a).threads
    ensures tid in w.threads ==> Next(w, a).threads[tid] == w.threads[tid]
  {
  }

  lemma StartedRowOk(w: World, a: Action)
    requires !a.Advance? && a.tid !in w.threads
    ensures a.tid in Next(w, a).threads ==> UndoRowOk(Next(w, a).store, Next(w, a).threads[a.tid])
  {
  }

  lemma AdvancedRowOk(w: World, a: Action)
    requires a.Advance? && a.tid in w.threads && UndoRowOk(w.store, w.threads[a.tid])
    ensures a.tid in Next(w, a).threads ==> UndoRowOk(Next(w, a).store, Next(w, a).threads[a.tid])
  {
  }

  lemma OtherRowOk(w: World, a: Action, t: Thread)
    requires Inv(w) && ThreadOk(w, t) && UndoRowOk(w.store, t)
    ensures UndoRowOk(Next(w, a).store, t)
  {
    PlayersKept(w, a);
    hide Inv, Next, Issued;
  }

  lemma RowsOkNext(w: World, a: Action, tid: ThreadId)
    requires Inv(w) && UndosOk(w) && tid in Next(w, a).threads
    ensures UndoRowOk(Next(w, a).store, Next(w, a).threads[tid])
  {
    if tid != a.tid {
      OthersStay(w, a, tid);
      assert ThreadOk(w, w.threads[tid]);
      hide Inv, Next, ThreadOk;
      OtherRowOk(w, a, w.threads[tid]);
    } else if a.Advance? {
      assert tid in w.threads;
      hide Inv, Next, UndoRowOk;
      AdvancedRowOk(w, a);
    } else if tid in w.threads {
      assert Next(w, a) == w;
    } else {
      hide Inv, Next, UndoRowOk;
      StartedRowOk(w, a);
    }
  }

  /** The handler goes on while both requests stand, and clears them before it ends. */
  lemma UndoingGoesOn(w: World, a: Action, k: MatchKey)
    requires a.Advance? && a.tid in w.threads && Undoing(w.threads[a.tid], k) && UndoRowOk(w.store, w.threads[a.tid])
    requires BothRequested(w.store, k) && BothRequested(Next(w, a).store, k)
    ensures a.tid in Next(w, a).threads && Undoing(Next(w, a).threads[a.tid], k)
  {
    UsersOfMember(w.store.undos, k, w.store.matches[k].player1);
    UsersOfMember(w.store.undos, k, w.store.matches[k].player2);
  }

  lemma BothRequestedNext(w: World, a: Action, k: MatchKey)
    requires Inv(w) && UndosOk(w) && BothRequested(Next(w, a).store, k)
    ensures SomeUndoing(Next(w, a), k)
  {
    var s' := Next(w, a).store;
    var r1, r2 := RowKey(k, s'.matches[k].player1), RowKey(k, s'.matches[k].player2);
    if r1 !in w.store.undos {
      NewRequest(w, a, r1);
    } else if r2 !in w.store.undos {
      NewRequest(w, a, r2);
    } else {
      PlayersKept(w, a);
      assert BothRequested(w.store, k) by { hide Inv, Next; }
      var tid :| tid in w.threads && Undoing(w.threads[tid], k);
      if tid != a.tid {
        OthersStay(w, a, tid);
      } else if a.Advance? {
        UndoingGoesOn(w, a, k);
      } else {
        assert Next(w, a) == w;
      }
    }
    hide Inv, Next, UndosOk, BothRequested, Undoing;
  }

  lemma NextUndosOk(w: World, a: Action)
    requires Inv(w) && UndosOk(w)
    ensures UndosOk(Next(w, a))
  {
    var w' := Next(w, a);
    PlayersKept(w, a);
    forall r | r in w'.store.undos ensures Issued(w'.store, r.match_) {
      if r !in w.store.undos {
        NewRequest(w, a, r);
        assert ThreadOk(w, w.threads[a.tid]);
      }
      hide Next;
    }
    forall tid | tid in w'.threads ensures UndoRowOk(w'.store, w'.threads[tid]) { RowsOkNext(w, a, tid); }
    forall k | BothRequested(w'.store, k) ensures SomeUndoing(w', k) { BothRequestedNext(w, a, k); }
    hide Inv, Next;
  }

  lemma {:induction false} RunUndosOk(actions: seq<Action>)
    ensures UndosOk(Run(actions))
  {
    hide Next, Inv, UndosOk;
    if actions == [] {
      assert UndosOk(INITIAL) by { NoRequests(); }
    } else {
      RunKeepsInv(actions[..|actions|-1]);
      RunUndosOk(actions[..|actions|-1]);
      NextUndosOk(Run(actions[..|actions|-1]), actions[|actions|-1]);
    }
  }

  lemma NoRequests()
    ensures UndosOk(INITIAL)
  {
  }

  // ---- the theorem

  /**
   No lost undo: in every interleaving, while no /undo of a stored match is between writing its request and clearing
   them, the requests of its two players do not stand together.
   */
  lemma NoLostUndo(actions: seq<Action>, k: MatchKey)
    ensures var w := Run(actions);
            !SomeUndoing(w, k) && k in w.store.matches ==>
              !(Requested(w.store, k, w.store.matches[k].player1) && Requested(w.store, k, w.store.matches[k].player2))
  {
    RunUndosOk(actions);
    assert BothRequested(Run(actions).store, k) ==> SomeUndoing(Run(actions), k);
    hide Run, Undoing;
  }
}
