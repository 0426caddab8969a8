/**
 The match handlers run one at a time: /match registration, confirm and cancel taps (pkg/handlers/match.go), /undo
 (undo.go) and the expiry job (periodic.go). Each is a method over the store, specified by a function on states.
 */
module Handlers {
  import opened Wrappers
  import opened StoreState
  import opened MemStore
  import Protocol

  // ---- what each handler does to the store

  function Registered(s: State, row: MatchRow, admin: bool, now: int): State {
    if row.player1 == row.player2 then s
    else if admin then Allocate(s, row.(status := Approved))
    else
      var k := MatchKey(row.group, Counter(s, row.group) + 1);
      Confirm(Allocate(s, row.(status := Pending)), k, row.registeredBy, now)
  }

  /** `allowed` answers the admin check that lets others than the players tap, `admin` the later one that approves. */
  function Tapped(s: State, k: MatchKey, user: UserId, allowed: bool, admin: bool, now: int): State {
    if k !in s.matches || !(s.matches[k].HasPlayer(user) || allowed) || s.matches[k].status != Pending then s
    else
      var s' := Confirm(s, k, user, now);
      var users := UsersOf(s'.confirmations, k);
      if admin || (s.matches[k].player1 in users && s.matches[k].player2 in users)
      then SetStatus(s', k, Approved)
      else s'
  }

  function Cancelled(s: State, k: MatchKey, user: UserId, admin: bool): State {
    if k !in s.matches || !(s.matches[k].HasPlayer(user) || admin) || s.matches[k].status != Pending then s
    else Delete(s, k)
  }

  function UndoHandled(s: State, k: MatchKey, user: UserId, admin: bool, now: int): State {
    if k !in s.matches || !(s.matches[k].HasPlayer(user) || admin) || s.matches[k].status == Pending then s
    else if user in UsersOf(s.undos, k) && !admin then WithdrawUndo(s, k, user)
    else
      var s' := RequestUndo(s, k, user, now);
      var users := UsersOf(s'.undos, k);
      if admin || (s.matches[k].player1 in users && s.matches[k].player2 in users)
      then DropUndos(SetStatus(s', k, Protocol.Toggled(s.matches[k].status)), k)
      else s'
  }

  /** Expired matches go with all their rows, in whatever order the listing named them. */
  function MatchesExpired(s: State, expired: set<MatchKey>): State {
    s.(matches := s.matches - expired,
       confirmations :=
         map r | r in s.confirmations && !(r.match_ in expired && r.match_ in s.matches) :: s.confirmations[r],
       undos := map r | r in s.undos && !(r.match_ in expired && r.match_ in s.matches) :: s.undos[r])
  }

  function UndosExpired(s: State, expired: set<RowKey>): State { s.(undos := s.undos - expired) }

  // ---- the handlers

  method HandleMatch(store: Store, row: MatchRow, isAdmin: bool, now: int) returns (id: Option<nat>)
    modifies store
    ensures store.State() == Registered(old(store.State()), row, isAdmin, now)
    ensures id == if row.player1 == row.player2 then None else Some(Counter(old(store.State()), row.group) + 1)
  {
    if row.player1 == row.player2 { return None; }
    var status := Pending;
    if isAdmin { status := Approved; }
    var matchID := store.AllocateAndInsertMatch(row.(status := status));
    if isAdmin { return Some(matchID); }
    store.InsertConfirmation(MatchKey(row.group, matchID), row.registeredBy, now);
    return Some(matchID);
  }

  method HandleConfirmTap(store: Store, k: MatchKey, user: UserId, allowed: bool, isAdmin: bool, now: int)
    modifies store
    ensures store.State() == Tapped(old(store.State()), k, user, allowed, isAdmin, now)
  {
    var got := store.Get(k);
    if got.None? { return; }
    var row := got.value;
    if user != row.player1 && user != row.player2 && !allowed { return; }
    if row.status != Pending { return; }
    store.InsertConfirmation(k, user, now);
    if isAdmin {
      var _ := store.UpdateStatus(k, Approved);
      return;
    }
    var confirmed := store.ListConfirmations(k);
    if row.player1 in confirmed && row.player2 in confirmed {
      var _ := store.UpdateStatus(k, Approved);
    }
  }

  method HandleCancelTap(store: Store, k: MatchKey, user: UserId, isAdmin: bool)
    modifies store
    ensures store.State() == Cancelled(old(store.State()), k, user, isAdmin)
  {
    var got := store.Get(k);
    if got.None? { return; }
    var row := got.value;
    if user != row.player1 && user != row.player2 && !isAdmin { return; }
    if row.status != Pending { return; }
    var _ := store.Delete(k);
  }

  method HandleUndo(store: Store, k: MatchKey, user: UserId, isAdmin: bool, now: int)
    modifies store
    ensures store.State() == UndoHandled(old(store.State()), k, user, isAdmin, now)
  {
    var got := store.Get(k);
    if got.None? { return; }
    var row := got.value;
    var isParticipant := row.player1 == user || row.player2 == user;
    if !isParticipant && !isAdmin { return; }
    if row.status != Approved && row.status != Undone { return; }
    var existing := store.ListUndos(k);
    if user in existing && !isAdmin {
      var _ := store.DeleteUndo(k, user);
      return;
    }
    store.InsertUndo(k, user, now);
    if isAdmin {
      ToggleMatch(store, k, row);
      return;
    }
    var have := store.ListUndos(k);
    if row.player1 in have && row.player2 in have {
      ToggleMatch(store, k, row);
    }
  }

  method ToggleMatch(store: Store, k: MatchKey, row: MatchRow)
    modifies store
    ensures store.State() == DropUndos(SetStatus(old(store.State()), k, Protocol.Toggled(row.status)), k)
  {
    var newStatus := Approved;
    if row.status == Approved { newStatus := Undone; }
    var _ := store.UpdateStatus(k, newStatus);
    store.DeleteUndos(k);
  }

  lemma ExpireOneMore(s: State, expired: set<MatchKey>, k: MatchKey)
    requires k in s.matches && k !in expired
    ensures DropConfirmations(Delete(MatchesExpired(s, expired), k), k) == MatchesExpired(s, expired + {k})
  {
  }

  method CleanExpiredMatches(store: Store, timeoutHours: map<GroupId, nat>, now: int)
    modifies store
    ensures store.State() == MatchesExpired(old(store.State()), PendingExpired(old(store.State()), timeoutHours, now))
  {
    var expired := store.ListPendingExpired(timeoutHours, now);
    ghost var s := store.State();
    var left := expired;
    assert MatchesExpired(s, {}) == s;
    while left != {}
      invariant left <= expired && store.State() == MatchesExpired(s, expired - left)
      decreases left
    {
      var k :| k in left;
      ExpireOneMore(s, expired - left, k);
      assert expired - (left - {k}) == (expired - left) + {k};
      left := left - {k};
      var found := store.Delete(k);
      if !found { continue; }
      store.DeleteConfirmations(k);
    }
    assert expired - left == expired;
  }

  method CleanExpiredUndo(store: Store, now: int)
    modifies store
    ensures store.State() ==
            UndosExpired(old(store.State()), set r | r in old(store.undos) && old(store.undos)[r] < now - 24 * HOUR)
  {
    var expired := store.ListExpiredUndos(now - 24 * HOUR);
    var left := expired;
    while left != {}
      invariant left <= expired && store.State() == UndosExpired(old(store.State()), expired - left)
      decreases left
    {
      var r :| r in left;
      var _ := store.DeleteUndo(r.match_, r.user);
      left := left - {r};
      assert r == RowKey(r.match_, r.user);
    }
  }

  // ---- a handler of the interleaved model, left alone, does exactly this

  lemma TapAlone(w: Protocol.World, tid: nat, k: MatchKey, user: UserId, allowed: bool, admin: bool, now: int)
    requires tid !in w.threads && k in w.posted
    ensures Protocol.RunFrom(Protocol.Next(w, Protocol.TapConfirm(tid, k, user, allowed)), tid, 4, admin, now)
              .(adminConfirmed := w.adminConfirmed)
            == w.(store := Tapped(w.store, k, user, allowed, admin, now))
  {
    var w1 := Protocol.Next(w, Protocol.TapConfirm(tid, k, user, allowed));
    if tid !in w1.threads {
      FourSteps(w, w, w, w, w, tid, admin, now);
    } else {
      var row := w.store.matches[k];
      assert w1 == Protocol.Spawn(w, tid, Protocol.ConfirmRead(k, user, row));
      ConfirmAlone(w, w1, tid, k, user, admin, now, row);
    }
    hide Protocol.RunFrom;
  }

  lemma ConfirmAlone(w: Protocol.World, w1: Protocol.World, tid: nat, k: MatchKey, user: UserId, admin: bool, now: int,
                     row: MatchRow)
    requires tid !in w.threads && k in w.store.matches && row == w.store.matches[k]
    requires w1 == Protocol.Spawn(w, tid, Protocol.ConfirmRead(k, user, row))
    ensures var s := Confirm(w.store, k, user, now);
            var users := UsersOf(s.confirmations, k);
            Protocol.RunFrom(w1, tid, 4, admin, now).(adminConfirmed := w.adminConfirmed) ==
              if admin || (row.player1 in users && row.player2 in users) then w.(store := SetStatus(s, k, Approved))
              else w.(store := s)
  {
    var s := Confirm(w.store, k, user, now);
    var users := UsersOf(s.confirmations, k);
    var ws := w.(store := s);
    var w2 := Protocol.Spawn(ws, tid, Protocol.ConfirmInserted(k, user, row));
    assert Protocol.Next(w1, Protocol.Advance(tid, admin, now)) == w2;
    var w3 := Protocol.Next(w2, Protocol.Advance(tid, admin, now));
    var w4 := Protocol.Next(w3, Protocol.Advance(tid, admin, now));
    var w5 := Protocol.Next(w4, Protocol.Advance(tid, admin, now));
    if admin {
      assert w3 == Protocol.Spawn(ws, tid, Protocol.ApproveAsAdmin(k)).(adminConfirmed := w.adminConfirmed + {k});
      assert w4.threads == w.threads;
    } else {
      assert w3 == Protocol.Spawn(ws, tid, Protocol.ConfirmListing(k, row));
      if row.player1 in users && row.player2 in users {
        assert w4 == Protocol.Spawn(ws, tid, Protocol.ApproveAsBoth(k, row));
        assert w5.threads == w.threads;
      } else {
        assert w4.threads == w.threads;
      }
    }
    FourSteps(w1, w2, w3, w4, w5, tid, admin, now);
    hide Protocol.RunFrom;
  }

  lemma UndoAlone(w: Protocol.World, tid: nat, k: MatchKey, user: UserId, admin: bool, now: int)
    requires tid !in w.threads
    ensures Protocol.RunFrom(Protocol.Next(Protocol.Next(w, Protocol.Undo(tid, k, user, admin)),
                                           Protocol.Advance(tid, admin, now)),
                             tid, 4, admin, now)
            == w.(store := UndoHandled(w.store, k, user, admin, now))
  {
    var w0 := Protocol.Next(w, Protocol.Undo(tid, k, user, admin));
    var w1 := Protocol.Next(w0, Protocol.Advance(tid, admin, now));
    if tid !in w0.threads {
      FourSteps(w, w, w, w, w, tid, admin, now);
    } else {
      var row := w.store.matches[k];
      if user in UsersOf(w.store.undos, k) && !admin {
        var w2 := w.(store := WithdrawUndo(w.store, k, user));
        assert w1.threads == w.threads[tid := Protocol.UndoWithdraw(k, user)];
        assert Protocol.Next(w1, Protocol.Advance(tid, admin, now)).threads == w.threads;
        FourSteps(w1, w2, w2, w2, w2, tid, admin, now);
      } else {
        assert w1 == Protocol.Spawn(w, tid, Protocol.UndoInsert(k, user, admin, row));
        RequestAlone(w, w1, tid, k, user, admin, now, row);
      }
    }
  }

  lemma RequestAlone(w: Protocol.World, w1: Protocol.World, tid: nat, k: MatchKey, user: UserId, admin: bool, now: int,
                     row: MatchRow)
    requires tid !in w.threads && k in w.store.matches && row == w.store.matches[k]
    requires w1 == Protocol.Spawn(w, tid, Protocol.UndoInsert(k, user, admin, row))
    ensures var s := RequestUndo(w.store, k, user, now);
            var users := UsersOf(s.undos, k);
            Protocol.RunFrom(w1, tid, 4, admin, now) ==
              if admin || (row.player1 in users && row.player2 in users)
              then w.(store := DropUndos(SetStatus(s, k, Protocol.Toggled(row.status)), k))
              else w.(store := s)
  {
    var s := RequestUndo(w.store, k, user, now);
    var users := UsersOf(s.undos, k);
    var ws := w.(store := s);
    var w2 := Protocol.Spawn(ws, tid, if admin then Protocol.UndoToggle(k, row) else Protocol.UndoInserted(k, row));
    assert Protocol.Next(w1, Protocol.Advance(tid, admin, now)) == w2;
    if admin {
      ToggleAlone(ws, w2, tid, k, now, row, admin);
      var wt := Protocol.Next(w2, Protocol.Advance(tid, admin, now));
      var wd := Protocol.Next(wt, Protocol.Advance(tid, admin, now));
      FourSteps(w1, w2, wt, wd, wd, tid, admin, now);
    } else if row.player1 in users && row.player2 in users {
      var w3 := Protocol.Spawn(ws, tid, Protocol.UndoToggle(k, row));
      assert Protocol.Next(w2, Protocol.Advance(tid, admin, now)) == w3;
      ToggleAlone(ws, w3, tid, k, now, row, admin);
      var wt := Protocol.Next(w3, Protocol.Advance(tid, admin, now));
      FourSteps(w1, w2, w3, wt, Protocol.Next(wt, Protocol.Advance(tid, admin, now)), tid, admin, now);
    } else {
      assert Protocol.Next(w2, Protocol.Advance(tid, admin, now)).threads == w.threads;
      FourSteps(w1, w2, ws, ws, ws, tid, admin, now);
    }
  }

  lemma ToggleAlone(w: Protocol.World, w2: Protocol.World, tid: nat, k: MatchKey, now: int, row: MatchRow, admin: bool)
    requires tid !in w.threads && w2 == Protocol.Spawn(w, tid, Protocol.UndoToggle(k, row))
    ensures var w3 := Protocol.Next(w2, Protocol.Advance(tid, admin, now));
            && Protocol.Next(w3, Protocol.Advance(tid, admin, now)) ==
               w.(store := DropUndos(SetStatus(w.store, k, Protocol.Toggled(row.status)), k))
            && tid !in w.threads
  {
    var w3 := Protocol.Next(w2, Protocol.Advance(tid, admin, now));
    assert w3.threads == w.threads[tid := Protocol.UndoClear(k)];
    assert Protocol.Next(w3, Protocol.Advance(tid, admin, now)).threads == w.threads;
  }

  lemma FourSteps(w1: Protocol.World, w2: Protocol.World, w3: Protocol.World, w4: Protocol.World, w5: Protocol.World,
                  tid: nat, admin: bool, now: int)
    requires Protocol.Next(w1, Protocol.Advance(tid, admin, now)) == w2
    requires Protocol.Next(w2, Protocol.Advance(tid, admin, now)) == w3
    requires Protocol.Next(w3, Protocol.Advance(tid, admin, now)) == w4
    requires Protocol.Next(w4, Protocol.Advance(tid, admin, now)) == w5
    ensures Protocol.RunFrom(w1, tid, 4, admin, now) == w5
  {
    hide Protocol.Next;
    assert Protocol.RunFrom(w4, tid, 1, admin, now) == w5;
    assert Protocol.RunFrom(w3, tid, 2, admin, now) == w5;
    assert Protocol.RunFrom(w2, tid, 3, admin, now) == w5;
  }
}
