/**
 What each match handler does to the stored rows and when it does nothing, and that the handlers of the interleaved
 model, left alone, do the same (pkg/handlers/match.go, undo.go, periodic.go).
 */
module HandlerLaws {
  import opened StoreState
  import opened Handlers
  import Protocol

  // ---- what may change

  /** Every match but k is stored as before. */
  ghost predicate OthersKept(s: State, s': State, k: MatchKey) {
    forall q :: q != k ==> (q in s.matches <==> q in s'.matches) && (q in s.matches ==> s'.matches[q] == s.matches[q])
  }

  /** The rows that are not of match k are as before, and k has none. */
  ghost predicate OnlyRowsGone(rows: map<RowKey, int>, rows': map<RowKey, int>, k: MatchKey) {
    forall r :: (r in rows' <==> r in rows && r.match_ != k) && (r in rows' ==> rows'[r] == rows[r])
  }

  function IssuedIn(s: State, g: GroupId): nat { if g in s.counters then s.counters[g] else 0 }

  /**
   A registration between different players stores the row under the group's next id, APPROVED for a chat admin and
   else PENDING with the registering player's confirmation; everything else stays.
   */
  lemma RegistrationEffect(s: State, row: MatchRow, admin: bool, now: int)
    ensures var s' := Registered(s, row, admin, now);
            if row.player1 == row.player2 then s' == s else
              var id := IssuedIn(s, row.group) + 1;
              var k := MatchKey(row.group, id);
              && k in s'.matches && s'.matches[k] == row.(id := id, status := if admin then Approved else Pending)
              && OthersKept(s, s', k) && s'.undos == s.undos
              && IssuedIn(s', row.group) == id && (forall g :: g != row.group ==> IssuedIn(s', g) == IssuedIn(s, g))
              && s'.confirmations ==
                 if admin then s.confirmations else s.confirmations[RowKey(k, row.registeredBy) := now]
  {
  }

  /** Who may confirm or cancel a match: while it is PENDING, its players and whoever the admin check lets through. */
  predicate MayAnswer(s: State, k: MatchKey, user: UserId, allowed: bool) {
    && k in s.matches && s.matches[k].status == Pending
    && (user == s.matches[k].player1 || user == s.matches[k].player2 || allowed)
  }

  /**
   A confirm tap of anybody else, or on any other match, changes nothing. Otherwise it writes the tapper's confirmation,
   and approves the match exactly if a chat admin tapped or both players have now confirmed.
   */
  lemma ConfirmEffect(s: State, k: MatchKey, user: UserId, allowed: bool, admin: bool, now: int)
    ensures var s' := Tapped(s, k, user, allowed, admin, now);
            if !MayAnswer(s, k, user, allowed) then s' == s else
              var (one, two) := (RowKey(k, s.matches[k].player1), RowKey(k, s.matches[k].player2));
              && s'.confirmations == s.confirmations[RowKey(k, user) := now]
              && k in s'.matches && OthersKept(s, s', k) && s'.undos == s.undos && s'.counters == s.counters
              && s'.matches[k].(status := Pending) == s.matches[k]
              && (s'.matches[k].status == Approved <==> admin || (one in s'.confirmations && two in s'.confirmations))
              && s'.matches[k].status != Undone
  {
    if MayAnswer(s, k, user, allowed) {
      UsersOfMember(Confirm(s, k, user, now).confirmations, k, s.matches[k].player1);
      UsersOfMember(Confirm(s, k, user, now).confirmations, k, s.matches[k].player2);
    }
  }

  /**
   A cancel tap changes the store if and only if the match is stored and PENDING and the tapper is one of its players or
   a chat admin. Then the match goes with its confirmations and undo requests, and nothing else.
   */
  lemma CancelEffect(s: State, k: MatchKey, user: UserId, admin: bool)
    ensures Cancelled(s, k, user, admin) != s <==> MayAnswer(s, k, user, admin)
    ensures var s' := Cancelled(s, k, user, admin);
            MayAnswer(s, k, user, admin) ==>
              && k !in s'.matches && OthersKept(s, s', k) && s'.counters == s.counters
              && OnlyRowsGone(s.confirmations, s'.confirmations, k) && OnlyRowsGone(s.undos, s'.undos, k)
  {
  }

  /** Who may undo or restore a match: once it is settled, its players and chat admins. */
  predicate MayToggle(s: State, k: MatchKey, user: UserId, admin: bool) {
    && k in s.matches && s.matches[k].status != Pending
    && (user == s.matches[k].player1 || user == s.matches[k].player2 || admin)
  }

  predicate Stands(s: State, k: MatchKey, user: UserId) { RowKey(k, user) in s.undos }

  /**
   An /undo by anybody else, or of any other match, changes nothing. A player whose request stands takes it back. A
   chat admin, or the second of two players to ask, turns APPROVED into UNDONE or UNDONE into APPROVED, and the match's
   requests go. Any other player's request is noted.
   */
  lemma UndoEffect(s: State, k: MatchKey, user: UserId, admin: bool, now: int)
    ensures var s' := UndoHandled(s, k, user, admin, now);
            if !MayToggle(s, k, user, admin) then s' == s
            else if Stands(s, k, user) && !admin then s' == s.(undos := s.undos - {RowKey(k, user)})
            else
              var (one, two) := (s.matches[k].player1, s.matches[k].player2);
              if admin || ((Stands(s, k, one) || user == one) && (Stands(s, k, two) || user == two)) then
                && s'.confirmations == s.confirmations && s'.counters == s.counters && OthersKept(s, s', k)
                && OnlyRowsGone(s.undos, s'.undos, k) && k in s'.matches
                && s'.matches[k] ==
                   s.matches[k].(status := if s.matches[k].status == Approved then Undone else Approved)
              else s' == s.(undos := s.undos[RowKey(k, user) := now])
  {
    if k in s.matches {
      var asked := RequestUndo(s, k, user, now).undos;
      UsersOfMember(s.undos, k, user);
      UsersOfMember(asked, k, s.matches[k].player1);
      UsersOfMember(asked, k, s.matches[k].player2);
      hide UsersOf;
    }
  }

  /** PENDING, in a stored group, and older than the group's timeout in hours, or than a day if it has none. */
  predicate Overdue(m: MatchRow, timeoutHours: map<GroupId, nat>, now: int) {
    && m.status == Pending && m.group in timeoutHours
    && now - m.createdAt > (if timeoutHours[m.group] == 0 then 24 else timeoutHours[m.group]) * 3_600_000_000_000
  }

  /** The expiry job deletes exactly the overdue matches, with their rows. */
  lemma ExpiryEffect(s: State, timeoutHours: map<GroupId, nat>, now: int)
    ensures var s' := MatchesExpired(s, PendingExpired(s, timeoutHours, now));
            && s'.counters == s.counters
            && (forall k :: k in s'.matches <==> k in s.matches && !Overdue(s.matches[k], timeoutHours, now))
            && (forall k :: k in s'.matches ==> s'.matches[k] == s.matches[k])
            && (forall r :: r in s'.confirmations <==>
                  r in s.confirmations && !(r.match_ in s.matches && Overdue(s.matches[r.match_], timeoutHours, now)))
            && (forall r :: r in s'.undos <==>
                  r in s.undos && !(r.match_ in s.matches && Overdue(s.matches[r.match_], timeoutHours, now)))
            && (forall r :: r in s'.confirmations ==> s'.confirmations[r] == s.confirmations[r])
            && (forall r :: r in s'.undos ==> s'.undos[r] == s.undos[r])
  {
    var expired := PendingExpired(s, timeoutHours, now);
    assert forall k :: k in expired <==> k in s.matches && Overdue(s.matches[k], timeoutHours, now);
    hide PendingExpired, Overdue;
  }

  /** The calls that delete one match's rows, whether or not the match is still stored, and spare all others. */
  lemma RowsDropped(s: State, k: MatchKey)
    ensures OnlyRowsGone(s.confirmations, DropConfirmations(s, k).confirmations, k)
    ensures DropConfirmations(s, k) == s.(confirmations := DropConfirmations(s, k).confirmations)
    ensures OnlyRowsGone(s.undos, DropUndos(s, k).undos, k) && DropUndos(s, k) == s.(undos := DropUndos(s, k).undos)
    ensures k !in s.matches ==> Delete(s, k) == s && forall status :: SetStatus(s, k, status) == s
  {
  }

  // ---- handlers of the interleaved model, left alone

  lemma AloneDone(w: Protocol.World, tid: nat, n: nat, admin: bool, now: int)
    requires tid !in w.threads
    ensures Protocol.RunFrom(w, tid, n, admin, now) == w
  {
  }

  /** A cancel tap. */
  lemma CancelAlone(w: Protocol.World, tid: nat, k: MatchKey, user: UserId, admin: bool, now: int)
    requires tid !in w.threads
    ensures Protocol.Next(Protocol.Next(w, Protocol.TapCancel(tid, k, user, admin)),
                          Protocol.Advance(tid, admin, now)) ==
            w.(store := Cancelled(w.store, k, user, admin))
  {
    var w1 := Protocol.Next(w, Protocol.TapCancel(tid, k, user, admin));
    if tid in w1.threads {
      assert w1 == Protocol.Spawn(w, tid, Protocol.CancelRead(k));
      assert w1.threads - {tid} == w.threads;
    }
  }

  /** A registration; the keyboard of a match that waits for its other player is posted last. */
  lemma RegisterAlone(w: Protocol.World, tid: nat, row: MatchRow, admin: bool, now: int)
    requires tid !in w.threads
    ensures var w' := Protocol.RunFrom(Protocol.Next(w, Protocol.Register(tid, row, admin)), tid, 2, admin, now);
            var k := MatchKey(row.group, Counter(w.store, row.group) + 1);
            && w'.store == Registered(w.store, row, admin, now) && w'.threads == w.threads
            && w'.posted == (if row.player1 == row.player2 || admin then w.posted else w.posted + {k})
  {
    var k := MatchKey(row.group, Counter(w.store, row.group) + 1);
    var w1 := Protocol.Next(w, Protocol.Register(tid, row, admin));
    if tid in w1.threads {
      var s1 := Allocate(w.store, row.(status := Pending));
      assert w1 == Protocol.Spawn(w.(store := s1), tid, Protocol.RegInserted(k, row.registeredBy));
      var w2 := Protocol.Next(w1, Protocol.Advance(tid, admin, now));
      assert w2 == Protocol.Spawn(w.(store := Confirm(s1, k, row.registeredBy, now)), tid, Protocol.RegConfirmed(k));
      var w3 := Protocol.Next(w2, Protocol.Advance(tid, admin, now));
      assert w3.threads == w.threads;
      assert Protocol.RunFrom(w2, tid, 1, admin, now) == w3;
    } else {
      AloneDone(w1, tid, 2, admin, now);
    }
  }

  lemma RunMore(w: Protocol.World, tid: nat, n: nat, admin: bool, now: int)
    requires n > 0
    ensures Protocol.RunFrom(w, tid, n, admin, now) ==
            Protocol.RunFrom(Protocol.Next(w, Protocol.Advance(tid, admin, now)), tid, n - 1, admin, now)
  {
  }

  function Listed(keys: seq<MatchKey>): set<MatchKey> { set k | k in keys }

  /** The expiry job, one match after another. */
  lemma {:induction false} ExpiryAlone(w: Protocol.World, tid: nat, keys: seq<MatchKey>, n: nat, admin: bool, now: int)
    requires tid in w.threads && w.threads[tid] == Protocol.ExpirySweep(keys) && n > 2 * |keys|
    ensures Protocol.RunFrom(w, tid, n, admin, now) ==
            w.(store := MatchesExpired(w.store, Listed(keys)), threads := w.threads - {tid})
    decreases |keys|
  {
    RunMore(w, tid, n, admin, now);
    var w1 := Protocol.Next(w, Protocol.Advance(tid, admin, now));
    if keys == [] {
      NoneExpired(w.store);
      AloneDone(w1, tid, n - 1, admin, now);
    } else if keys[0] in w.store.matches {
      RunMore(w1, tid, n - 1, admin, now);
      var w2 := Protocol.Next(w1, Protocol.Advance(tid, admin, now));
      var s2 := DropConfirmations(Delete(w.store, keys[0]), keys[0]);
      assert w2 == w.(store := s2, threads := w.threads[tid := Protocol.ExpirySweep(keys[1..])]);
      ExpiryAlone(w2, tid, keys[1..], n - 2, admin, now);
      OneExpired(w.store, keys);
      assert w2.threads - {tid} == w.threads - {tid};
      hide Protocol.Next, Protocol.RunFrom, MatchesExpired, DropConfirmations;
    } else {
      assert w1 == w.(threads := w.threads[tid := Protocol.ExpirySweep(keys[1..])]);
      ExpiryAlone(w1, tid, keys[1..], n - 1, admin, now);
      NotStored(w.store, keys);
      assert w1.threads - {tid} == w.threads - {tid};
      hide Protocol.Next, Protocol.RunFrom, MatchesExpired;
    }
  }

  lemma NoneExpired(s: State)
    ensures MatchesExpired(s, Listed([])) == s
  {
  }

  lemma OneExpired(s: State, keys: seq<MatchKey>)
    requires keys != [] && keys[0] in s.matches
    ensures MatchesExpired(DropConfirmations(Delete(s, keys[0]), keys[0]), Listed(keys[1..])) ==
            MatchesExpired(s, Listed(keys))
  {
    ListedMore(keys);
    hide Listed;
  }

  lemma NotStored(s: State, keys: seq<MatchKey>)
    requires keys != [] && keys[0] !in s.matches
    ensures MatchesExpired(s, Listed(keys[1..])) == MatchesExpired(s, Listed(keys))
  {
    ListedMore(keys);
    hide Listed;
  }

  lemma ListedMore(keys: seq<MatchKey>)
    requires keys != []
    ensures Listed(keys) == Listed(keys[1..]) + {keys[0]}
  {
    assert keys == [keys[0]] + keys[1..];
  }

  /** The job that lets undo requests expire, one request after another. */
  lemma {:induction false} UndoExpiryAlone(w: Protocol.World, tid: nat, rows: seq<RowKey>, n: nat, admin: bool,
                                           now: int)
    requires tid in w.threads && w.threads[tid] == Protocol.UndoSweep(rows) && n > |rows|
    ensures Protocol.RunFrom(w, tid, n, admin, now) ==
            w.(store := UndosExpired(w.store, set r | r in rows), threads := w.threads - {tid})
    decreases |rows|
  {
    RunMore(w, tid, n, admin, now);
    var w1 := Protocol.Next(w, Protocol.Advance(tid, admin, now));
    if rows == [] {
      assert UndosExpired(w.store, set r | r in rows) == w.store;
      AloneDone(w1, tid, n - 1, admin, now);
    } else {
      var s1 := w.store.(undos := w.store.undos - {rows[0]});
      assert w1 == w.(store := s1, threads := w.threads[tid := Protocol.UndoSweep(rows[1..])]);
      hide Protocol.Next, Protocol.RunFrom;
      UndoExpiryAlone(w1, tid, rows[1..], n - 1, admin, now);
      OneUndoExpired(w.store, rows);
      hide UndosExpired;
      assert w1.threads - {tid} == w.threads - {tid};
    }
  }

  lemma OneUndoExpired(s: State, rows: seq<RowKey>)
    requires rows != []
    ensures UndosExpired(s.(undos := s.undos - {rows[0]}), set r | r in rows[1..]) ==
            UndosExpired(s, set r | r in rows)
  {
    assert rows == [rows[0]] + rows[1..];
    assert (set r | r in rows) == (set r | r in rows[1..]) + {rows[0]};
  }
}
