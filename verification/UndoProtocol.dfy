/** What holds of undo requests and match statuses after every update, when updates are handled one after another. */
module UndoProtocol {
  import opened StoreState
  import opened Handlers
  import Protocol

  datatype Update =
    | NewMatch(row: MatchRow, admin: bool, now: int)
    | ConfirmTap(key: MatchKey, user: UserId, allowed: bool, admin: bool, now: int)
    | CancelTap(key: MatchKey, user: UserId, admin: bool)
    | UndoCommand(key: MatchKey, user: UserId, admin: bool, now: int)
    | CronMatches(keys: set<MatchKey>)
    | CronUndos(expired: set<RowKey>)

  function Handle(s: State, u: Update): State {
    match u
    case NewMatch(row, admin, now) => Registered(s, row, admin, now)
    case ConfirmTap(key, user, allowed, admin, now) => Tapped(s, key, user, allowed, admin, now)
    case CancelTap(key, user, admin) => Cancelled(s, key, user, admin)
    case UndoCommand(key, user, admin, now) => UndoHandled(s, key, user, admin, now)
    case CronMatches(keys) => MatchesExpired(s, keys)
    case CronUndos(expired) => UndosExpired(s, expired)
  }

  function After(us: seq<Update>): State {
    if us == [] then EMPTY else Handle(After(us[..|us|-1]), us[|us|-1])
  }

  predicate Requested(s: State, k: MatchKey, u: UserId) { RowKey(k, u) in s.undos }

  /**
   The update runs `toggleMatchAndAnnounce` on k to its end: an /undo of a stored match that is not PENDING, by a chat
   admin, or by one player while the other player's request stands.
   */
  predicate Completes(s: State, u: Update, k: MatchKey) {
    && u.UndoCommand? && u.key == k && k in s.matches && s.matches[k].status != Pending
    && (u.admin
        || (u.user == s.matches[k].player1 && Requested(s, k, s.matches[k].player2))
        || (u.user == s.matches[k].player2 && Requested(s, k, s.matches[k].player1)))
  }

  /** Completed undos and restores of match k. */
  function Toggles(us: seq<Update>, k: MatchKey): nat {
    if us == [] then 0
    else Toggles(us[..|us|-1], k) + (if Completes(After(us[..|us|-1]), us[|us|-1], k) then 1 else 0)
  }

  /** The update changed k from one settled status to the other. */
  predicate Flips(s: State, u: Update, k: MatchKey) {
    && k in s.matches && s.matches[k].status != Pending
    && k in Handle(s, u).matches && Handle(s, u).matches[k].status != s.matches[k].status
  }

  /** Requests belong to players of settled stored matches, and never to both players at once. */
  ghost predicate RequestsOk(s: State) {
    && (forall r :: r in s.undos ==>
          r.match_ in s.matches && s.matches[r.match_].status != Pending && s.matches[r.match_].HasPlayer(r.user))
    && (forall k :: k in s.matches ==>
          !(Requested(s, k, s.matches[k].player1) && Requested(s, k, s.matches[k].player2)))
  }

  ghost predicate RowsOk(s: State) {
    && Numbered(s)
    && (forall k :: k in s.matches ==> s.matches[k].player1 != s.matches[k].player2)
  }

  // ---- one update

  /** Requests that were standing before, on matches that have not changed. */
  lemma FewerRequests(s: State, s': State)
    requires RequestsOk(s)
    requires forall r :: r in s'.undos ==>
               r in s.undos && r.match_ in s'.matches && s'.matches[r.match_] == s.matches[r.match_]
    ensures RequestsOk(s')
  {
  }

  lemma WithdrawnOk(s: State, expired: set<RowKey>)
    requires RequestsOk(s)
    ensures RequestsOk(UndosExpired(s, expired))
  {
    FewerRequests(s, UndosExpired(s, expired));
  }

  /** Rows that differ in nothing but their status. */
  lemma RowsKept(s: State, s': State)
    requires RowsOk(s) && s'.counters == s.counters
    requires forall k :: k in s'.matches ==>
               k in s.matches && s'.matches[k].(status := s.matches[k].status) == s.matches[k]
    ensures RowsOk(s')
  {
  }

  lemma RegisteredOk(s: State, row: MatchRow, admin: bool, now: int)
    requires RowsOk(s) && RequestsOk(s)
    ensures RowsOk(Registered(s, row, admin, now)) && RequestsOk(Registered(s, row, admin, now))
  {
    AllocateNumbered(s, row.(status := if admin then Approved else Pending));
    RegisteredRequests(s, row, admin, now);
    hide RequestsOk, NeverReissues;
  }

  lemma RegisteredRequests(s: State, row: MatchRow, admin: bool, now: int)
    requires RowsOk(s) && RequestsOk(s)
    ensures RequestsOk(Registered(s, row, admin, now))
  {
    FewerRequests(s, Registered(s, row, admin, now));
  }

  lemma TappedOk(s: State, k: MatchKey, user: UserId, allowed: bool, admin: bool, now: int)
    requires RowsOk(s) && RequestsOk(s)
    ensures var s' := Tapped(s, k, user, allowed, admin, now); RowsOk(s') && RequestsOk(s')
  {
    FewerRequests(s, Tapped(s, k, user, allowed, admin, now));
    hide RequestsOk;
    RowsKept(s, Tapped(s, k, user, allowed, admin, now));
  }

  lemma CancelledOk(s: State, k: MatchKey, user: UserId, admin: bool)
    requires RowsOk(s) && RequestsOk(s)
    ensures RowsOk(Cancelled(s, k, user, admin)) && RequestsOk(Cancelled(s, k, user, admin))
  {
    FewerRequests(s, Cancelled(s, k, user, admin));
    hide RequestsOk;
    RowsKept(s, Cancelled(s, k, user, admin));
  }

  /** One more request, from a player whose opponent has none standing. */
  lemma OneMoreRequest(s: State, k: MatchKey, user: UserId, now: int)
    requires RequestsOk(s) && k in s.matches && s.matches[k].status != Pending && s.matches[k].HasPlayer(user)
    requires var users := UsersOf(RequestUndo(s, k, user, now).undos, k);
             !(s.matches[k].player1 in users && s.matches[k].player2 in users)
    ensures RequestsOk(RequestUndo(s, k, user, now))
  {
    UsersOfMember(RequestUndo(s, k, user, now).undos, k, s.matches[k].player1);
    UsersOfMember(RequestUndo(s, k, user, now).undos, k, s.matches[k].player2);
  }

  lemma ToggledRows(s: State, k: MatchKey, user: UserId, now: int, status: Status)
    ensures var s' := DropUndos(SetStatus(RequestUndo(s, k, user, now), k, status), k);
            s' == SetStatus(s, k, status).(undos := WithoutMatch(s.undos, k))
  {
    assert WithoutMatch(s.undos[RowKey(k, user) := now], k) == WithoutMatch(s.undos, k);
  }

  lemma ToggledOk(s: State, k: MatchKey, user: UserId, now: int, status: Status)
    requires RowsOk(s) && RequestsOk(s)
    ensures var s' := DropUndos(SetStatus(RequestUndo(s, k, user, now), k, status), k); RowsOk(s') && RequestsOk(s')
  {
    ToggledRows(s, k, user, now, status);
    hide DropUndos, RequestUndo, WithoutMatch;
    var s' := SetStatus(s, k, status).(undos := WithoutMatch(s.undos, k));
    ToggledRequests(s, s', k);
    hide RequestsOk;
    RowsKept(s, s');
  }

  lemma ToggledRequests(s: State, s': State, k: MatchKey)
    requires RequestsOk(s) && s'.undos == WithoutMatch(s.undos, k)
    requires forall q :: q in s.matches && q != k ==> q in s'.matches && s'.matches[q] == s.matches[q]
    ensures RequestsOk(s')
  {
    FewerRequests(s, s');
  }

  lemma UndoHandledOk(s: State, k: MatchKey, user: UserId, admin: bool, now: int)
    requires RowsOk(s) && RequestsOk(s)
    ensures RowsOk(UndoHandled(s, k, user, admin, now)) && RequestsOk(UndoHandled(s, k, user, admin, now))
  {
    hide RowsOk, RequestsOk, DropUndos, SetStatus, UsersOf;
    var s' := UndoHandled(s, k, user, admin, now);
    if k in s.matches {
      ToggledOk(s, k, user, now, Protocol.Toggled(s.matches[k].status));
      if s' == WithdrawUndo(s, k, user) {
        WithdrawnOk(s, {RowKey(k, user)});
        RowsKept(s, s');
      } else if s' == RequestUndo(s, k, user, now) && s' != s && !admin {
        RowsKept(s, s');
        var users := UsersOf(s'.undos, k);
        if !(s.matches[k].player1 in users && s.matches[k].player2 in users) { OneMoreRequest(s, k, user, now); }
      }
    }
  }

  lemma MatchesExpiredOk(s: State, expired: set<MatchKey>)
    requires RowsOk(s) && RequestsOk(s)
    ensures RowsOk(MatchesExpired(s, expired)) && RequestsOk(MatchesExpired(s, expired))
  {
    FewerRequests(s, MatchesExpired(s, expired));
    hide RequestsOk;
    RowsKept(s, MatchesExpired(s, expired));
  }

  lemma HandleOk(s: State, u: Update)
    requires RowsOk(s) && RequestsOk(s)
    ensures RowsOk(Handle(s, u)) && RequestsOk(Handle(s, u))
  {
    hide RowsOk, RequestsOk, Registered, Tapped, Cancelled, UndoHandled, MatchesExpired;
    match u
    case NewMatch(row, admin, now) => RegisteredOk(s, row, admin, now);
    case ConfirmTap(key, user, allowed, admin, now) => TappedOk(s, key, user, allowed, admin, now);
    case CancelTap(key, user, admin) => CancelledOk(s, key, user, admin);
    case UndoCommand(key, user, admin, now) => UndoHandledOk(s, key, user, admin, now);
    case CronMatches(keys) => MatchesExpiredOk(s, keys);
    case CronUndos(expired) =>
      WithdrawnOk(s, expired);
      RowsKept(s, Handle(s, u));
  }

  /**
   After every handled update, undo requests belong only to players of stored matches that are not PENDING, and no
   match has requests from both players.
   */
  lemma {:induction false} RequestsStayOk(us: seq<Update>)
    ensures RowsOk(After(us)) && RequestsOk(After(us))
  {
    if us != [] {
      RequestsStayOk(us[..|us|-1]);
      HandleOk(After(us[..|us|-1]), us[|us|-1]);
    }
  }

  // ---- what a toggle takes

  /** Only a chat admin, or the second of two players with the other's request standing, changes a settled status. */
  lemma FlipIsCaused(s: State, u: Update, k: MatchKey)
    requires RowsOk(s) && RequestsOk(s) && Flips(s, u, k)
    ensures Completes(s, u, k)
  {
    match u
    case UndoCommand(key, user, admin, now) =>
      if key in s.matches {
        var s' := RequestUndo(s, key, user, now);
        UsersOfMember(s'.undos, key, s.matches[key].player1);
        UsersOfMember(s'.undos, key, s.matches[key].player2);
      }
    case _ =>
  }

  /** A completed toggle writes the other status, leaves every other match alone and clears the match's requests. */
  lemma CompletedToggle(s: State, u: Update, k: MatchKey)
    requires RowsOk(s) && RequestsOk(s) && Completes(s, u, k)
    ensures Handle(s, u).matches == SetStatus(s, k, Protocol.Toggled(s.matches[k].status)).matches
    ensures UsersOf(Handle(s, u).undos, k) == {}
  {
    var s' := RequestUndo(s, k, u.user, u.now);
    UsersOfMember(s.undos, k, u.user);
    UsersOfMember(s'.undos, k, s.matches[k].player1);
    UsersOfMember(s'.undos, k, s.matches[k].player2);
    UsersOfWithout(s'.undos, k, k);
  }

  /** So a settled status changes exactly when a toggle completes. */
  lemma FlipsIffCompletes(s: State, u: Update, k: MatchKey)
    requires RowsOk(s) && RequestsOk(s)
    ensures Flips(s, u, k) <==> Completes(s, u, k)
  {
    hide RowsOk, RequestsOk;
    if Flips(s, u, k) { FlipIsCaused(s, u, k); }
    if Completes(s, u, k) { CompletedToggle(s, u, k); }
    hide Completes, Handle;
  }

  // ---- status is the parity of the toggles

  /** A row that was there before: PENDING rows never become UNDONE, settled rows stay or toggle. */
  ghost predicate StatusMoves(s: State, s': State, k: MatchKey) {
    && k in s.matches && k in s'.matches
    && (s.matches[k].status == Pending ==> s'.matches[k].status != Undone)
    && (s.matches[k].status != Pending ==>
          s'.matches[k].status == s.matches[k].status || s'.matches[k].status == Protocol.Toggled(s.matches[k].status))
  }

  /** A new row: its id was above the counter, and it is PENDING or APPROVED. */
  ghost predicate NewRow(s: State, s': State, k: MatchKey) {
    && k !in s.matches && k in s'.matches
    && Counter(s, k.group) < k.id <= Counter(s', k.group) && s'.matches[k].status != Undone
  }

  /** How one update can change what is stored about match k. */
  lemma StatusChange(s: State, u: Update, k: MatchKey)
    requires RowsOk(s) && RequestsOk(s) && k in Handle(s, u).matches
    ensures NewRow(s, Handle(s, u), k) || StatusMoves(s, Handle(s, u), k)
  {
    hide RowsOk, RequestsOk, UsersOf, WithoutMatch;
    match u
    case NewMatch(row, admin, now) => NewMatchStatus(s, row, admin, now, k);
    case _ =>
  }

  lemma NewMatchStatus(s: State, row: MatchRow, admin: bool, now: int, k: MatchKey)
    requires RowsOk(s) && k in Registered(s, row, admin, now).matches
    ensures NewRow(s, Registered(s, row, admin, now), k) || StatusMoves(s, Registered(s, row, admin, now), k)
  {
    AllocateNumbered(s, row.(status := if admin then Approved else Pending));
  }

  /** Ids above the counter have no toggles, nor have PENDING matches; otherwise the status is their parity. */
  ghost predicate ParityFor(s: State, k: MatchKey, toggles: nat) {
    && (Counter(s, k.group) < k.id ==> toggles == 0)
    && (k in s.matches ==>
          match s.matches[k].status
          case Pending => toggles == 0
          case Approved => toggles % 2 == 0
          case Undone => toggles % 2 == 1)
  }

  ghost predicate ParityOk(us: seq<Update>, k: MatchKey) { ParityFor(After(us), k, Toggles(us, k)) }

  /** A stored match is APPROVED after an even and UNDONE after an odd number of completed toggles. */
  lemma {:induction false} StatusIsParity(us: seq<Update>, k: MatchKey)
    ensures ParityOk(us, k)
  {
    hide RowsOk, RequestsOk, ParityOk, Handle;
    if us == [] {
      ParityAtStart(k);
    } else {
      var front, u := us[..|us|-1], us[|us|-1];
      StatusIsParity(front, k);
      RequestsStayOk(front);
      RequestsStayOk(us);
      ParityStep(us, k);
    }
  }

  lemma ParityAtStart(k: MatchKey)
    ensures ParityOk([], k)
  {
  }

  lemma IssuedIds(s: State, k: MatchKey)
    requires RowsOk(s)
    ensures k in s.matches ==> k.id <= Counter(s, k.group)
  {
  }

  lemma ParityMoves(s: State, s': State, k: MatchKey, toggles: nat, toggled: bool)
    requires ParityFor(s, k, toggles) && Counter(s, k.group) <= Counter(s', k.group)
    requires k in s.matches ==> k.id <= Counter(s, k.group)
    requires k in s'.matches ==> k.id <= Counter(s', k.group) && (NewRow(s, s', k) || StatusMoves(s, s', k))
    requires toggled <==> k in s.matches && s.matches[k].status != Pending
                          && k in s'.matches && s'.matches[k].status != s.matches[k].status
    ensures ParityFor(s', k, toggles + if toggled then 1 else 0)
  {
    hide Counter;
  }

  lemma ParityStep(us: seq<Update>, k: MatchKey)
    requires us != [] && ParityOk(us[..|us|-1], k)
    requires RowsOk(After(us[..|us|-1])) && RequestsOk(After(us[..|us|-1])) && RowsOk(After(us))
    ensures ParityOk(us, k)
  {
    hide RowsOk, RequestsOk, Handle, ParityFor, NewRow, StatusMoves, Counter;
    var s, s', u := After(us[..|us|-1]), After(us), us[|us|-1];
    assert s' == Handle(s, u);
    CounterGrows(s, u, k.group);
    IssuedIds(s, k);
    IssuedIds(s', k);
    if k in s'.matches { StatusChange(s, u, k); }
    FlipsIffCompletes(s, u, k);
    hide Completes;
    ParityMoves(s, s', k, Toggles(us[..|us|-1], k), Flips(s, u, k));
  }

  lemma CounterGrows(s: State, u: Update, g: GroupId)
    requires RowsOk(s) && RequestsOk(s)
    ensures Counter(s, g) <= Counter(Handle(s, u), g)
  {
  }

  // ---- what two commands do

  /** A player who changes their mind leaves no trace: the second /undo takes the first one back. */
  lemma SecondUndoWithdraws(s: State, k: MatchKey, user: UserId, t1: int, t2: int)
    requires RowsOk(s) && RequestsOk(s) && k in s.matches && s.matches[k].status != Pending
             && s.matches[k].HasPlayer(user)
    requires UsersOf(s.undos, k) == {}
    ensures UndoHandled(UndoHandled(s, k, user, false, t1), k, user, false, t2) == s
  {
    var s' := RequestUndo(s, k, user, t1);
    UsersOfUpdate(s.undos, k, user, t1, k);
    UsersOfMember(s.undos, k, user);
    assert s'.undos - {RowKey(k, user)} == s.undos;
  }

  /** An admin's second /undo restores every match. */
  lemma AdminUndoTwice(s: State, k: MatchKey, user: UserId, t1: int, t2: int)
    ensures UndoHandled(UndoHandled(s, k, user, true, t1), k, user, true, t2).matches == s.matches
  {
  }
}
