/**
 The match lifecycle of pkg/handlers/match.go, undo.go and periodic.go, with every handler in flight cut at its
 store calls. A thread is a handler between two store calls; any thread may take the next step at any time, and
 whoever is asked to be a chat admin may or may not be one. Store calls do not fail.
 */
module Protocol {
  import opened StoreState

  datatype Thread =
    | RegInserted(key: MatchKey, author: UserId)                    // author's confirmation still to be written
    | RegConfirmed(key: MatchKey)                                   // keyboard still to be posted
    | ConfirmRead(key: MatchKey, user: UserId, row: MatchRow)       // read PENDING, authorised
    | ConfirmInserted(key: MatchKey, user: UserId, row: MatchRow)   // own confirmation written
    | ConfirmListing(key: MatchKey, row: MatchRow)                  // not an admin: confirmations to be listed
    | ApproveAsAdmin(key: MatchKey)
    | ApproveAsBoth(key: MatchKey, row: MatchRow)
    | CancelRead(key: MatchKey)                                     // read PENDING, authorised
    | UndoRead(key: MatchKey, user: UserId, admin: bool, row: MatchRow)
    | UndoWithdraw(key: MatchKey, user: UserId)
    | UndoInsert(key: MatchKey, user: UserId, admin: bool, row: MatchRow)
    | UndoInserted(key: MatchKey, row: MatchRow)
    | UndoToggle(key: MatchKey, row: MatchRow)
    | UndoClear(key: MatchKey)
    | ExpirySweep(keys: seq<MatchKey>)
    | ExpiryDeleted(key: MatchKey, keys: seq<MatchKey>)             // confirmations still to be deleted
    | UndoSweep(rows: seq<RowKey>)

  type ThreadId = nat

  datatype World = World(
    store: State,
    threads: map<ThreadId, Thread>,
    posted: set<MatchKey>,            // keyboards shown to the group
    adminRegistered: set<MatchKey>,   // history: registered by a chat admin
    adminConfirmed: set<MatchKey>)    // history: confirmed by a chat admin

  datatype Action =
    | Register(tid: ThreadId, row: MatchRow, admin: bool)
    | TapConfirm(tid: ThreadId, key: MatchKey, user: UserId, admin: bool)
    | TapCancel(tid: ThreadId, key: MatchKey, user: UserId, admin: bool)
    | Undo(tid: ThreadId, key: MatchKey, user: UserId, admin: bool)
    | ExpireMatches(tid: ThreadId, keys: seq<MatchKey>)
    | ExpireUndos(tid: ThreadId, rows: seq<RowKey>)
    | Advance(tid: ThreadId, admin: bool, now: int)

  const INITIAL := World(EMPTY, map[], {}, {}, {})

  function Spawn(w: World, tid: ThreadId, t: Thread): World { w.(threads := w.threads[tid := t]) }

  function Finish(w: World, tid: ThreadId): World { w.(threads := w.threads - {tid}) }

  function Toggled(status: Status): Status { if status == Approved then Undone else Approved }

  // ---- a handler's first store call

  /** `AllocateAndInsertMatch` with the status the admin check decided; the admin path needs no keyboard. */
  function DoRegister(w: World, tid: ThreadId, row: MatchRow, admin: bool): World {
    if row.player1 == row.player2 then w else
    var key := MatchKey(row.group, Counter(w.store, row.group) + 1);
    if admin then
      w.(store := Allocate(w.store, row.(status := Approved)), adminRegistered := w.adminRegistered + {key})
    else
      Spawn(w.(store := Allocate(w.store, row.(status := Pending))), tid, RegInserted(key, row.registeredBy))
  }

  /** `Get`, then the authorisation and PENDING checks. Only posted keyboards can be tapped. */
  function DoTapConfirm(w: World, tid: ThreadId, key: MatchKey, user: UserId, admin: bool): World {
    if key !in w.posted || key !in w.store.matches then w else
    var row := w.store.matches[key];
    if !(row.HasPlayer(user) || admin) || row.status != Pending then w
    else Spawn(w, tid, ConfirmRead(key, user, row))
  }

  function DoTapCancel(w: World, tid: ThreadId, key: MatchKey, user: UserId, admin: bool): World {
    if key !in w.store.matches then w else
    var row := w.store.matches[key];
    if !(row.HasPlayer(user) || admin) || row.status != Pending then w
    else Spawn(w, tid, CancelRead(key))
  }

  function DoUndo(w: World, tid: ThreadId, key: MatchKey, user: UserId, admin: bool): World {
    if key !in w.store.matches then w else
    var row := w.store.matches[key];
    if !(row.HasPlayer(user) || admin) || row.status == Pending then w
    else Spawn(w, tid, UndoRead(key, user, admin, row))
  }

  // ---- a handler's next store call

  function Proceed(w: World, tid: ThreadId, t: Thread, admin: bool, now: int): World {
    match t
    case RegInserted(key, author) =>
      Spawn(w.(store := Confirm(w.store, key, author, now)), tid, RegConfirmed(key))
    case RegConfirmed(key) =>
      Finish(w.(posted := w.posted + {key}), tid)
    case ConfirmRead(key, user, row) =>
      Spawn(w.(store := Confirm(w.store, key, user, now)), tid, ConfirmInserted(key, user, row))
    case ConfirmInserted(key, user, row) =>
      if admin then Spawn(w.(adminConfirmed := w.adminConfirmed + {key}), tid, ApproveAsAdmin(key))
      else Spawn(w, tid, ConfirmListing(key, row))
    case ConfirmListing(key, row) =>
      var users := UsersOf(w.store.confirmations, key);
      if row.player1 in users && row.player2 in users then Spawn(w, tid, ApproveAsBoth(key, row)) else Finish(w, tid)
    case ApproveAsAdmin(key) => Finish(w.(store := SetStatus(w.store, key, Approved)), tid)
    case ApproveAsBoth(key, row) => Finish(w.(store := SetStatus(w.store, key, Approved)), tid)
    case CancelRead(key) => Finish(w.(store := Delete(w.store, key)), tid)
    case UndoRead(key, user, isAdmin, row) =>
      if user in UsersOf(w.store.undos, key) && !isAdmin then Spawn(w, tid, UndoWithdraw(key, user))
      else Spawn(w, tid, UndoInsert(key, user, isAdmin, row))
    case UndoWithdraw(key, user) => Finish(w.(store := WithdrawUndo(w.store, key, user)), tid)
    case UndoInsert(key, user, isAdmin, row) =>
      Spawn(w.(store := RequestUndo(w.store, key, user, now)), tid, if isAdmin then UndoToggle(key, row)
            else UndoInserted(key, row))
    case UndoInserted(key, row) =>
      var users := UsersOf(w.store.undos, key);
      if row.player1 in users && row.player2 in users then Spawn(w, tid, UndoToggle(key, row)) else Finish(w, tid)
    case UndoToggle(key, row) =>
      Spawn(w.(store := SetStatus(w.store, key, Toggled(row.status))), tid, UndoClear(key))
    case UndoClear(key) => Finish(w.(store := DropUndos(w.store, key)), tid)
    case ExpirySweep(keys) =>
      if keys == [] then Finish(w, tid)
      else if keys[0] in w.store.matches then
        Spawn(w.(store := Delete(w.store, keys[0])), tid, ExpiryDeleted(keys[0], keys[1..]))
      else Spawn(w, tid, ExpirySweep(keys[1..]))
    case ExpiryDeleted(key, keys) =>
      Spawn(w.(store := DropConfirmations(w.store, key)), tid, ExpirySweep(keys))
    case UndoSweep(rows) =>
      if rows == [] then Finish(w, tid)
      else Spawn(w.(store := WithdrawUndo(w.store, rows[0].match_, rows[0].user)), tid, UndoSweep(rows[1..]))
  }

  function Next(w: World, a: Action): World {
    if a.Advance? then
      if a.tid in w.threads then Proceed(w, a.tid, w.threads[a.tid], a.admin, a.now) else w
    else if a.tid in w.threads then w
    else match a
      case Register(tid, row, admin) => DoRegister(w, tid, row, admin)
      case TapConfirm(tid, key, user, admin) => DoTapConfirm(w, tid, key, user, admin)
      case TapCancel(tid, key, user, admin) => DoTapCancel(w, tid, key, user, admin)
      case Undo(tid, key, user, admin) => DoUndo(w, tid, key, user, admin)
      case ExpireMatches(tid, keys) =>
        if forall k :: k in keys ==> k in w.store.matches && w.store.matches[k].status == Pending
        then Spawn(w, tid, ExpirySweep(keys)) else w
      case ExpireUndos(tid, rows) =>
        if forall r :: r in rows ==> r in w.store.undos then Spawn(w, tid, UndoSweep(rows)) else w
  }

  function Run(actions: seq<Action>): World {
    if actions == [] then INITIAL else Next(Run(actions[..|actions|-1]), actions[|actions|-1])
  }

  /** Up to n further steps of thread tid, nobody else moving. */
  function RunFrom(w: World, tid: ThreadId, n: nat, admin: bool, now: int): World
    decreases n
  {
    if n == 0 then w else RunFrom(Next(w, Advance(tid, admin, now)), tid, n - 1, admin, now)
  }

  // ---- what every step keeps

  ghost predicate Confirmed(s: State, k: MatchKey, u: UserId) { RowKey(k, u) in s.confirmations }

  ghost predicate BothConfirmed(s: State, k: MatchKey)
    requires k in s.matches
  {
    Confirmed(s, k, s.matches[k].player1) && Confirmed(s, k, s.matches[k].player2)
  }

  /** The thread knows the players of the match, if the match is still stored. */
  ghost predicate KnowsPlayers(s: State, key: MatchKey, row: MatchRow) {
    key in s.matches ==> row.player1 == s.matches[key].player1 && row.player2 == s.matches[key].player2
  }

  ghost predicate Issued(s: State, k: MatchKey) { k.id <= Counter(s, k.group) }

  ghost predicate NotPending(s: State, k: MatchKey) { k in s.matches ==> s.matches[k].status != Pending }

  /** What holds of a thread wherever it stands. */
  ghost predicate ThreadOk(w: World, t: Thread) {
    match t
    case RegInserted(key, author) =>
      Issued(w.store, key) && key !in w.posted
          && (key in w.store.matches ==> w.store.matches[key].registeredBy == author)
    case RegConfirmed(key) => Issued(w.store, key)
    case ConfirmRead(key, user, row) => Issued(w.store, key) && key in w.posted && KnowsPlayers(w.store, key, row)
    case ConfirmInserted(key, user, row) => Issued(w.store, key) && key in w.posted && KnowsPlayers(w.store, key, row)
    case ConfirmListing(key, row) => Issued(w.store, key) && key in w.posted && KnowsPlayers(w.store, key, row)
    case ApproveAsAdmin(key) => Issued(w.store, key) && key in w.adminConfirmed
    case ApproveAsBoth(key, row) => Issued(w.store, key) && (key in w.store.matches ==> BothConfirmed(w.store, key))
    case CancelRead(key) => Issued(w.store, key)
    case UndoRead(key, user, admin, row) => Issued(w.store, key) && NotPending(w.store, key)
    case UndoWithdraw(key, user) => true
    case UndoInsert(key, user, admin, row) => Issued(w.store, key) && NotPending(w.store, key)
    case UndoInserted(key, row) => Issued(w.store, key) && NotPending(w.store, key)
    case UndoToggle(key, row) => Issued(w.store, key) && NotPending(w.store, key)
    case UndoClear(key) => true
    case ExpirySweep(keys) => forall k :: k in keys ==> Issued(w.store, k)
    case ExpiryDeleted(key, keys) =>
      Issued(w.store, key) && key !in w.store.matches && (forall k :: k in keys ==> Issued(w.store, k))
    case UndoSweep(rows) => true
  }

  ghost predicate ThreadsOk(w: World) { forall tid :: tid in w.threads ==> ThreadOk(w, w.threads[tid]) }

  ghost predicate StoreOk(w: World) {
    && Numbered(w.store)
    && (forall k :: k in w.store.matches ==> w.store.matches[k].player1 != w.store.matches[k].player2)
    && (forall r :: r in w.store.confirmations ==> Issued(w.store, r.match_))
    && (forall k :: k in w.posted || k in w.adminRegistered || k in w.adminConfirmed ==> Issued(w.store, k))
  }

  /** Before its keyboard is posted a match can only carry its author's confirmation. */
  ghost predicate AuthorsFirst(w: World) {
    forall r :: r in w.store.confirmations && r.match_ in w.store.matches && r.match_ !in w.posted ==>
      r.user == w.store.matches[r.match_].registeredBy
  }

  /** Why a match may count as approved. */
  ghost predicate Justified(w: World, k: MatchKey)
    requires k in w.store.matches
  {
    k in w.adminRegistered || k in w.adminConfirmed || BothConfirmed(w.store, k)
  }

  ghost predicate AllJustified(w: World) {
    forall k :: k in w.store.matches && w.store.matches[k].status != Pending ==> Justified(w, k)
  }

  /** A confirm handler that has written its row and not yet finished. */
  predicate InFlight(t: Thread, k: MatchKey) {
    (t.ConfirmInserted? || t.ConfirmListing? || t.ApproveAsAdmin? || t.ApproveAsBoth?) && t.key == k
  }

  ghost predicate SomeInFlight(w: World, k: MatchKey) {
    exists tid :: tid in w.threads && InFlight(w.threads[tid], k)
  }

  /** Pending although both players have confirmed. */
  ghost predicate Overdue(s: State, k: MatchKey) {
    k in s.matches && s.matches[k].status == Pending && BothConfirmed(s, k)
  }

  ghost predicate NoneLost(w: World) { forall k :: Overdue(w.store, k) ==> SomeInFlight(w, k) }

  predicate Registering(t: Thread) { t.RegInserted? || t.RegConfirmed? }

  /** A match is registered by one handler. */
  ghost predicate OneRegistrar(w: World) {
    forall i, j ::
      i in w.threads && j in w.threads && i != j && Registering(w.threads[i]) && Registering(w.threads[j]) ==>
        w.threads[i].key != w.threads[j].key
  }

  ghost predicate Inv(w: World) {
    StoreOk(w) && ThreadsOk(w) && OneRegistrar(w) && AuthorsFirst(w) && AllJustified(w) && NoneLost(w)
  }
}
