/** The rows of pkg/store/memstore/memstore.go that the match lifecycle uses, and each store call as a function. */
module StoreState {

  type UserId = int
  type GroupId = int

  datatype Status = Pending | Approved | Undone

  datatype MatchRow = MatchRow(
    group: GroupId, id: nat, player1: UserId, player2: UserId, score1: nat, score2: nat,
    registeredBy: UserId, status: Status, playedAt: int, createdAt: int)
  {
    function Key(): MatchKey { MatchKey(group, id) }

    predicate HasPlayer(u: UserId) { u == player1 || u == player2 }
  }

  datatype MatchKey = MatchKey(group: GroupId, id: nat)

  /** The key of a confirmation or an undo request. */
  datatype RowKey = RowKey(match_: MatchKey, user: UserId)

  datatype State = State(
    matches: map<MatchKey, MatchRow>,
    confirmations: map<RowKey, int>,
    undos: map<RowKey, int>,
    counters: map<GroupId, nat>)

  const EMPTY := State(map[], map[], map[], map[])

  function Counter(s: State, g: GroupId): nat { if g in s.counters then s.counters[g] else 0 }

  /** `AllocateAndInsertMatch`: the row gets the group's next id. */
  function Allocate(s: State, row: MatchRow): State {
    var next := Counter(s, row.group) + 1;
    s.(matches := s.matches[MatchKey(row.group, next) := row.(id := next)], counters := s.counters[row.group := next])
  }

  function SetStatus(s: State, k: MatchKey, status: Status): State {
    if k in s.matches then s.(matches := s.matches[k := s.matches[k].(status := status)]) else s
  }

  function WithoutMatch(rows: map<RowKey, int>, k: MatchKey): map<RowKey, int> {
    map r | r in rows && r.match_ != k :: rows[r]
  }

  /** Deleting a match takes its confirmations and undo requests along. */
  function Delete(s: State, k: MatchKey): State {
    if k !in s.matches then s
    else s.(matches := s.matches - {k}, confirmations := WithoutMatch(s.confirmations, k),
            undos := WithoutMatch(s.undos, k))
  }

  function UsersOf(rows: map<RowKey, int>, k: MatchKey): set<UserId> {
    set r | r in rows && r.match_ == k :: r.user
  }

  function Confirm(s: State, k: MatchKey, u: UserId, at: int): State {
    s.(confirmations := s.confirmations[RowKey(k, u) := at])
  }

  function DropConfirmations(s: State, k: MatchKey): State {
    s.(confirmations := WithoutMatch(s.confirmations, k))
  }

  function RequestUndo(s: State, k: MatchKey, u: UserId, at: int): State {
    s.(undos := s.undos[RowKey(k, u) := at])
  }

  function WithdrawUndo(s: State, k: MatchKey, u: UserId): State {
    s.(undos := s.undos - {RowKey(k, u)})
  }

  function DropUndos(s: State, k: MatchKey): State {
    s.(undos := WithoutMatch(s.undos, k))
  }

  /** The matches of a group, undone ones not counted, that a player is in on the first or on the second side. */
  function FirstSide(s: State, g: GroupId, u: UserId): set<MatchKey> {
    set k | k in s.matches && k.group == g && s.matches[k].status != Undone && s.matches[k].player1 == u
  }

  function SecondSide(s: State, g: GroupId, u: UserId): set<MatchKey> {
    set k | k in s.matches && k.group == g && s.matches[k].status != Undone && s.matches[k].player2 == u
  }

  function MatchCount(s: State, g: GroupId, u: UserId): nat { |FirstSide(s, g, u)| + |SecondSide(s, g, u)| }

  const HOUR := 3_600_000_000_000

  /** `Group.ConfirmationTimeout`: the configured hours, 24 if none are configured. */
  function ConfirmationTimeout(hours: nat): int { if hours == 0 then 24 * HOUR else hours as int * HOUR }

  /** `ListPendingExpired`: PENDING matches past the timeout of their group, groups that are not stored left alone. */
  function PendingExpired(s: State, timeoutHours: map<GroupId, nat>, now: int): set<MatchKey> {
    set k | k in s.matches && s.matches[k].status == Pending && s.matches[k].group in timeoutHours
            && now - s.matches[k].createdAt > ConfirmationTimeout(timeoutHours[s.matches[k].group])
  }

  // ---- numbering

  /** Match ids run from 1 to the group's counter, and every row sits under its own key. */
  ghost predicate Numbered(s: State) {
    forall k :: k in s.matches ==> s.matches[k].Key() == k && 1 <= k.id <= Counter(s, k.group)
  }

  /** Nothing a store call does makes an id smaller than the counter available again. */
  ghost predicate NeverReissues(s: State, s': State) {
    && (forall g :: Counter(s, g) <= Counter(s', g))
    && (forall k :: k in s'.matches && k !in s.matches ==> Counter(s, k.group) < k.id)
  }

  lemma AllocateNumbered(s: State, row: MatchRow)
    requires Numbered(s)
    ensures Numbered(Allocate(s, row)) && NeverReissues(s, Allocate(s, row))
    ensures MatchKey(row.group, Counter(s, row.group) + 1) !in s.matches
  {
    var s' := Allocate(s, row);
    forall k | k in s'.matches ensures s'.matches[k].Key() == k && 1 <= k.id <= Counter(s', k.group) {}
  }

  lemma UsersOfUpdate(rows: map<RowKey, int>, k: MatchKey, u: UserId, at: int, q: MatchKey)
    ensures UsersOf(rows[RowKey(k, u) := at], q) == UsersOf(rows, q) + (if q == k then {u} else {})
  {
    var rows' := rows[RowKey(k, u) := at];
    forall v | v in UsersOf(rows, q) ensures v in UsersOf(rows', q) { assert RowKey(q, v) in rows'; }
    if q == k { assert RowKey(q, u) in rows'; }
  }

  lemma UsersOfMember(rows: map<RowKey, int>, k: MatchKey, u: UserId)
    ensures u in UsersOf(rows, k) <==> RowKey(k, u) in rows
  {
    if u in UsersOf(rows, k) {
      var r :| r in rows && r.match_ == k && r.user == u;
      assert r == RowKey(k, u);
    }
  }

  lemma UsersOfWithout(rows: map<RowKey, int>, k: MatchKey, q: MatchKey)
    ensures UsersOf(WithoutMatch(rows, k), q) == if q == k then {} else UsersOf(rows, q)
  {
    forall v | q != k && v in UsersOf(rows, q) ensures v in UsersOf(WithoutMatch(rows, k), q) {
      UsersOfMember(rows, q, v);
      assert RowKey(q, v) in WithoutMatch(rows, k);
    }
  }
}
