/** pkg/store/memstore/memstore.go: the maps, updated in place; Go's map order is an arbitrary choice of keys. */
module MemStore {
  import opened Wrappers
  import opened Sorting
  import opened StoreState
  import opened History

  class Store {
    var matches: map<MatchKey, MatchRow>
    var confirmations: map<RowKey, int>
    var undos: map<RowKey, int>
    var matchCounters: map<GroupId, nat>

    ghost function State(): StoreState.State
      reads this
    {
      StoreState.State(matches, confirmations, undos, matchCounters)
    }

    constructor ()
      ensures State() == EMPTY
    {
      matches, confirmations, undos, matchCounters := map[], map[], map[], map[];
    }

    method AllocateAndInsertMatch(row: MatchRow) returns (id: nat)
      modifies this
      ensures State() == Allocate(old(State()), row)
      ensures id == Counter(old(State()), row.group) + 1
    {
      id := (if row.group in matchCounters then matchCounters[row.group] else 0) + 1;
      var built := row.(id := id);
      matches := matches[MatchKey(row.group, id) := built];
      matchCounters := matchCounters[row.group := id];
    }

    method Get(k: MatchKey) returns (r: Option<MatchRow>)
      ensures r == if k in matches then Some(matches[k]) else None
    {
      r := if k in matches then Some(matches[k]) else None;
    }

    method UpdateStatus(k: MatchKey, status: Status) returns (found: bool)
      modifies this
      ensures State() == SetStatus(old(State()), k, status)
      ensures found == (k in old(matches))
    {
      if k !in matches { return false; }
      var m := matches[k];
      matches := matches[k := m.(status := status)];
      return true;
    }

    method Delete(k: MatchKey) returns (found: bool)
      modifies this
      ensures State() == StoreState.Delete(old(State()), k)
      ensures found == (k in old(matches))
    {
      if k !in matches { return false; }
      matches := matches - {k};
      confirmations := DeleteRows(confirmations, k);
      undos := DeleteRows(undos, k);
      return true;
    }

    method InsertConfirmation(k: MatchKey, u: UserId, at: int)
      modifies `confirmations
      ensures State() == Confirm(old(State()), k, u, at)
    {
      confirmations := confirmations[RowKey(k, u) := at];
    }

    method ListConfirmations(k: MatchKey) returns (users: set<UserId>)
      ensures users == UsersOf(confirmations, k)
    {
      users := ListRows(confirmations, k);
    }

    method DeleteConfirmations(k: MatchKey)
      modifies `confirmations
      ensures State() == DropConfirmations(old(State()), k)
    {
      confirmations := DeleteRows(confirmations, k);
    }

    method InsertUndo(k: MatchKey, u: UserId, at: int)
      modifies `undos
      ensures State() == RequestUndo(old(State()), k, u, at)
    {
      undos := undos[RowKey(k, u) := at];
    }

    method DeleteUndo(k: MatchKey, u: UserId) returns (found: bool)
      modifies `undos
      ensures State() == WithdrawUndo(old(State()), k, u)
      ensures found == (RowKey(k, u) in old(undos))
    {
      found := RowKey(k, u) in undos;
      undos := undos - {RowKey(k, u)};
    }

    method DeleteUndos(k: MatchKey)
      modifies `undos
      ensures State() == DropUndos(old(State()), k)
    {
      undos := DeleteRows(undos, k);
    }

    method ListUndos(k: MatchKey) returns (users: set<UserId>)
      ensures users == UsersOf(undos, k)
    {
      users := ListRows(undos, k);
    }

    method ListByGroup(g: GroupId) returns (out: seq<MatchRow>)
      requires Numbered(State())
      ensures IsHistory(State(), g, out)
    {
      out := [];
      var left := matches.Keys;
      while left != {}
        invariant left <= matches.Keys && NoDuplicates(out)
        invariant forall m :: m in out <==>
                    m.group == g && m.Key() in matches && m.Key() !in left && matches[m.Key()] == m
        decreases left
      {
        var k :| k in left;
        left := left - {k};
        if k.group == g { out := out + [matches[k]]; }
      }
      ghost var rows := out;
      EarlierWeakOrder();
      out := SortSlice(Earlier, out);
      MemberByMultiset(rows, out);
      SortedStaysDistinct(rows, out);
    }

    method CountsByPlayer(g: GroupId) returns (out: map<UserId, nat>)
      ensures CountsWithout(out, State(), g, {})
    {
      out := map[];
      var left := matches.Keys;
      NothingCounted(State(), g);
      while left != {}
        invariant left <= matches.Keys && CountsWithout(out, State(), g, left)
        decreases left
      {
        var k :| k in left;
        ghost var before := out;
        var m := matches[k];
        if k.group == g && m.status != Undone {
          out := Increment(Increment(out, m.player1), m.player2);
        }
        CountStep(State(), g, left, k, before, out);
        left := left - {k};
      }
    }

    method ListPendingExpired(timeoutHours: map<GroupId, nat>, now: int) returns (out: set<MatchKey>)
      ensures out == PendingExpired(State(), timeoutHours, now)
    {
      out := {};
      var left := matches.Keys;
      while left != {}
        invariant left <= matches.Keys && out == PendingExpired(State(), timeoutHours, now) - left
        decreases left
      {
        var k :| k in left;
        left := left - {k};
        var m := matches[k];
        if m.status != Pending { continue; }
        if m.group !in timeoutHours { continue; }
        if now - m.createdAt > ConfirmationTimeout(timeoutHours[m.group]) { out := out + {k}; }
      }
    }

    method ListExpiredUndos(cutoff: int) returns (expired: set<RowKey>)
      ensures expired == set r | r in undos && undos[r] < cutoff
    {
      expired := {};
      var left := undos.Keys;
      while left != {}
        invariant left <= undos.Keys
        invariant expired == set r | r in undos && r !in left && undos[r] < cutoff
        decreases left
      {
        var r :| r in left;
        if undos[r] < cutoff { expired := expired + {r}; }
        left := left - {r};
      }
    }
  }

  /** `out[id]++`. */
  function Increment(counts: map<UserId, nat>, u: UserId): map<UserId, nat> {
    counts[u := (if u in counts then counts[u] else 0) + 1]
  }

  /** The number of sides each player has taken in matches outside `left`; a player without any has no entry. */
  ghost predicate CountsWithout(counts: map<UserId, nat>, s: State, g: GroupId, left: set<MatchKey>) {
    forall u :: |FirstSide(s, g, u) - left| + |SecondSide(s, g, u) - left| == if u in counts then counts[u] else 0
  }

  lemma NothingCounted(s: State, g: GroupId)
    ensures CountsWithout(map[], s, g, s.matches.Keys)
  {
    forall u ensures |FirstSide(s, g, u) - s.matches.Keys| + |SecondSide(s, g, u) - s.matches.Keys| == 0 {
      assert FirstSide(s, g, u) - s.matches.Keys == {} && SecondSide(s, g, u) - s.matches.Keys == {};
    }
  }

  lemma AllCounted(counts: map<UserId, nat>, s: State, g: GroupId, u: UserId)
    requires CountsWithout(counts, s, g, {})
    ensures MatchCount(s, g, u) == if u in counts then counts[u] else 0
  {
    assert FirstSide(s, g, u) - {} == FirstSide(s, g, u) && SecondSide(s, g, u) - {} == SecondSide(s, g, u);
  }

  lemma OneMore(all: set<MatchKey>, left: set<MatchKey>, k: MatchKey)
    requires k in left
    ensures |all - (left - {k})| == |all - left| + if k in all then 1 else 0
  {
    assert all - (left - {k}) == (all - left) + (if k in all then {k} else {});
  }

  lemma CountStep(s: State, g: GroupId, left: set<MatchKey>, k: MatchKey,
                  before: map<UserId, nat>, after: map<UserId, nat>)
    requires k in left && k in s.matches && CountsWithout(before, s, g, left)
    requires after == if k.group == g && s.matches[k].status != Undone
                      then Increment(Increment(before, s.matches[k].player1), s.matches[k].player2) else before
    ensures CountsWithout(after, s, g, left - {k})
  {
    forall u ensures |FirstSide(s, g, u) - (left - {k})| + |SecondSide(s, g, u) - (left - {k})| ==
        if u in after then after[u] else 0
    {
      assert |FirstSide(s, g, u) - left| + |SecondSide(s, g, u) - left| == if u in before then before[u] else 0;
      assert k in FirstSide(s, g, u) <==> k.group == g && s.matches[k].status != Undone && s.matches[k].player1 == u;
      assert k in SecondSide(s, g, u) <==> k.group == g && s.matches[k].status != Undone && s.matches[k].player2 == u;
      OneMore(FirstSide(s, g, u), left, k);
      OneMore(SecondSide(s, g, u), left, k);
      hide FirstSide, SecondSide;
    }
  }

  /** The loops `for k := range rows { if k.Match == mid { delete(rows, k) } }`, whatever order they take. */
  method DeleteRows(rows: map<RowKey, int>, k: MatchKey) returns (rest: map<RowKey, int>)
    ensures rest == WithoutMatch(rows, k)
  {
    rest := rows;
    var left := rows.Keys;
    while left != {}
      invariant left <= rows.Keys
      invariant rest == map r | r in rows && (r in left || r.match_ != k) :: rows[r]
      decreases left
    {
      var r :| r in left;
      if r.match_ == k { rest := rest - {r}; }
      left := left - {r};
    }
  }

  method ListRows(rows: map<RowKey, int>, k: MatchKey) returns (users: set<UserId>)
    ensures users == UsersOf(rows, k)
  {
    users := {};
    var left := rows.Keys;
    while left != {}
      invariant left <= rows.Keys
      invariant users == set r | r in rows && r !in left && r.match_ == k :: r.user
      decreases left
    {
      var r :| r in left;
      ghost var was := left;
      left := left - {r};
      if r.match_ == k { users := users + {r.user}; }
      assert forall q :: q in rows && q !in left <==> (q in rows && q !in was) || q == r;
    }
  }
}
