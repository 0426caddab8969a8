/** The match list of a group, `ListByGroup` of pkg/store/memstore/memstore.go: one determined list, whatever order the
 map of matches is walked in. */
module History {
  import opened Sorting
  import opened StoreState

  /** The comparison `ListByGroup` sorts with. */
  predicate Earlier(a: MatchRow, b: MatchRow) {
    if a.playedAt != b.playedAt then a.playedAt < b.playedAt else a.id < b.id
  }

  ghost predicate NoDuplicates<T(!new)>(s: seq<T>) { forall i, j :: 0 <= i < j < |s| ==> s[i] != s[j] }

  /** Every stored match of the group once, in order of play, ids breaking ties. */
  ghost predicate IsHistory(s: State, g: GroupId, ms: seq<MatchRow>) {
    && (forall m :: m in ms <==> m.group == g && m.Key() in s.matches && s.matches[m.Key()] == m)
    && NoDuplicates(ms)
    && SortedBy(Earlier, ms)
  }

  lemma EarlierWeakOrder()
    ensures WeakOrder(Earlier)
  {
  }

  lemma {:induction false} OnceEach<T(!new)>(s: seq<T>, x: T)
    requires NoDuplicates(s)
    ensures multiset(s)[x] == if x in s then 1 else 0
  {
    if s != [] {
      OnceEach(s[..|s|-1], x);
      assert s == s[..|s|-1] + [s[|s|-1]];
    }
  }

  lemma SameElements<T(!new)>(a: seq<T>, b: seq<T>)
    requires NoDuplicates(a) && NoDuplicates(b)
    requires forall x :: x in a <==> x in b
    ensures multiset(a) == multiset(b)
  {
    forall x ensures multiset(a)[x] == multiset(b)[x] {
      OnceEach(a, x);
      OnceEach(b, x);
    }
  }

  lemma SortedStaysDistinct<T(!new)>(a: seq<T>, b: seq<T>)
    requires NoDuplicates(a) && multiset(a) == multiset(b)
    ensures NoDuplicates(b)
  {
    forall i, j | 0 <= i < j < |b| ensures b[i] != b[j] {
      OnceEach(a, b[j]);
      assert b == b[..j] + [b[j]] + b[j+1..];
      assert b[i] in b[..j];
    }
  }

  /** A stored history has one arrangement only. */
  lemma HistoryUnique(s: State, g: GroupId, a: seq<MatchRow>, b: seq<MatchRow>)
    requires IsHistory(s, g, a) && IsHistory(s, g, b)
    ensures a == b
  {
    SameElements(a, b);
    TellsApart(s, g, a);
    SortedPermutationUnique(Earlier, a, b);
  }

  lemma TellsApart(s: State, g: GroupId, a: seq<MatchRow>)
    requires IsHistory(s, g, a)
    ensures StrictTotalOn(Earlier, a)
  {
    forall x, y | x in a && y in a && x != y ensures Earlier(x, y) || Earlier(y, x) {
      assert x.Key() != y.Key();
    }
  }

  // ---- what an undo does to the list

  function Restated(ms: seq<MatchRow>, k: MatchKey, status: Status): (r: seq<MatchRow>)
    ensures |r| == |ms|
    ensures forall i :: 0 <= i < |ms| ==> r[i] == if ms[i].Key() == k then ms[i].(status := status) else ms[i]
  {
    if ms == [] then [] else
    var last := ms[|ms|-1];
    Restated(ms[..|ms|-1], k, status) + [if last.Key() == k then last.(status := status) else last]
  }

  function Omitting(ms: seq<MatchRow>, k: MatchKey): seq<MatchRow> {
    if ms == [] then [] else
    Omitting(ms[..|ms|-1], k) + (if ms[|ms|-1].Key() == k then [] else [ms[|ms|-1]])
  }

  lemma RestatedIsHistory(s: State, g: GroupId, ms: seq<MatchRow>, k: MatchKey, status: Status)
    requires IsHistory(s, g, ms) && Numbered(s)
    ensures IsHistory(SetStatus(s, k, status), g, Restated(ms, k, status))
  {
    var s', r := SetStatus(s, k, status), Restated(ms, k, status);
    forall i, j | 0 <= i < j < |r| ensures r[i] != r[j] && !Earlier(r[j], r[i]) {
      assert ms[i] in ms && ms[j] in ms && ms[i].Key() != ms[j].Key();
    }
    forall m ensures m in r <==> m.group == g && m.Key() in s'.matches && s'.matches[m.Key()] == m {
      RestatedMember(s, g, ms, k, status, m);
    }
  }

  lemma RestatedMember(s: State, g: GroupId, ms: seq<MatchRow>, k: MatchKey, status: Status, m: MatchRow)
    requires IsHistory(s, g, ms) && Numbered(s)
    ensures var s' := SetStatus(s, k, status);
            m in Restated(ms, k, status) <==> m.group == g && m.Key() in s'.matches && s'.matches[m.Key()] == m
  {
    var s', r := SetStatus(s, k, status), Restated(ms, k, status);
    hide SortedBy, NoDuplicates, Restated;
    if m in r {
      var i :| 0 <= i < |r| && r[i] == m;
      assert ms[i] in ms;
    }
    if m.group == g && m.Key() in s'.matches && s'.matches[m.Key()] == m {
      var was := s.matches[m.Key()];
      assert was in ms;
      var i :| 0 <= i < |ms| && ms[i] == was;
      assert r[i] == m;
    }
  }

  lemma {:induction false} OmittingFacts(ms: seq<MatchRow>, k: MatchKey)
    requires NoDuplicates(ms) && SortedBy(Earlier, ms)
    ensures forall m :: m in Omitting(ms, k) <==> m in ms && m.Key() != k
    ensures NoDuplicates(Omitting(ms, k)) && SortedBy(Earlier, Omitting(ms, k))
  {
    if ms != [] {
      var front, last := ms[..|ms|-1], ms[|ms|-1];
      OmittingFacts(front, k);
      var r := Omitting(front, k);
      assert ms == front + [last];
      forall i | 0 <= i < |r| ensures r[i] != last && !Earlier(last, r[i]) {
        assert r[i] in front;
      }
    }
  }

  lemma OmittingIsHistory(s: State, g: GroupId, ms: seq<MatchRow>, k: MatchKey)
    requires IsHistory(s, g, ms)
    ensures IsHistory(Delete(s, k), g, Omitting(ms, k))
  {
    OmittingFacts(ms, k);
  }

  /** Matches come in the order they were played, those played at one time in the order of their ids. */
  lemma InOrderOfPlay(s: State, g: GroupId, ms: seq<MatchRow>, i: nat, j: nat)
    requires IsHistory(s, g, ms) && i < j < |ms|
    ensures ms[i].playedAt < ms[j].playedAt || (ms[i].playedAt == ms[j].playedAt && ms[i].id < ms[j].id)
  {
    assert ms[i] in ms && ms[j] in ms;
    assert !Earlier(ms[j], ms[i]) && ms[i] != ms[j];
  }
}
