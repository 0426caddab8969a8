/**
 pkg/handlers/rankings.go: the ratings of a group are a function of its stored approved matches, so that undoing a
 match is the same as never having played it and restoring it brings the old ratings back.
 */
module Rankings {
  import opened Wrappers
  import opened Sorting
  import opened StoreState
  import opened History
  import opened RealMath
  import opened Strconv
  import opened Periods
  import Rating
  import Elo
  import Glicko2
  import Glicko2Engine
  import MemStore
  import opened UndoProtocol

  /** `Compute` of either engine; Glicko-2 takes its period in days and bounds the root search. */
  datatype Engine = EloEngine | Glicko2Engine(days: int, fuel: nat)

  /** An engine that returns: Glicko-2's period must not overflow to zero or below. */
  predicate Runs(e: Engine) { e.Glicko2Engine? ==> PeriodNanos(Glicko2.PeriodDays(e.days)) > 0 }

  type Ratings = Result<Rating.PlayerRatings, Rating.ValidationError>

  function Rate(lib: Library, e: Engine, input: seq<Rating.Match>): Ratings
    requires lib.Lawful() && Runs(e)
  {
    match e
    case EloEngine => Elo.Ratings(lib, input)
    case Glicko2Engine(days, fuel) => Glicko2.Ratings(lib, input, days, fuel)
  }

  /** The row as the engines see it. */
  function Played(m: MatchRow): Rating.Match {
    Rating.Match(FormatInt(m.player1), FormatInt(m.player2), m.score1, m.score2, m.playedAt)
  }

  /** Approved, and both players are in the identity service under a nickname. */
  predicate Counts(m: MatchRow, nicknamed: set<UserId>) {
    m.status == Approved && m.player1 in nicknamed && m.player2 in nicknamed
  }

  function Input(ms: seq<MatchRow>, nicknamed: set<UserId>): seq<Rating.Match> {
    if ms == [] then [] else
    Input(ms[..|ms|-1], nicknamed) + (if Counts(ms[|ms|-1], nicknamed) then [Played(ms[|ms|-1])] else [])
  }

  /** `computeRatingsFor`; `users` are the telegram ids whose nickname lookup succeeds at this moment. */
  method ComputeRatingsFor(lib: Library, store: MemStore.Store, g: GroupId, engine: Engine, users: set<UserId>)
    returns (out: Ratings)
    requires lib.Lawful() && Runs(engine) && Numbered(store.State())
    ensures exists ms :: IsHistory(store.State(), g, ms) && out == Rate(lib, engine, Input(ms, users))
  {
    var matches := store.ListByGroup(g);
    var nicknamed: map<UserId, bool> := map[];
    for i := 0 to |matches|
      invariant forall m :: m in matches[..i] ==> m.player1 in nicknamed && m.player2 in nicknamed
      invariant forall id :: id in nicknamed ==> nicknamed[id] == (id in users)
    {
      var m := matches[i];
      if m.player1 !in nicknamed { nicknamed := nicknamed[m.player1 := m.player1 in users]; }
      if m.player2 !in nicknamed { nicknamed := nicknamed[m.player2 := m.player2 in users]; }
    }
    var input := [];
    for i := 0 to |matches|
      invariant input == Input(matches[..i], users)
    {
      var m := matches[i];
      assert m in matches[..|matches|] && matches[..i+1][..i] == matches[..i];
      if m.status != Approved { continue; }
      if !nicknamed[m.player1] || !nicknamed[m.player2] { continue; }
      input := input + [Played(m)];
    }
    assert matches[..|matches|] == matches;
    match engine
    case EloEngine => out := Elo.Compute(lib, input);
    case Glicko2Engine(days, fuel) => out := Glicko2Engine.Compute(lib, input, days, fuel);
  }

  // ---- what the engines are given

  ghost predicate DistinctPlayers(s: State) {
    forall k :: k in s.matches ==> s.matches[k].player1 != s.matches[k].player2
  }

  /** The input is made of exactly the counted matches. */
  lemma {:induction false} InputMembers(ms: seq<MatchRow>, nicknamed: set<UserId>)
    ensures forall x :: x in Input(ms, nicknamed) <==> exists m :: m in ms && Counts(m, nicknamed) && Played(m) == x
  {
    if ms != [] {
      var front, last := ms[..|ms|-1], ms[|ms|-1];
      InputMembers(front, nicknamed);
      hide Counts, Played;
      assert ms == front + [last];
    }
  }

  lemma PlayedValid(m: MatchRow)
    requires m.player1 != m.player2
    ensures Rating.ValidMatch(Played(m))
  {
    if FormatInt(m.player1) == FormatInt(m.player2) { FormatIntInjective(m.player1, m.player2); }
  }

  lemma InputValid(ms: seq<MatchRow>, nicknamed: set<UserId>)
    requires forall m :: m in ms ==> m.player1 != m.player2
    ensures Rating.AllValid(Input(ms, nicknamed))
  {
    InputMembers(ms, nicknamed);
    forall x | x in Input(ms, nicknamed) ensures Rating.ValidMatch(x) {
      var m :| m in ms && Counts(m, nicknamed) && Played(m) == x;
      PlayedValid(m);
    }
  }

  lemma {:induction false} InputSorted(ms: seq<MatchRow>, nicknamed: set<UserId>)
    requires SortedBy(Earlier, ms)
    ensures SortedByKey(Rating.PlayedAt, Input(ms, nicknamed))
  {
    if ms != [] {
      var front, last := ms[..|ms|-1], ms[|ms|-1];
      InputSorted(front, nicknamed);
      InputMembers(front, nicknamed);
      hide Counts;
      var r := Input(front, nicknamed);
      forall i | 0 <= i < |r| ensures r[i].playedAt <= last.playedAt {
        assert r[i] in r;
        var m :| m in front && Counts(m, nicknamed) && Played(m) == r[i];
        assert !Earlier(last, m);
      }
    }
  }

  /** The stored history never fails validation, and the stable sort leaves it as it is. */
  lemma InputIsPrepared(s: State, g: GroupId, ms: seq<MatchRow>, nicknamed: set<UserId>)
    requires IsHistory(s, g, ms) && DistinctPlayers(s)
    ensures Rating.Prepared(Input(ms, nicknamed)) == Ok(Input(ms, nicknamed))
  {
    InputValid(ms, nicknamed);
    InputSorted(ms, nicknamed);
    Rating.PreparedCorrect(Input(ms, nicknamed));
    StableByKeyIdentity(Rating.PlayedAt, Input(ms, nicknamed));
  }

  /** Two computations on the same stored matches agree, whatever order the maps were walked in. */
  lemma RatingsDetermined(lib: Library, s: State, g: GroupId, a: seq<MatchRow>, b: seq<MatchRow>, e: Engine,
                          nicknamed: set<UserId>)
    requires lib.Lawful() && Runs(e) && IsHistory(s, g, a) && IsHistory(s, g, b) && DistinctPlayers(s)
    ensures Rate(lib, e, Input(a, nicknamed)) == Rate(lib, e, Input(b, nicknamed))
    ensures Rate(lib, e, Input(a, nicknamed)).Ok?
  {
    HistoryUnique(s, g, a, b);
    InputIsPrepared(s, g, a, nicknamed);
  }

  // ---- undo and restore

  lemma {:induction false} UndoneIsOmitted(ms: seq<MatchRow>, k: MatchKey, nicknamed: set<UserId>)
    ensures Input(Restated(ms, k, Undone), nicknamed) == Input(Omitting(ms, k), nicknamed)
  {
    if ms != [] {
      UndoneIsOmitted(ms[..|ms|-1], k, nicknamed);
      var r := Restated(ms, k, Undone);
      assert r[..|r|-1] == Restated(ms[..|ms|-1], k, Undone);
      var front, last := Omitting(ms[..|ms|-1], k), ms[|ms|-1];
      if last.Key() == k {
        assert Omitting(ms, k) == front;
      } else {
        assert (front + [last])[..|front|] == front;
        assert Omitting(ms, k) == front + [last];
      }
    }
  }

  /**
   Undoing an approved match, by a chat admin or by the second of its players, gives the ratings of the history without
   it: an engine run after the undo and one on a store from which the match was deleted agree.
   */
  lemma UndoForgetsMatch(lib: Library, s: State, u: Update, k: MatchKey, before: seq<MatchRow>, undone: seq<MatchRow>,
                         without: seq<MatchRow>, e: Engine, nicknamed: set<UserId>)
    requires lib.Lawful() && Runs(e)
    requires RowsOk(s) && RequestsOk(s) && Completes(s, u, k) && s.matches[k].status == Approved
    requires IsHistory(s, k.group, before) && IsHistory(Handle(s, u), k.group, undone)
    requires IsHistory(Delete(s, k), k.group, without)
    ensures Rate(lib, e, Input(undone, nicknamed)) == Rate(lib, e, Input(without, nicknamed))
  {
    CompletedToggle(s, u, k);
    hide Handle, Completes, RequestsOk;
    SameMatchesHistory(Handle(s, u), SetStatus(s, k, Undone), k.group, undone);
    RestatedIsHistory(s, k.group, before, k, Undone);
    OmittingIsHistory(s, k.group, before, k);
    HistoryUnique(SetStatus(s, k, Undone), k.group, undone, Restated(before, k, Undone));
    HistoryUnique(Delete(s, k), k.group, without, Omitting(before, k));
    UndoneIsOmitted(before, k, nicknamed);
  }

  /** The history reads the matches only. */
  lemma SameMatchesHistory(s: State, s': State, g: GroupId, ms: seq<MatchRow>)
    requires s'.matches == s.matches && IsHistory(s, g, ms)
    ensures IsHistory(s', g, ms)
  {
  }

  /**
   Restoring it brings back the ratings there were, whoever undid and whoever restores it, and whatever requests came
   and went in between.
   */
  lemma RestoreBringsBack(lib: Library, s: State, u1: Update, mid: State, u2: Update, k: MatchKey, g: GroupId,
                          before: seq<MatchRow>, after: seq<MatchRow>, e: Engine, nicknamed: set<UserId>)
    requires lib.Lawful() && Runs(e)
    requires RowsOk(s) && RequestsOk(s) && Completes(s, u1, k) && s.matches[k].status == Approved
    requires mid.matches == Handle(s, u1).matches && RowsOk(mid) && RequestsOk(mid) && Completes(mid, u2, k)
    requires IsHistory(s, g, before) && IsHistory(Handle(mid, u2), g, after)
    ensures Rate(lib, e, Input(before, nicknamed)) == Rate(lib, e, Input(after, nicknamed))
  {
    RestoredMatches(s, u1, mid, u2, k);
    hide Handle, Completes, RequestsOk, Numbered, Rate, Input;
    SameMatchesHistory(Handle(mid, u2), s, g, after);
    RatingsDetermined(lib, s, g, before, after, e, nicknamed);
  }

  lemma RestoredMatches(s: State, u1: Update, mid: State, u2: Update, k: MatchKey)
    requires RowsOk(s) && RequestsOk(s) && Completes(s, u1, k) && s.matches[k].status == Approved
    requires mid.matches == Handle(s, u1).matches && RowsOk(mid) && RequestsOk(mid) && Completes(mid, u2, k)
    ensures Handle(mid, u2).matches == s.matches
  {
    CompletedToggle(s, u1, k);
    CompletedToggle(mid, u2, k);
    hide Handle, RequestsOk, Numbered;
  }
}
