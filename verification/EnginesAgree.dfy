/** Facts that span the two engines, or a whole Glicko-2 period. */
module EnginesAgree {
  import opened Sorting
  import opened RealMath
  import opened Rating
  import opened Periods
  import opened GlickoUpdate
  import opened Glicko2
  import Elo

  // ---- the same players with the same statistics

  lemma {:induction false} FoldPeriodsStats(lib: Library, ps: seq<Period>, fuel: nat)
    requires lib.Lawful()
    ensures FoldPeriods(lib, ps, fuel).Keys == PlayersOf(Concatenated(ps))
    ensures forall id :: id in FoldPeriods(lib, ps, fuel) ==>
              FoldPeriods(lib, ps, fuel)[id].stats == StatsAfter(NO_GAMES, Concatenated(ps), id)
  {
    if ps != [] {
      var front, last := ps[..|ps|-1], ps[|ps|-1];
      FoldPeriodsStats(lib, front, fuel);
      var t, before := FoldPeriods(lib, front, fuel), Concatenated(front);
      PlayersOfConcat(before, last.matches);
      forall id | id in FoldPeriods(lib, ps, fuel)
        ensures FoldPeriods(lib, ps, fuel)[id].stats == StatsAfter(NO_GAMES, Concatenated(ps), id)
      {
        StatsAfterConcat(NO_GAMES, before, last.matches, id);
        if id !in t { StatsOfAbsent(NO_GAMES, before, id); }
      }
    }
  }

  /**
   On every input the engines succeed or fail together, rate the same players, and report the same games, wins,
   losses, points, streak and last game for each of them.
   */
  lemma Agreement(lib: Library, ms: seq<Match>, days: int, fuel: nat)
    requires lib.Lawful() && PeriodNanos(PeriodDays(days)) > 0
    ensures var e, g := Elo.Ratings(lib, ms), Glicko2.Ratings(lib, ms, days, fuel);
            && (e.Ok? <==> g.Ok?) && (e.Err? ==> g.error == e.error)
            && (e.Ok? ==>
                 && g.value.Keys == e.value.Keys == PlayersOf(Prepared(ms).value)
                 && (forall id :: id in e.value ==> g.value[id].stats == e.value[id].stats)
                 && (forall id :: id in g.value ==> g.value[id].deviation > 0.0 && g.value[id].volatility > 0.0))
  {
    PreparedCorrect(ms);
    if Prepared(ms).Ok? {
      var sorted, dur := Prepared(ms).value, PeriodNanos(PeriodDays(days));
      GroupedLossless(sorted, dur);
      FoldPeriodsStats(lib, Grouped(sorted, dur), fuel);
      Elo.FoldStats(lib, sorted);
      var t := FoldPeriods(lib, Grouped(sorted, dur), fuel);
      forall id | id in t ensures t[id].scaled.phi * SCALE > 0.0 { MulPositive(t[id].scaled.phi, SCALE); }
    }
  }

  // ---- within a period, the order of the games does not matter to the ratings

  function Without<T>(s: seq<T>, i: nat): seq<T>
    requires i < |s|
  {
    s[..i] + s[i+1..]
  }

  lemma WithoutElements<T>(s: seq<T>, i: nat)
    requires i < |s|
    ensures multiset(Without(s, i)) == multiset(s) - multiset{s[i]}
  {
    assert s == s[..i] + [s[i]] + s[i+1..];
  }

  lemma WithoutFront<T>(s: seq<T>, i: nat)
    requires i < |s| - 1
    ensures Without(s, i)[..|s|-2] == Without(s[..|s|-1], i) && Without(s, i)[|s|-2] == s[|s|-1]
    ensures Without(s, i) == Without(s[..|s|-1], i) + [s[|s|-1]]
  {
  }

  /** Finds the last element of a in b and takes it out of both. */
  lemma MatchLast<T>(a: seq<T>, b: seq<T>) returns (i: nat)
    requires multiset(a) == multiset(b) && a != []
    ensures i < |b| && b[i] == a[|a|-1]
    ensures multiset(a[..|a|-1]) == multiset(Without(b, i))
  {
    var n := |a| - 1;
    MemberByMultiset(a, b);
    assert a[n] in b;
    i :| 0 <= i < |b| && b[i] == a[n];
    WithoutElements(a, n);
    WithoutElements(b, i);
    assert Without(a, n) == a[..n];
  }

  lemma {:induction false} SumsWithout(lib: Library, mu: real, os: seq<Opponent>, i: nat)
    requires lib.Lawful() && i < |os|
    ensures Information(lib, mu, os) == Information(lib, mu, Without(os, i)) + InformationTerm(lib, mu, os[i])
    ensures Surplus(lib, mu, os) == Surplus(lib, mu, Without(os, i)) + SurplusTerm(lib, mu, os[i])
  {
    hide InformationTerm, SurplusTerm;
    if i == |os| - 1 {
      assert Without(os, i) == os[..|os|-1];
    } else {
      WithoutFront(os, i);
      SumsWithout(lib, mu, os[..|os|-1], i);
    }
  }

  lemma {:induction false} SumsOrderFree(lib: Library, mu: real, a: seq<Opponent>, b: seq<Opponent>)
    requires lib.Lawful() && multiset(a) == multiset(b)
    ensures Information(lib, mu, a) == Information(lib, mu, b) && Surplus(lib, mu, a) == Surplus(lib, mu, b)
    decreases |a|
  {
    if a == [] {
      MemberByMultiset(a, b);
    } else {
      var i := MatchLast(a, b);
      SumsOrderFree(lib, mu, a[..|a|-1], Without(b, i));
      SumsWithout(lib, mu, b, i);
    }
  }

  lemma UpdateOrderFree(lib: Library, me: Scaled, a: seq<Opponent>, b: seq<Opponent>, fuel: nat)
    requires lib.Lawful() && me.Sound() && multiset(a) == multiset(b)
    ensures Update(lib, me, a, fuel) == Update(lib, me, b, fuel)
  {
    SumsOrderFree(lib, me.mu, a, b);
  }

  lemma OpponentsAppend(pre: Table, ms: seq<Match>, m: Match, id: PlayerId)
    requires PlayersOf(ms) <= pre.Keys && m.player1 in pre && m.player2 in pre
    ensures PlayersOf([m]) == {m.player1, m.player2}
    ensures PlayersOf(ms + [m]) == PlayersOf(ms) + PlayersOf([m]) <= pre.Keys
    ensures OpponentsOf(pre, ms + [m], id) == OpponentsOf(pre, ms, id) + OpponentsOf(pre, [m], id)
  {
    assert (ms + [m])[..|ms|] == ms;
    assert [m][..0] == [] && PlayersOf([]) == {};
    assert OpponentsOf(pre, [], id) == [];
  }

  /** Taking m out of `ms`, which leaves `rest`, removes m's players and m's opponents and nothing else. */
  ghost predicate TakesOut(pre: Table, ms: seq<Match>, rest: seq<Match>, m: Match, id: PlayerId) {
    && PlayersOf(ms) <= pre.Keys && PlayersOf(rest) <= pre.Keys && PlayersOf([m]) <= pre.Keys
    && PlayersOf(ms) == PlayersOf(rest) + PlayersOf([m])
    && multiset(OpponentsOf(pre, ms, id)) == multiset(OpponentsOf(pre, rest, id)) + multiset(OpponentsOf(pre, [m], id))
  }

  lemma TakesOutSnoc(pre: Table, ms: seq<Match>, rest: seq<Match>, m: Match, last: Match, id: PlayerId)
    requires TakesOut(pre, ms, rest, m, id) && last.player1 in pre && last.player2 in pre
    ensures TakesOut(pre, ms + [last], rest + [last], m, id)
  {
    OpponentsAppend(pre, ms, last, id);
    OpponentsAppend(pre, rest, last, id);
  }

  lemma {:induction false} OpponentsWithout(pre: Table, ms: seq<Match>, i: nat, id: PlayerId)
    requires i < |ms| && PlayersOf(ms) <= pre.Keys
    ensures TakesOut(pre, ms, Without(ms, i), ms[i], id)
  {
    var front, last := ms[..|ms|-1], ms[|ms|-1];
    assert ms == front + [last];
    if i == |ms| - 1 {
      OpponentsAppend(pre, front, last, id);
      assert Without(ms, i) == front;
    } else {
      OpponentsWithout(pre, front, i, id);
      WithoutFront(ms, i);
      TakesOutSnoc(pre, front, Without(front, i), ms[i], last, id);
    }
  }

  ghost predicate SameOpponents(pre: Table, a: seq<Match>, b: seq<Match>, id: PlayerId) {
    && PlayersOf(a) == PlayersOf(b) <= pre.Keys
    && multiset(OpponentsOf(pre, a, id)) == multiset(OpponentsOf(pre, b, id))
  }

  lemma PutBack(pre: Table, a: seq<Match>, a': seq<Match>, b: seq<Match>, b': seq<Match>, m: Match, id: PlayerId)
    requires TakesOut(pre, a, a', m, id) && TakesOut(pre, b, b', m, id) && SameOpponents(pre, a', b', id)
    ensures SameOpponents(pre, a, b, id)
  {
  }

  lemma {:induction false} OpponentsOrderFree(pre: Table, a: seq<Match>, b: seq<Match>, id: PlayerId)
    requires multiset(a) == multiset(b) && PlayersOf(a) <= pre.Keys && PlayersOf(b) <= pre.Keys
    ensures SameOpponents(pre, a, b, id)
    decreases |a|
  {
    if a == [] {
      MemberByMultiset(a, b);
    } else {
      var i := MatchLast(a, b);
      var a', b', m := Without(a, |a|-1), Without(b, i), b[i];
      assert a' == a[..|a|-1];
      OpponentsWithout(pre, a, |a|-1, id);
      OpponentsWithout(pre, b, i, id);
      OpponentsOrderFree(pre, a', b', id);
      PutBack(pre, a, a', b, b', m, id);
    }
  }

  /** Any two orders of a period's matches give everybody the same rating, deviation and volatility. */
  lemma PeriodOrderFree(lib: Library, t: Table, a: seq<Match>, b: seq<Match>, fuel: nat)
    requires lib.Lawful() && SoundTable(t) && multiset(a) == multiset(b)
    ensures PeriodStep(lib, t, a, fuel).Keys == PeriodStep(lib, t, b, fuel).Keys
    ensures forall id :: id in PeriodStep(lib, t, a, fuel) ==>
              PeriodStep(lib, t, a, fuel)[id].scaled == PeriodStep(lib, t, b, fuel)[id].scaled
  {
    hide Rerated, Recorded, OpponentsOf;
    SamePlayers(a, b);
    var pre := Entered(t, a);
    assert SoundTable(pre);
    forall id | id in pre ensures Rerated(lib, pre, a, id, fuel) == Rerated(lib, pre, b, id, fuel) {
      RerateOrderFree(lib, pre, a, b, id, fuel);
    }
    forall id | id in pre
      ensures PeriodStep(lib, t, a, fuel)[id].scaled == Rerated(lib, pre, a, id, fuel).scaled
      ensures PeriodStep(lib, t, b, fuel)[id].scaled == Rerated(lib, pre, b, id, fuel).scaled
    {
      RecordedScaled(Rerated(lib, pre, a, id, fuel), a, id);
      RecordedScaled(Rerated(lib, pre, b, id, fuel), b, id);
    }
  }

  lemma RecordedScaled(s: PlayerState, ms: seq<Match>, id: PlayerId)
    ensures WithBest(Recorded(s, ms, id)).scaled == s.scaled
  {
  }

  lemma RerateOrderFree(lib: Library, pre: Table, a: seq<Match>, b: seq<Match>, id: PlayerId, fuel: nat)
    requires lib.Lawful() && SoundTable(pre) && multiset(a) == multiset(b)
    requires PlayersOf(a) <= pre.Keys && PlayersOf(b) <= pre.Keys && id in pre
    ensures Rerated(lib, pre, a, id, fuel) == Rerated(lib, pre, b, id, fuel)
  {
    hide Update, OpponentsOf;
    OpponentsOrderFree(pre, a, b, id);
    UpdateOrderFree(lib, pre[id].scaled, OpponentsOf(pre, a, id), OpponentsOf(pre, b, id), fuel);
  }

  lemma SamePlayers(a: seq<Match>, b: seq<Match>)
    requires multiset(a) == multiset(b)
    ensures PlayersOf(a) == PlayersOf(b)
  {
    OpponentsOrderFree(map id | id in PlayersOf(a) + PlayersOf(b) :: NEWCOMER, a, b, "");
  }
}
