/** pkg/rating/glicko2.go, `groupByPeriod`: cutting the sorted history into rating periods. */
module Periods {
  import opened Rating
  import opened Sorting

  const DAY_NANOS := 86_400_000_000_000
  const MAX_PERIOD_DAYS := 106_751

  datatype Period = Period(start: int, matches: seq<Match>)

  /** Go's int64 wrap-around. */
  function Wrap64(x: int): int { (x + 0x8000_0000_0000_0000) % 0x1_0000_0000_0000_0000 - 0x8000_0000_0000_0000 }

  /** `time.Duration(periodDays) * 24 * time.Hour`, an int64 count of nanoseconds. */
  function PeriodNanos(days: int): int { Wrap64(days * DAY_NANOS) }

  function Midnight(t: int): int { t - t % DAY_NANOS }

  /** The number of the period that contains time t. */
  function IndexOf(t: int, start: int, dur: int): int
    requires dur > 0
  {
    (t - start) / dur
  }

  /** The matches of period i, in order. */
  function Bucket(ms: seq<Match>, start: int, dur: int, i: int): seq<Match>
    requires dur > 0
  {
    if ms == [] then [] else
    Bucket(ms[..|ms|-1], start, dur, i) +
    (if IndexOf(ms[|ms|-1].playedAt, start, dur) == i then [ms[|ms|-1]] else [])
  }

  function StartOf(start: int, dur: int, i: nat): int { if i == 0 then start else StartOf(start, dur, i - 1) + dur }

  function PeriodAt(ms: seq<Match>, start: int, dur: int, i: nat): Period
    requires dur > 0
  {
    Period(StartOf(start, dur, i), Bucket(ms, start, dur, i))
  }

  function FirstPeriods(ms: seq<Match>, start: int, dur: int, n: nat): (ps: seq<Period>)
    requires dur > 0
    ensures |ps| == n
  {
    if n == 0 then [] else FirstPeriods(ms, start, dur, n - 1) + [PeriodAt(ms, start, dur, n - 1)]
  }

  /**
   All periods: number i starts i durations after the first match's UTC midnight and holds exactly the matches
   whose time falls in it.
   */
  function Grouped(ms: seq<Match>, dur: int): seq<Period>
    requires dur > 0 && SortedByKey(PlayedAt, ms)
  {
    if ms == [] then [] else
    var start := Midnight(ms[0].playedAt);
    LastIndex(ms, start, dur);
    FirstPeriods(ms, start, dur, IndexOf(ms[|ms|-1].playedAt, start, dur) + 1)
  }

  function Concatenated(ps: seq<Period>): seq<Match> {
    if ps == [] then [] else Concatenated(ps[..|ps|-1]) + ps[|ps|-1].matches
  }

  // ---- arithmetic

  lemma IndexBounds(t: int, start: int, dur: int)
    requires dur > 0
    ensures start + IndexOf(t, start, dur) * dur <= t < start + (IndexOf(t, start, dur) + 1) * dur
  {
    var q := (t - start) / dur;
    assert (t - start) == q * dur + (t - start) % dur;
    assert (q + 1) * dur == q * dur + dur;
  }

  lemma IndexAtLeast(t: int, start: int, dur: int, k: int)
    requires dur > 0
    ensures IndexOf(t, start, dur) >= k <==> t >= start + k * dur
  {
    var q := IndexOf(t, start, dur);
    IndexBounds(t, start, dur);
    if q >= k { MulOrder(k, q, dur); } else { MulOrder(q + 1, k, dur); }
  }

  lemma MulOrder(x: int, y: int, z: int)
    requires x <= y && z >= 0
    ensures x * z <= y * z
  {
  }

  lemma IndexMonotone(s: int, t: int, start: int, dur: int)
    requires dur > 0 && s <= t
    ensures IndexOf(s, start, dur) <= IndexOf(t, start, dur)
  {
    IndexBounds(s, start, dur);
    IndexAtLeast(t, start, dur, IndexOf(s, start, dur));
  }

  lemma LastIndex(ms: seq<Match>, start: int, dur: int)
    requires dur > 0 && SortedByKey(PlayedAt, ms) && ms != [] && start == Midnight(ms[0].playedAt)
    ensures IndexOf(ms[|ms|-1].playedAt, start, dur) >= 0
  {
    assert PlayedAt(ms[0]) <= PlayedAt(ms[|ms|-1]);
    IndexAtLeast(ms[|ms|-1].playedAt, start, dur, 0);
  }

  lemma {:induction false} StartOfMultiple(start: int, dur: int, i: nat)
    ensures StartOf(start, dur, i) == start + i * dur
  {
    if i > 0 {
      StartOfMultiple(start, dur, i - 1);
      assert i * dur == (i - 1) * dur + dur;
    }
  }

  lemma {:induction false} FirstPeriodsAt(ms: seq<Match>, start: int, dur: int, n: nat, i: nat)
    requires dur > 0 && i < n
    ensures FirstPeriods(ms, start, dur, n)[i] == PeriodAt(ms, start, dur, i)
  {
    if i < n - 1 { FirstPeriodsAt(ms, start, dur, n - 1, i); }
  }

  // ---- losslessness

  ghost predicate IndicesBelow(ms: seq<Match>, start: int, dur: int, n: int)
    requires dur > 0
  {
    forall m :: m in ms ==> IndexOf(m.playedAt, start, dur) < n
  }

  lemma {:induction false} BucketEmpty(ms: seq<Match>, start: int, dur: int, i: int)
    requires dur > 0 && IndicesBelow(ms, start, dur, i)
    ensures Bucket(ms, start, dur, i) == []
  {
    if ms != [] {
      assert ms[|ms|-1] in ms;
      BucketEmpty(ms[..|ms|-1], start, dur, i);
    }
  }

  lemma {:induction false} EarlierPeriodsSame(ms: seq<Match>, m: Match, start: int, dur: int, n: nat)
    requires dur > 0 && IndexOf(m.playedAt, start, dur) >= n
    ensures FirstPeriods(ms + [m], start, dur, n) == FirstPeriods(ms, start, dur, n)
  {
    assert (ms + [m])[..|ms|] == ms;
    if n > 0 {
      EarlierPeriodsSame(ms, m, start, dur, n - 1);
      assert Bucket(ms + [m], start, dur, n - 1) == Bucket(ms, start, dur, n - 1);
    }
  }

  lemma LastPeriod(ms: seq<Match>, start: int, dur: int, n: nat)
    requires dur > 0 && n > 0
    ensures Concatenated(FirstPeriods(ms, start, dur, n)) ==
            Concatenated(FirstPeriods(ms, start, dur, n - 1)) + Bucket(ms, start, dur, n - 1)
  {
    var ps := FirstPeriods(ms, start, dur, n);
    assert ps[..|ps|-1] == FirstPeriods(ms, start, dur, n - 1);
  }

  lemma BelowLast(ms: seq<Match>, start: int, dur: int)
    requires dur > 0 && SortedByKey(PlayedAt, ms) && ms != []
    ensures IndicesBelow(ms, start, dur, IndexOf(ms[|ms|-1].playedAt, start, dur) + 1)
  {
    forall m | m in ms ensures IndexOf(m.playedAt, start, dur) <= IndexOf(ms[|ms|-1].playedAt, start, dur) {
      var i :| 0 <= i < |ms| && ms[i] == m;
      assert i < |ms| - 1 ==> PlayedAt(ms[i]) <= PlayedAt(ms[|ms|-1]);
      IndexMonotone(m.playedAt, ms[|ms|-1].playedAt, start, dur);
    }
  }

  lemma AppendToLast(front: seq<Match>, last: Match, start: int, dur: int, n: nat)
    requires dur > 0 && n > 0 && IndexOf(last.playedAt, start, dur) == n - 1
    requires Concatenated(FirstPeriods(front, start, dur, n)) == front
    ensures Concatenated(FirstPeriods(front + [last], start, dur, n)) == front + [last]
  {
    LastPeriod(front, start, dur, n);
    LastPeriod(front + [last], start, dur, n);
    EarlierPeriodsSame(front, last, start, dur, n - 1);
    assert (front + [last])[..|front|] == front;
    hide IndexOf, PeriodAt;
  }

  ghost predicate IndicesWithin(ms: seq<Match>, start: int, dur: int, n: int)
    requires dur > 0
  {
    forall m :: m in ms ==> 0 <= IndexOf(m.playedAt, start, dur) < n
  }

  lemma IndicesOfFront(ms: seq<Match>, start: int, dur: int, n: int)
    requires dur > 0 && IndicesWithin(ms, start, dur, n) && ms != []
    ensures IndicesWithin(ms[..|ms|-1], start, dur, n) && 0 <= IndexOf(ms[|ms|-1].playedAt, start, dur) < n
  {
    assert ms[|ms|-1] in ms;
    assert forall m :: m in ms[..|ms|-1] ==> m in ms;
  }

  lemma EmptyLastPeriod(ms: seq<Match>, start: int, dur: int, n: nat)
    requires dur > 0 && n > 0 && SortedByKey(PlayedAt, ms) && IndicesWithin(ms, start, dur, n)
    requires ms == [] || IndexOf(ms[|ms|-1].playedAt, start, dur) < n - 1
    ensures IndicesWithin(ms, start, dur, n - 1)
    ensures Concatenated(FirstPeriods(ms, start, dur, n)) == Concatenated(FirstPeriods(ms, start, dur, n - 1))
  {
    if ms != [] { BelowLast(ms, start, dur); }
    LastPeriod(ms, start, dur, n);
    BucketEmpty(ms, start, dur, n - 1);
  }

  lemma {:induction false} ConcatenatedFirst(ms: seq<Match>, start: int, dur: int, n: nat)
    requires dur > 0 && SortedByKey(PlayedAt, ms) && IndicesWithin(ms, start, dur, n)
    ensures Concatenated(FirstPeriods(ms, start, dur, n)) == ms
    decreases |ms|, n
  {
    if ms != [] { IndicesOfFront(ms, start, dur, n); }
    if n == 0 {
      hide IndicesWithin, IndexOf;
    } else if ms == [] || IndexOf(ms[|ms|-1].playedAt, start, dur) < n - 1 {
      hide IndexOf, IndicesWithin, FirstPeriods, Concatenated, SortedByKey;
      EmptyLastPeriod(ms, start, dur, n);
      ConcatenatedFirst(ms, start, dur, n - 1);
    } else {
      var front, last := ms[..|ms|-1], ms[|ms|-1];
      assert ms == front + [last];
      assert SortedByKey(PlayedAt, front);
      hide IndexOf, IndicesWithin, FirstPeriods, Concatenated, SortedByKey;
      ConcatenatedFirst(front, start, dur, n);
      AppendToLast(front, last, start, dur, n);
    }
  }

  /** Grouping loses, adds and reorders nothing. */
  lemma GroupedLossless(ms: seq<Match>, dur: int)
    requires dur > 0 && SortedByKey(PlayedAt, ms)
    ensures Concatenated(Grouped(ms, dur)) == ms
  {
    if ms != [] {
      var start, last := Midnight(ms[0].playedAt), ms[|ms|-1];
      LastIndex(ms, start, dur);
      BelowLast(ms, start, dur);
      forall m | m in ms ensures 0 <= IndexOf(m.playedAt, start, dur) {
        var i :| 0 <= i < |ms| && ms[i] == m;
        assert i > 0 ==> PlayedAt(ms[0]) <= PlayedAt(ms[i]);
        IndexAtLeast(m.playedAt, start, dur, 0);
      }
      ConcatenatedFirst(ms, start, dur, IndexOf(last.playedAt, start, dur) + 1);
    }
  }

  /** Periods tile time from the first midnight, and each match lies inside its own period. */
  lemma GroupedTiles(ms: seq<Match>, dur: int, i: nat)
    requires dur > 0 && SortedByKey(PlayedAt, ms) && i < |Grouped(ms, dur)|
    ensures Grouped(ms, dur)[i].start == Midnight(ms[0].playedAt) + i * dur
    ensures forall m :: m in Grouped(ms, dur)[i].matches ==>
              m in ms && Grouped(ms, dur)[i].start <= m.playedAt < Grouped(ms, dur)[i].start + dur
  {
    var start := Midnight(ms[0].playedAt);
    StartOfMultiple(start, dur, i);
    FirstPeriodsAt(ms, start, dur, |Grouped(ms, dur)|, i);
    forall m | m in Bucket(ms, start, dur, i) ensures m in ms && start + i * dur <= m.playedAt < start + i * dur + dur {
      InOwnPeriod(ms, start, dur, i, m);
    }
  }

  lemma InOwnPeriod(ms: seq<Match>, start: int, dur: int, i: int, m: Match)
    requires dur > 0 && m in Bucket(ms, start, dur, i)
    ensures m in ms && start + i * dur <= m.playedAt < start + i * dur + dur
  {
    BucketMember(ms, start, dur, i, m);
    IndexBounds(m.playedAt, start, dur);
    assert (i + 1) * dur == i * dur + dur;
  }

  lemma {:induction false} BucketMember(ms: seq<Match>, start: int, dur: int, i: int, m: Match)
    requires dur > 0 && m in Bucket(ms, start, dur, i)
    ensures m in ms && IndexOf(m.playedAt, start, dur) == i
  {
    var front := ms[..|ms|-1];
    assert ms == front + [ms[|ms|-1]];
    if m in Bucket(front, start, dur, i) { BucketMember(front, start, dur, i, m); }
  }

  // ---- the loop

  method GroupByPeriod(ms: seq<Match>, days: int) returns (out: seq<Period>)
    requires PeriodNanos(days) > 0 && SortedByKey(PlayedAt, ms)
    ensures out == Grouped(ms, PeriodNanos(days))
  {
    hide IndexOf;
    if |ms| == 0 { return []; }
    var dur := PeriodNanos(days);
    var start := Midnight(ms[0].playedAt);
    out := [];
    var cur := Period(start, []);
    ghost var k: nat := 0;
    for i := 0 to |ms|
      invariant out == FirstPeriods(ms[..i], start, dur, k) && cur == PeriodAt(ms[..i], start, dur, k)
      invariant i == 0 ==> k == 0
      invariant i > 0 ==> k == IndexOf(ms[i-1].playedAt, start, dur)
      invariant IndicesBelow(ms[..i], start, dur, k + 1)
    {
      var m := ms[i];
      LastIndex(ms[..i+1], start, dur);
      if i > 0 {
        assert PlayedAt(ms[i-1]) <= PlayedAt(m);
        IndexMonotone(ms[i-1].playedAt, m.playedAt, start, dur);
      }
      out, cur, k := Advance(ms[..i], m, start, dur, out, cur, k);
      cur := cur.(matches := cur.matches + [m]);
      EarlierPeriodsSame(ms[..i], m, start, dur, k);
      assert ms[..i+1] == ms[..i] + [m];
      assert (ms[..i] + [m])[..i] == ms[..i];
    }
    assert ms[..|ms|] == ms;
    out := out + [cur];
  }

  /** Closes periods until the current one contains m. */
  method Advance(ghost done: seq<Match>, m: Match, ghost start: int, dur: int, out: seq<Period>, cur: Period,
                 ghost k: nat)
    returns (out': seq<Period>, cur': Period, ghost k': nat)
    requires dur > 0 && 0 <= k <= IndexOf(m.playedAt, start, dur)
    requires IndicesBelow(done, start, dur, k + 1)
    requires out == FirstPeriods(done, start, dur, k) && cur == PeriodAt(done, start, dur, k)
    ensures k' == IndexOf(m.playedAt, start, dur)
    ensures out' == FirstPeriods(done, start, dur, k') && cur' == PeriodAt(done, start, dur, k')
    ensures IndicesBelow(done, start, dur, k' + 1)
  {
    hide IndexOf, IndicesBelow;
    out', cur', k' := out, cur, k;
    IndexAtLeast(m.playedAt, start, dur, k' + 1);
    while m.playedAt >= cur'.start + dur
      invariant 0 <= k' <= IndexOf(m.playedAt, start, dur)
      invariant IndicesBelow(done, start, dur, k' + 1)
      invariant out' == FirstPeriods(done, start, dur, k') && cur' == PeriodAt(done, start, dur, k')
      decreases m.playedAt - cur'.start
    {
      PeriodEnd(start, dur, k');
      IndexAtLeast(m.playedAt, start, dur, k' + 1);
      BucketEmpty(done, start, dur, k' + 1);
      BelowMore(done, start, dur, k' + 1);
      out' := out' + [cur'];
      cur' := Period(cur'.start + dur, []);
      k' := k' + 1;
    }
    PeriodEnd(start, dur, k');
    IndexAtLeast(m.playedAt, start, dur, k' + 1);
  }

  lemma BelowMore(ms: seq<Match>, start: int, dur: int, n: int)
    requires dur > 0 && IndicesBelow(ms, start, dur, n)
    ensures IndicesBelow(ms, start, dur, n + 1)
  {
  }

  lemma PeriodEnd(start: int, dur: int, k: nat)
    ensures StartOf(start, dur, k) + dur == start + (k + 1) * dur
  {
    StartOfMultiple(start, dur, k + 1);
  }

  // ---- which period lengths work

  /**
   The int64 duration is the period length for exactly the periods of up to 106751 days, the default of 1 among them.
   */
  lemma PeriodNanosExact(days: int)
    requires days >= 1
    ensures PeriodNanos(days) == days * DAY_NANOS <==> days <= MAX_PERIOD_DAYS
    ensures days <= MAX_PERIOD_DAYS ==> PeriodNanos(days) > 0
  {
  }

  /**
   One day more and the duration wraps to a negative number. Then the boundary moves away from every match at
   or after the first midnight, so the advance loop would never stop: it stops exactly for positive durations.
   */
  lemma LongPeriodsOverflow(start: int, t: int, n: nat)
    requires start <= t
    ensures PeriodNanos(MAX_PERIOD_DAYS + 1) < 0
    ensures t >= BoundaryAfter(start, PeriodNanos(MAX_PERIOD_DAYS + 1), n)
  {
    BoundaryStaysBehind(start, t, PeriodNanos(MAX_PERIOD_DAYS + 1), n);
  }

  /** The end of the current period after n turns of the advance loop. */
  function BoundaryAfter(start: int, dur: int, n: nat): int {
    if n == 0 then start + dur else BoundaryAfter(start, dur, n - 1) + dur
  }

  lemma {:induction false} BoundaryStaysBehind(start: int, t: int, dur: int, n: nat)
    requires start <= t && dur <= 0
    ensures BoundaryAfter(start, dur, n) <= start + dur <= t
  {
    if n > 0 { BoundaryStaysBehind(start, t, dur, n - 1); }
  }

  lemma {:induction false} BoundaryGrows(start: int, dur: int, n: nat)
    requires dur > 0
    ensures BoundaryAfter(start, dur, n) > start + n
  {
    if n > 0 { BoundaryGrows(start, dur, n - 1); }
  }

  /** The advance loop stops for a match at t >= start if and only if the duration is positive. */
  lemma AdvanceStopsIffPositive(start: int, t: int, dur: int)
    requires start <= t
    ensures (exists n: nat :: t < BoundaryAfter(start, dur, n)) <==> dur > 0
  {
    if dur > 0 {
      BoundaryGrows(start, dur, t - start);
      assert t < BoundaryAfter(start, dur, t - start);
    } else {
      forall n: nat ensures !(t < BoundaryAfter(start, dur, n)) { BoundaryStaysBehind(start, t, dur, n); }
    }
  }
}
