/** The drafts held in memory (pkg/handlers/match_interactive.go), updated in place and collected lazily. */
module DraftTable {
  import opened Wrappers
  import opened Sorting
  import opened History
  import opened Strconv
  import opened Header
  import opened Prompt

  const STALE_AFTER: int := 30 * 60 * 1_000_000_000
  const MAX_ENTRIES: nat := 5000

  /** `touchedAt` is None while it is the zero time. */
  type Touched = Option<int>

  predicate Before(a: Touched, b: Touched) {
    match (a, b)
    case (None, Some(_)) => true
    case (Some(x), Some(y)) => x < y
    case _ => false
  }

  predicate Stale(t: Touched, now: int) { t.Some? && now - t.value > STALE_AFTER }

  function DraftKey(chat: int, msg: int): string { FormatInt(chat) + ":" + FormatInt(msg) }

  class MatchDraft {
    var ownerID: int
    var ownerLabel: string
    var isScore: bool
    var page: int
    var oppID: int
    var oppLabel: string
    var p1: int
    var p2: int
    var touchedAt: Touched

    ghost function Value(): Draft
      reads this
    {
      Draft(ownerID, ownerLabel, isScore, page, oppID, oppLabel, p1, p2)
    }

    constructor (d: Draft)
      ensures Value() == d && touchedAt == None
    {
      ownerID, ownerLabel, isScore, page := d.owner, d.ownerLabel, d.isScore, d.page;
      oppID, oppLabel, p1, p2 := d.opp, d.oppLabel, d.p1, d.p2;
      touchedAt := None;
    }
  }

  type Drafts = map<string, MatchDraft>

  ghost function Ages(ds: Drafts): map<string, Touched>
    reads ds.Values
  {
    map k | k in ds :: ds[k].touchedAt
  }

  /** Keys whose draft is not past its time. */
  function Current(ages: map<string, Touched>, now: int): set<string> { set k | k in ages && !Stale(ages[k], now) }

  /**
   What a collection keeps: nothing stale, at most the cap and no fewer than there is room for, and never a draft
   while a younger one is lost.
   */
  ghost predicate Kept(ages: map<string, Touched>, now: int, kept: set<string>) {
    && kept <= Current(ages, now)
    && |kept| == (if |Current(ages, now)| > MAX_ENTRIES then MAX_ENTRIES else |Current(ages, now)|)
    && (forall lost, k :: lost in Current(ages, now) && lost !in kept && k in kept ==> !Before(ages[k], ages[lost]))
  }

  datatype Aged = Aged(key: string, ts: Touched)

  predicate Older(a: Aged, b: Aged) { Before(a.ts, b.ts) }

  lemma OlderWeakOrder()
    ensures WeakOrder(Older)
  {
  }

  /** The listing of every remaining draft with its age. */
  ghost predicate Lists(all: seq<Aged>, ages: map<string, Touched>, keys: set<string>) {
    && NoDuplicates(all)
    && (forall a :: a in all <==> a.key in keys && a.key in ages && a.ts == ages[a.key])
  }

  function KeysOf(all: seq<Aged>): set<string> { set a | a in all :: a.key }

  lemma {:induction false} KeysCount(all: seq<Aged>, ages: map<string, Touched>)
    requires NoDuplicates(all) && forall a :: a in all ==> a.key in ages && a.ts == ages[a.key]
    ensures |KeysOf(all)| == |all|
  {
    if all != [] {
      var front, last := all[..|all|-1], all[|all|-1];
      assert all == front + [last];
      KeysCount(front, ages);
      assert KeysOf(all) == KeysOf(front) + {last.key};
      forall i | 0 <= i < |front| ensures front[i].key != last.key {
        assert front[i] in all && last in all && all[i] != last;
      }
    }
  }

  lemma ListedKeys(all: seq<Aged>, ages: map<string, Touched>, keys: set<string>)
    requires Lists(all, ages, keys) && keys <= ages.Keys
    ensures KeysOf(all) == keys && |keys| == |all|
  {
    KeysCount(all, ages);
    forall k | k in keys ensures k in KeysOf(all) { assert Aged(k, ages[k]) in all; }
  }

  lemma SortedLists(a: seq<Aged>, b: seq<Aged>, ages: map<string, Touched>, keys: set<string>)
    requires Lists(a, ages, keys) && multiset(a) == multiset(b)
    ensures Lists(b, ages, keys)
  {
    MemberByMultiset(a, b);
    SortedStaysDistinct(a, b);
  }

  /** Dropping the oldest n leaves the cap. */
  lemma KeptCount(all: seq<Aged>, ages: map<string, Touched>, keys: set<string>, n: nat)
    requires Lists(all, ages, keys) && keys <= ages.Keys && n <= |all|
    ensures |keys - KeysOf(all[..n])| == |all| - n
  {
    ListedKeys(all, ages, keys);
    assert forall a :: a in all[..n] ==> a in all;
    KeysCount(all[..n], ages);
    assert KeysOf(all[..n]) <= keys;
  }

  lemma KeptOrder(all: seq<Aged>, ages: map<string, Touched>, keys: set<string>, n: nat, lost: string, k: string)
    requires Lists(all, ages, keys) && keys <= ages.Keys && n <= |all| && SortedBy(Older, all)
    requires lost in KeysOf(all[..n]) && k in keys && k !in KeysOf(all[..n])
    ensures lost in ages && !Before(ages[k], ages[lost])
  {
    var i :| 0 <= i < n && all[i].key == lost;
    assert all[i] in all;
    assert Aged(k, ages[k]) in all;
    var j :| 0 <= j < |all| && all[j] == Aged(k, ages[k]);
    assert forall q :: 0 <= q < n ==> all[q] in all[..n];
    assert !Older(all[j], all[i]);
  }

  lemma KeptYoungest(ages: map<string, Touched>, now: int, all: seq<Aged>, n: nat)
    requires Lists(all, ages, Current(ages, now)) && SortedBy(Older, all) && |all| == n + MAX_ENTRIES
    ensures Kept(ages, now, Current(ages, now) - KeysOf(all[..n]))
  {
    var keys := Current(ages, now);
    ListedKeys(all, ages, keys);
    KeptCount(all, ages, keys, n);
    var kept := keys - KeysOf(all[..n]);
    forall lost, k | lost in keys && lost !in kept && k in kept ensures !Before(ages[k], ages[lost]) {
      KeptOrder(all, ages, keys, n, lost, k);
    }
  }

  /**
   A draft touched within the half hour is lost only to the cap of 5000, and every survivor was touched no earlier, a
   draft not touched yet counting as the oldest.
   */
  lemma LostOnlyToCap(ages: map<string, Touched>, now: int, kept: set<string>, lost: string)
    requires Kept(ages, now, kept) && lost in ages && lost !in kept
    requires ages[lost].Some? ==> now - ages[lost].value <= 1_800_000_000_000
    ensures |kept| == 5000 && kept <= ages.Keys
    ensures forall k :: k in kept ==>
              ages[lost].None? || (ages[k].Some? && ages[k].value >= ages[lost].value)
  {
    assert lost in Current(ages, now);
    if |kept| == |Current(ages, now)| { KeptAll(kept, Current(ages, now)); }
  }

  /** A draft that was not touched for more than half an hour goes. */
  lemma StaleGoes(ages: map<string, Touched>, now: int, kept: set<string>, k: string)
    requires Kept(ages, now, kept) && k in ages && ages[k].Some? && now - ages[k].value > 1_800_000_000_000
    ensures k !in kept
  {
  }

  lemma KeptAll(a: set<string>, b: set<string>)
    requires a <= b && |a| == |b|
    ensures a == b
  {
    assert |b| == |a| + |b - a| by { assert b == a + (b - a); }
  }

  lemma CurrentTwice(ages: map<string, Touched>, now: int, current: map<string, Touched>)
    requires current.Keys == Current(ages, now) && forall k :: k in current ==> current[k] == ages[k]
    ensures Current(current, now) == current.Keys
  {
  }

  lemma KeptOfCurrent(ages: map<string, Touched>, now: int, current: map<string, Touched>, kept: set<string>)
    requires current.Keys == Current(ages, now) && forall k :: k in current ==> current[k] == ages[k]
    requires Kept(current, now, kept)
    ensures Kept(ages, now, kept)
  {
    CurrentTwice(ages, now, current);
  }

  class Table {
    var matchDrafts: Drafts

    /** No two prompts share a draft. */
    ghost predicate Valid()
      reads this
    {
      forall k, q :: k in matchDrafts && q in matchDrafts && k != q ==> matchDrafts[k] != matchDrafts[q]
    }

    constructor ()
      ensures Valid() && matchDrafts == map[]
    {
      matchDrafts := map[];
    }

    method DropStale(now: int)
      modifies this
      ensures matchDrafts ==
                (map k | k in old(matchDrafts) && !Stale(old(matchDrafts[k].touchedAt), now) :: old(matchDrafts)[k])
    {
      ghost var was := matchDrafts;
      var left := matchDrafts.Keys;
      while left != {}
        invariant left <= was.Keys
        invariant matchDrafts == map k | k in was && (k in left || !Stale(was[k].touchedAt, now)) :: was[k]
        decreases left
      {
        var k :| k in left;
        if Stale(matchDrafts[k].touchedAt, now) { matchDrafts := matchDrafts - {k}; }
        left := left - {k};
      }
    }

    method ListAges() returns (all: seq<Aged>)
      ensures Lists(all, Ages(matchDrafts), matchDrafts.Keys)
    {
      all := [];
      var left := matchDrafts.Keys;
      while left != {}
        invariant left <= matchDrafts.Keys && Lists(all, Ages(matchDrafts), matchDrafts.Keys - left)
        decreases left
      {
        var k :| k in left;
        all := all + [Aged(k, matchDrafts[k].touchedAt)];
        left := left - {k};
      }
    }

    method DeleteAll(all: seq<Aged>)
      modifies this
      ensures matchDrafts == old(matchDrafts) - KeysOf(all)
    {
      for i := 0 to |all|
        invariant matchDrafts == old(matchDrafts) - KeysOf(all[..i])
      {
        matchDrafts := matchDrafts - {all[i].key};
        assert all[..i+1] == all[..i] + [all[i]];
        assert KeysOf(all[..i+1]) == KeysOf(all[..i]) + {all[i].key};
      }
      assert all[..|all|] == all;
    }

    /** The second pass of the collection. */
    method DropOldest(now: int)
      requires |matchDrafts| > MAX_ENTRIES && matchDrafts.Keys == Current(Ages(matchDrafts), now)
      modifies this
      ensures Kept(old(Ages(matchDrafts)), now, matchDrafts.Keys)
      ensures forall k :: k in matchDrafts ==> k in old(matchDrafts) && matchDrafts[k] == old(matchDrafts)[k]
    {
      ghost var ages, was := Ages(matchDrafts), matchDrafts;
      var all := ListAges();
      ghost var listed := all;
      OlderWeakOrder();
      all := SortSlice(Older, all);
      SortedLists(listed, all, ages, matchDrafts.Keys);
      ListedKeys(all, ages, matchDrafts.Keys);
      var n := |all| - MAX_ENTRIES;
      KeptYoungest(ages, now, all, n);
      DeleteAll(all[..n]);
      assert matchDrafts.Keys == Current(ages, now) - KeysOf(all[..n]);
    }

    /** `gcDraftsLocked`. */
    method GcDrafts(now: int)
      modifies this
      ensures Kept(old(Ages(matchDrafts)), now, matchDrafts.Keys)
      ensures forall k :: k in matchDrafts ==> k in old(matchDrafts) && matchDrafts[k] == old(matchDrafts)[k]
    {
      ghost var ages := Ages(matchDrafts);
      DropStale(now);
      assert matchDrafts.Keys == Current(ages, now);
      if |matchDrafts| <= MAX_ENTRIES { return; }
      CurrentTwice(ages, now, Ages(matchDrafts));
      ghost var current := Ages(matchDrafts);
      DropOldest(now);
      KeptOfCurrent(ages, now, current, matchDrafts.Keys);
    }

    /** `storeDraft`. */
    method StoreDraft(key: string, d: MatchDraft, now: int)
      requires Valid() && forall k :: k in matchDrafts && k != key ==> matchDrafts[k] != d
      modifies this, d
      ensures Valid() && |matchDrafts| <= MAX_ENTRIES
      ensures d.touchedAt == Some(now) && d.Value() == old(d.Value())
      ensures Kept(old(Ages(matchDrafts))[key := Some(now)], now, matchDrafts.Keys)
      ensures forall k :: k in matchDrafts ==>
                if k == key then matchDrafts[k] == d else k in old(matchDrafts) && matchDrafts[k] == old(matchDrafts)[k]
    {
      ghost var ages := Ages(matchDrafts)[key := Some(now)];
      d.touchedAt := Some(now);
      matchDrafts := matchDrafts[key := d];
      assert Ages(matchDrafts) == ages;
      GcDrafts(now);
    }

    method DropDraft(key: string)
      modifies this
      ensures matchDrafts == old(matchDrafts) - {key}
    {
      matchDrafts := matchDrafts - {key};
    }

    /** `loadOrRestoreDraft`. */
    method LoadOrRestoreDraft(key: string, text: string, now: int) returns (d: MatchDraft?)
      requires Valid()
      modifies this
      ensures Valid()
      ensures d == null <==> key !in old(matchDrafts) && ParseDraftFromHeader(text).None?
      ensures d == null ==> matchDrafts == old(matchDrafts)
      ensures d != null ==> |matchDrafts| <= MAX_ENTRIES
      ensures key in old(matchDrafts) ==>
                d == old(matchDrafts)[key] && Kept(old(Ages(matchDrafts)), now, matchDrafts.Keys)
      ensures key !in old(matchDrafts) && d != null ==>
                && fresh(d) && Some(d.Value()) == ParseDraftFromHeader(text)
                && Kept(old(Ages(matchDrafts))[key := Some(now)], now, matchDrafts.Keys)
      ensures forall k :: k in matchDrafts ==>
                if k == key then matchDrafts[k] == d else k in old(matchDrafts) && matchDrafts[k] == old(matchDrafts)[k]
    {
      if key in matchDrafts {
        d := matchDrafts[key];
        GcDrafts(now);
        return;
      }
      var parsed := ParseDraftFromHeader(text);
      if parsed.None? { return null; }
      var restored := new MatchDraft(parsed.value);
      StoreDraft(key, restored, now);
      d := restored;
    }
  }

  lemma KeyParts(chat: int, msg: int)
    ensures var key := DraftKey(chat, msg);
            Colon(key) < |key| && key[..Colon(key)] == FormatInt(chat) && key[Colon(key)+1..] == FormatInt(msg)
  {
    NoColon(chat);
    ColonExact(FormatInt(chat), FormatInt(msg));
    assert DraftKey(chat, msg) == FormatInt(chat) + (":" + FormatInt(msg));
  }

  /** Different prompts have different keys. */
  lemma DraftKeyInjective(c1: int, m1: int, c2: int, m2: int)
    requires DraftKey(c1, m1) == DraftKey(c2, m2)
    ensures c1 == c2 && m1 == m2
  {
    KeyParts(c1, m1);
    KeyParts(c2, m2);
    FormatIntInjective(c1, c2);
    FormatIntInjective(m1, m2);
  }
}
