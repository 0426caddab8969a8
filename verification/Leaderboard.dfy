/** The published order of players: `Sorted` of pkg/rating/rating.go. */
module Leaderboard {
  import opened Sorting
  import opened History
  import opened Rating

  /** Go's `<` on strings. */
  predicate StringLess(a: string, b: string) {
    if b == "" then false
    else if a == "" then true
    else if a[0] != b[0] then a[0] < b[0]
    else StringLess(a[1..], b[1..])
  }

  lemma {:induction false} StringLessTotal(a: string, b: string)
    ensures StringLess(a, b) || StringLess(b, a) || a == b
    ensures StringLess(a, b) ==> !StringLess(b, a) && a != b
  {
    if a != "" && b != "" && a[0] == b[0] {
      StringLessTotal(a[1..], b[1..]);
      assert a == [a[0]] + a[1..] && b == [b[0]] + b[1..];
    }
  }

  lemma {:induction false} StringLessTransitive(a: string, b: string, c: string)
    requires StringLess(a, b) && StringLess(b, c)
    ensures StringLess(a, c)
  {
    if a != "" && a[0] == b[0] && b[0] == c[0] { StringLessTransitive(a[1..], b[1..], c[1..]); }
  }

  /** Up to place i the strings agree, and there a ends or has the smaller character. */
  predicate SmallerAt(a: string, b: string, i: nat) {
    i <= |a| && i < |b| && a[..i] == b[..i] && (i < |a| ==> a[i] < b[i])
  }

  /** The first place where two strings differ decides, and a string comes after its beginnings. */
  lemma {:induction false} StringLessIff(a: string, b: string)
    ensures StringLess(a, b) <==> exists i: nat :: SmallerAt(a, b, i)
  {
    if a == "" || b == "" {
      assert b != "" ==> SmallerAt(a, b, 0);
    } else {
      StringLessIff(a[1..], b[1..]);
      assert a[0] < b[0] ==> SmallerAt(a, b, 0);
      if i: nat :| SmallerAt(a[1..], b[1..], i) { OneFurther(a, b, i); }
      if i: nat :| SmallerAt(a, b, i) {
        if i > 0 { OneFurther(a, b, i - 1); }
      }
    }
  }

  lemma OneFurther(a: string, b: string, i: nat)
    requires a != "" && b != ""
    ensures SmallerAt(a, b, i + 1) <==> a[0] == b[0] && SmallerAt(a[1..], b[1..], i)
  {
    if i < |a| && i + 1 < |b| {
      assert a[..i+1] == [a[0]] + a[1..][..i] && b[..i+1] == [b[0]] + b[1..][..i];
      assert a[..i+1][1..] == a[1..][..i] && b[..i+1][1..] == b[1..][..i];
      if a[..i+1] == b[..i+1] { assert a[..i+1][0] == b[..i+1][0]; }
    }
  }

  datatype Place = Place(id: PlayerId, rating: real)

  /** Higher rating first, ties by id. */
  predicate Outranks(a: Place, b: Place) {
    if a.rating != b.rating then a.rating > b.rating else StringLess(a.id, b.id)
  }

  lemma OutranksWeakOrder()
    ensures WeakOrder(Outranks)
  {
    forall a, b | Outranks(a, b) ensures !Outranks(b, a) { StringLessTotal(a.id, b.id); }
    forall a, b, c {:trigger Outranks(b, a), Outranks(c, b)} | !Outranks(b, a) && !Outranks(c, b)
      ensures !Outranks(c, a)
    {
      NotOutranked(a, b, c);
    }
  }

  lemma NotOutranked(a: Place, b: Place, c: Place)
    requires !Outranks(b, a) && !Outranks(c, b)
    ensures !Outranks(c, a)
  {
    StringLessTotal(a.id, b.id);
    StringLessTotal(b.id, c.id);
    StringLessTotal(a.id, c.id);
    if StringLess(a.id, b.id) && StringLess(b.id, c.id) { StringLessTransitive(a.id, b.id, c.id); }
  }

  function PlacesOf(pr: PlayerRatings, ids: seq<PlayerId>): (r: seq<Place>)
    requires forall id :: id in ids ==> id in pr
    ensures |r| == |ids| && forall i :: 0 <= i < |ids| ==> r[i] == Place(ids[i], pr[ids[i]].rating)
  {
    if ids == [] then [] else
    assert forall id :: id in ids[..|ids|-1] ==> id in ids;
    PlacesOf(pr, ids[..|ids|-1]) + [Place(ids[|ids|-1], pr[ids[|ids|-1]].rating)]
  }

  /** Every rated player once, nobody behind somebody they outrank. */
  ghost predicate IsRanking(pr: PlayerRatings, ids: seq<PlayerId>) {
    && (forall id :: id in ids <==> id in pr)
    && NoDuplicates(ids)
    && SortedBy(Outranks, PlacesOf(pr, ids))
  }

  /** Places of different players compare one way or the other. */
  lemma PlacesTotal(pr: PlayerRatings, x: seq<Place>)
    requires forall p :: p in x ==> p.id in pr && p.rating == pr[p.id].rating
    ensures StrictTotalOn(Outranks, x)
  {
    forall p, q ensures p != q && p in x && q in x ==> Outranks(p, q) || Outranks(q, p) {
      StringLessTotal(p.id, q.id);
    }
    forall p, q ensures Outranks(p, q) ==> !Outranks(q, p) && p != q { StringLessTotal(p.id, q.id); }
  }

  /** Equal ratings make equal leaderboards, in whatever order the map of ratings was walked. */
  lemma RankingUnique(pr: PlayerRatings, a: seq<PlayerId>, b: seq<PlayerId>)
    requires IsRanking(pr, a) && IsRanking(pr, b)
    ensures a == b
  {
    var x, y := PlacesOf(pr, a), PlacesOf(pr, b);
    PlacesMember(pr, a);
    PlacesMember(pr, b);
    SameElements(x, y);
    PlacesTotal(pr, x);
    hide Outranks, NoDuplicates, StrictTotalOn;
    SortedPermutationUnique(Outranks, x, y);
    hide SortedBy, IsRanking, PlacesOf;
    IdsOfPlaces(pr, a, b);
  }

  lemma IdsOfPlaces(pr: PlayerRatings, a: seq<PlayerId>, b: seq<PlayerId>)
    requires (forall id :: id in a ==> id in pr) && (forall id :: id in b ==> id in pr)
    requires PlacesOf(pr, a) == PlacesOf(pr, b)
    ensures a == b
  {
    assert forall i :: 0 <= i < |a| ==> a[i] == PlacesOf(pr, a)[i].id;
    assert forall i :: 0 <= i < |b| ==> b[i] == PlacesOf(pr, b)[i].id;
  }

  lemma PlacesMember(pr: PlayerRatings, ids: seq<PlayerId>)
    requires (forall id :: id in ids <==> id in pr) && NoDuplicates(ids)
    ensures NoDuplicates(PlacesOf(pr, ids))
    ensures forall p :: p in PlacesOf(pr, ids) <==> p.id in pr && p.rating == pr[p.id].rating
  {
    var x := PlacesOf(pr, ids);
    forall p ensures p in x <==> p.id in pr && p.rating == pr[p.id].rating {
      if p.id in pr && p.rating == pr[p.id].rating {
        var i :| 0 <= i < |ids| && ids[i] == p.id;
        assert x[i] == p;
      }
    }
  }

  method Sorted(pr: PlayerRatings) returns (ids: seq<PlayerId>)
    ensures IsRanking(pr, ids)
  {
    var all: seq<Place> := [];
    var left := pr.Keys;
    while left != {}
      invariant left <= pr.Keys && NoDuplicates(all)
      invariant forall p :: p in all <==> p.id in pr && p.id !in left && p.rating == pr[p.id].rating
      decreases left
    {
      var id :| id in left;
      left := left - {id};
      all := all + [Place(id, pr[id].rating)];
    }
    ghost var listed := all;
    OutranksWeakOrder();
    all := SortSlice(Outranks, all);
    MemberByMultiset(listed, all);
    SortedStaysDistinct(listed, all);
    ids := IdsOf(all);
    IdsRank(pr, all, ids);
  }

  method IdsOf(all: seq<Place>) returns (ids: seq<PlayerId>)
    ensures |ids| == |all| && forall i :: 0 <= i < |all| ==> ids[i] == all[i].id
  {
    ids := [];
    for i := 0 to |all|
      invariant |ids| == i && forall j :: 0 <= j < i ==> ids[j] == all[j].id
    {
      ids := ids + [all[i].id];
    }
  }

  lemma IdsRank(pr: PlayerRatings, all: seq<Place>, ids: seq<PlayerId>)
    requires forall p :: p in all <==> p.id in pr && p.rating == pr[p.id].rating
    requires NoDuplicates(all) && SortedBy(Outranks, all)
    requires |ids| == |all| && forall i :: 0 <= i < |all| ==> ids[i] == all[i].id
    ensures IsRanking(pr, ids)
  {
    forall id ensures id in ids <==> id in pr {
      if id in ids { var i :| 0 <= i < |ids| && ids[i] == id; assert all[i] in all; }
      if id in pr {
        var i :| 0 <= i < |all| && all[i] == Place(id, pr[id].rating);
        assert ids[i] == id;
      }
    }
    forall i, j | 0 <= i < j < |ids| ensures ids[i] != ids[j] { assert all[i] in all && all[j] in all; }
    forall i | 0 <= i < |all| ensures PlacesOf(pr, ids)[i] == all[i] { assert all[i] in all; }
    assert PlacesOf(pr, ids) == all;
  }

  /** In the published order ratings fall, and players with equal ratings are in the order of their ids. */
  lemma RatingsFall(pr: PlayerRatings, ids: seq<PlayerId>, i: nat, j: nat)
    requires IsRanking(pr, ids) && i < j < |ids|
    ensures ids[i] in pr && ids[j] in pr && ids[i] != ids[j]
    ensures var (a, b) := (pr[ids[i]].rating, pr[ids[j]].rating); a > b || (a == b && StringLess(ids[i], ids[j]))
  {
    var ps := PlacesOf(pr, ids);
    assert !Outranks(ps[j], ps[i]);
    StringLessTotal(ids[i], ids[j]);
  }
}
