/**
 pkg/identity/s21_nick_cache.go: a map and a linked list that share their elements. The elements are heap
 objects; `container/list` is seen through the sequence of elements it holds.
 */
module NickCache {
  import opened Wrappers
  import opened RecencyList

  const DEFAULT_MAX := 20000

  class Element {
    const tid: Tid
    var user: User
    var fetchedAt: int

    constructor (tid: Tid, user: User, fetchedAt: int)
      ensures this.tid == tid && this.user == user && this.fetchedAt == fetchedAt
    {
      this.tid, this.user, this.fetchedAt := tid, user, fetchedAt;
    }
  }

  ghost function EntriesOf(es: seq<Element>): (s: seq<Entry>)
    reads es
    ensures |s| == |es|
    ensures forall i :: 0 <= i < |s| ==> s[i] == Entry(es[i].tid, es[i].user, es[i].fetchedAt)
  {
    if es == [] then [] else [Entry(es[0].tid, es[0].user, es[0].fetchedAt)] + EntriesOf(es[1..])
  }

  /** `list.Remove`: unlinks one element, found by identity. */
  function Unlink(es: seq<Element>, el: Element): seq<Element> {
    if es == [] then [] else if es[0] == el then es[1..] else [es[0]] + Unlink(es[1..], el)
  }

  ghost predicate DistinctElements(es: seq<Element>) {
    forall i, j :: 0 <= i < j < |es| ==> es[i].tid != es[j].tid
  }

  lemma {:induction false} UnlinkElements(es: seq<Element>, el: Element)
    requires DistinctElements(es) && el in es
    ensures |Unlink(es, el)| == |es| - 1
    ensures forall i :: 0 <= i < |es| - 1 ==> Unlink(es, el)[i] in es && Unlink(es, el)[i] != el
    ensures forall i :: 0 <= i < |es| && es[i] != el ==> es[i] in Unlink(es, el)
    ensures DistinctElements(Unlink(es, el))
  {
    assert es == [es[0]] + es[1..];
    if es[0] == el {
      forall i | 0 < i < |es| ensures es[i] != el { assert es[0].tid != es[i].tid; }
    } else {
      UnlinkElements(es[1..], el);
      var r := Unlink(es[1..], el);
      forall i | 0 <= i < |r| ensures r[i].tid != es[0].tid {
        var k :| 0 <= k < |es[1..]| && es[1..][k] == r[i];
        assert es[k+1].tid != es[0].tid;
      }
    }
  }

  lemma {:induction false} UnlinkRemoves(es: seq<Element>, el: Element)
    requires DistinctElements(es) && el in es
    ensures EntriesOf(Unlink(es, el)) == Remove(EntriesOf(es), el.tid)
  {
    assert es == [es[0]] + es[1..];
    var s := EntriesOf(es);
    assert s[1..] == EntriesOf(es[1..]);
    if es[0] == el {
      RemoveFacts(s[1..], el.tid);
      LookupMember(s[1..], el.tid);
      assert Lookup(s[1..], el.tid).None?;
    } else {
      UnlinkRemoves(es[1..], el);
      var i :| 0 <= i < |es| && es[i] == el;
      assert es[0].tid != es[i].tid;
    }
  }

  lemma EntriesDistinct(es: seq<Element>)
    ensures DistinctTids(EntriesOf(es)) <==> DistinctElements(es)
  {
    var s := EntriesOf(es);
    assert forall i :: 0 <= i < |es| ==> s[i].tid == es[i].tid;
  }

  function TidsOf(es: seq<Element>): set<Tid> { set i | 0 <= i < |es| :: es[i].tid }

  lemma {:induction false} TidsCount(es: seq<Element>)
    requires DistinctElements(es)
    ensures |TidsOf(es)| == |es|
  {
    if es != [] {
      var front, last := es[..|es|-1], es[|es|-1];
      TidsCount(front);
      assert es == front + [last];
      assert TidsOf(es) == TidsOf(front) + {last.tid};
      forall i | 0 <= i < |front| ensures front[i].tid != last.tid {
        assert es[i].tid != es[|es|-1].tid;
      }
    }
  }

  /** The map indexes exactly the listed elements. */
  ghost predicate Indexed(entries: map<Tid, Element>, es: seq<Element>) {
    && DistinctElements(es)
    && entries.Keys == TidsOf(es)
    && (forall i :: 0 <= i < |es| ==> es[i].tid in entries && entries[es[i].tid] == es[i])
  }

  lemma IndexedCount(entries: map<Tid, Element>, es: seq<Element>)
    requires Indexed(entries, es)
    ensures |entries| == |es|
  {
    TidsCount(es);
  }

  lemma IndexedUnlink(entries: map<Tid, Element>, es: seq<Element>, el: Element)
    requires Indexed(entries, es) && el in es
    ensures Indexed(entries - {el.tid}, Unlink(es, el))
  {
    UnlinkElements(es, el);
    var r := Unlink(es, el);
    forall i | 0 <= i < |r| ensures r[i].tid in entries.Keys - {el.tid} && entries[r[i].tid] == r[i] {
      var k :| 0 <= k < |es| && es[k] == r[i];
    }
    forall x | x in entries && x != el.tid ensures x in TidsOf(r) {
      var k :| 0 <= k < |es| && es[k].tid == x;
      assert es[k] in r;
    }
  }

  lemma IndexedFront(entries: map<Tid, Element>, es: seq<Element>, el: Element)
    requires Indexed(entries, es) && el.tid !in entries
    ensures Indexed(entries[el.tid := el], [el] + es)
  {
    var r := [el] + es;
    forall x | x in entries ensures x in TidsOf(r) {
      var k :| 0 <= k < |es| && es[k].tid == x;
      assert r[k+1].tid == x;
    }
    assert r[0].tid == el.tid;
    assert forall i :: 0 < i < |r| ==> r[i] == es[i-1];
  }

  lemma IndexedMove(entries: map<Tid, Element>, es: seq<Element>, el: Element)
    requires Indexed(entries, es) && el in es
    ensures Indexed(entries, [el] + Unlink(es, el))
  {
    var k :| 0 <= k < |es| && es[k] == el;
    IndexedUnlink(entries, es, el);
    IndexedFront(entries - {el.tid}, Unlink(es, el), el);
    assert (entries - {el.tid})[el.tid := el] == entries;
  }

  lemma IndexedDropBack(entries: map<Tid, Element>, es: seq<Element>)
    requires Indexed(entries, es) && es != []
    ensures Indexed(entries - {es[|es|-1].tid}, es[..|es|-1])
  {
    var r, back := es[..|es|-1], es[|es|-1];
    forall i | 0 <= i < |r| ensures r[i].tid != back.tid { assert es[i].tid != es[|es|-1].tid; }
    forall x | x in entries && x != back.tid ensures x in TidsOf(r) {
      var k :| 0 <= k < |es| && es[k].tid == x;
      assert r[k].tid == x;
    }
  }

  lemma EntriesCons(el: Element, es: seq<Element>)
    ensures EntriesOf([el] + es) == [Entry(el.tid, el.user, el.fetchedAt)] + EntriesOf(es)
  {
    assert ([el] + es)[1..] == es;
  }

  lemma EntriesPrefix(es: seq<Element>, k: nat)
    requires k <= |es|
    ensures EntriesOf(es[..k]) == EntriesOf(es)[..k]
  {
  }

  lemma RestFacts(entries: map<Tid, Element>, es: seq<Element>, el: Element)
    requires Indexed(entries, es) && el in es
    ensures |Unlink(es, el)| == |es| - 1
    ensures forall i :: 0 <= i < |es| - 1 ==> Unlink(es, el)[i] != el && Unlink(es, el)[i] in es
    ensures EntriesOf(Unlink(es, el)) == Remove(EntriesOf(es), el.tid)
  {
    UnlinkElements(es, el);
    UnlinkRemoves(es, el);
  }

  lemma MoveFacts(entries: map<Tid, Element>, es: seq<Element>, el: Element)
    requires Indexed(entries, es) && el in es
    ensures Indexed(entries, [el] + Unlink(es, el)) && |[el] + Unlink(es, el)| == |es|
    ensures EntriesOf([el] + Unlink(es, el)) == [Entry(el.tid, el.user, el.fetchedAt)] + Remove(EntriesOf(es), el.tid)
    ensures forall i :: 0 <= i < |es| ==> ([el] + Unlink(es, el))[i] in es
  {
    UnlinkElements(es, el);
    UnlinkRemoves(es, el);
    IndexedMove(entries, es, el);
    EntriesCons(el, Unlink(es, el));
  }

  class S21NickCache {
    const ttl: int
    const maxEntries: nat
    var entries: map<Tid, Element>
    var lru: seq<Element>

    /** The map and the list hold the same elements, each under its own key. */
    ghost predicate Linked()
      reads this, lru
    {
      maxEntries >= 1 && Indexed(entries, lru)
    }

    ghost predicate Valid()
      reads this, lru
    {
      Linked() && |lru| <= maxEntries
    }

    ghost function Contents(): seq<Entry>
      reads this, lru
    {
      EntriesOf(lru)
    }

    constructor (ttl: int, max: int)
      ensures Valid() && Contents() == []
      ensures this.ttl == ttl && maxEntries == if max < 1 then DEFAULT_MAX else max
    {
      this.ttl := ttl;
      this.maxEntries := if max < 1 then DEFAULT_MAX else max;
      this.entries := map[];
      this.lru := [];
    }

    lemma KeyIsHeld(tid: Tid)
      requires Valid()
      ensures tid in entries <==> Lookup(Contents(), tid).Some?
      ensures tid in entries ==>
                && entries[tid] in lru && entries[tid].tid == tid
                && Lookup(Contents(), tid) == Some(Entry(tid, entries[tid].user, entries[tid].fetchedAt))
    {
      EntriesDistinct(lru);
      LookupMember(Contents(), tid);
      if tid in entries {
        var i :| 0 <= i < |lru| && lru[i].tid == tid;
        LookupOf(Contents(), i);
      }
    }

    /** Takes an element out of both structures. */
    method Drop(el: Element)
      requires Valid() && el in lru
      modifies this
      ensures Valid()
      ensures Contents() == old(Remove(Contents(), el.tid))
      ensures forall i :: 0 <= i < |lru| ==> lru[i] in old(lru)
    {
      hide Indexed;
      RestFacts(entries, lru, el);
      IndexedUnlink(entries, lru, el);
      lru := Unlink(lru, el);
      entries := entries - {el.tid};
    }

    /** `MoveToFront`. */
    method Promote(el: Element)
      requires Valid() && el in lru
      modifies `lru
      ensures Valid()
      ensures Contents() == [Entry(el.tid, el.user, el.fetchedAt)] + Remove(old(Contents()), el.tid)
      ensures forall i :: 0 <= i < |lru| ==> lru[i] in old(lru)
    {
      hide Indexed;
      MoveFacts(entries, lru, el);
      lru := [el] + Unlink(lru, el);
    }

    method Get(tid: Tid, now: int) returns (r: Option<User>)
      requires Valid()
      modifies this
      ensures Valid()
      ensures r == Answer(old(Contents()), ttl, now, tid)
      ensures Contents() == AfterGet(old(Contents()), ttl, now, tid)
      ensures forall i :: 0 <= i < |lru| ==> lru[i] in old(lru)
    {
      KeyIsHeld(tid);
      if tid !in entries { return None; }
      var e := entries[tid];
      if now - e.fetchedAt > ttl {
        Drop(e);
        return None;
      }
      Promote(e);
      return Some(e.user);
    }

    method Put(tid: Tid, u: User, now: int)
      requires Valid()
      modifies this, lru
      ensures Valid()
      ensures Contents() == AfterPut(old(Contents()), maxEntries, now, tid, u)
    {
      KeyIsHeld(tid);
      if tid in entries {
        Refresh(entries[tid], u, now);
      } else {
        PushFront(tid, u, now);
      }
    }

    method Refresh(e: Element, u: User, now: int)
      requires Valid() && e in lru
      modifies `lru, e
      ensures Valid()
      ensures Contents() == [Entry(e.tid, u, now)] + old(Remove(Contents(), e.tid))
    {
      hide Indexed;
      RestFacts(entries, lru, e);
      ghost var rest := EntriesOf(Unlink(lru, e));
      e.user := u;
      e.fetchedAt := now;
      assert EntriesOf(Unlink(lru, e)) == rest;
      RestFacts(entries, lru, e);
      Promote(e);
    }

    /** A new element at the front, then eviction. */
    method PushFront(tid: Tid, u: User, now: int)
      requires Valid() && tid !in entries
      modifies this
      ensures Valid()
      ensures Contents() == Trim([Entry(tid, u, now)] + old(Contents()), maxEntries)
    {
      hide Indexed;
      var el := new Element(tid, u, now);
      IndexedFront(entries, lru, el);
      lru := [el] + lru;
      entries := entries[tid := el];
      EntriesCons(el, old(lru));
      EvictLocked();
    }

    method EvictLocked()
      requires Linked()
      modifies this
      ensures Valid()
      ensures Contents() == Trim(old(Contents()), maxEntries)
    {
      hide Indexed;
      IndexedCount(entries, lru);
      while |entries| > maxEntries
        invariant Linked() && |lru| <= |old(lru)| && lru == old(lru)[..|lru|] && |entries| == |lru|
        invariant |lru| >= maxEntries || lru == old(lru)
        decreases |entries|
      {
        DropBack();
        IndexedCount(entries, lru);
      }
      EntriesPrefix(old(lru), |lru|);
    }

    method DropBack()
      requires Linked() && lru != []
      modifies this
      ensures Linked() && lru == old(lru)[..|old(lru)|-1]
    {
      var back := lru[|lru|-1];
      IndexedDropBack(entries, lru);
      lru := lru[..|lru|-1];
      entries := entries - {back.tid};
    }

    method Invalidate(tid: Tid)
      requires Valid()
      modifies this
      ensures Valid()
      ensures Contents() == Remove(old(Contents()), tid)
    {
      KeyIsHeld(tid);
      RemoveFacts(Contents(), tid);
      if tid in entries { Drop(entries[tid]); }
    }

    method Size() returns (n: nat)
      requires Valid()
      ensures n == |Contents()|
    {
      IndexedCount(entries, lru);
      n := |entries|;
    }
  }
}
