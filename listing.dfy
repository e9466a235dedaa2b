/**
 * The per-user link listing of the store (getLinksByUserId): filtering by
 * owner, the stable sort on orderIndex, and the click totals computed over
 * such listings.
 */
module Listing {
  import opened Types
  import opened Records

  // ---------------------------------------------------------------- filters

  /** The links that belong to the user, in store order. */
  function OwnedBy(ls: seq<Link>, userId: int): (r: seq<Link>)
    ensures |r| <= |ls|
  {
    if ls == [] then [] else (if ls[0].userId == userId then [ls[0]] else []) + OwnedBy(ls[1..], userId)
  }

  /** The links that belong to anyone but the user, in store order (the cascade of deleteUser). */
  function NotOwnedBy(ls: seq<Link>, userId: int): (r: seq<Link>)
    ensures |r| <= |ls|
    ensures forall l :: l in r ==> l in ls && l.userId != userId
  {
    if ls == [] then [] else (if ls[0].userId != userId then [ls[0]] else []) + NotOwnedBy(ls[1..], userId)
  }

  /** The owner filter keeps exactly the owner's links, each as often as before. */
  lemma {:induction false} OwnedByCounts(ls: seq<Link>, userId: int)
    ensures forall l :: multiset(OwnedBy(ls, userId))[l] == if l.userId == userId then multiset(ls)[l] else 0
  {
    if ls != [] {
      OwnedByCounts(ls[1..], userId);
      assert ls == [ls[0]] + ls[1..];
    }
  }

  /** The complementary filter keeps exactly the other owners' links, each as often as before. */
  lemma {:induction false} NotOwnedByCounts(ls: seq<Link>, userId: int)
    ensures forall l :: multiset(NotOwnedBy(ls, userId))[l] == if l.userId != userId then multiset(ls)[l] else 0
  {
    if ls != [] {
      NotOwnedByCounts(ls[1..], userId);
      assert ls == [ls[0]] + ls[1..];
    }
  }

  /** A link is in the owner filter exactly when it is in the collection and has that owner. */
  lemma OwnedByMembers(ls: seq<Link>, userId: int)
    ensures forall l :: l in OwnedBy(ls, userId) <==> l in ls && l.userId == userId
  {
    OwnedByCounts(ls, userId);
    forall l ensures l in OwnedBy(ls, userId) <==> l in ls && l.userId == userId {
      assert l in OwnedBy(ls, userId) <==> l in multiset(OwnedBy(ls, userId));
      assert l in ls <==> l in multiset(ls);
    }
  }

  /** Filtering keeps distinct ids distinct. */
  lemma {:induction false} OwnedByKeepsDistinct(ls: seq<Link>, userId: int)
    requires DistinctIds(ls)
    ensures DistinctIds(OwnedBy(ls, userId))
  {
    if ls != [] {
      OwnedByKeepsDistinct(ls[1..], userId);
      OwnedByMembers(ls[1..], userId);
    }
  }

  lemma {:induction false} NotOwnedByKeepsDistinct(ls: seq<Link>, userId: int)
    requires DistinctIds(ls)
    ensures DistinctIds(NotOwnedBy(ls, userId))
  {
    if ls != [] {
      NotOwnedByKeepsDistinct(ls[1..], userId);
      NotOwnedByCounts(ls[1..], userId);
      var rest := NotOwnedBy(ls[1..], userId);
      forall l | l in rest ensures l.id != ls[0].id {
        assert l in multiset(rest);
        assert l in multiset(ls[1..]);
      }
    }
  }

  /** Removing one user's links leaves that user with none. */
  lemma {:induction false} CascadeLeavesNone(ls: seq<Link>, userId: int)
    ensures OwnedBy(NotOwnedBy(ls, userId), userId) == []
  {
    OwnedByCounts(NotOwnedBy(ls, userId), userId);
    NotOwnedByCounts(ls, userId);
  }

  /** Removing one user's links leaves every other user's links as they were, in order. */
  lemma {:induction false} CascadeKeepsOthers(ls: seq<Link>, userId: int, other: int)
    requires other != userId
    ensures OwnedBy(NotOwnedBy(ls, userId), other) == OwnedBy(ls, other)
  {
    if ls != [] {
      CascadeKeepsOthers(ls[1..], userId, other);
      var kept := NotOwnedBy(ls, userId);
      if ls[0].userId != userId {
        assert kept == [ls[0]] + NotOwnedBy(ls[1..], userId);
        assert kept[0] == ls[0] && kept[1..] == NotOwnedBy(ls[1..], userId);
      } else {
        assert kept == NotOwnedBy(ls[1..], userId);
      }
    }
  }

  /** A collection whose links all belong to one user is its own owner filter. */
  lemma {:induction false} OwnedByNoneOther(ls: seq<Link>, userId: int)
    requires forall k :: 0 <= k < |ls| ==> ls[k].userId == userId
    ensures OwnedBy(ls, userId) == ls
  {
    if ls != [] {
      OwnedByNoneOther(ls[1..], userId);
      assert [ls[0]] + ls[1..] == ls;
    }
  }

  /** A collection none of whose links belongs to the user has an empty owner filter. */
  lemma {:induction false} OwnedByNone(ls: seq<Link>, userId: int)
    requires forall k :: 0 <= k < |ls| ==> ls[k].userId != userId
    ensures OwnedBy(ls, userId) == []
  {
    if ls != [] {
      OwnedByNone(ls[1..], userId);
    }
  }

  /** When the user owns every link, the cascade of deleteUser removes them all. */
  lemma {:induction false} CascadeOfSoleOwner(ls: seq<Link>, userId: int)
    requires forall k :: 0 <= k < |ls| ==> ls[k].userId == userId
    ensures NotOwnedBy(ls, userId) == []
  {
    if ls != [] {
      CascadeOfSoleOwner(ls[1..], userId);
    }
  }

  /** A link appended to the store belongs to its owner's filter, and to no other owner's. */
  lemma {:induction false} OwnedByAppend(ls: seq<Link>, x: Link, userId: int)
    ensures OwnedBy(ls + [x], userId) == OwnedBy(ls, userId) + (if x.userId == userId then [x] else [])
  {
    if ls == [] {
      assert [x][1..] == [];
    } else {
      assert (ls + [x])[1..] == ls[1..] + [x];
      OwnedByAppend(ls[1..], x, userId);
    }
  }

  // ---------------------------------------------------------------- sorting

  /** Ascending by orderIndex. */
  predicate Sorted(ls: seq<Link>) {
    forall i, j :: 0 <= i < j < |ls| ==> ls[i].orderIndex <= ls[j].orderIndex
  }

  /** Places `x` before the first element whose orderIndex is not smaller. */
  function Insert(x: Link, s: seq<Link>): (r: seq<Link>)
    ensures |r| == |s| + 1
    ensures multiset(r) == multiset(s) + multiset{x}
  {
    if s == [] then [x]
    else if x.orderIndex <= s[0].orderIndex then [x] + s
    else
      assert s == [s[0]] + s[1..];
      [s[0]] + Insert(x, s[1..])
  }

  /** Every element of an insertion is the inserted element or one of the old ones. */
  lemma {:induction false} InsertMembers(x: Link, s: seq<Link>)
    ensures forall y :: y in Insert(x, s) ==> y == x || y in s
  {
    if s != [] && x.orderIndex > s[0].orderIndex {
      InsertMembers(x, s[1..]);
    }
  }

  /** An element no larger than any of an ascending sequence can go in front of it. */
  lemma ConsSorted(x: Link, s: seq<Link>)
    requires Sorted(s)
    requires forall y :: y in s ==> x.orderIndex <= y.orderIndex
    ensures Sorted([x] + s)
  {
    var r := [x] + s;
    forall i, j | 0 <= i < j < |r| ensures r[i].orderIndex <= r[j].orderIndex {
      if i == 0 {
        assert r[j] == s[j - 1] && s[j - 1] in s;
      } else {
        assert r[i] == s[i - 1] && r[j] == s[j - 1];
      }
    }
  }

  /** Inserting into an ascending sequence gives an ascending sequence. */
  lemma {:induction false} InsertKeepsSorted(x: Link, s: seq<Link>)
    requires Sorted(s)
    ensures Sorted(Insert(x, s))
  {
    if s != [] && x.orderIndex > s[0].orderIndex {
      var tail := s[1..];
      InsertKeepsSorted(x, tail);
      InsertMembers(x, tail);
      forall y | y in tail ensures s[0].orderIndex <= y.orderIndex {
        var k :| 0 <= k < |tail| && tail[k] == y;
        assert tail[k] == s[k + 1];
      }
      ConsSorted(s[0], Insert(x, tail));
    }
  }

  /**
   * The sort on ascending orderIndex that the listing applies: an ascending
   * rearrangement of its input. An element is inserted before the equal keys
   * that followed it, so, as JavaScript's sort, it is stable.
   */
  function SortByOrder(s: seq<Link>): (r: seq<Link>)
    ensures Sorted(r)
    ensures multiset(r) == multiset(s)
    ensures |r| == |s|
  {
    if s == [] then []
    else
      assert s == [s[0]] + s[1..];
      InsertKeepsSorted(s[0], SortByOrder(s[1..]));
      Insert(s[0], SortByOrder(s[1..]))
  }

  /** Inserting an element whose id is new keeps the ids distinct. */
  lemma {:induction false} InsertKeepsDistinct(x: Link, s: seq<Link>)
    requires DistinctIds(s)
    requires forall y :: y in s ==> y.id != x.id
    ensures DistinctIds(Insert(x, s))
  {
    if s != [] && x.orderIndex > s[0].orderIndex {
      var tail := s[1..];
      assert DistinctIds(tail);
      InsertKeepsDistinct(x, tail);
      InsertMembers(x, tail);
      forall y | y in tail ensures y.id != s[0].id {
        var k :| 0 <= k < |tail| && tail[k] == y;
        assert tail[k] == s[k + 1];
      }
      ConsDistinct(s[0], Insert(x, tail));
    } else {
      ConsDistinct(x, s);
    }
  }

  /** A link whose id none of a sequence with distinct ids has can go in front of it. */
  lemma ConsDistinct(x: Link, s: seq<Link>)
    requires DistinctIds(s)
    requires forall y :: y in s ==> y.id != x.id
    ensures DistinctIds([x] + s)
  {
    var r := [x] + s;
    forall i, j | 0 <= i < j < |r| ensures r[i].id != r[j].id {
      if i == 0 {
        assert r[j] == s[j - 1] && s[j - 1] in s;
      } else {
        assert r[i] == s[i - 1] && r[j] == s[j - 1];
      }
    }
  }

  /** Sorting keeps the ids distinct. */
  lemma {:induction false} SortKeepsDistinct(s: seq<Link>)
    requires DistinctIds(s)
    ensures DistinctIds(SortByOrder(s))
  {
    if s != [] {
      SortKeepsDistinct(s[1..]);
      forall y | y in SortByOrder(s[1..]) ensures y.id != s[0].id {
        assert y in multiset(SortByOrder(s[1..]));
      }
      InsertKeepsDistinct(s[0], SortByOrder(s[1..]));
    }
  }

  /**
   * getLinksByUserId: exactly the user's links (each as often as in the
   * store), in ascending orderIndex.
   */
  function LinksOf(ls: seq<Link>, userId: int): (r: seq<Link>)
    ensures Sorted(r)
    ensures forall l :: multiset(r)[l] == if l.userId == userId then multiset(ls)[l] else 0
    ensures forall l :: l in r ==> l in ls && l.userId == userId
    ensures |r| == |OwnedBy(ls, userId)|
  {
    var r := SortByOrder(OwnedBy(ls, userId));
    OwnedByCounts(ls, userId);
    assert forall l :: l in r ==> l in multiset(r);
    r
  }

  /** A link is in the user's listing exactly when it is in the store and the user owns it. */
  lemma LinksOfMembers(ls: seq<Link>, userId: int)
    ensures forall l :: l in LinksOf(ls, userId) <==> l in ls && l.userId == userId
  {
    OwnedByMembers(ls, userId);
    var owned := OwnedBy(ls, userId);
    forall l ensures l in LinksOf(ls, userId) <==> l in owned {
      assert l in LinksOf(ls, userId) <==> l in multiset(SortByOrder(owned));
      assert l in owned <==> l in multiset(owned);
    }
  }

  /** After the cascade of deleteUser the user's listing is empty. */
  lemma NoLinksAfterCascade(ls: seq<Link>, userId: int)
    ensures LinksOf(NotOwnedBy(ls, userId), userId) == []
  {
    CascadeLeavesNone(ls, userId);
  }

  // ---------------------------------------------------------------- click totals

  /** The sum of the click counters of the links. */
  function TotalClicks(ls: seq<Link>): int {
    if ls == [] then 0 else ls[0].clickCount + TotalClicks(ls[1..])
  }

  /** Counters that are never negative give a total that is not negative, and zero ones a zero total. */
  lemma {:induction false} ClicksBounded(ls: seq<Link>)
    ensures (forall k :: 0 <= k < |ls| ==> ls[k].clickCount >= 0) ==> TotalClicks(ls) >= 0
    ensures (forall k :: 0 <= k < |ls| ==> ls[k].clickCount == 0) ==> TotalClicks(ls) == 0
  {
    if ls != [] {
      ClicksBounded(ls[1..]);
    }
  }

  /** The total of two collections side by side is the sum of their totals. */
  lemma {:induction false} ClicksAppend(a: seq<Link>, b: seq<Link>)
    ensures TotalClicks(a + b) == TotalClicks(a) + TotalClicks(b)
  {
    if a != [] {
      assert (a + b)[1..] == a[1..] + b;
      ClicksAppend(a[1..], b);
    } else {
      assert a + b == b;
    }
  }

  lemma {:induction false} InsertAddsClicks(x: Link, s: seq<Link>)
    ensures TotalClicks(Insert(x, s)) == x.clickCount + TotalClicks(s)
  {
    if s != [] && x.orderIndex > s[0].orderIndex {
      InsertAddsClicks(x, s[1..]);
      assert ([s[0]] + Insert(x, s[1..]))[1..] == Insert(x, s[1..]);
    } else {
      assert ([x] + s)[1..] == s;
    }
  }

  /** Sorting does not change the click total. */
  lemma {:induction false} SortKeepsClicks(s: seq<Link>)
    ensures TotalClicks(SortByOrder(s)) == TotalClicks(s)
  {
    if s != [] {
      SortKeepsClicks(s[1..]);
      InsertAddsClicks(s[0], SortByOrder(s[1..]));
    }
  }

  /** The total over a user's listing is the total over the user's links in store order. */
  lemma ListingClicks(ls: seq<Link>, userId: int)
    ensures TotalClicks(LinksOf(ls, userId)) == TotalClicks(OwnedBy(ls, userId))
  {
    SortKeepsClicks(OwnedBy(ls, userId));
  }

  /** Raising one link's counter by one raises the total by exactly one. */
  lemma {:induction false} BumpAddsOneClick(ls: seq<Link>, k: nat, now: string)
    requires k < |ls|
    ensures TotalClicks(ls[k := ls[k].(clickCount := ls[k].clickCount + 1, updatedAt := now)])
            == TotalClicks(ls) + 1
  {
    var bumped := ls[k := ls[k].(clickCount := ls[k].clickCount + 1, updatedAt := now)];
    if k > 0 {
      BumpAddsOneClick(ls[1..], k - 1, now);
      assert bumped[1..] == ls[1..][k - 1 := ls[k].(clickCount := ls[k].clickCount + 1, updatedAt := now)];
    } else {
      assert bumped[1..] == ls[1..];
    }
  }
}
