/**
 * Bulk reordering of one user's links (updateLinkOrder): for every position
 * `i` of the given id list, the user's link with id `linkIds[i]` receives
 * orderIndex `i`.
 */
module Reorder {
  import opened Wrappers
  import opened Types
  import opened Collections
  import opened Records
  import opened Listing

  /** The position of the first link with the id that belongs to the user: the link `find` picks. */
  function OwnedLinkIndex(ls: seq<Link>, linkId: int, userId: int): (r: Option<nat>)
    ensures r.Some? ==> r.value < |ls| && ls[r.value].id == linkId && ls[r.value].userId == userId
    ensures r.Some? ==> forall j :: 0 <= j < r.value ==> !(ls[j].id == linkId && ls[j].userId == userId)
    ensures r.None? <==> forall j :: 0 <= j < |ls| ==> !(ls[j].id == linkId && ls[j].userId == userId)
  {
    FindIndex(ls, (l: Link) => l.id == linkId && l.userId == userId)
  }

  /** The last position of `x` in `ids`: where a repeated id ends up. */
  function LastIndex(ids: seq<int>, x: int): (r: nat)
    requires x in ids
    ensures r < |ids| && ids[r] == x
    ensures forall j :: r < j < |ids| ==> ids[j] != x
  {
    if ids[|ids| - 1] == x then |ids| - 1 else LastIndex(ids[..|ids| - 1], x)
  }

  /** `ls[k]` belongs to `userId` and no earlier link of that user has its id: the one `find` returns. */
  predicate FirstOwned(ls: seq<Link>, k: nat, userId: int)
    requires k < |ls|
  {
    ls[k].userId == userId &&
    forall j :: 0 <= j < k ==> !(ls[j].id == ls[k].id && ls[j].userId == userId)
  }

  /** The link at `k` after the reorder. */
  function Reassigned(ls: seq<Link>, k: nat, userId: int, linkIds: seq<int>, now: string): (r: Link)
    requires k < |ls|
    ensures r == ls[k].(orderIndex := r.orderIndex, updatedAt := r.updatedAt)
    ensures r != ls[k] ==> ls[k].userId == userId && ls[k].id in linkIds
    ensures r != ls[k] ==> r.updatedAt == now && 0 <= r.orderIndex < |linkIds| && linkIds[r.orderIndex] == ls[k].id
  {
    if FirstOwned(ls, k, userId) && ls[k].id in linkIds
    then ls[k].(orderIndex := LastIndex(linkIds, ls[k].id), updatedAt := now)
    else ls[k]
  }

  /** The link collection after updateLinkOrder(userId, linkIds), position by position. */
  function Reordered(ls: seq<Link>, userId: int, linkIds: seq<int>, now: string): (r: seq<Link>)
    ensures |r| == |ls|
  {
    seq(|ls|, k requires 0 <= k < |ls| => Reassigned(ls, k, userId, linkIds, now))
  }

  /** Whatever the ids, other users' links and links whose id is not listed are left as they were. */
  lemma ReorderedLeavesOthers(ls: seq<Link>, userId: int, linkIds: seq<int>, now: string)
    ensures forall k :: 0 <= k < |ls| && ls[k].userId != userId ==>
              Reordered(ls, userId, linkIds, now)[k] == ls[k]
    ensures forall k :: 0 <= k < |ls| && ls[k].id !in linkIds ==>
              Reordered(ls, userId, linkIds, now)[k] == ls[k]
  {
  }

  /** An empty id list changes nothing. */
  lemma ReorderedNothing(ls: seq<Link>, userId: int, now: string)
    ensures Reordered(ls, userId, [], now) == ls
  {
  }

  /**
   * The reorder touches only orderIndex and updatedAt: ids, owners and every
   * other field stay, and so does the position of each link.
   */
  lemma ReorderedKeepsFields(ls: seq<Link>, userId: int, linkIds: seq<int>, now: string)
    ensures forall k :: 0 <= k < |ls| ==>
              var r := Reordered(ls, userId, linkIds, now);
              r[k] == ls[k].(orderIndex := r[k].orderIndex, updatedAt := r[k].updatedAt)
  {
  }

  /**
   * With distinct link ids: a link of `userId` whose id is listed ends at the
   * LAST position of its id in `linkIds`; links of other users and unlisted
   * links are left exactly as they were.
   */
  lemma ReorderedPositions(ls: seq<Link>, userId: int, linkIds: seq<int>, now: string, k: nat)
    requires DistinctIds(ls) && k < |ls|
    ensures var r := Reordered(ls, userId, linkIds, now);
            if ls[k].userId == userId && ls[k].id in linkIds
            then 0 <= r[k].orderIndex < |linkIds| && linkIds[r[k].orderIndex] == ls[k].id &&
                 (forall j :: r[k].orderIndex < j < |linkIds| ==> linkIds[j] != ls[k].id)
            else r[k] == ls[k]
  {
  }

  /** The reorder keeps the link ids distinct. */
  lemma ReorderedKeepsDistinct(ls: seq<Link>, userId: int, linkIds: seq<int>, now: string)
    requires DistinctIds(ls)
    ensures DistinctIds(Reordered(ls, userId, linkIds, now))
  {
  }

  /** Where an id lands in a list extended by one more id. */
  lemma LastIndexAppend(p: seq<int>, x: int, y: int)
    requires y in p + [x]
    ensures y == x ==> LastIndex(p + [x], y) == |p|
    ensures y != x ==> y in p && LastIndex(p + [x], y) == LastIndex(p, y)
  {
    assert (p + [x])[..|p|] == p;
  }

  /** The positions `find` picks depend only on ids and owners, which the reorder keeps. */
  lemma SameKeysSameIndex(a: seq<Link>, b: seq<Link>, linkId: int, userId: int)
    requires |a| == |b|
    requires forall k :: 0 <= k < |a| ==> a[k].id == b[k].id && a[k].userId == b[k].userId
    ensures OwnedLinkIndex(a, linkId, userId) == OwnedLinkIndex(b, linkId, userId)
  {
    FindIndexAgree(a, (l: Link) => l.id == linkId && l.userId == userId,
                   b, (l: Link) => l.id == linkId && l.userId == userId);
  }

  /**
   * One more iteration of the forEach: the link `find` picks for the next id
   * (if any) gets the next position; nothing else moves.
   */
  lemma ReorderedStep(ls: seq<Link>, userId: int, p: seq<int>, x: int, now: string)
    ensures Reordered(ls, userId, p + [x], now) ==
            match OwnedLinkIndex(ls, x, userId)
            case None => Reordered(ls, userId, p, now)
            case Some(k) =>
              Reordered(ls, userId, p, now)[k := Reordered(ls, userId, p, now)[k].(orderIndex := |p|, updatedAt := now)]
  {
    var before := Reordered(ls, userId, p, now);
    var after := Reordered(ls, userId, p + [x], now);
    var idx := OwnedLinkIndex(ls, x, userId);
    var expected := match idx
      case None => before
      case Some(k) => before[k := before[k].(orderIndex := |p|, updatedAt := now)];
    forall m | 0 <= m < |ls| ensures after[m] == expected[m] {
      var y := ls[m].id;
      var picked := FirstOwned(ls, m, userId) && y == x;
      assert picked <==> idx == Some(m);
      if y in p + [x] {
        LastIndexAppend(p, x, y);
      }
    }
  }

  /** The same step, seen from the collection as it stands before that iteration. */
  lemma ReorderedStepFrom(ls: seq<Link>, cur: seq<Link>, userId: int, p: seq<int>, x: int, now: string)
    requires cur == Reordered(ls, userId, p, now)
    ensures Reordered(ls, userId, p + [x], now) ==
            match OwnedLinkIndex(cur, x, userId)
            case None => cur
            case Some(k) => cur[k := cur[k].(orderIndex := |p|, updatedAt := now)]
  {
    ReorderedKeepsFields(ls, userId, p, now);
    SameKeysSameIndex(cur, ls, x, userId);
    ReorderedStep(ls, userId, p, x, now);
  }

  /**
   * When `linkIds` is a permutation of the user's link ids (and link ids are
   * distinct), the user's listing afterwards is exactly `linkIds` in order,
   * with orderIndex values 0, 1, ..., n-1.
   */
  lemma ReorderThenList(ls: seq<Link>, userId: int, linkIds: seq<int>, now: string)
    requires DistinctIds(ls)
    requires multiset(linkIds) == multiset(LinkIds(OwnedBy(ls, userId)))
    ensures var r := LinksOf(Reordered(ls, userId, linkIds, now), userId);
            |r| == |linkIds| &&
            forall j :: 0 <= j < |r| ==> r[j].id == linkIds[j] && r[j].orderIndex == j
  {
    var rs := Reordered(ls, userId, linkIds, now);
    var owned := OwnedBy(rs, userId);
    ReorderedKeepsFields(ls, userId, linkIds, now);
    SameKeysSameOwned(rs, ls, userId);
    assert |linkIds| == |multiset(linkIds)| == |LinkIds(OwnedBy(ls, userId))|;
    OwnedAtTheirPositions(ls, userId, linkIds, now);
    ReorderedKeepsDistinct(ls, userId, linkIds, now);
    OwnedByKeepsDistinct(rs, userId);
    SortKeepsDistinct(owned);
    ListedAtTheirPositions(owned, SortByOrder(owned), linkIds);
    assert LinksOf(rs, userId) == SortByOrder(owned);
  }

  /** After the reorder, each of the user's links carries the position of its id in the permutation. */
  lemma OwnedAtTheirPositions(ls: seq<Link>, userId: int, linkIds: seq<int>, now: string)
    requires DistinctIds(ls)
    requires multiset(linkIds) == multiset(LinkIds(OwnedBy(ls, userId)))
    ensures forall l :: l in OwnedBy(Reordered(ls, userId, linkIds, now), userId) ==>
              0 <= l.orderIndex < |linkIds| && linkIds[l.orderIndex] == l.id
  {
    var rs := Reordered(ls, userId, linkIds, now);
    OwnedByMembers(rs, userId);
    OwnedByMembers(ls, userId);
    forall l | l in OwnedBy(rs, userId) ensures 0 <= l.orderIndex < |linkIds| && linkIds[l.orderIndex] == l.id {
      var k :| 0 <= k < |rs| && rs[k] == l;
      assert ls[k] in OwnedBy(ls, userId);
      IdListed(OwnedBy(ls, userId), ls[k]);
      assert ls[k].id in multiset(linkIds);
      ReorderedPositions(ls, userId, linkIds, now, k);
    }
  }

  /**
   * A sorted rearrangement of links with distinct ids, each sitting at the
   * position of its id in `linkIds`, and as many as `linkIds`, is `linkIds` in order.
   */
  lemma ListedAtTheirPositions(owned: seq<Link>, s: seq<Link>, linkIds: seq<int>)
    requires multiset(s) == multiset(owned) && Sorted(s) && DistinctIds(s) && |s| == |linkIds|
    requires forall l :: l in owned ==> 0 <= l.orderIndex < |linkIds| && linkIds[l.orderIndex] == l.id
    ensures forall j :: 0 <= j < |s| ==> s[j].id == linkIds[j] && s[j].orderIndex == j
  {
    forall i | 0 <= i < |s| ensures 0 <= s[i].orderIndex < |s| && linkIds[s[i].orderIndex] == s[i].id {
      assert s[i] in multiset(s);
    }
    assert forall i, j :: 0 <= i < j < |s| ==> s[i].orderIndex < s[j].orderIndex;
    forall j | 0 <= j < |s| ensures s[j].orderIndex == j {
      AtLeastPosition(s, j);
      AtMostPosition(s, j);
    }
  }

  /** The id of every link in a sequence is among its ids. */
  lemma IdListed(ls: seq<Link>, l: Link)
    requires l in ls
    ensures l.id in LinkIds(ls)
  {
    var k :| 0 <= k < |ls| && ls[k] == l;
    assert LinkIds(ls)[k] == l.id;
  }

  /** Two collections with the same ids and owners at every position have owner filters of equal length. */
  lemma {:induction false} SameKeysSameOwned(a: seq<Link>, b: seq<Link>, userId: int)
    requires |a| == |b|
    requires forall k :: 0 <= k < |a| ==> a[k].id == b[k].id && a[k].userId == b[k].userId
    ensures |OwnedBy(a, userId)| == |OwnedBy(b, userId)|
  {
    if a != [] {
      SameKeysSameOwned(a[1..], b[1..], userId);
    }
  }

  lemma {:induction false} AtLeastPosition(s: seq<Link>, j: nat)
    requires j < |s|
    requires forall i :: 0 <= i < |s| ==> 0 <= s[i].orderIndex
    requires forall i, k :: 0 <= i < k < |s| ==> s[i].orderIndex < s[k].orderIndex
    ensures s[j].orderIndex >= j
  {
    if j > 0 {
      AtLeastPosition(s, j - 1);
    }
  }

  lemma {:induction false} AtMostPosition(s: seq<Link>, j: nat)
    requires j < |s|
    requires forall i :: 0 <= i < |s| ==> s[i].orderIndex < |s|
    requires forall i, k :: 0 <= i < k < |s| ==> s[i].orderIndex < s[k].orderIndex
    ensures s[j].orderIndex <= j
    decreases |s| - j
  {
    if j < |s| - 1 {
      AtMostPosition(s, j + 1);
    }
  }

  /** ReorderThenList for a collection that holds only the user's links. */
  lemma ReorderSoleOwner(ls: seq<Link>, userId: int, linkIds: seq<int>, now: string)
    requires DistinctIds(ls)
    requires forall k :: 0 <= k < |ls| ==> ls[k].userId == userId
    requires multiset(linkIds) == multiset(LinkIds(ls))
    ensures var r := LinksOf(Reordered(ls, userId, linkIds, now), userId);
            |r| == |linkIds| &&
            forall j :: 0 <= j < |r| ==> r[j].id == linkIds[j] && r[j].orderIndex == j
  {
    OwnedByNoneOther(ls, userId);
    ReorderThenList(ls, userId, linkIds, now);
  }

  /** Links 1, 2, 3 have distinct ids, and [3, 1, 2] rearranges them. */
  lemma ThreeLinks(ls: seq<Link>)
    requires |ls| == 3 && ls[0].id == 1 && ls[1].id == 2 && ls[2].id == 3
    ensures DistinctIds(ls) && multiset([3, 1, 2]) == multiset(LinkIds(ls))
  {
    assert LinkIds(ls) == [1, 2, 3];
    ThreeRotated();
  }

  lemma ThreeRotated()
    ensures multiset([3, 1, 2]) == multiset([1, 2, 3])
  {
  }

  /**
   * A user who owns the links 1, 2 and 3 reorders them as [3, 1, 2]: the
   * listing is then 3, 1, 2 with orderIndex 0, 1, 2.
   */
  lemma ReorderThreeLinks(ls: seq<Link>, userId: int, now: string)
    requires |ls| == 3 && ls[0].id == 1 && ls[1].id == 2 && ls[2].id == 3
    requires forall k :: 0 <= k < 3 ==> ls[k].userId == userId
    ensures var r := LinksOf(Reordered(ls, userId, [3, 1, 2], now), userId);
            |r| == 3 && r[0].id == 3 && r[1].id == 1 && r[2].id == 2 &&
            r[0].orderIndex == 0 && r[1].orderIndex == 1 && r[2].orderIndex == 2
  {
    ThreeLinks(ls);
    ReorderSoleOwner(ls, userId, [3, 1, 2], now);
  }
}
