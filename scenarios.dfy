/**
 * A client of the store, relying on the contracts of its operations and on
 * the lemmas OwnedByNone, SwapTwo and CascadeOfSoleOwner: a new user with two
 * links swaps their order, and the listing, the analytics series and the
 * cascade of deleteUser behave as the store promises.
 */
module StoreScenarios {
  import opened Wrappers
  import opened Types
  import opened Records
  import opened Listing
  import opened Reorder
  import opened MockStore

  /** A freshly seeded store, described by the facts the scenarios need. */
  method SeededStore() returns (s: Store)
    ensures fresh(s) && s.Valid()
    ensures NextId(UserIds(s.users)) == 4
    ensures |s.users| == 3 && s.users[0].id == 1
    ensures |s.links| == 5 && forall k :: 0 <= k < |s.links| ==> s.links[k].userId == 1
  {
    s := new Store();
    SeedNextIds();
    SeedOwners();
  }

  /** Swapping the two links of a user is a rearrangement of that user's link ids. */
  lemma PairSwapped(ls: seq<Link>, userId: int, first: Link, second: Link)
    requires OwnedBy(ls, userId) == [first, second]
    ensures multiset([second.id, first.id]) == multiset(LinkIds(OwnedBy(ls, userId)))
  {
    assert LinkIds([first, second]) == [first.id, second.id];
    assert multiset([second.id, first.id]) == multiset([first.id, second.id]);
  }

  /** A user with exactly two links, of distinct ids, swaps them. */
  lemma SwapTwo(ls: seq<Link>, userId: int, first: Link, second: Link, now: string)
    requires DistinctIds(ls)
    requires OwnedBy(ls, userId) == [first, second]
    ensures var r := LinksOf(Reordered(ls, userId, [second.id, first.id], now), userId);
            |r| == 2 && r[0].id == second.id && r[1].id == first.id &&
            r[0].orderIndex == 0 && r[1].orderIndex == 1
  {
    PairSwapped(ls, userId, first, second);
    ReorderThenList(ls, userId, [second.id, first.id], now);
  }

  method AliceSwapsHerLinks() {
    var s := SeededStore();
    var alice := s.CreateUser(UserInput("alice", "Alice", "", "", "", "default"), "t0");
    assert alice.id == 4;
    OwnedByNone(s.links, alice.id);
    var first := s.CreateLink(LinkInput(alice.id, "Blog", "https://alice.dev", "globe", 0, 0, None, None), "t1");
    var second := s.CreateLink(LinkInput(alice.id, "Shop", "https://shop.alice.dev", "globe", 1, 0, None, None), "t2");
    assert OwnedBy(s.links, alice.id) == [first, second];
    assert s.Valid();
    var order := [second.id, first.id];
    SwapTwo(s.links, alice.id, first, second, "t3");
    var listed := s.UpdateLinkOrder(alice.id, order, "t3");
    assert listed[0].id == second.id && listed[1].id == first.id;
    assert listed[0].orderIndex == 0 && listed[1].orderIndex == 1;
    var summary := s.GetAnalytics(alice.id);
    assert |summary.clicksOverTime| == 7;
  }

  method DeletingJohnDeletesHisLinks() {
    var s := SeededStore();
    ghost var before := s.links;
    var found := s.DeleteUser(1);
    assert found;
    assert s.GetLinksByUserId(1) == [];
    CascadeOfSoleOwner(before, 1);
    assert |s.users| == 2 && |s.links| == 0;
  }
}
