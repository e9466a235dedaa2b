/**
 * The in-memory store of src/lib/mockData.ts: the two module-level arrays
 * `users` and `links`, seeded with demo data, and the operations that read
 * and change them in place. The clock (the current time as an ISO string) is the
 * `now` argument of every operation that stamps a record.
 */
module MockStore {
  import opened Wrappers
  import opened Types
  import opened Collections
  import opened Text
  import opened Records
  import opened Listing
  import opened Reorder
  import opened Aggregates

  /** The three users the store starts with. */
  function SeedUsers(): seq<User> {
    [JohnDoe(), JaneDoe(), AlexSmith()]
  }

  function JohnDoe(): User {
    User(1, "johndoe", "John Doe", "Digital Creator | Tech Enthusiast | Coffee Lover \U{2615}",
         UnsplashImage("photo-1472099645785-5658abf4ff4e"), "", "default",
         "2024-01-01T00:00:00Z", "2024-01-01T00:00:00Z")
  }

  function JaneDoe(): User {
    User(2, "janedoe", "Jane Doe", "Designer & Photographer \U{1F4F8}",
         UnsplashImage("photo-1494790108377-be9c29b29330"), "", "ocean",
         "2024-01-02T00:00:00Z", "2024-01-02T00:00:00Z")
  }

  function AlexSmith(): User {
    User(3, "alexsmith", "Alex Smith", "Music Producer \U{1F3B5} | Content Creator",
         UnsplashImage("photo-1500648767791-00dcc994a43e"), "", "sunset",
         "2024-01-03T00:00:00Z", "2024-01-03T00:00:00Z")
  }

  /** An Unsplash photo at width 400. */
  function UnsplashImage(photo: string): string {
    "https://images.unsplash.com/" + photo + "?w=400"
  }

  /** The five links the store starts with, all of user 1. */
  function SeedLinks(): seq<Link> {
    [ SeedLink(1, "Instagram", "https://instagram.com/johndoe", "instagram", 0, 145),
      SeedLink(2, "Twitter", "https://twitter.com/johndoe", "twitter", 1, 98),
      SeedLink(3, "YouTube", "https://youtube.com/@johndoe", "youtube", 2, 234),
      SeedLink(4, "Portfolio", "https://johndoe.com", "globe", 3, 187),
      SeedLink(5, "GitHub", "https://github.com/johndoe", "github", 4, 156) ]
  }

  function SeedLink(id: int, title: string, url: string, icon: string, orderIndex: int, clickCount: int): Link {
    Link(id, 1, title, url, icon, orderIndex, clickCount, None, None,
         "2024-01-01T00:00:00Z", "2024-01-01T00:00:00Z")
  }

  /** Ids numbered 1, 2, ... in order are distinct, and the next one is one past the count. */
  lemma NumberedFromOne(ids: seq<int>)
    requires forall k :: 0 <= k < |ids| ==> ids[k] == k + 1
    ensures forall i, j :: 0 <= i < j < |ids| ==> ids[i] != ids[j]
    ensures NextId(ids) == |ids| + 1
  {
    if ids != [] {
      assert ids[|ids| - 1] in ids;
    }
  }

  lemma UsersNumberedFromOne(us: seq<User>)
    requires forall k :: 0 <= k < |UserIds(us)| ==> UserIds(us)[k] == k + 1
    ensures DistinctUserIds(us) && NextId(UserIds(us)) == |us| + 1
  {
    NumberedFromOne(UserIds(us));
    forall i, j | 0 <= i < j < |us| ensures us[i].id != us[j].id {
      assert us[i].id == UserIds(us)[i] && us[j].id == UserIds(us)[j];
    }
  }

  lemma LinksNumberedFromOne(ls: seq<Link>)
    requires forall k :: 0 <= k < |LinkIds(ls)| ==> LinkIds(ls)[k] == k + 1
    ensures DistinctIds(ls) && NextId(LinkIds(ls)) == |ls| + 1
  {
    NumberedFromOne(LinkIds(ls));
    forall i, j | 0 <= i < j < |ls| ensures ls[i].id != ls[j].id {
      assert ls[i].id == LinkIds(ls)[i] && ls[j].id == LinkIds(ls)[j];
    }
  }

  lemma SeedUserIds()
    ensures forall k :: 0 <= k < |UserIds(SeedUsers())| ==> UserIds(SeedUsers())[k] == k + 1
  {
  }

  lemma SeedLinkIds()
    ensures forall k :: 0 <= k < |LinkIds(SeedLinks())| ==> LinkIds(SeedLinks())[k] == k + 1
  {
  }

  /** The seed ids are distinct, so the next ids are 4 for users and 6 for links. */
  lemma SeedNextIds()
    ensures DistinctUserIds(SeedUsers()) && DistinctIds(SeedLinks())
    ensures NextId(UserIds(SeedUsers())) == 4
    ensures NextId(LinkIds(SeedLinks())) == 6
  {
    SeedUserIds();
    SeedLinkIds();
    UsersNumberedFromOne(SeedUsers());
    LinksNumberedFromOne(SeedLinks());
  }

  /** Every seed link belongs to the first seed user, John Doe. */
  lemma SeedOwners()
    ensures |SeedUsers()| == 3 && SeedUsers()[0].id == 1
    ensures |SeedLinks()| == 5
    ensures forall k :: 0 <= k < |SeedLinks()| ==> SeedLinks()[k].userId == 1
  {
  }

  class Store {
    var users: seq<User>
    var links: seq<Link>

    /** No two users and no two links share an id. */
    ghost predicate Valid()
      reads this
    {
      DistinctUserIds(users) && DistinctIds(links)
    }

    constructor ()
      ensures users == SeedUsers() && links == SeedLinks()
      ensures Valid()
    {
      users := SeedUsers();
      links := SeedLinks();
      SeedNextIds();
    }

    /** getUsers: the user collection itself, in insertion order. */
    function GetUsers(): (r: seq<User>)
      reads this
      ensures r == users
    {
      users
    }

    /**
     * getUserByUsername: the first user whose username equals the query
     * ignoring case, present exactly when the store has one.
     */
    function GetUserByUsername(username: string): (r: Option<User>)
      reads this
      ensures r.Some? <==> exists i :: 0 <= i < |users| && SameIgnoringCase(users[i].username, username)
      ensures r.Some? ==> r.value in users && SameIgnoringCase(r.value.username, username)
      ensures r.Some? ==>
                exists i :: 0 <= i < |users| && users[i] == r.value &&
                  (forall j :: 0 <= j < i ==> !SameIgnoringCase(users[j].username, username))
    {
      UserByUsername(users, username)
    }

    /**
     * getUserById: the user at the position updateUser and deleteUser act on
     * for the same id, absent exactly when no user has it.
     */
    function GetUserById(id: int): (r: Option<User>)
      reads this
      ensures UserIndex(users, id).None? ==> r.None?
      ensures UserIndex(users, id).Some? ==> r == Some(users[UserIndex(users, id).value])
      ensures r.Some? ==> r.value.id == id
    {
      UserByIdAtIndex(users, id);
      UserById(users, id)
    }

    /**
     * createUser: appends a user with the next id and both timestamps at
     * `now`; the links are untouched.
     */
    method CreateUser(data: UserInput, now: string) returns (u: User)
      modifies this
      ensures u == NewUser(data, NextId(UserIds(old(users))), now)
      ensures users == old(users) + [u] && links == old(links)
      ensures forall x :: x in old(users) ==> x.id < u.id
      ensures old(Valid()) ==> Valid()
    {
      var id := NextId(UserIds(users));
      u := NewUser(data, id, now);
      if Valid() {
        AppendNextUserKeepsDistinct(users, data, now);
      }
      forall x | x in users ensures x.id < u.id {
        var i :| 0 <= i < |users| && users[i] == x;
        assert UserIds(users)[i] == x.id && UserIds(users)[i] in UserIds(users);
      }
      users := users + [u];
    }

    /**
     * updateUser: merges `updates` into the first user with the id and
     * returns the result; absent and no change when there is none.
     */
    method UpdateUser(id: int, updates: UserPatch, now: string) returns (r: Option<User>)
      modifies this
      ensures links == old(links)
      ensures UserIndex(old(users), id).None? ==> r == None && users == old(users)
      ensures UserIndex(old(users), id).Some? ==>
                var k := UserIndex(old(users), id).value;
                users == old(users)[k := MergeUser(old(users)[k], updates, now)] && r == Some(users[k])
      ensures old(Valid()) ==> (Valid() <==> UserPatchKeepsIds(old(users), id, updates))
    {
      var index := UserIndex(users, id);
      if index.Some? {
        var k := index.value;
        if Valid() {
          ReplaceUserKeepsDistinct(users, k, updates, now);
        }
        users := users[k := MergeUser(users[k], updates, now)];
        r := Some(users[k]);
      } else {
        r := None;
      }
    }

    /**
     * deleteUser: removes the first user with the id and every link that
     * user owns, and reports whether there was one; no change otherwise.
     */
    method DeleteUser(id: int) returns (found: bool)
      modifies this
      ensures found == UserIndex(old(users), id).Some?
      ensures found ==> users == RemoveAt(old(users), UserIndex(old(users), id).value)
      ensures found ==> links == NotOwnedBy(old(links), id) && LinksOf(links, id) == []
      ensures !found ==> users == old(users) && links == old(links)
      ensures old(Valid()) ==> Valid()
    {
      var index := UserIndex(users, id);
      if index.Some? {
        if Valid() {
          NotOwnedByKeepsDistinct(links, id);
        }
        users := RemoveAt(users, index.value);
        links := NotOwnedBy(links, id);
        NoLinksAfterCascade(old(links), id);
        found := true;
      } else {
        found := false;
      }
    }

    /**
     * getLinksByUserId: the user's links in ascending orderIndex; a link is
     * listed exactly when it is in the store and belongs to the user.
     */
    function GetLinksByUserId(userId: int): (r: seq<Link>)
      reads this
      ensures Sorted(r)
      ensures forall l :: l in r <==> l in links && l.userId == userId
      ensures |r| == |OwnedBy(links, userId)|
    {
      LinksOfMembers(links, userId);
      LinksOf(links, userId)
    }

    /**
     * createLink: appends a link with the next id and both timestamps at
     * `now`; it shows up in its owner's listing and in no other.
     */
    method CreateLink(data: LinkInput, now: string) returns (l: Link)
      modifies this
      ensures l == NewLink(data, NextId(LinkIds(old(links))), now)
      ensures links == old(links) + [l] && users == old(users)
      ensures forall x :: x in old(links) ==> x.id < l.id
      ensures OwnedBy(links, l.userId) == OwnedBy(old(links), l.userId) + [l]
      ensures forall u :: u != l.userId ==> OwnedBy(links, u) == OwnedBy(old(links), u)
      ensures old(Valid()) ==> Valid()
    {
      var id := NextId(LinkIds(links));
      l := NewLink(data, id, now);
      if Valid() {
        AppendNextLinkKeepsDistinct(links, data, now);
      }
      forall x | x in links ensures x.id < l.id {
        var i :| 0 <= i < |links| && links[i] == x;
        assert LinkIds(links)[i] == x.id && LinkIds(links)[i] in LinkIds(links);
      }
      forall u ensures OwnedBy(links + [l], u) == OwnedBy(links, u) + (if l.userId == u then [l] else []) {
        OwnedByAppend(links, l, u);
      }
      links := links + [l];
    }

    /**
     * updateLink: merges `updates` into the first link with the id and
     * returns the result; absent and no change when there is none.
     */
    method UpdateLink(id: int, updates: LinkPatch, now: string) returns (r: Option<Link>)
      modifies this
      ensures users == old(users)
      ensures LinkIndex(old(links), id).None? ==> r == None && links == old(links)
      ensures LinkIndex(old(links), id).Some? ==>
                var k := LinkIndex(old(links), id).value;
                links == old(links)[k := MergeLink(old(links)[k], updates, now)] && r == Some(links[k])
      ensures old(Valid()) ==> (Valid() <==> LinkPatchKeepsIds(old(links), id, updates))
    {
      var index := LinkIndex(links, id);
      if index.Some? {
        var k := index.value;
        if Valid() {
          ReplaceLinkKeepsDistinct(links, k, updates, now);
        }
        links := links[k := MergeLink(links[k], updates, now)];
        r := Some(links[k]);
      } else {
        r := None;
      }
    }

    /**
     * deleteLink: removes the first link with the id, keeping the others in
     * their order, and reports whether there was one; no change otherwise.
     */
    method DeleteLink(id: int) returns (found: bool)
      modifies this
      ensures users == old(users)
      ensures found == LinkIndex(old(links), id).Some?
      ensures found ==> links == RemoveAt(old(links), LinkIndex(old(links), id).value)
      ensures !found ==> links == old(links)
      ensures old(Valid()) ==> Valid()
    {
      var index := LinkIndex(links, id);
      if index.Some? {
        links := RemoveAt(links, index.value);
        found := true;
      } else {
        found := false;
      }
    }

    /**
     * updateLinkOrder: for i = 0, 1, ... the first link with id linkIds[i]
     * that belongs to `userId` gets orderIndex i (ids of other users and
     * unknown ids are skipped); returns the user's listing afterwards.
     */
    method UpdateLinkOrder(userId: int, linkIds: seq<int>, now: string) returns (listed: seq<Link>)
      modifies this
      ensures links == Reordered(old(links), userId, linkIds, now)
      ensures users == old(users)
      ensures listed == LinksOf(links, userId)
      ensures old(Valid()) ==> Valid()
    {
      ghost var start := links;
      AssignPositions(userId, linkIds, now);
      if DistinctIds(start) {
        ReorderedKeepsDistinct(start, userId, linkIds, now);
      }
      listed := LinksOf(links, userId);
    }

    /**
     * The forEach of updateLinkOrder: for each position i, the user's link
     * that `find` picks for `linkIds[i]`, if any, gets orderIndex i.
     */
    method AssignPositions(userId: int, linkIds: seq<int>, now: string)
      modifies this
      ensures links == Reordered(old(links), userId, linkIds, now)
      ensures users == old(users)
    {
      ghost var start := links;
      ReorderedNothing(start, userId, now);
      var i := 0;
      while i < |linkIds|
        invariant 0 <= i <= |linkIds|
        invariant users == old(users)
        invariant links == Reordered(start, userId, linkIds[..i], now)
      {
        var linkId := linkIds[i];
        ReorderedStepFrom(start, links, userId, linkIds[..i], linkId, now);
        assert linkIds[..i + 1] == linkIds[..i] + [linkId];
        var index := OwnedLinkIndex(links, linkId, userId);
        if index.Some? {
          var k := index.value;
          links := links[k := links[k].(orderIndex := i, updatedAt := now)];
        }
        i := i + 1;
      }
      assert linkIds[..i] == linkIds;
    }

    /**
     * incrementClickCount: the first link with the id counts one more click
     * and is returned; absent and no change when there is none.
     */
    method IncrementClickCount(linkId: int, now: string) returns (r: Option<Link>)
      modifies this
      ensures users == old(users)
      ensures LinkIndex(old(links), linkId).None? ==> r == None && links == old(links)
      ensures LinkIndex(old(links), linkId).Some? ==>
                var k := LinkIndex(old(links), linkId).value;
                links == old(links)[k := old(links)[k].(clickCount := old(links)[k].clickCount + 1, updatedAt := now)] &&
                r == Some(links[k])
      ensures TotalClicks(links) == TotalClicks(old(links)) + (if r.Some? then 1 else 0)
      ensures old(Valid()) ==> Valid()
    {
      var index := LinkIndex(links, linkId);
      if index.Some? {
        var k := index.value;
        BumpAddsOneClick(links, k, now);
        links := links[k := links[k].(clickCount := links[k].clickCount + 1, updatedAt := now)];
        r := Some(links[k]);
      } else {
        r := None;
      }
    }

    /**
     * getAnalytics: the user's click total and link count, one entry per
     * listed link in listing order, and a synthetic seven-day series (oldest
     * first) whose daily values are random draws between 10 and 59.
     */
    method GetAnalytics(userId: int) returns (a: Analytics)
      ensures a.totalClicks == TotalClicks(OwnedBy(links, userId))
      ensures a.totalLinks == |OwnedBy(links, userId)|
      ensures |a.linkStats| == a.totalLinks
      ensures forall j :: 0 <= j < |a.linkStats| ==>
                var l := LinksOf(links, userId)[j];
                a.linkStats[j] == LinkStat(l.id, l.title, l.clickCount, l.url)
      ensures |a.clicksOverTime| == 7
      ensures forall j :: 0 <= j < |a.clicksOverTime| ==>
                a.clicksOverTime[j].daysAgo == 6 - j && 10 <= a.clicksOverTime[j].clicks <= 59
    {
      var userLinks := LinksOf(links, userId);
      var totalClicks := TotalClicks(userLinks);
      ListingClicks(links, userId);
      var clicksOverTime := MockClicksOverTime();
      a := Analytics(totalClicks, |userLinks|, LinkStats(userLinks), clicksOverTime);
    }

    /**
     * getAdminStats: as many users and links as the store holds, the click
     * total over every link, and one entry per user.
     */
    function GetAdminStats(): (r: AdminStats)
      reads this
      ensures r.totalUsers == |users| && r.totalLinks == |links| && |r.users| == |users|
      ensures r.totalClicks == TotalClicks(links)
    {
      AdminStatsOf(users, links)
    }
  }
}
