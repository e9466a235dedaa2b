/**
 * Id assignment, record construction, the partial-update merge and the
 * id / username lookups of the store (src/lib/mockData.ts).
 */
module Records {
  import opened Wrappers
  import opened Types
  import opened Collections
  import opened Text

  // ---------------------------------------------------------------- ids

  /** The ids of the users, one per user, in order. */
  function UserIds(us: seq<User>): (r: seq<int>)
    ensures |r| == |us|
    ensures forall i :: 0 <= i < |us| ==> r[i] == us[i].id
  {
    seq(|us|, i requires 0 <= i < |us| => us[i].id)
  }

  /** The ids of the links, one per link, in order. */
  function LinkIds(ls: seq<Link>): (r: seq<int>)
    ensures |r| == |ls|
    ensures forall i :: 0 <= i < |ls| ==> r[i] == ls[i].id
  {
    seq(|ls|, i requires 0 <= i < |ls| => ls[i].id)
  }

  /** The largest id of a non-empty list: an element that no element exceeds. */
  function MaxOf(ids: seq<int>): (m: int)
    requires |ids| > 0
    ensures m in ids
    ensures forall x :: x in ids ==> x <= m
  {
    if |ids| == 1 then ids[0]
    else
      var rest := MaxOf(ids[1..]);
      assert forall x :: x in ids ==> x == ids[0] || x in ids[1..];
      if ids[0] >= rest then ids[0] else rest
  }

  /**
   * The id a new record receives: 1 in an empty collection, otherwise one more
   * than the largest id present; in both cases larger than every id present.
   */
  function NextId(ids: seq<int>): (r: int)
    ensures ids == [] ==> r == 1
    ensures ids != [] ==> r - 1 in ids
    ensures forall x :: x in ids ==> x < r
  {
    if |ids| > 0 then MaxOf(ids) + 1 else 1
  }

  /** No two users share an id. */
  predicate DistinctUserIds(us: seq<User>) {
    forall i, j :: 0 <= i < j < |us| ==> us[i].id != us[j].id
  }

  /** No two links share an id. */
  predicate DistinctIds(ls: seq<Link>) {
    forall i, j :: 0 <= i < j < |ls| ==> ls[i].id != ls[j].id
  }

  // ---------------------------------------------------------------- creation

  /** The record createUser builds: the given fields, the id, both timestamps set to `now`. */
  function NewUser(d: UserInput, id: int, now: string): (r: User)
    ensures r.id == id && r.createdAt == now && r.updatedAt == now
    ensures UserInput(r.username, r.name, r.bio, r.profileImage, r.backgroundImage, r.theme) == d
  {
    User(id, d.username, d.name, d.bio, d.profileImage, d.backgroundImage, d.theme, now, now)
  }

  /** The record createLink builds: likewise the given fields, the id and `now` twice. */
  function NewLink(d: LinkInput, id: int, now: string): (r: Link)
    ensures r.id == id && r.createdAt == now && r.updatedAt == now
    ensures LinkInput(r.userId, r.title, r.url, r.icon, r.orderIndex, r.clickCount,
                      r.layout, r.thumbnail) == d
  {
    Link(id, d.userId, d.title, d.url, d.icon, d.orderIndex, d.clickCount,
         d.layout, d.thumbnail, now, now)
  }

  /** Appending a record with the next id keeps the user ids distinct. */
  lemma AppendNextUserKeepsDistinct(us: seq<User>, d: UserInput, now: string)
    requires DistinctUserIds(us)
    ensures DistinctUserIds(us + [NewUser(d, NextId(UserIds(us)), now)])
  {
    var u := NewUser(d, NextId(UserIds(us)), now);
    forall i | 0 <= i < |us| ensures us[i].id < u.id {
      assert UserIds(us)[i] == us[i].id && UserIds(us)[i] in UserIds(us);
    }
  }

  /** Appending a record with the next id keeps the link ids distinct. */
  lemma AppendNextLinkKeepsDistinct(ls: seq<Link>, d: LinkInput, now: string)
    requires DistinctIds(ls)
    ensures DistinctIds(ls + [NewLink(d, NextId(LinkIds(ls)), now)])
  {
    var l := NewLink(d, NextId(LinkIds(ls)), now);
    forall i | 0 <= i < |ls| ensures ls[i].id < l.id {
      assert LinkIds(ls)[i] == ls[i].id && LinkIds(ls)[i] in LinkIds(ls);
    }
  }

  // ---------------------------------------------------------------- partial updates

  /**
   * The spread merge of updateUser: every field present in the patch replaces
   * the old one, every absent field is kept, and updatedAt is `now` whatever
   * the patch says.
   */
  function MergeUser(u: User, p: UserPatch, now: string): (r: User)
    ensures r.updatedAt == now
    ensures p.id.Some? ==> r.id == p.id.value
    ensures p.id.None? ==> r.id == u.id
    ensures p.username.Some? ==> r.username == p.username.value
    ensures p.username.None? ==> r.username == u.username
    ensures p.name.Some? ==> r.name == p.name.value
    ensures p.name.None? ==> r.name == u.name
    ensures p.bio.Some? ==> r.bio == p.bio.value
    ensures p.bio.None? ==> r.bio == u.bio
    ensures p.profileImage.Some? ==> r.profileImage == p.profileImage.value
    ensures p.profileImage.None? ==> r.profileImage == u.profileImage
    ensures p.backgroundImage.Some? ==> r.backgroundImage == p.backgroundImage.value
    ensures p.backgroundImage.None? ==> r.backgroundImage == u.backgroundImage
    ensures p.theme.Some? ==> r.theme == p.theme.value
    ensures p.theme.None? ==> r.theme == u.theme
    ensures p.createdAt.Some? ==> r.createdAt == p.createdAt.value
    ensures p.createdAt.None? ==> r.createdAt == u.createdAt
  {
    User(p.id.GetOr(u.id),
         p.username.GetOr(u.username),
         p.name.GetOr(u.name),
         p.bio.GetOr(u.bio),
         p.profileImage.GetOr(u.profileImage),
         p.backgroundImage.GetOr(u.backgroundImage),
         p.theme.GetOr(u.theme),
         p.createdAt.GetOr(u.createdAt),
         now)
  }

  /** The same merge on a link (updateLink). */
  function MergeLink(l: Link, p: LinkPatch, now: string): (r: Link)
    ensures r.updatedAt == now
    ensures p.id.Some? ==> r.id == p.id.value
    ensures p.id.None? ==> r.id == l.id
    ensures p.userId.Some? ==> r.userId == p.userId.value
    ensures p.userId.None? ==> r.userId == l.userId
    ensures p.title.Some? ==> r.title == p.title.value
    ensures p.title.None? ==> r.title == l.title
    ensures p.url.Some? ==> r.url == p.url.value
    ensures p.url.None? ==> r.url == l.url
    ensures p.icon.Some? ==> r.icon == p.icon.value
    ensures p.icon.None? ==> r.icon == l.icon
    ensures p.orderIndex.Some? ==> r.orderIndex == p.orderIndex.value
    ensures p.orderIndex.None? ==> r.orderIndex == l.orderIndex
    ensures p.clickCount.Some? ==> r.clickCount == p.clickCount.value
    ensures p.clickCount.None? ==> r.clickCount == l.clickCount
    ensures p.layout.Some? ==> r.layout == p.layout.value
    ensures p.layout.None? ==> r.layout == l.layout
    ensures p.thumbnail.Some? ==> r.thumbnail == p.thumbnail.value
    ensures p.thumbnail.None? ==> r.thumbnail == l.thumbnail
    ensures p.createdAt.Some? ==> r.createdAt == p.createdAt.value
    ensures p.createdAt.None? ==> r.createdAt == l.createdAt
  {
    Link(p.id.GetOr(l.id),
         p.userId.GetOr(l.userId),
         p.title.GetOr(l.title),
         p.url.GetOr(l.url),
         p.icon.GetOr(l.icon),
         p.orderIndex.GetOr(l.orderIndex),
         p.clickCount.GetOr(l.clickCount),
         p.layout.GetOr(l.layout),
         p.thumbnail.GetOr(l.thumbnail),
         p.createdAt.GetOr(l.createdAt),
         now)
  }

  /** Spreading one patch over another: the later patch wins wherever it has a field. */
  function CombineUserPatches(p: UserPatch, q: UserPatch): UserPatch {
    UserPatch(Override(p.id, q.id), Override(p.username, q.username), Override(p.name, q.name),
              Override(p.bio, q.bio), Override(p.profileImage, q.profileImage),
              Override(p.backgroundImage, q.backgroundImage), Override(p.theme, q.theme),
              Override(p.createdAt, q.createdAt), Override(p.updatedAt, q.updatedAt))
  }

  function CombineLinkPatches(p: LinkPatch, q: LinkPatch): LinkPatch {
    LinkPatch(Override(p.id, q.id), Override(p.userId, q.userId), Override(p.title, q.title),
              Override(p.url, q.url), Override(p.icon, q.icon),
              Override(p.orderIndex, q.orderIndex), Override(p.clickCount, q.clickCount),
              Override(p.layout, q.layout), Override(p.thumbnail, q.thumbnail),
              Override(p.createdAt, q.createdAt), Override(p.updatedAt, q.updatedAt))
  }

  function Override<T>(first: Option<T>, second: Option<T>): Option<T> {
    if second.Some? then second else first
  }

  const EmptyUserPatch := UserPatch(None, None, None, None, None, None, None, None, None)
  const EmptyLinkPatch := LinkPatch(None, None, None, None, None, None, None, None, None, None, None)

  /** An empty patch changes nothing but the update time. */
  lemma MergeUserEmpty(u: User, now: string)
    ensures MergeUser(u, EmptyUserPatch, now) == u.(updatedAt := now)
  {
  }

  lemma MergeLinkEmpty(l: Link, now: string)
    ensures MergeLink(l, EmptyLinkPatch, now) == l.(updatedAt := now)
  {
  }

  /** Two successive partial updates are one update with the combined patch. */
  lemma MergeUserComposes(u: User, p: UserPatch, q: UserPatch, t1: string, t2: string)
    ensures MergeUser(MergeUser(u, p, t1), q, t2) == MergeUser(u, CombineUserPatches(p, q), t2)
  {
  }

  lemma MergeLinkComposes(l: Link, p: LinkPatch, q: LinkPatch, t1: string, t2: string)
    ensures MergeLink(MergeLink(l, p, t1), q, t2) == MergeLink(l, CombineLinkPatches(p, q), t2)
  {
  }

  /** A patch without an id keeps the record's id (and a link's owner when it has no userId). */
  lemma MergeKeepsKeys(u: User, l: Link, p: UserPatch, q: LinkPatch, now: string)
    ensures p.id.None? ==> MergeUser(u, p, now).id == u.id
    ensures q.id.None? ==> MergeLink(l, q, now).id == l.id
    ensures q.userId.None? ==> MergeLink(l, q, now).userId == l.userId
  {
  }

  /**
   * Nothing in the merge protects the id: a patch carrying another user's id
   * leaves two users with one id.
   */
  lemma UpdateCanDuplicateUserIds(u1: User, u2: User, now: string)
    requires u1.id != u2.id
    ensures DistinctUserIds([u1, u2])
    ensures !DistinctUserIds([u1, u2][1 := MergeUser(u2, EmptyUserPatch.(id := Some(u1.id)), now)])
  {
    var after := [u1, u2][1 := MergeUser(u2, EmptyUserPatch.(id := Some(u1.id)), now)];
    assert after[0].id == after[1].id;
  }

  /**
   * The patch of the record at `k` leaves the user ids distinct: it carries no
   * id, or one that no other user has (the record's own id included).
   */
  predicate UserIdFree(us: seq<User>, k: nat, id: Option<int>) {
    id.None? || forall j :: 0 <= j < |us| && j != k ==> us[j].id != id.value
  }

  predicate LinkIdFree(ls: seq<Link>, k: nat, id: Option<int>) {
    id.None? || forall j :: 0 <= j < |ls| && j != k ==> ls[j].id != id.value
  }

  /**
   * Replacing one user by a merge keeps the user ids distinct exactly when the
   * patch's id, if any, is free.
   */
  lemma ReplaceUserKeepsDistinct(us: seq<User>, k: nat, p: UserPatch, now: string)
    requires k < |us| && DistinctUserIds(us)
    ensures DistinctUserIds(us[k := MergeUser(us[k], p, now)]) <==> UserIdFree(us, k, p.id)
  {
    var after := us[k := MergeUser(us[k], p, now)];
    if !UserIdFree(us, k, p.id) {
      var j :| 0 <= j < |us| && j != k && us[j].id == p.id.value;
      assert after[j].id == after[k].id;
    }
  }

  /**
   * Replacing one link by a merge keeps the link ids distinct exactly when the
   * patch's id, if any, is free.
   */
  lemma ReplaceLinkKeepsDistinct(ls: seq<Link>, k: nat, p: LinkPatch, now: string)
    requires k < |ls| && DistinctIds(ls)
    ensures DistinctIds(ls[k := MergeLink(ls[k], p, now)]) <==> LinkIdFree(ls, k, p.id)
  {
    var after := ls[k := MergeLink(ls[k], p, now)];
    if !LinkIdFree(ls, k, p.id) {
      var j :| 0 <= j < |ls| && j != k && ls[j].id == p.id.value;
      assert after[j].id == after[k].id;
    }
  }

  // ---------------------------------------------------------------- lookups

  /** The position of the first user with the id, absent when there is none. */
  function UserIndex(us: seq<User>, id: int): (r: Option<nat>)
    ensures r.Some? ==> r.value < |us| && us[r.value].id == id
    ensures r.Some? ==> forall j :: 0 <= j < r.value ==> us[j].id != id
    ensures r.None? <==> forall j :: 0 <= j < |us| ==> us[j].id != id
  {
    FindIndex(us, (u: User) => u.id == id)
  }

  /** The position of the first link with the id, absent when there is none. */
  function LinkIndex(ls: seq<Link>, id: int): (r: Option<nat>)
    ensures r.Some? ==> r.value < |ls| && ls[r.value].id == id
    ensures r.Some? ==> forall j :: 0 <= j < r.value ==> ls[j].id != id
    ensures r.None? <==> forall j :: 0 <= j < |ls| ==> ls[j].id != id
  {
    FindIndex(ls, (l: Link) => l.id == id)
  }

  /** getUserById: the first user with the id, absent when there is none. */
  function UserById(us: seq<User>, id: int): (r: Option<User>)
    ensures r.Some? <==> exists i :: 0 <= i < |us| && us[i].id == id
    ensures r.Some? ==> r.value in us && r.value.id == id
    ensures r.Some? ==>
              exists i :: 0 <= i < |us| && us[i] == r.value &&
                (forall j :: 0 <= j < i ==> us[j].id != id)
    ensures r.Some? && DistinctUserIds(us) ==>
              forall i :: 0 <= i < |us| && us[i].id == id ==> us[i] == r.value
  {
    Find(us, (u: User) => u.id == id)
  }

  /** The user getUserById finds is the one at the position updateUser and deleteUser act on. */
  lemma UserByIdAtIndex(us: seq<User>, id: int)
    ensures UserIndex(us, id).None? ==> UserById(us, id).None?
    ensures UserIndex(us, id).Some? ==> UserById(us, id) == Some(us[UserIndex(us, id).value])
  {
    if UserIndex(us, id).Some? {
      var k := UserIndex(us, id).value;
      var r := UserById(us, id);
      assert us[k].id == id;
      assert r.Some? && r.value.id == id;
      var i :| 0 <= i < |us| && us[i] == r.value &&
                 (forall j :: 0 <= j < i ==> us[j].id != id);
      assert !(i < k) && !(k < i);
    }
  }

  /**
   * updateUser's patch keeps the user ids distinct: there is no user with the
   * id, or the patch's own id is free at that user's position.
   */
  predicate UserPatchKeepsIds(us: seq<User>, id: int, p: UserPatch) {
    match UserIndex(us, id)
    case None => true
    case Some(k) => UserIdFree(us, k, p.id)
  }

  /** updateLink's patch keeps the link ids distinct, in the same sense. */
  predicate LinkPatchKeepsIds(ls: seq<Link>, id: int, p: LinkPatch) {
    match LinkIndex(ls, id)
    case None => true
    case Some(k) => LinkIdFree(ls, k, p.id)
  }

  /**
   * getUserByUsername: the first user whose lower-cased username equals the
   * lower-cased query, absent when there is none.
   */
  function UserByUsername(us: seq<User>, username: string): (r: Option<User>)
    ensures r.Some? <==> exists i :: 0 <= i < |us| && SameIgnoringCase(us[i].username, username)
    ensures r.Some? ==> r.value in us && SameIgnoringCase(r.value.username, username)
    ensures r.Some? ==>
              exists i :: 0 <= i < |us| && us[i] == r.value &&
                (forall j :: 0 <= j < i ==> !SameIgnoringCase(us[j].username, username))
  {
    Find(us, (u: User) => Lower(u.username) == Lower(username))
  }

  /** Two queries that agree after lower-casing find the same user. */
  lemma {:induction false} UsernameLookupIgnoresCase(us: seq<User>, a: string, b: string)
    requires Lower(a) == Lower(b)
    ensures UserByUsername(us, a) == UserByUsername(us, b)
  {
    FindIndexAgree(us, (u: User) => Lower(u.username) == Lower(a),
                   us, (u: User) => Lower(u.username) == Lower(b));
  }

  /** Querying "JohnDoe" and "johndoe" gives the same result, whatever the users. */
  lemma JohnDoeIsJohndoe(us: seq<User>)
    ensures UserByUsername(us, "JohnDoe") == UserByUsername(us, "johndoe")
  {
    assert Lower("JohnDoe") == Lower("johndoe");
    UsernameLookupIgnoresCase(us, "JohnDoe", "johndoe");
  }
}
