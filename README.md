# Link-in-bio store, in Dafny

This project models the single in-memory store behind a "link in bio" web
product, plus one small rule from its A/B-test dialog.

The store (`src/lib/mockData.ts`) holds two module-level arrays, `users` and
`links`, seeded with three demo users and five demo links. Its operations
change those arrays in place:

- create a user or a link, with the next free id;
- merge a partial update into a record;
- delete a record (deleting a user also deletes every link the user owns);
- reorder one user's links in bulk;
- count a click on a link.

Its queries are:

- look a user up by id or by username (ignoring case);
- list one user's links, sorted by `orderIndex`;
- compute per-user analytics;
- compute an administrator's rollup.

The A/B rule (`updateVariationPercentage`) sets one variant's share of traffic
and sets its counterpart to the complement, so the two add up to 100.

Layout, by module:

- `Types`: the `User` and `Link` records, the creation inputs, and the
  partial-update patches (`Partial<User>`, `Partial<Link>`). A patch has one
  `Option` per field, `id` and the timestamps included.
- `Collections`: the array primitives the store uses. These are `findIndex`,
  `find` and `splice(k, 1)`.
- `Text`: lower-casing.
- `Records`: id assignment, record construction, the spread merge of a
  partial update, and the id and username lookups.
- `Listing`: the owner filters, the stable sort on `orderIndex`, the per-user
  listing, and click totals.
- `Reorder`: the effect of `updateLinkOrder`. It is given position by
  position and proved against the loop of the `Store` method.
- `Aggregates`: the analytics and admin-rollup records, and the rollup's
  properties.
- `MockStore`: the seed data, and the class `Store` with fields
  `users: seq<User>` and `links: seq<Link>`. Each mutator is a method with
  `modifies this`. Each method's postcondition states the whole new state as
  a function of the old one. `Valid()` means that no two users and no two
  links share an id. Create, delete, reorder and click counting keep it. An
  update keeps it exactly when its patch carries no id, or an id no other
  record has. The class's query functions `GetUserByUsername`, `GetUserById`,
  `GetLinksByUserId` and `GetAdminStats` call `Records.UserByUsername`,
  `Records.UserById`, `Listing.LinksOf` and `Aggregates.AdminStatsOf`, and
  state what they return in terms of the store's two fields.
  The forEach of `updateLinkOrder` is the loop of `Store.AssignPositions`.
  The seven-day loop of `getAnalytics` is `Aggregates.MockClicksOverTime`.
- `StoreScenarios`: two client methods. They rely on the `Store` contracts
  together with the lemmas `Listing.OwnedByNone`, `Listing.CascadeOfSoleOwner`
  and `StoreScenarios.SwapTwo` (which rests on `Reorder.ReorderThenList`).
  In one, a new user swaps the order of two links. In the other, deleting the
  seed user also deletes all of that user's links.
- `ABTest`: `updateVariationPercentage` as a function from a sequence of
  variations to a sequence of variations.

The clock (the current time as an ISO string) becomes an argument `now` of every
operation that stamps a record. `Math.random()` in `getAnalytics` is a
nondeterministic real in [0, 1); the method asks for nothing more.

Two facts about the code shape the model:

- The update merge does not protect `id` (mockData.ts:124-125 and 165-166).
  `Records.UpdateCanDuplicateUserIds` shows that a patch can leave two users
  with one id. `UpdateUser` and `UpdateLink` state that `Valid()` survives the
  update exactly when the patch's id, if any, is not used by another record
  (`Records.UserPatchKeepsIds`, `Records.LinkPatchKeepsIds`).
- No operation renumbers `orderIndex`: create, delete and a partial reorder
  leave gaps and repeats as they are. A dense 0..n-1 is proved only after a
  reorder by a full permutation of the user's link ids
  (`Reorder.ReorderThenList`).

## Model

| member | source | states |
|---|---|---|
| `Collections.FindIndex` | src/lib/mockData.ts:121 | the first position whose element satisfies the predicate; none exactly when no element does |
| `Collections.Find` | src/lib/mockData.ts:106 | some element satisfies the predicate iff a result is returned; the result satisfies it, is in the sequence, and no earlier element satisfies it |
| `Collections.RemoveAt` | src/lib/mockData.ts:136 | `splice(k, 1)` removes exactly the element at k: one shorter, the elements before k kept, the later ones shifted down by one, the multiset minus that one element |
| `Text.Lower` | src/lib/mockData.ts:102 | lower-casing keeps the length and maps each character on its own |
| `Text.LowerIdempotent` | src/lib/mockData.ts:102 | lower-casing twice is lower-casing once |
| `Records.UserIds` | src/lib/mockData.ts:112 | the id list has one entry per user, the i-th being the i-th user's id |
| `Records.LinkIds` | src/lib/mockData.ts:153 | the id list has one entry per link, the i-th being the i-th link's id |
| `Records.MaxOf` | src/lib/mockData.ts:112 | `Math.max` of a non-empty id list is one of the ids and no id exceeds it |
| `Records.NextId` | src/lib/mockData.ts:112 | a new id is 1 in an empty collection, otherwise the largest id plus one; it is larger than every existing id |
| `Records.AppendNextUserKeepsDistinct` | src/lib/mockData.ts:109-118 | appending the new user with the next id keeps user ids distinct |
| `Records.AppendNextLinkKeepsDistinct` | src/lib/mockData.ts:150-159 | appending the new link with the next id keeps link ids distinct |
| `Records.NewUser` | src/lib/mockData.ts:110-115 | the new user carries every input field unchanged, the given id, and `now` as both createdAt and updatedAt |
| `Records.NewLink` | src/lib/mockData.ts:151-156 | the new link carries every input field unchanged, the given id, and `now` as both createdAt and updatedAt |
| `Records.MergeUser` | src/lib/mockData.ts:123-127 | updatedAt is always `now`; every other field (id, username, name, bio, profileImage, backgroundImage, theme, createdAt) is the patch's value when the patch has it and the old value otherwise |
| `Records.MergeLink` | src/lib/mockData.ts:164-168 | updatedAt is always `now`; every other field (id, userId, title, url, icon, orderIndex, clickCount, layout, thumbnail, createdAt) is the patch's value when the patch has it and the old value otherwise; a patch can clear layout or thumbnail |
| `Records.MergeUserEmpty` | src/lib/mockData.ts:123-127 | a user patch with no fields changes only updatedAt |
| `Records.MergeLinkEmpty` | src/lib/mockData.ts:164-168 | a link patch with no fields changes only updatedAt |
| `Records.MergeUserComposes` | src/lib/mockData.ts:123-127 | two successive user updates equal one update with the combined patch `{ ...p, ...q }` |
| `Records.MergeLinkComposes` | src/lib/mockData.ts:164-168 | two successive link updates equal one update with the combined patch |
| `Records.MergeKeepsKeys` | src/lib/mockData.ts:124-125 | a patch without `id` keeps the id, and one without `userId` keeps a link's owner |
| `Records.UpdateCanDuplicateUserIds` | src/lib/mockData.ts:123-127 | a patch carrying another user's id turns distinct user ids into duplicates |
| `Records.ReplaceUserKeepsDistinct` | src/lib/mockData.ts:120-131 | merging a patch into one user keeps user ids distinct iff the patch has no id or an id no other user has |
| `Records.ReplaceLinkKeepsDistinct` | src/lib/mockData.ts:161-172 | merging a patch into one link keeps link ids distinct iff the patch has no id or an id no other link has |
| `Records.UserIndex` | src/lib/mockData.ts:121 | the position of the first user with the id; none exactly when no user has it |
| `Records.LinkIndex` | src/lib/mockData.ts:162 | the position of the first link with the id; none exactly when no link has it |
| `Records.UserByIdAtIndex` | src/lib/mockData.ts:105-107 | getUserById returns the user at the position that updateUser and deleteUser (lines 121, 134) act on, and nothing when that search finds nothing |
| `Records.UserById` | src/lib/mockData.ts:105-107 | a user is found iff some user has the id; the result is the first user with that id, and with distinct ids it is the only such user |
| `Records.UserByUsername` | src/lib/mockData.ts:101-103 | a user is found iff some username equals the query after lower-casing; the result is the first such user |
| `Records.UsernameLookupIgnoresCase` | src/lib/mockData.ts:101-103 | two queries with the same lower-cased form find the same user |
| `Records.JohnDoeIsJohndoe` | src/lib/mockData.ts:101-103 | querying "JohnDoe" and "johndoe" give the same result in every store |
| `Listing.NotOwnedBy` | src/lib/mockData.ts:138 | the cascade filter is no longer than the collection and keeps only links of the store owned by someone else |
| `Listing.OwnedBy` | src/lib/mockData.ts:146 | the owner filter is no longer than the collection |
| `Listing.OwnedByCounts` | src/lib/mockData.ts:146 | the owner filter keeps exactly the user's links, each as many times as before |
| `Listing.NotOwnedByCounts` | src/lib/mockData.ts:138 | the cascade filter keeps exactly the other users' links, each as many times as before |
| `Listing.OwnedByMembers` | src/lib/mockData.ts:146 | a link is in the owner filter iff it is in the collection and belongs to the user |
| `Listing.OwnedByKeepsDistinct` | src/lib/mockData.ts:146 | the owner filter keeps distinct ids distinct |
| `Listing.NotOwnedByKeepsDistinct` | src/lib/mockData.ts:138 | the cascade filter keeps distinct ids distinct |
| `Listing.CascadeLeavesNone` | src/lib/mockData.ts:138 | after the cascade the deleted user owns no link |
| `Listing.CascadeKeepsOthers` | src/lib/mockData.ts:138 | the cascade leaves every other user's links as they were, in order |
| `Listing.CascadeOfSoleOwner` | src/lib/mockData.ts:138 | when the user owns every link, the cascade leaves no link at all |
| `Listing.OwnedByAppend` | src/lib/mockData.ts:157 | an appended link joins the end of its owner's filter and no other user's |
| `Listing.Insert` | src/lib/mockData.ts:147 | inserting adds exactly one element and keeps the others |
| `Listing.InsertKeepsSorted` | src/lib/mockData.ts:147 | inserting into an ascending sequence keeps it ascending |
| `Listing.SortByOrder` | src/lib/mockData.ts:147 | the sort returns an ascending-by-orderIndex rearrangement of its input |
| `Listing.SortKeepsDistinct` | src/lib/mockData.ts:147 | sorting keeps distinct ids distinct |
| `Listing.LinksOfMembers` | src/lib/mockData.ts:144-148 | a link is in the user's listing iff it is in the store and belongs to the user |
| `Listing.LinksOf` | src/lib/mockData.ts:144-148 | the listing is sorted ascending by orderIndex and holds exactly the user's links, each as many times as in the store |
| `Listing.TotalClicks` | src/lib/mockData.ts:237 | the click sum carries no ensures of its own; `ClicksBounded`, `ClicksAppend`, `SortKeepsClicks`, `ListingClicks` and `BumpAddsOneClick` state its properties |
| `Listing.ClicksBounded` | src/lib/mockData.ts:237 | the click total is non-negative when every counter is, and zero when every counter is zero |
| `Listing.ClicksAppend` | src/lib/mockData.ts:237 | the click total of two collections side by side is the sum of their totals |
| `Listing.NoLinksAfterCascade` | src/lib/mockData.ts:138 | after deleteUser's cascade, the deleted user's listing is empty |
| `Listing.SortKeepsClicks` | src/lib/mockData.ts:207 | sorting does not change the click total |
| `Listing.ListingClicks` | src/lib/mockData.ts:206-207 | the click total of a user's listing equals the total over the user's links in store order |
| `Listing.BumpAddsOneClick` | src/lib/mockData.ts:197 | raising one link's counter by one raises the collection's click total by exactly one |
| `Reorder.Reassigned` | src/lib/mockData.ts:185-189 | a link after the reorder differs from before only in orderIndex and updatedAt; only a listed link of the user changes, and then it gets `now` and a position of its id in the list |
| `Reorder.Reordered` | src/lib/mockData.ts:183-192 | the reorder keeps the number of links |
| `Reorder.ReorderedLeavesOthers` | src/lib/mockData.ts:185 | whatever the ids, other users' links and links whose id is not listed are left exactly as they were |
| `Reorder.OwnedLinkIndex` | src/lib/mockData.ts:185 | the first position holding a link with the id that belongs to the user; none exactly when there is no such link |
| `Reorder.LastIndex` | src/lib/mockData.ts:184-190 | the position a repeated id ends at is its last occurrence |
| `Reorder.ReorderedNothing` | src/lib/mockData.ts:183-192 | reordering by an empty id list changes nothing |
| `Reorder.ReorderedKeepsFields` | src/lib/mockData.ts:185-189 | the reorder changes only orderIndex and updatedAt of each link, never its place, id, owner or other fields |
| `Reorder.ReorderedPositions` | src/lib/mockData.ts:184-190 | with distinct ids, a listed link of the user ends at the last position of its id; other users' links and unlisted links are unchanged |
| `Reorder.ReorderedKeepsDistinct` | src/lib/mockData.ts:183-192 | the reorder keeps link ids distinct |
| `Reorder.SameKeysSameIndex` | src/lib/mockData.ts:185 | the link `find` picks depends only on ids and owners |
| `Reorder.ReorderedStep` | src/lib/mockData.ts:184-190 | one more forEach iteration gives the next position to the link `find` picks, if any, and changes nothing else |
| `Reorder.ReorderedStepFrom` | src/lib/mockData.ts:184-190 | the same step, stated from the collection as it stands before that iteration: `find` on it picks the link, which gets the next position |
| `Reorder.ReorderThenList` | src/lib/mockData.ts:183-192 | when the id list is a permutation of the user's link ids, the listing afterwards is those ids in list order, with orderIndex 0..n-1 |
| `Reorder.ReorderSoleOwner` | src/lib/mockData.ts:183-192 | in a collection holding only the user's links, a permutation of their ids is listed in list order, with orderIndex 0..n-1 |
| `Reorder.ReorderThreeLinks` | src/lib/mockData.ts:183-192 | links 1, 2, 3 reordered as [3, 1, 2] are then listed as 3, 1, 2 with orderIndex 0, 1, 2 |
| `Aggregates.LinkStats` | src/lib/mockData.ts:223-228 | one entry per listed link, in order, with that link's id, title, click count and url |
| `Aggregates.LinkStatsAddUp` | src/lib/mockData.ts:223-228 | the per-link click entries add up to the listing's click total |
| `Aggregates.UserBreakdown` | src/lib/mockData.ts:243-249 | the rollup has one entry per user |
| `Aggregates.AdminStatsOf` | src/lib/mockData.ts:234-251 | totalUsers is the number of users, totalLinks the number of links, totalClicks the sum of clickCount over all links, and there is one entry per user |
| `Aggregates.BreakdownMatchesListing` | src/lib/mockData.ts:243-249 | the i-th rollup entry is the i-th user, with the link count and click total of that user's listing |
| `Aggregates.MockDailyClicks` | src/lib/mockData.ts:216 | a random draw in [0, 1), scaled by 50, rounded down and shifted by 10, lies between 10 and 59 |
| `Aggregates.MockClicksOverTime` | src/lib/mockData.ts:210-218 | the loop yields seven days, oldest first (6 days ago down to today), each with 10 to 59 clicks |
| `Aggregates.AdminPartition` | src/lib/mockData.ts:234-251 | when user ids are distinct and every link has an existing owner, the per-user link counts add up to totalLinks and the per-user clicks add up to totalClicks |
| `MockStore.SeedNextIds` | src/lib/mockData.ts:4-96 | the seed ids are distinct, and the next ids are 4 for users and 6 for links |
| `MockStore.SeedOwners` | src/lib/mockData.ts:4-96 | the store starts with three users, the first with id 1, and five links, all owned by that user |
| `MockStore.Store.constructor` | src/lib/mockData.ts:4-96 | the store starts with the seed users and links, and the store invariant holds |
| `MockStore.Store.GetUsers` | src/lib/mockData.ts:99 | returns the user collection itself, in insertion order |
| `MockStore.Store.GetUserByUsername` | src/lib/mockData.ts:101-103 | a user is returned iff some username equals the query ignoring case, and it is the first such user of the store (usernames may repeat) |
| `MockStore.Store.GetUserById` | src/lib/mockData.ts:105-107 | the user at the first position holding the id, with that id; nothing exactly when no user has it |
| `MockStore.Store.CreateUser` | src/lib/mockData.ts:109-118 | appends the new user with the next id and both timestamps at now; the new id is larger than every existing id; links untouched; invariant kept |
| `MockStore.Store.UpdateUser` | src/lib/mockData.ts:120-131 | the first user with the id becomes the merge and is returned; the other users and the links are unchanged; an unknown id returns none and changes nothing; a valid store stays valid iff the patch's id, if any, is unused by another user |
| `MockStore.Store.DeleteUser` | src/lib/mockData.ts:133-142 | a known id: removes exactly that user and every link the user owns, returns true, and the user's listing is then empty; an unknown id returns false and changes nothing |
| `MockStore.Store.GetLinksByUserId` | src/lib/mockData.ts:144-148 | the list is ascending by orderIndex, a link is in it iff it is in the store and belongs to the user, and it is as long as the user's links |
| `MockStore.Store.CreateLink` | src/lib/mockData.ts:150-159 | appends the new link with the next id; it joins its owner's listing and no other; users untouched; invariant kept |
| `MockStore.Store.UpdateLink` | src/lib/mockData.ts:161-172 | the first link with the id becomes the merge and is returned; the rest is unchanged; an unknown id returns none and changes nothing; a valid store stays valid iff the patch's id, if any, is unused by another link |
| `MockStore.Store.DeleteLink` | src/lib/mockData.ts:174-181 | a known id: removes exactly that one link, keeps the others' order, returns true; an unknown id returns false and changes nothing |
| `MockStore.Store.UpdateLinkOrder` | src/lib/mockData.ts:183-192 | the links become the reordered collection, the user's listing of it is returned, users are untouched, and distinct ids stay distinct |
| `MockStore.Store.AssignPositions` | src/lib/mockData.ts:184-190 | the forEach loop leaves the links exactly as the Reorder functions describe; users untouched |
| `MockStore.Store.IncrementClickCount` | src/lib/mockData.ts:194-202 | the first link with the id gets one more click and is returned; the rest is unchanged and the total rises by one; an unknown id returns none and changes nothing |
| `MockStore.Store.GetAnalytics` | src/lib/mockData.ts:205-231 | totalClicks is the sum over the user's links and totalLinks their count; one stat per link, in listing order, carrying its id, title, clicks and url; seven days, oldest first, each with 10 to 59 clicks |
| `MockStore.Store.GetAdminStats` | src/lib/mockData.ts:234-251 | totalUsers and totalLinks count the store's records, totalClicks is the sum of every link's clicks, and there is one entry per user |
| `ABTest.UpdateVariationPercentage` | src/components/flows/ab-test-dialog.tsx:59-71 | same length, order and ids; the chosen variant gets the new share; its counterpart (variant-b for variant-a, otherwise variant-a) gets 100 minus it; other variants and all other fields are unchanged |
| `ABTest.SplitAddsUpTo100` | src/components/flows/ab-test-dialog.tsx:59-71 | moving A's or B's slider to a value in [0, 100] leaves both shares in [0, 100], adding up to 100 |
| `ABTest.UpdateIdempotent` | src/components/flows/ab-test-dialog.tsx:59-71 | applying the same slider value twice is applying it once |
| `ABTest.InitialSplitExample` | src/components/flows/ab-test-dialog.tsx:32-47 | the dialog's initial 100/0 split, with B moved to 30, becomes 70/30 |

## Left out

- `Text.Lower`: `toLowerCase` is modelled for the ASCII letters A-Z only. Unicode case mapping, including length-changing mappings, is not modelled.
- Timestamps are opaque strings from a `now` argument. One `updateLinkOrder` call stamps every link it touches with the same `now`. The source reads the clock once per link. Likewise createUser and createLink read the clock twice (mockData.ts:113-114, 154-155), so the source's createdAt and updatedAt can differ by a tick; the model gives both the one `now`.
- `MockStore.Store.GetAnalytics`: each `clicksOverTime` entry carries how many days before today it is, not a calendar date string; the date arithmetic (`setDate`, `toISOString().split('T')`) is not modelled. `Math.random()` is a nondeterministic real in [0, 1), and the product with 50 is exact real arithmetic rather than floating point.
- JavaScript numbers are unbounded integers. Precision loss beyond 2^53, fractional ids, and `NaN` from the routes' `parseInt` are not modelled.
- Aliasing is not modelled. The source hands out references into its arrays, and the model returns values. These references include the array from `getUsers`, the stored objects from `find`, and the results of create, update and increment. Mutating such a reference is invisible to the model.
- A patch field that is present but holds `undefined` for a required field is not modelled. Neither are unknown extra properties in a creation or update payload, which the spread would copy into the record. Only `layout` and `thumbnail` can be cleared (`Some(None)`).
- `Listing.SortByOrder`: it sorts stably, as JavaScript's `sort` does. Stability itself is not stated as a lemma.
- Calling `incrementClickCount` n times raises the counter by n. This follows from one call's postcondition and is not stated as a lemma of its own.
- The HTTP route handlers are not part of this model. They are JSON/status wrappers over the store. The React components, the flow builder and its nodes, drag-and-drop, QR rendering, `zod` form validation, the per-link average display and the icon lookup are not part of this model either.
- Concurrency is not modelled: every operation runs to completion alone.
