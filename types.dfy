/**
 * The records of the link-in-bio store (src/lib/types.ts).
 * JavaScript numbers that hold ids, positions and counters are modelled as
 * unbounded integers; timestamps are opaque strings.
 */
module Types {
  import opened Wrappers

  /** The optional `layout` union of a link. */
  datatype Layout = Classic | Featured

  /** A profile owner. */
  datatype User = User(
    id: int,
    username: string,
    name: string,
    bio: string,
    profileImage: string,
    backgroundImage: string,
    theme: string,
    createdAt: string,
    updatedAt: string)

  /** One clickable entry of a profile, owned by the user `userId`. */
  datatype Link = Link(
    id: int,
    userId: int,
    title: string,
    url: string,
    icon: string,
    orderIndex: int,
    clickCount: int,
    layout: Option<Layout>,
    thumbnail: Option<string>,
    createdAt: string,
    updatedAt: string)

  /** What a caller hands to user creation: a User without id and timestamps. */
  datatype UserInput = UserInput(
    username: string,
    name: string,
    bio: string,
    profileImage: string,
    backgroundImage: string,
    theme: string)

  /** What a caller hands to link creation: a Link without id and timestamps. */
  datatype LinkInput = LinkInput(
    userId: int,
    title: string,
    url: string,
    icon: string,
    orderIndex: int,
    clickCount: int,
    layout: Option<Layout>,
    thumbnail: Option<string>)

  /** A partial User: every field may be absent, `id` and the timestamps included. */
  datatype UserPatch = UserPatch(
    id: Option<int>,
    username: Option<string>,
    name: Option<string>,
    bio: Option<string>,
    profileImage: Option<string>,
    backgroundImage: Option<string>,
    theme: Option<string>,
    createdAt: Option<string>,
    updatedAt: Option<string>)

  /**
   * A partial Link. For the two optional fields, `Some(None)` is a patch that
   * explicitly clears the field.
   */
  datatype LinkPatch = LinkPatch(
    id: Option<int>,
    userId: Option<int>,
    title: Option<string>,
    url: Option<string>,
    icon: Option<string>,
    orderIndex: Option<int>,
    clickCount: Option<int>,
    layout: Option<Option<Layout>>,
    thumbnail: Option<Option<string>>,
    createdAt: Option<string>,
    updatedAt: Option<string>)
}
