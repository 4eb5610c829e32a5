/** The three entity kinds (spaces hold groups, groups hold bookmarks), the
    inputs that create them, and the partial inputs that update them. */
module Entities {
  import opened Common

  datatype Space = Space(
    id: string,
    userId: string,
    name: string,
    icon: string,
    color: Option<string>,
    order: int,
    isArchived: bool,
    createdAt: Timestamp,
    updatedAt: Timestamp)

  datatype Group = Group(
    id: string,
    userId: string,
    spaceId: string,
    name: string,
    icon: Option<string>,
    order: int,
    isArchived: bool,
    createdAt: Timestamp,
    updatedAt: Timestamp)

  datatype Bookmark = Bookmark(
    id: string,
    userId: string,
    spaceId: string,  // denormalised copy of the owning group's spaceId
    groupId: string,
    title: string,
    url: string,
    faviconUrl: Option<string>,
    description: Option<string>,
    order: int,
    isPinned: bool,
    isArchived: bool,
    createdAt: Timestamp,
    updatedAt: Timestamp)

  datatype CreateSpaceInput = CreateSpaceInput(name: string, icon: string, color: Option<string>)
  datatype CreateGroupInput = CreateGroupInput(spaceId: string, name: string, icon: Option<string>)
  /** The local store's bookmark input: the space is taken from the group. */
  datatype CreateBookmarkInput = CreateBookmarkInput(
    groupId: string, title: string, url: string, description: Option<string>)
  /** The server-synced store's bookmark input, which names the space itself. */
  datatype SyncedBookmarkInput = SyncedBookmarkInput(
    spaceId: string, groupId: string, title: string, url: string, description: Option<string>)

  /** `Partial<Omit<Space, 'id' | 'userId' | 'createdAt'>>`: a field that is
      `None` is absent from the object literal and keeps its current value.
      A nullable field has three states: absent (`None`), present with
      `undefined` or `null` (`Some(None)`), which clears it, and present with a
      value (`Some(Some(v))`). */
  datatype SpacePatch = SpacePatch(
    name: Option<string>,
    icon: Option<string>,
    color: Option<Option<string>>,
    order: Option<int>,
    isArchived: Option<bool>)

  datatype GroupPatch = GroupPatch(
    spaceId: Option<string>,
    name: Option<string>,
    icon: Option<Option<string>>,
    order: Option<int>,
    isArchived: Option<bool>)

  datatype BookmarkPatch = BookmarkPatch(
    spaceId: Option<string>,
    groupId: Option<string>,
    title: Option<string>,
    url: Option<string>,
    faviconUrl: Option<Option<string>>,
    description: Option<Option<string>>,
    order: Option<int>,
    isPinned: Option<bool>,
    isArchived: Option<bool>)

  /** `{ ...space, ...patch, ...updateTimestamp() }` */
  function PatchSpace(s: Space, p: SpacePatch, now: Timestamp): (r: Space)
    ensures r.id == s.id && r.userId == s.userId && r.createdAt == s.createdAt
    ensures r.updatedAt == now
    ensures r.name == (if p.name.Some? then p.name.value else s.name)
    ensures r.icon == (if p.icon.Some? then p.icon.value else s.icon)
    ensures r.color == (if p.color.Some? then p.color.value else s.color)
    ensures r.order == (if p.order.Some? then p.order.value else s.order)
    ensures r.isArchived == (if p.isArchived.Some? then p.isArchived.value else s.isArchived)
  {
    s.(name := p.name.GetOr(s.name),
       icon := p.icon.GetOr(s.icon),
       color := p.color.GetOr(s.color),
       order := p.order.GetOr(s.order),
       isArchived := p.isArchived.GetOr(s.isArchived),
       updatedAt := now)
  }

  /** `{ ...group, ...patch, ...updateTimestamp() }` */
  function PatchGroup(g: Group, p: GroupPatch, now: Timestamp): (r: Group)
    ensures r.id == g.id && r.userId == g.userId && r.createdAt == g.createdAt
    ensures r.updatedAt == now
    ensures r.spaceId == (if p.spaceId.Some? then p.spaceId.value else g.spaceId)
    ensures r.name == (if p.name.Some? then p.name.value else g.name)
    ensures r.icon == (if p.icon.Some? then p.icon.value else g.icon)
    ensures r.order == (if p.order.Some? then p.order.value else g.order)
    ensures r.isArchived == (if p.isArchived.Some? then p.isArchived.value else g.isArchived)
  {
    g.(spaceId := p.spaceId.GetOr(g.spaceId),
       name := p.name.GetOr(g.name),
       icon := p.icon.GetOr(g.icon),
       order := p.order.GetOr(g.order),
       isArchived := p.isArchived.GetOr(g.isArchived),
       updatedAt := now)
  }

  /** `{ ...bookmark, ...patch, ...updateTimestamp() }` */
  function PatchBookmark(b: Bookmark, p: BookmarkPatch, now: Timestamp): (r: Bookmark)
    ensures r.id == b.id && r.userId == b.userId && r.createdAt == b.createdAt
    ensures r.updatedAt == now
    ensures r.spaceId == (if p.spaceId.Some? then p.spaceId.value else b.spaceId)
    ensures r.groupId == (if p.groupId.Some? then p.groupId.value else b.groupId)
    ensures r.title == (if p.title.Some? then p.title.value else b.title)
    ensures r.url == (if p.url.Some? then p.url.value else b.url)
    ensures r.faviconUrl == (if p.faviconUrl.Some? then p.faviconUrl.value else b.faviconUrl)
    ensures r.description == (if p.description.Some? then p.description.value else b.description)
    ensures r.order == (if p.order.Some? then p.order.value else b.order)
    ensures r.isPinned == (if p.isPinned.Some? then p.isPinned.value else b.isPinned)
    ensures r.isArchived == (if p.isArchived.Some? then p.isArchived.value else b.isArchived)
  {
    b.(spaceId := p.spaceId.GetOr(b.spaceId),
       groupId := p.groupId.GetOr(b.groupId),
       title := p.title.GetOr(b.title),
       url := p.url.GetOr(b.url),
       faviconUrl := p.faviconUrl.GetOr(b.faviconUrl),
       description := p.description.GetOr(b.description),
       order := p.order.GetOr(b.order),
       isPinned := p.isPinned.GetOr(b.isPinned),
       isArchived := p.isArchived.GetOr(b.isArchived),
       updatedAt := now)
  }

  /** An empty partial input refreshes `updatedAt` and nothing else. */
  lemma EmptyPatchTouchesOnlyTimestamp(s: Space, g: Group, b: Bookmark, now: Timestamp)
    ensures PatchSpace(s, SpacePatch(None, None, None, None, None), now) == s.(updatedAt := now)
    ensures PatchGroup(g, GroupPatch(None, None, None, None, None), now) == g.(updatedAt := now)
    ensures PatchBookmark(b, BookmarkPatch(None, None, None, None, None, None, None, None, None), now)
         == b.(updatedAt := now)
  {
  }

  /** The edit dialogs pass `color: data.color` and `description:
      data.description` from a form that never fills them in, so the key is
      present with `undefined`: the merge clears the stored colour and
      description. */
  lemma DialogEditClearsOptionalFields(s: Space, b: Bookmark, name: string, icon: string,
                                       title: string, url: string, now: Timestamp)
    ensures PatchSpace(s, SpacePatch(Some(name), Some(icon), Some(None), None, None), now).color.None?
    ensures PatchBookmark(b, BookmarkPatch(None, None, Some(title), Some(url), None, Some(None), None, None, None), now)
              .description.None?
    ensures s.color.Some? ==> PatchSpace(s, SpacePatch(Some(name), Some(icon), Some(None), None, None), now) != s
  {
  }

  // Field accessors, named once so that every filter and sort over the same
  // field is the same function.

  function SpaceIdOf(s: Space): string { s.id }
  function GroupIdOf(g: Group): string { g.id }
  function BookmarkIdOf(b: Bookmark): string { b.id }

  function SpaceOrder(s: Space): int { s.order }
  function GroupOrder(g: Group): int { g.order }
  function BookmarkOrder(b: Bookmark): int { b.order }

  function SpaceHasId(id: string): Space -> bool { (s: Space) => s.id == id }
  function SpaceLacksId(id: string): Space -> bool { (s: Space) => s.id != id }
  function GroupHasId(id: string): Group -> bool { (g: Group) => g.id == id }
  function GroupLacksId(id: string): Group -> bool { (g: Group) => g.id != id }
  function BookmarkHasId(id: string): Bookmark -> bool { (b: Bookmark) => b.id == id }
  function BookmarkLacksId(id: string): Bookmark -> bool { (b: Bookmark) => b.id != id }

  function InSpace(spaceId: string): Group -> bool { (g: Group) => g.spaceId == spaceId }
  function OutsideSpace(spaceId: string): Group -> bool { (g: Group) => g.spaceId != spaceId }
  function InGroup(groupId: string): Bookmark -> bool { (b: Bookmark) => b.groupId == groupId }
  function OutsideGroup(groupId: string): Bookmark -> bool { (b: Bookmark) => b.groupId != groupId }
  /** Selection by the denormalised `spaceId` of a bookmark. */
  function BookmarkInSpace(spaceId: string): Bookmark -> bool { (b: Bookmark) => b.spaceId == spaceId }
  function BookmarkOutsideSpace(spaceId: string): Bookmark -> bool { (b: Bookmark) => b.spaceId != spaceId }

  predicate SpaceLive(s: Space) { !s.isArchived }
  predicate GroupLive(g: Group) { !g.isArchived }
  predicate BookmarkLive(b: Bookmark) { !b.isArchived }

  /** `{ ...x, isArchived: true, ...updateTimestamp() }` */
  function ArchiveSpace(s: Space, now: Timestamp): Space { s.(isArchived := true, updatedAt := now) }
  function ArchiveGroup(g: Group, now: Timestamp): Group { g.(isArchived := true, updatedAt := now) }
  function ArchiveBookmark(b: Bookmark, now: Timestamp): Bookmark { b.(isArchived := true, updatedAt := now) }

  /** `{ ...x, order: index, ...updateTimestamp() }` */
  function ReorderedSpace(s: Space, index: int, now: Timestamp): Space { s.(order := index, updatedAt := now) }
  function ReorderedGroup(g: Group, index: int, now: Timestamp): Group { g.(order := index, updatedAt := now) }
  function ReorderedBookmark(b: Bookmark, index: int, now: Timestamp): Bookmark { b.(order := index, updatedAt := now) }

  /** The per-index update of a reorder pass, with the clock value `now`. */
  function SpaceStamp(now: Timestamp): (Space, int) -> Space { (s: Space, i: int) => ReorderedSpace(s, i, now) }
  function GroupStamp(now: Timestamp): (Group, int) -> Group { (g: Group, i: int) => ReorderedGroup(g, i, now) }
  function BookmarkStamp(now: Timestamp): (Bookmark, int) -> Bookmark { (b: Bookmark, i: int) => ReorderedBookmark(b, i, now) }

  /** The partial update of an `update*` call as a function of the item, with the clock value `now`. */
  function SpacePatcher(p: SpacePatch, now: Timestamp): Space -> Space { (s: Space) => PatchSpace(s, p, now) }
  function GroupPatcher(p: GroupPatch, now: Timestamp): Group -> Group { (g: Group) => PatchGroup(g, p, now) }
  function BookmarkPatcher(p: BookmarkPatch, now: Timestamp): Bookmark -> Bookmark { (b: Bookmark) => PatchBookmark(b, p, now) }
}
