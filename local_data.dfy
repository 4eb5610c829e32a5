/** The array transforms of the local persistence generation: each action of
    the local store computes the next arrays from the current ones with
    `map`/`filter`, persists them, and only then shows them. The transforms
    are defined once here; the store class applies them. */
module LocalData {
  import opened Common
  import opened Collections
  import opened Entities
  import opened EntityIds
  import opened Invariants
  import opened Atoms
  import Reorder

  /** The three collections of one user. */
  datatype Tables = Tables(spaces: seq<Space>, groups: seq<Group>, bookmarks: seq<Bookmark>)

  /** Only the items that are not archived, as every display step leaves them. */
  function Visible(t: Tables): Tables {
    Tables(Filter(t.spaces, SpaceLive), Filter(t.groups, GroupLive), Filter(t.bookmarks, BookmarkLive))
  }

  ghost predicate AllLive(t: Tables) {
    && (forall i :: 0 <= i < |t.spaces| ==> !t.spaces[i].isArchived)
    && (forall i :: 0 <= i < |t.groups| ==> !t.groups[i].isArchived)
    && (forall i :: 0 <= i < |t.bookmarks| ==> !t.bookmarks[i].isArchived)
  }

  /** A state holding no archived item is shown as it is. */
  lemma VisibleWhenAllLive(t: Tables)
    requires AllLive(t)
    ensures Visible(t) == t
  {
    FilterKeepsAll(t.spaces, SpaceLive);
    FilterKeepsAll(t.groups, GroupLive);
    FilterKeepsAll(t.bookmarks, BookmarkLive);
  }

  /** What is shown holds no archived item. */
  lemma VisibleIsLive(t: Tables)
    ensures AllLive(Visible(t))
  {
  }

  // ---------------------------------------------------------------------------
  // Create

  /** The space `createSpace` appends: it goes last. */
  function NewSpace(spaces: seq<Space>, userId: string, input: CreateSpaceInput, bytes: seq<byte>, now: Timestamp): Space {
    Space(IdFor(SpaceKind, bytes), userId, input.name, input.icon, input.color, |spaces|, false, now, now)
  }

  /** Appending the new space keeps the spaces numbered 0..n-1. */
  lemma NewSpaceKeepsDense(spaces: seq<Space>, userId: string, input: CreateSpaceInput, bytes: seq<byte>, now: Timestamp)
    requires DenselyOrdered(spaces, SpaceOrder)
    ensures DenselyOrdered(spaces + [NewSpace(spaces, userId, input, bytes, now)], SpaceOrder)
  {
    var s := NewSpace(spaces, userId, input, bytes, now);
    assert (spaces + [s])[|spaces|] == s;
  }

  /** The group `createGroup` appends: last among the groups of its space. */
  function NewGroup(groups: seq<Group>, userId: string, input: CreateGroupInput, bytes: seq<byte>, now: Timestamp): Group {
    Group(IdFor(GroupKind, bytes), userId, input.spaceId, input.name, input.icon,
          |Filter(groups, InSpace(input.spaceId))|, false, now, now)
  }

  /** Appending the new group keeps every space's groups numbered 0..n-1, and
      the groups refer to existing spaces when the input's space exists (the
      local store does not check that it does). */
  lemma NewGroupKeepsInvariants(spaces: seq<Space>, groups: seq<Group>, userId: string, input: CreateGroupInput,
                                bytes: seq<byte>, now: Timestamp)
    requires GroupsDensePerSpace(groups)
    ensures GroupsDensePerSpace(groups + [NewGroup(groups, userId, input, bytes, now)])
    ensures GroupsReferToSpaces(spaces, groups) && (exists s :: s in spaces && s.id == input.spaceId) ==>
              GroupsReferToSpaces(spaces, groups + [NewGroup(groups, userId, input, bytes, now)])
  {
    AppendGroupKeepsDense(groups, NewGroup(groups, userId, input, bytes, now));
  }

  /** `createBookmark`: the group must exist; the bookmark takes the group's
      `spaceId` and goes last among the group's bookmarks. */
  function NewBookmark(groups: seq<Group>, bookmarks: seq<Bookmark>, userId: string, input: CreateBookmarkInput,
                       bytes: seq<byte>, now: Timestamp): (r: Result<Bookmark>)
    ensures r.Err? <==> forall i :: 0 <= i < |groups| ==> groups[i].id != input.groupId
    ensures r.Err? ==> r.error == Local("Group not found")
    ensures r.Ok? ==> exists g :: g in groups && g.id == input.groupId && r.value.spaceId == g.spaceId
    ensures r.Ok? ==> r.value.id == IdFor(BookmarkKind, bytes) && r.value.userId == userId
    ensures r.Ok? ==> r.value.groupId == input.groupId && r.value.title == input.title
                      && r.value.url == input.url && r.value.description == input.description
    ensures r.Ok? ==> r.value.order == |Filter(bookmarks, InGroup(input.groupId))|
    ensures r.Ok? ==> !r.value.isPinned && !r.value.isArchived && r.value.faviconUrl.None?
    ensures r.Ok? ==> r.value.createdAt == r.value.updatedAt == now
  {
    match Locate(groups, GroupIdOf, input.groupId)
    case None => Err(Local("Group not found"))
    case Some(i) =>
      Ok(Bookmark(IdFor(BookmarkKind, bytes), userId, groups[i].spaceId, input.groupId, input.title, input.url,
                  None, input.description, |Filter(bookmarks, InGroup(input.groupId))|, false, false, now, now))
  }

  /** Because the new bookmark copies its group's `spaceId`, appending it keeps
      the bookmarks pointing at groups, agreeing with them, and numbered
      0..n-1 within each group. */
  lemma NewBookmarkKeepsInvariants(groups: seq<Group>, bookmarks: seq<Bookmark>, userId: string,
                                   input: CreateBookmarkInput, bytes: seq<byte>, now: Timestamp)
    requires NewBookmark(groups, bookmarks, userId, input, bytes, now).Ok?
    requires UniqueGroupIds(groups)
    requires BookmarksReferToGroups(groups, bookmarks) && BookmarkSpacesAgree(groups, bookmarks)
    requires BookmarksDensePerGroup(bookmarks)
    ensures BookmarksReferToGroups(groups, bookmarks + [NewBookmark(groups, bookmarks, userId, input, bytes, now).value])
    ensures BookmarkSpacesAgree(groups, bookmarks + [NewBookmark(groups, bookmarks, userId, input, bytes, now).value])
    ensures BookmarksDensePerGroup(bookmarks + [NewBookmark(groups, bookmarks, userId, input, bytes, now).value])
  {
    var b := NewBookmark(groups, bookmarks, userId, input, bytes, now).value;
    var g :| g in groups && g.id == input.groupId && b.spaceId == g.spaceId;
    forall b', h | b' in bookmarks + [b] && h in groups && h.id == b'.groupId
      ensures b'.spaceId == h.spaceId
    {
      if b' == b {
        SameGroupId(groups, g, h);
      }
    }
    AppendBookmarkKeepsDense(bookmarks, b);
  }

  // ---------------------------------------------------------------------------
  // Update

  /** Ids are unique under `idOf`. */
  ghost predicate UniqueBy<T>(xs: seq<T>, idOf: T -> string) {
    forall i, j :: 0 <= i < j < |xs| ==> idOf(xs[i]) != idOf(xs[j])
  }

  /** `update*(id, input)`: the first item carrying `id` is changed, and the
      changed copy replaces every item carrying `id`; `notFound` is thrown when
      no item carries it. */
  function UpdateById<T(!new)>(xs: seq<T>, idOf: T -> string, id: string, change: T -> T, notFound: string)
    : (r: Result<seq<T>>)
    ensures r.Err? <==> forall i :: 0 <= i < |xs| ==> idOf(xs[i]) != id
    ensures r.Err? ==> r.error == Local(notFound)
    ensures r.Ok? ==> |r.value| == |xs|
    ensures r.Ok? ==> forall i :: 0 <= i < |xs| && idOf(xs[i]) != id ==> r.value[i] == xs[i]
    ensures r.Ok? ==> exists p :: 0 <= p < |xs| && idOf(xs[p]) == id
                        && (forall j :: 0 <= j < p ==> idOf(xs[j]) != id)
                        && forall i :: 0 <= i < |xs| && idOf(xs[i]) == id ==> r.value[i] == change(xs[p])
  {
    match Locate(xs, idOf, id)
    case None => Err(Local(notFound))
    case Some(p) =>
      Ok(seq(|xs|, i requires 0 <= i < |xs| => if idOf(xs[i]) == id then change(xs[p]) else xs[i]))
  }

  /** With unique ids an update changes exactly the one item carrying the id,
      and keeps the ids unique when the change keeps the item's id. */
  lemma UpdateUniqueById<T(!new)>(xs: seq<T>, idOf: T -> string, id: string, change: T -> T, notFound: string, p: nat)
    requires UniqueBy(xs, idOf)
    requires p < |xs| && idOf(xs[p]) == id
    ensures UpdateById(xs, idOf, id, change, notFound) == Ok(xs[p := change(xs[p])])
    ensures idOf(change(xs[p])) == id ==> UniqueBy(xs[p := change(xs[p])], idOf)
  {
    var r := UpdateById(xs, idOf, id, change, notFound);
    var q :| 0 <= q < |xs| && idOf(xs[q]) == id
             && forall i :: 0 <= i < |xs| && idOf(xs[i]) == id ==> r.value[i] == change(xs[q]);
    assert q == p;
    forall i | 0 <= i < |xs| ensures r.value[i] == xs[p := change(xs[p])][i] {
      if i != p {
        if i < p { assert idOf(xs[i]) != idOf(xs[p]); }
        if p < i { assert idOf(xs[p]) != idOf(xs[i]); }
      }
    }
    assert r.value == xs[p := change(xs[p])];
  }

  // ---------------------------------------------------------------------------
  // Delete

  /** `groups.filter((g) => g.spaceId === spaceId).map((g) => g.id)` */
  function GroupIdsOf(groups: seq<Group>, spaceId: string): seq<string> {
    Map(Filter(groups, InSpace(spaceId)), GroupIdOf)
  }

  /** The ids collected are exactly those of the space's groups. */
  lemma GroupIdsOfMembers(groups: seq<Group>, spaceId: string)
    ensures forall x :: x in GroupIdsOf(groups, spaceId) <==> exists g :: g in groups && g.spaceId == spaceId && g.id == x
  {
    var f := Filter(groups, InSpace(spaceId));
    FilterMembers(groups, InSpace(spaceId));
    forall x ensures x in GroupIdsOf(groups, spaceId) <==> exists g :: g in groups && g.spaceId == spaceId && g.id == x {
      if x in GroupIdsOf(groups, spaceId) {
        var i :| 0 <= i < |f| && GroupIdsOf(groups, spaceId)[i] == x;
        assert f[i] in f;
      }
      if g :| g in groups && g.spaceId == spaceId && g.id == x {
        var i :| 0 <= i < |f| && f[i] == g;
        assert GroupIdsOf(groups, spaceId)[i] == x;
      }
    }
  }

  /** `(b) => groupIds.includes(b.groupId)` */
  function InGroups(ids: seq<string>): Bookmark -> bool { (b: Bookmark) => b.groupId in ids }
  /** `(b) => !groupIds.includes(b.groupId)` */
  function OutsideGroups(ids: seq<string>): Bookmark -> bool { (b: Bookmark) => b.groupId !in ids }

  /** Hard `deleteSpace`: the space, its groups, and the bookmarks of those groups go. */
  function HardDeleteSpace(t: Tables, id: string): (r: Tables)
    ensures forall s :: s in r.spaces <==> s in t.spaces && s.id != id
    ensures forall g :: g in r.groups <==> g in t.groups && g.spaceId != id
    ensures forall b :: b in r.bookmarks <==>
              b in t.bookmarks && !(exists g :: g in t.groups && g.spaceId == id && g.id == b.groupId)
    ensures multiset(r.spaces) <= multiset(t.spaces) && multiset(r.groups) <= multiset(t.groups)
    ensures multiset(r.bookmarks) <= multiset(t.bookmarks)
  {
    var ids := GroupIdsOf(t.groups, id);
    FilterMembers(t.spaces, SpaceLacksId(id));
    FilterMembers(t.groups, OutsideSpace(id));
    FilterMembers(t.bookmarks, OutsideGroups(ids));
    GroupIdsOfMembers(t.groups, id);
    Tables(Filter(t.spaces, SpaceLacksId(id)), Filter(t.groups, OutsideSpace(id)), Filter(t.bookmarks, OutsideGroups(ids)))
  }

  /** Hard `deleteGroup`: the group and its bookmarks go; the spaces stay. */
  function HardDeleteGroup(t: Tables, id: string): (r: Tables)
    ensures r.spaces == t.spaces
    ensures forall g :: g in r.groups <==> g in t.groups && g.id != id
    ensures forall b :: b in r.bookmarks <==> b in t.bookmarks && b.groupId != id
    ensures multiset(r.groups) <= multiset(t.groups) && multiset(r.bookmarks) <= multiset(t.bookmarks)
  {
    FilterMembers(t.groups, GroupLacksId(id));
    FilterMembers(t.bookmarks, OutsideGroup(id));
    Tables(t.spaces, Filter(t.groups, GroupLacksId(id)), Filter(t.bookmarks, OutsideGroup(id)))
  }

  /** Hard `deleteBookmark`: only the bookmark goes. */
  function HardDeleteBookmark(t: Tables, id: string): (r: Tables)
    ensures r.spaces == t.spaces && r.groups == t.groups
    ensures forall b :: b in r.bookmarks <==> b in t.bookmarks && b.id != id
    ensures multiset(r.bookmarks) <= multiset(t.bookmarks)
  {
    FilterMembers(t.bookmarks, BookmarkLacksId(id));
    Tables(t.spaces, t.groups, Filter(t.bookmarks, BookmarkLacksId(id)))
  }

  /** `xs.map((x) => sel(x) ? archive(x) : x)` */
  function ArchiveWhere<T>(xs: seq<T>, sel: T -> bool, archive: T -> T): seq<T> {
    if xs == [] then []
    else [if sel(xs[0]) then archive(xs[0]) else xs[0]] + ArchiveWhere(xs[1..], sel, archive)
  }

  /** Archiving the selected items of an all-live array and then hiding the
      archived ones leaves exactly the items that were not selected. */
  lemma {:induction false} HideArchived<T(!new)>(xs: seq<T>, sel: T -> bool, archive: T -> T, live: T -> bool,
                                                 keep: T -> bool)
    requires forall i :: 0 <= i < |xs| ==> live(xs[i]) && !live(archive(xs[i])) && keep(xs[i]) == !sel(xs[i])
    ensures Filter(ArchiveWhere(xs, sel, archive), live) == Filter(xs, keep)
  {
    if xs != [] {
      HideArchived(xs[1..], sel, archive, live, keep);
      var a := ArchiveWhere(xs, sel, archive);
      assert a[1..] == ArchiveWhere(xs[1..], sel, archive);
    }
  }

  /** Soft `deleteSpace`: the space, its groups and their bookmarks are archived in place. */
  function SoftDeleteSpace(t: Tables, id: string, now: Timestamp): Tables {
    Tables(ArchiveWhere(t.spaces, SpaceHasId(id), (s: Space) => ArchiveSpace(s, now)),
           ArchiveWhere(t.groups, InSpace(id), (g: Group) => ArchiveGroup(g, now)),
           ArchiveWhere(t.bookmarks, InGroups(GroupIdsOf(t.groups, id)), (b: Bookmark) => ArchiveBookmark(b, now)))
  }

  /** Soft `deleteGroup`: the group and its bookmarks are archived in place. */
  function SoftDeleteGroup(t: Tables, id: string, now: Timestamp): Tables {
    Tables(t.spaces,
           ArchiveWhere(t.groups, GroupHasId(id), (g: Group) => ArchiveGroup(g, now)),
           ArchiveWhere(t.bookmarks, InGroup(id), (b: Bookmark) => ArchiveBookmark(b, now)))
  }

  /** Soft `deleteBookmark`: the bookmark is archived in place. */
  function SoftDeleteBookmark(t: Tables, id: string, now: Timestamp): Tables {
    Tables(t.spaces, t.groups,
           ArchiveWhere(t.bookmarks, BookmarkHasId(id), (b: Bookmark) => ArchiveBookmark(b, now)))
  }

  /** From a state with no archived item, a soft delete shows what a hard delete leaves. */
  lemma SoftDeleteSpaceShowsHard(t: Tables, id: string, now: Timestamp)
    requires AllLive(t)
    ensures Visible(SoftDeleteSpace(t, id, now)) == HardDeleteSpace(t, id)
  {
    HideArchived(t.spaces, SpaceHasId(id), (s: Space) => ArchiveSpace(s, now), SpaceLive, SpaceLacksId(id));
    HideArchived(t.groups, InSpace(id), (g: Group) => ArchiveGroup(g, now), GroupLive, OutsideSpace(id));
    var ids := GroupIdsOf(t.groups, id);
    HideArchived(t.bookmarks, InGroups(ids), (b: Bookmark) => ArchiveBookmark(b, now), BookmarkLive, OutsideGroups(ids));
  }

  lemma SoftDeleteGroupShowsHard(t: Tables, id: string, now: Timestamp)
    requires AllLive(t)
    ensures Visible(SoftDeleteGroup(t, id, now)) == HardDeleteGroup(t, id)
  {
    FilterKeepsAll(t.spaces, SpaceLive);
    HideArchived(t.groups, GroupHasId(id), (g: Group) => ArchiveGroup(g, now), GroupLive, GroupLacksId(id));
    HideArchived(t.bookmarks, InGroup(id), (b: Bookmark) => ArchiveBookmark(b, now), BookmarkLive, OutsideGroup(id));
  }

  lemma SoftDeleteBookmarkShowsHard(t: Tables, id: string, now: Timestamp)
    requires AllLive(t)
    ensures Visible(SoftDeleteBookmark(t, id, now)) == HardDeleteBookmark(t, id)
  {
    FilterKeepsAll(t.spaces, SpaceLive);
    FilterKeepsAll(t.groups, GroupLive);
    HideArchived(t.bookmarks, BookmarkHasId(id), (b: Bookmark) => ArchiveBookmark(b, now), BookmarkLive,
                 BookmarkLacksId(id));
  }

  // ---------------------------------------------------------------------------
  // Reorder

  /** Every listed id names an item: what the non-null assertion `find(...)!` claims. */
  ghost predicate AllListed<T>(xs: seq<T>, idOf: T -> string, ids: seq<string>) {
    forall k :: 0 <= k < |ids| ==> exists i :: 0 <= i < |xs| && idOf(xs[i]) == ids[k]
  }

  /** `i` is the index of the first item carrying `id`. */
  ghost predicate FirstWith<T>(xs: seq<T>, idOf: T -> string, id: string, i: int) {
    0 <= i < |xs| && idOf(xs[i]) == id && forall j :: 0 <= j < i ==> idOf(xs[j]) != id
  }

  /** `ids.map((id, index) => ({ ...xs.find((x) => idOf(x) === id)!, order: index, ... }))` */
  function ReorderListed<T(!new)>(xs: seq<T>, idOf: T -> string, ids: seq<string>, stamp: (T, int) -> T)
    : (r: seq<T>)
    requires AllListed(xs, idOf, ids)
    ensures |r| == |ids|
  {
    seq(|ids|, k requires 0 <= k < |ids| => stamp(xs[Locate(xs, idOf, ids[k]).value], k))
  }

  /** Entry k of a reorder is the first item carrying `ids[k]`, stamped with k. */
  lemma {:induction false} ReorderListedEntries<T(!new)>(xs: seq<T>, idOf: T -> string, ids: seq<string>, stamp: (T, int) -> T)
    requires AllListed(xs, idOf, ids)
    ensures forall k :: 0 <= k < |ids| ==>
              exists i :: FirstWith(xs, idOf, ids[k], i) && ReorderListed(xs, idOf, ids, stamp)[k] == stamp(xs[i], k)
  {
    forall k | 0 <= k < |ids|
      ensures exists i :: FirstWith(xs, idOf, ids[k], i) && ReorderListed(xs, idOf, ids, stamp)[k] == stamp(xs[i], k)
    {
      var i := Locate(xs, idOf, ids[k]).value;
      assert FirstWith(xs, idOf, ids[k], i);
    }
    assert forall k :: 0 <= k < |ids| ==>
             exists i :: FirstWith(xs, idOf, ids[k], i) && ReorderListed(xs, idOf, ids, stamp)[k] == stamp(xs[i], k);
  }

  /** The index behind entry k of a reorder: the first item carrying `ids[k]`. */
  lemma ReorderListedAt<T(!new)>(xs: seq<T>, idOf: T -> string, ids: seq<string>, stamp: (T, int) -> T, k: int)
    returns (i: int)
    requires AllListed(xs, idOf, ids) && 0 <= k < |ids|
    ensures FirstWith(xs, idOf, ids[k], i) && ReorderListed(xs, idOf, ids, stamp)[k] == stamp(xs[i], k)
  {
    i := Locate(xs, idOf, ids[k]).value;
  }

  /** `reorderSpaces` keeps only the listed spaces, in listed order, numbered by
      position (`ReorderedSpaceAt` says what each entry holds). */
  lemma ReorderedSpacesShape(spaces: seq<Space>, ids: seq<string>, now: Timestamp)
    requires AllListed(spaces, SpaceIdOf, ids)
    ensures DenselyOrdered(ReorderListed(spaces, SpaceIdOf, ids, SpaceStamp(now)), SpaceOrder)
    ensures forall k :: 0 <= k < |ids| ==> ReorderListed(spaces, SpaceIdOf, ids, SpaceStamp(now))[k].id == ids[k]
    ensures Reorder.NoDuplicates(ids) ==> UniqueSpaceIds(ReorderListed(spaces, SpaceIdOf, ids, SpaceStamp(now)))
  {
    var r := ReorderListed(spaces, SpaceIdOf, ids, SpaceStamp(now));
    forall k | 0 <= k < |ids|
      ensures r[k].id == ids[k] && r[k].order == k
    {
      var s := ReorderedSpaceAt(spaces, ids, now, k);
    }
  }

  /** Entry k of a space reorder is a space of the array carrying `ids[k]`, with
      only its order (now k) and its timestamp changed. */
  lemma ReorderedSpaceAt(spaces: seq<Space>, ids: seq<string>, now: Timestamp, k: int) returns (s: Space)
    requires AllListed(spaces, SpaceIdOf, ids) && 0 <= k < |ids|
    ensures s in spaces && s.id == ids[k]
    ensures ReorderListed(spaces, SpaceIdOf, ids, SpaceStamp(now))[k] == ReorderedSpace(s, k, now)
  {
    var i := ReorderListedAt(spaces, SpaceIdOf, ids, SpaceStamp(now), k);
    s := spaces[i];
  }

  /** `ids` lists only items the selection keeps. */
  ghost predicate ListedSelected<T>(xs: seq<T>, idOf: T -> string, ids: seq<string>, p: T -> bool) {
    forall i :: 0 <= i < |xs| && idOf(xs[i]) in ids ==> p(xs[i])
  }

  /** Filtering a filtered array by a narrower predicate is filtering by the narrower one. */
  lemma {:induction false} FilterNested<T(!new)>(s: seq<T>, outer: T -> bool, inner: T -> bool)
    requires forall i :: 0 <= i < |s| && inner(s[i]) ==> outer(s[i])
    ensures Filter(Filter(s, outer), inner) == Filter(s, inner)
  {
    if s != [] {
      var rest := Filter(s[1..], outer);
      FilterNested(s[1..], outer, inner);
      if outer(s[0]) {
        assert Filter(s, outer) == [s[0]] + rest;
        FilterConcat([s[0]], rest, inner);
        assert Filter([s[0]], inner) == (if inner(s[0]) then [s[0]] else []) by {
          assert [s[0]][1..] == [];
        }
      } else {
        assert !inner(s[0]);
        assert Filter(s, outer) == rest;
      }
    }
  }

  /** `reorderGroups(spaceId, ids)`: the other spaces' groups first, then the listed ones. */
  function ReorderGroupsIn(groups: seq<Group>, spaceId: string, ids: seq<string>, now: Timestamp): seq<Group>
    requires AllListed(groups, GroupIdOf, ids)
  {
    Filter(groups, OutsideSpace(spaceId)) + ReorderListed(groups, GroupIdOf, ids, GroupStamp(now))
  }

  /** When the listed groups belong to the space, the reorder leaves every other
      space's groups as they were and numbers the space's groups 0..n-1 in
      listed order, so the groups stay densely ordered per space. */
  lemma ReorderGroupsInShape(groups: seq<Group>, spaceId: string, ids: seq<string>, now: Timestamp)
    requires AllListed(groups, GroupIdOf, ids)
    requires ListedSelected(groups, GroupIdOf, ids, InSpace(spaceId))
    requires GroupsDensePerSpace(groups)
    ensures forall p :: p != spaceId ==>
              Filter(ReorderGroupsIn(groups, spaceId, ids, now), InSpace(p)) == Filter(groups, InSpace(p))
    ensures Filter(ReorderGroupsIn(groups, spaceId, ids, now), InSpace(spaceId))
         == ReorderListed(groups, GroupIdOf, ids, GroupStamp(now))
    ensures GroupsDensePerSpace(ReorderGroupsIn(groups, spaceId, ids, now))
  {
    var others := Filter(groups, OutsideSpace(spaceId));
    var listed := ReorderListed(groups, GroupIdOf, ids, GroupStamp(now));
    ReorderListedEntries(groups, GroupIdOf, ids, GroupStamp(now));
    forall k | 0 <= k < |listed| ensures listed[k].spaceId == spaceId && listed[k].order == k {
      var i :| FirstWith(groups, GroupIdOf, ids[k], i) && listed[k] == GroupStamp(now)(groups[i], k);
    }
    FilterConcat(others, listed, InSpace(spaceId));
    FilterDropsAll(others, InSpace(spaceId));
    FilterKeepsAll(listed, InSpace(spaceId));
    forall p | p != spaceId
      ensures Filter(others + listed, InSpace(p)) == Filter(groups, InSpace(p))
    {
      AppendUnselected(others, listed, InSpace(p));
      FilterNested(groups, OutsideSpace(spaceId), InSpace(p));
    }
  }

  /** `reorderBookmarks(groupId, ids)`: the other groups' bookmarks first, then the listed ones. */
  function ReorderBookmarksIn(bookmarks: seq<Bookmark>, groupId: string, ids: seq<string>, now: Timestamp)
    : seq<Bookmark>
    requires AllListed(bookmarks, BookmarkIdOf, ids)
  {
    Filter(bookmarks, OutsideGroup(groupId)) + ReorderListed(bookmarks, BookmarkIdOf, ids, BookmarkStamp(now))
  }

  lemma ReorderBookmarksInShape(bookmarks: seq<Bookmark>, groupId: string, ids: seq<string>, now: Timestamp)
    requires AllListed(bookmarks, BookmarkIdOf, ids)
    requires ListedSelected(bookmarks, BookmarkIdOf, ids, InGroup(groupId))
    requires BookmarksDensePerGroup(bookmarks)
    ensures forall p :: p != groupId ==>
              Filter(ReorderBookmarksIn(bookmarks, groupId, ids, now), InGroup(p)) == Filter(bookmarks, InGroup(p))
    ensures Filter(ReorderBookmarksIn(bookmarks, groupId, ids, now), InGroup(groupId))
         == ReorderListed(bookmarks, BookmarkIdOf, ids, BookmarkStamp(now))
    ensures BookmarksDensePerGroup(ReorderBookmarksIn(bookmarks, groupId, ids, now))
  {
    var others := Filter(bookmarks, OutsideGroup(groupId));
    var listed := ReorderListed(bookmarks, BookmarkIdOf, ids, BookmarkStamp(now));
    ReorderListedEntries(bookmarks, BookmarkIdOf, ids, BookmarkStamp(now));
    forall k | 0 <= k < |listed| ensures listed[k].groupId == groupId && listed[k].order == k {
      var i :| FirstWith(bookmarks, BookmarkIdOf, ids[k], i) && listed[k] == BookmarkStamp(now)(bookmarks[i], k);
    }
    FilterConcat(others, listed, InGroup(groupId));
    FilterDropsAll(others, InGroup(groupId));
    FilterKeepsAll(listed, InGroup(groupId));
    forall p | p != groupId
      ensures Filter(others + listed, InGroup(p)) == Filter(bookmarks, InGroup(p))
    {
      AppendUnselected(others, listed, InGroup(p));
      FilterNested(bookmarks, OutsideGroup(groupId), InGroup(p));
    }
  }
}
