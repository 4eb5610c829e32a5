/** The derived, read-only views over the local collections: spaces in display
    order, one space by id, and the children of one parent in display order.
    Each view sorts a fresh copy, so the collection it reads is left as it was. */
module Computed {
  import opened Common
  import opened Collections
  import opened Entities

  /** `sortedSpacesAtom` */
  function SortedSpaces(spaces: seq<Space>): (r: seq<Space>)
    ensures multiset(r) == multiset(spaces)
    ensures SortedBy(r, SpaceOrder)
  {
    SortBy(spaces, SpaceOrder)
  }

  /** `getSpaceById(id)`: the first space carrying `id`, if any. */
  function SpaceById(spaces: seq<Space>, id: string): (r: Option<Space>)
    ensures r.Some? ==> r.value.id == id
    ensures r.Some? ==> exists i :: 0 <= i < |spaces| && spaces[i] == r.value
                                    && forall j :: 0 <= j < i ==> spaces[j].id != id
    ensures r.None? <==> forall j :: 0 <= j < |spaces| ==> spaces[j].id != id
  {
    match FirstIndex(spaces, SpaceHasId(id))
    case None => None
    case Some(i) => Some(spaces[i])
  }

  /** `getGroupsBySpaceId(spaceId)` */
  function GroupsBySpaceId(groups: seq<Group>, spaceId: string): (r: seq<Group>)
    ensures multiset(r) == multiset(Filter(groups, InSpace(spaceId)))
    ensures forall g :: g in r <==> g in groups && g.spaceId == spaceId
    ensures SortedBy(r, GroupOrder)
  {
    SortedSelection(groups, InSpace(spaceId), GroupOrder);
    SortBy(Filter(groups, InSpace(spaceId)), GroupOrder)
  }

  /** `getBookmarksByGroupId(groupId)` */
  function BookmarksByGroupId(bookmarks: seq<Bookmark>, groupId: string): (r: seq<Bookmark>)
    ensures multiset(r) == multiset(Filter(bookmarks, InGroup(groupId)))
    ensures forall b :: b in r <==> b in bookmarks && b.groupId == groupId
    ensures SortedBy(r, BookmarkOrder)
  {
    SortedSelection(bookmarks, InGroup(groupId), BookmarkOrder);
    SortBy(Filter(bookmarks, InGroup(groupId)), BookmarkOrder)
  }

  /** A group of a space is listed exactly as often as the space holds it. */
  lemma {:induction false} GroupsBySpaceIdCounts(groups: seq<Group>, spaceId: string, g: Group)
    ensures multiset(GroupsBySpaceId(groups, spaceId))[g]
         == if g.spaceId == spaceId then multiset(groups)[g] else 0
  {
    FilterCount(groups, InSpace(spaceId), g);
  }

  /** How often `filter` keeps an element: as often as it occurs, or never. */
  lemma {:induction false} FilterCount<T(!new)>(s: seq<T>, p: T -> bool, x: T)
    ensures multiset(Filter(s, p))[x] == if p(x) then multiset(s)[x] else 0
  {
    if s != [] {
      FilterCount(s[1..], p, x);
      assert s == [s[0]] + s[1..];
    }
  }
}
