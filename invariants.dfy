/** The shape a consistent collection state has: unique ids, children that
    point at existing parents, bookmarks whose denormalised `spaceId` agrees
    with their group's, and orders 0..n-1 within each parent. */
module Invariants {
  import opened Collections
  import opened Entities

  ghost predicate UniqueSpaceIds(spaces: seq<Space>) {
    forall i, j :: 0 <= i < j < |spaces| ==> spaces[i].id != spaces[j].id
  }

  ghost predicate UniqueGroupIds(groups: seq<Group>) {
    forall i, j :: 0 <= i < j < |groups| ==> groups[i].id != groups[j].id
  }

  /** Every group's `spaceId` names a space of the collection. */
  ghost predicate GroupsReferToSpaces(spaces: seq<Space>, groups: seq<Group>) {
    forall g :: g in groups ==> exists s :: s in spaces && s.id == g.spaceId
  }

  /** Every bookmark's `groupId` names a group of the collection. */
  ghost predicate BookmarksReferToGroups(groups: seq<Group>, bookmarks: seq<Bookmark>) {
    forall b :: b in bookmarks ==> exists g :: g in groups && g.id == b.groupId
  }

  /** A bookmark's own `spaceId` is the `spaceId` of the group it names. */
  ghost predicate BookmarkSpacesAgree(groups: seq<Group>, bookmarks: seq<Bookmark>) {
    forall b, g :: b in bookmarks && g in groups && g.id == b.groupId ==> b.spaceId == g.spaceId
  }

  /** The groups of every space carry the orders 0, 1, ..., n-1 in array order. */
  ghost predicate GroupsDensePerSpace(groups: seq<Group>) {
    forall spaceId :: DenselyOrdered(Filter(groups, InSpace(spaceId)), GroupOrder)
  }

  /** The bookmarks of every group carry the orders 0, 1, ..., n-1 in array order. */
  ghost predicate BookmarksDensePerGroup(bookmarks: seq<Bookmark>) {
    forall groupId :: DenselyOrdered(Filter(bookmarks, InGroup(groupId)), BookmarkOrder)
  }

  /** Two spaces of a collection with unique ids that share an id are the same space. */
  lemma SameSpaceId(spaces: seq<Space>, s: Space, t: Space)
    requires UniqueSpaceIds(spaces) && s in spaces && t in spaces && s.id == t.id
    ensures s == t
  {
    var i :| 0 <= i < |spaces| && spaces[i] == s;
    var j :| 0 <= j < |spaces| && spaces[j] == t;
    assert !(i < j) && !(j < i);
  }

  lemma SameGroupId(groups: seq<Group>, g: Group, h: Group)
    requires UniqueGroupIds(groups) && g in groups && h in groups && g.id == h.id
    ensures g == h
  {
    var i :| 0 <= i < |groups| && groups[i] == g;
    var j :| 0 <= j < |groups| && groups[j] == h;
    assert !(i < j) && !(j < i);
  }

  /** When group ids are unique, a bookmark that names some group with its own
      `spaceId` agrees with every group carrying that id. */
  lemma AgreementFromHomes(groups: seq<Group>, bookmarks: seq<Bookmark>)
    requires UniqueGroupIds(groups)
    requires forall b :: b in bookmarks ==> exists g :: g in groups && g.id == b.groupId && g.spaceId == b.spaceId
    ensures BookmarksReferToGroups(groups, bookmarks)
    ensures BookmarkSpacesAgree(groups, bookmarks)
  {
    forall b, h | b in bookmarks && h in groups && h.id == b.groupId ensures b.spaceId == h.spaceId {
      var g :| g in groups && g.id == b.groupId && g.spaceId == b.spaceId;
      SameGroupId(groups, g, h);
    }
  }

  /** Appending a block of groups of one space that is new to the collection,
      numbered 0..n-1, keeps the orders dense in every space. */
  lemma {:induction false} AppendGroupBlock(a: seq<Group>, block: seq<Group>, spaceId: string)
    requires GroupsDensePerSpace(a)
    requires forall g :: g in a ==> g.spaceId != spaceId
    requires forall i :: 0 <= i < |block| ==> block[i].spaceId == spaceId && block[i].order == i
    ensures GroupsDensePerSpace(a + block)
  {
    forall p ensures DenselyOrdered(Filter(a + block, InSpace(p)), GroupOrder) {
      if p == spaceId {
        forall i | 0 <= i < |a| ensures !InSpace(p)(a[i]) {
          assert a[i] in a;
        }
        AppendFreshBlock(a, block, InSpace(p), GroupOrder);
      } else {
        AppendUnselected(a, block, InSpace(p));
      }
    }
  }

  lemma {:induction false} AppendBookmarkBlock(a: seq<Bookmark>, block: seq<Bookmark>, groupId: string)
    requires BookmarksDensePerGroup(a)
    requires forall b :: b in a ==> b.groupId != groupId
    requires forall i :: 0 <= i < |block| ==> block[i].groupId == groupId && block[i].order == i
    ensures BookmarksDensePerGroup(a + block)
  {
    forall p ensures DenselyOrdered(Filter(a + block, InGroup(p)), BookmarkOrder) {
      if p == groupId {
        forall i | 0 <= i < |a| ensures !InGroup(p)(a[i]) {
          assert a[i] in a;
        }
        AppendFreshBlock(a, block, InGroup(p), BookmarkOrder);
      } else {
        AppendUnselected(a, block, InGroup(p));
      }
    }
  }

  /** A new group whose order is the number of groups already in its space
      keeps the orders dense. */
  lemma {:induction false} AppendGroupKeepsDense(a: seq<Group>, g: Group)
    requires GroupsDensePerSpace(a)
    requires g.order == |Filter(a, InSpace(g.spaceId))|
    ensures GroupsDensePerSpace(a + [g])
  {
    forall p ensures DenselyOrdered(Filter(a + [g], InSpace(p)), GroupOrder) {
      AppendKeepsDense(a, g, InSpace(p), GroupOrder);
    }
  }

  /** A new bookmark whose order is the number of bookmarks already in its group
      keeps the orders dense. */
  lemma {:induction false} AppendBookmarkKeepsDense(a: seq<Bookmark>, b: Bookmark)
    requires BookmarksDensePerGroup(a)
    requires b.order == |Filter(a, InGroup(b.groupId))|
    ensures BookmarksDensePerGroup(a + [b])
  {
    forall p ensures DenselyOrdered(Filter(a + [b], InGroup(p)), BookmarkOrder) {
      AppendKeepsDense(a, b, InGroup(p), BookmarkOrder);
    }
  }
}
