/** The two generations delete a space's bookmarks by different tests: the
    server-synced store drops the bookmarks whose own `spaceId` is the space,
    the local store drops the bookmarks whose `groupId` names one of the
    space's groups. The tests select the same bookmarks exactly when every
    bookmark's `spaceId` is the `spaceId` of its group. */
module Generations {
  import opened Common
  import opened Collections
  import opened Entities
  import opened Invariants
  import opened LocalData
  import opened EntityIds
  import opened BookmarksModel

  /** With every bookmark pointing at a group whose space it shares, both
      cascades keep the same bookmarks, in the same order. */
  lemma CascadesCoincide(groups: seq<Group>, bookmarks: seq<Bookmark>, spaceId: string)
    requires BookmarksReferToGroups(groups, bookmarks) && BookmarkSpacesAgree(groups, bookmarks)
    ensures Filter(bookmarks, BookmarkOutsideSpace(spaceId))
         == Filter(bookmarks, OutsideGroups(GroupIdsOf(groups, spaceId)))
  {
    var ids := GroupIdsOf(groups, spaceId);
    GroupIdsOfMembers(groups, spaceId);
    forall i | 0 <= i < |bookmarks|
      ensures BookmarkOutsideSpace(spaceId)(bookmarks[i]) == OutsideGroups(ids)(bookmarks[i])
    {
      var b := bookmarks[i];
      var h :| h in groups && h.id == b.groupId;
      assert b.spaceId == h.spaceId;
      if b.groupId in ids {
        var g :| g in groups && g.spaceId == spaceId && g.id == b.groupId;
        assert b.spaceId == g.spaceId;
      }
    }
    FilterSame(bookmarks, BookmarkOutsideSpace(spaceId), OutsideGroups(ids));
  }

  /** A bookmark whose `spaceId` differs from its group's makes the cascades
      part: deleting the group's space, the local store removes it and the
      server-synced store keeps it. */
  lemma CascadesDifferWithoutAgreement(groups: seq<Group>, bookmarks: seq<Bookmark>, b: Bookmark, g: Group)
    requires b in bookmarks && g in groups && b.groupId == g.id && b.spaceId != g.spaceId
    ensures b in Filter(bookmarks, BookmarkOutsideSpace(g.spaceId))
    ensures b !in Filter(bookmarks, OutsideGroups(GroupIdsOf(groups, g.spaceId)))
  {
    FilterMembers(bookmarks, BookmarkOutsideSpace(g.spaceId));
    FilterMembers(bookmarks, OutsideGroups(GroupIdsOf(groups, g.spaceId)));
    GroupIdsOfMembers(groups, g.spaceId);
  }

  /** The server-synced `createBookmark` takes `spaceId` from its input without
      looking at the group, so an input naming another space than its group's
      makes the optimistic bookmark it appends break the agreement the local
      store keeps. */
  lemma SyncedCreateCanDisagree(groups: seq<Group>, bookmarks: seq<Bookmark>, userId: string,
                                input: SyncedBookmarkInput, bytes: seq<byte>, now: Timestamp, g: Group)
    requires |bytes| == SuffixLength
    requires g in groups && g.id == input.groupId && g.spaceId != input.spaceId
    ensures !BookmarkSpacesAgree(groups, bookmarks + [Optimistic(userId, input, bytes, GroupSize(bookmarks, input.groupId), now)])
  {
    var b := Optimistic(userId, input, bytes, GroupSize(bookmarks, input.groupId), now);
    assert b in bookmarks + [b];
  }
}
