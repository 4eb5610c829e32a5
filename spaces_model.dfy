/** The server-synced space collection: an array of space cells and a loading
    flag, each action split at its `await` into `Begin...` and `Settle...`.
    Deleting a space also drops its groups and its bookmarks, and a failure
    puts all three arrays back. */
module SpacesModel {
  import opened Common
  import opened Collections
  import opened Entities
  import opened EntityIds
  import opened Atoms
  import opened Reorder
  import opened Invariants
  import GroupsModel
  import BookmarksModel

  /** What an update keeps for its rollback. */
  datatype Rollback = Rollback(cell: Cell<Space>, previous: Space)

  /** A space appended with the length of the array as order keeps the space
      orders 0..n-1. */
  lemma AppendAtEnd(ss: seq<Space>, s: Space)
    requires DenselyOrdered(ss, SpaceOrder) && s.order == |ss|
    ensures DenselyOrdered(ss + [s], SpaceOrder)
  {
  }

  /** Dropping a space with its groups and the bookmarks that name it keeps
      every remaining group under a remaining space and every remaining
      bookmark under a remaining group, provided each bookmark's space agreed
      with its group's before. */
  lemma CascadeKeepsReferences(ss: seq<Space>, gs: seq<Group>, bs: seq<Bookmark>, spaceId: string)
    requires GroupsReferToSpaces(ss, gs)
    requires BookmarksReferToGroups(gs, bs) && BookmarkSpacesAgree(gs, bs)
    ensures GroupsReferToSpaces(Filter(ss, SpaceLacksId(spaceId)), Filter(gs, OutsideSpace(spaceId)))
    ensures BookmarksReferToGroups(Filter(gs, OutsideSpace(spaceId)), Filter(bs, BookmarkOutsideSpace(spaceId)))
    ensures BookmarkSpacesAgree(Filter(gs, OutsideSpace(spaceId)), Filter(bs, BookmarkOutsideSpace(spaceId)))
  {
    var ss', gs', bs' := Filter(ss, SpaceLacksId(spaceId)), Filter(gs, OutsideSpace(spaceId)),
                         Filter(bs, BookmarkOutsideSpace(spaceId));
    FilterMembers(ss, SpaceLacksId(spaceId));
    FilterMembers(gs, OutsideSpace(spaceId));
    FilterMembers(bs, BookmarkOutsideSpace(spaceId));
    forall g | g in gs' ensures exists s :: s in ss' && s.id == g.spaceId {
      var s :| s in ss && s.id == g.spaceId;
      assert s in ss';
    }
    forall b | b in bs' ensures exists g :: g in gs' && g.id == b.groupId {
      var g :| g in gs && g.id == b.groupId;
      assert g in gs';
    }
  }

  /** The rollback of `reorderSpaces` as written, on a single space listed
      twice: the space comes back with order 0, not with the order it had. */
  lemma RepeatedIdLosesOrder(s: Space, now: Timestamp)
    requires s.order != 0
    ensures Restored(ReorderRun([s], [s.id, s.id], SpaceIdOf, SpaceStamp(now)).values,
                     ReorderRun([s], [s.id, s.id], SpaceIdOf, SpaceStamp(now)).snapshots, SpaceIdOf) != [s]
  {
    assert KeepsIds(SpaceIdOf, SpaceStamp(now));
    RepeatedIdRollback(s, SpaceIdOf, SpaceStamp(now));
    assert SpaceStamp(now)(s, 0).order == 0;
  }

  /** The same list, with a state saved only on a space's first visit: the
      rollback gives the space back unchanged. */
  lemma GuardedRepeatedIdRestores(s: Space, now: Timestamp)
    ensures Restored(GuardedRun([s], [s.id, s.id], SpaceIdOf, SpaceStamp(now)).values,
                     GuardedRun([s], [s.id, s.id], SpaceIdOf, SpaceStamp(now)).snapshots, SpaceIdOf) == [s]
  {
    assert KeepsIds(SpaceIdOf, SpaceStamp(now));
    GuardedRollback([s], [s.id, s.id], SpaceIdOf, SpaceStamp(now));
  }

  class SpaceStore {
    /** `spacesAtom` */
    var cells: seq<Cell<Space>>
    /** `spacesLoadingAtom` */
    var loading: bool

    ghost predicate Valid()
      reads this
    {
      DistinctCells(cells)
    }

    /** The spaces the collection shows, in array order. */
    function Spaces(): seq<Space>
      reads this, cells
    {
      Values(cells)
    }

    constructor()
      ensures cells == [] && !loading && Valid()
    {
      cells := [];
      loading := false;
    }

    /** `getSpaceById(id)`: the first cell holding a space with that id. */
    function GetSpaceById(id: string): (r: Option<Cell<Space>>)
      reads this, cells
      ensures r.None? <==> forall i :: 0 <= i < |cells| ==> cells[i].value.id != id
      ensures r.Some? ==> exists p :: 0 <= p < |cells| && cells[p] == r.value && r.value.value.id == id
                                      && forall j :: 0 <= j < p ==> cells[j].value.id != id
    {
      match Locate(Spaces(), SpaceIdOf, id)
      case None => None
      case Some(p) => Some(cells[p])
    }

    /** `spacesAtom.set((curr) => curr.filter((x) => keep(x())))`, answering the array it replaced. */
    method Retain(keep: Space -> bool) returns (previous: seq<Cell<Space>>)
      requires Valid()
      modifies this
      ensures Valid() && loading == old(loading)
      ensures previous == old(cells) && Values(previous) == old(Spaces())
      ensures Spaces() == Filter(old(Spaces()), keep)
    {
      previous := cells;
      KeepWhereValues(cells, keep);
      KeepWhereDistinct(cells, keep);
      cells := KeepWhere(cells, keep);
    }

    /** `spacesAtom.set(previous)` */
    method Reset(previous: seq<Cell<Space>>)
      requires DistinctCells(previous)
      modifies this
      ensures cells == previous && loading == old(loading) && Valid()
    {
      cells := previous;
    }

    /** `loadSpaces`, before the query. */
    method BeginLoad()
      modifies this
      ensures loading && cells == old(cells)
    {
      loading := true;
    }

    /** `loadSpaces`, after the query: fresh cells sorted by `order` on success;
        the flag goes down in every case and a failure leaves the array. */
    method SettleLoad(reply: Result<seq<Space>>) returns (r: Result<seq<Space>>)
      requires Valid()
      modifies this
      ensures Valid() && !loading
      ensures reply.Ok? ==> r.Ok? && r.value == Spaces()
      ensures reply.Ok? ==> multiset(Spaces()) == multiset(reply.value) && SortedBy(Spaces(), SpaceOrder)
      ensures reply.Ok? ==> forall i :: 0 <= i < |cells| ==> fresh(cells[i])
      ensures reply.Err? ==> r == reply && cells == old(cells)
    {
      if reply.Ok? {
        var sorted := SortBy(reply.value, SpaceOrder);
        cells := NewCells(sorted);
        r := Ok(sorted);
      } else {
        r := reply;
      }
      loading := false;
    }

    /** `loadSpaces` */
    method LoadSpaces(reply: Result<seq<Space>>) returns (r: Result<seq<Space>>)
      requires Valid()
      modifies this
      ensures Valid() && !loading
      ensures reply.Ok? ==> r.Ok? && r.value == Spaces()
      ensures reply.Ok? ==> multiset(Spaces()) == multiset(reply.value) && SortedBy(Spaces(), SpaceOrder)
      ensures reply.Err? ==> r == reply && cells == old(cells) && Spaces() == old(Spaces())
    {
      BeginLoad();
      r := SettleLoad(reply);
    }

    /** `createSpace`, before the remote call: without a user "User not
        authenticated" is thrown; otherwise a fresh cell is appended whose space
        takes as order the number of spaces already in the array. */
    method BeginCreate(userId: Option<string>, input: CreateSpaceInput, bytes: seq<byte>, now: Timestamp)
      returns (r: Result<Cell<Space>>)
      requires Valid() && |bytes| == SuffixLength
      modifies this
      ensures Valid() && loading == old(loading)
      ensures !Truthy(userId) ==> r == Err(Local("User not authenticated")) && cells == old(cells)
      ensures Truthy(userId) ==> r.Ok? && fresh(r.value) && cells == old(cells) + [r.value]
      ensures Truthy(userId) ==> Spaces() == old(Spaces()) + [r.value.value]
      ensures Truthy(userId) ==>
        r.value.value == Space(IdFor(SpaceKind, bytes), userId.value, input.name, input.icon, input.color,
                               |old(cells)|, false, now, now)
    {
      if !Truthy(userId) {
        return Err(Local("User not authenticated"));
      }
      var newId := GenerateId(SpaceKind, bytes);
      var stamps := CreateTimestamps(now);
      var optimistic := Space(newId, userId.value, input.name, input.icon, input.color, |cells|, false,
                              stamps.createdAt, stamps.updatedAt);
      var cell := new Cell(optimistic);
      ValuesConcat(cells, [cell]);
      cells := cells + [cell];
      r := Ok(cell);
    }

    /** `createSpace`, after the remote call: the cell takes the server's space,
        or is removed by identity and the error rethrown. */
    method SettleCreate(cell: Cell<Space>, reply: Result<Space>) returns (r: Result<Space>)
      requires Valid()
      modifies this, cell
      ensures Valid() && loading == old(loading) && r == reply
      ensures reply.Ok? ==> cells == old(cells) && cell.value == reply.value
      ensures reply.Err? ==> cells == RemoveCell(old(cells), cell) && cell.value == old(cell.value)
    {
      if reply.Ok? {
        cell.value := reply.value;
      } else {
        cells := RemoveCell(cells, cell);
      }
      r := reply;
    }

    /** `createSpace`: success answers the server's space, failure leaves
        exactly the cells found before. */
    method CreateSpace(userId: Option<string>, input: CreateSpaceInput, bytes: seq<byte>, now: Timestamp,
                       reply: Result<Space>) returns (r: Result<Space>)
      requires Valid() && |bytes| == SuffixLength
      modifies this
      ensures Valid()
      ensures !Truthy(userId) ==> r == Err(Local("User not authenticated")) && cells == old(cells)
      ensures Truthy(userId) ==> r == reply
      ensures Truthy(userId) && reply.Ok? ==>
        |cells| == |old(cells)| + 1 && cells[..|old(cells)|] == old(cells)
        && Spaces() == old(Spaces()) + [reply.value]
      ensures Truthy(userId) && reply.Err? ==> cells == old(cells) && Spaces() == old(Spaces())
    {
      var begun := BeginCreate(userId, input, bytes, now);
      if begun.Err? {
        return Err(begun.error);
      }
      var cell := begun.value;
      r := SettleCreate(cell, reply);
      if reply.Ok? {
        assert cells[..|old(cells)|] == old(cells);
        assert cells[|old(cells)|] == cell;
      } else {
        RemoveAppended(old(cells), cell);
      }
    }

    /** `updateSpace`, before the remote call: an absent id throws "Space not
        found"; otherwise the first cell with the id takes the merged value. */
    method BeginUpdate(id: string, patch: SpacePatch, now: Timestamp) returns (r: Result<Rollback>)
      requires Valid()
      modifies cells
      ensures Locate(old(Spaces()), SpaceIdOf, id).None? ==>
                r == Err(Local("Space not found")) && Spaces() == old(Spaces())
      ensures Locate(old(Spaces()), SpaceIdOf, id).Some? ==>
                var p := Locate(old(Spaces()), SpaceIdOf, id).value;
                && r.Ok? && r.value.cell == cells[p] && r.value.previous == old(Spaces())[p]
                && Spaces() == old(Spaces())[p := PatchSpace(old(Spaces())[p], patch, now)]
    {
      var found := Locate(Spaces(), SpaceIdOf, id);
      if found.None? {
        return Err(Local("Space not found"));
      }
      var cell := cells[found.value];
      var previous := cell.value;
      SetCell(cells, found.value, PatchSpace(previous, patch, now));
      r := Ok(Rollback(cell, previous));
    }

    /** `updateSpace`, after the remote call: the server's space, or the
        previous value back. */
    method SettleUpdate(token: Rollback, reply: Result<Space>) returns (r: Result<Space>)
      requires Valid() && token.cell in cells
      modifies token.cell
      ensures r == reply
      ensures forall p :: 0 <= p < |cells| && cells[p] == token.cell ==>
        Spaces() == old(Spaces())[p := if reply.Ok? then reply.value else token.previous]
    {
      if reply.Ok? {
        SetCellOf(cells, token.cell, reply.value);
      } else {
        SetCellOf(cells, token.cell, token.previous);
      }
      r := reply;
    }

    /** `updateSpace`: success stores the server's copy, failure restores the
        previous collection exactly. */
    method UpdateSpace(id: string, patch: SpacePatch, now: Timestamp, reply: Result<Space>)
      returns (r: Result<Space>)
      requires Valid()
      modifies cells
      ensures Locate(old(Spaces()), SpaceIdOf, id).None? ==>
                r == Err(Local("Space not found")) && Spaces() == old(Spaces())
      ensures Locate(old(Spaces()), SpaceIdOf, id).Some? ==> r == reply
      ensures Locate(old(Spaces()), SpaceIdOf, id).Some? && reply.Ok? ==>
                Spaces() == old(Spaces())[Locate(old(Spaces()), SpaceIdOf, id).value := reply.value]
      ensures reply.Err? ==> Spaces() == old(Spaces())
    {
      ghost var xs := Spaces();
      var begun := BeginUpdate(id, patch, now);
      if begun.Err? {
        return Err(begun.error);
      }
      ghost var p := Locate(xs, SpaceIdOf, id).value;
      ghost var patched := Spaces();
      r := SettleUpdate(begun.value, reply);
      assert cells[p] == begun.value.cell;
      Overwrite(xs, p, PatchSpace(xs[p], patch, now), if reply.Ok? then reply.value else xs[p]);
    }

    /** `deleteSpace`, before the remote call: the space's cells, the cells of
        its groups and the cells of the bookmarks naming it are dropped; the
        three previous arrays are kept. */
    method BeginDelete(spaceId: string, groups: GroupsModel.GroupStore, bookmarks: BookmarksModel.BookmarkStore)
      returns (previousSpaces: seq<Cell<Space>>, previousGroups: seq<Cell<Group>>,
               previousBookmarks: seq<Cell<Bookmark>>)
      requires Valid() && groups.Valid() && bookmarks.Valid()
      modifies this, groups, bookmarks
      ensures Valid() && groups.Valid() && bookmarks.Valid()
      ensures previousSpaces == old(cells) && Values(previousSpaces) == old(Spaces())
      ensures previousGroups == old(groups.cells) && Values(previousGroups) == old(groups.Groups())
      ensures previousBookmarks == old(bookmarks.cells) && Values(previousBookmarks) == old(bookmarks.Bookmarks())
      ensures Spaces() == Filter(old(Spaces()), SpaceLacksId(spaceId))
      ensures groups.Groups() == Filter(old(groups.Groups()), OutsideSpace(spaceId))
      ensures bookmarks.Bookmarks() == Filter(old(bookmarks.Bookmarks()), BookmarkOutsideSpace(spaceId))
    {
      ghost var gs, bs := groups.Groups(), bookmarks.Bookmarks();
      previousSpaces := Retain(SpaceLacksId(spaceId));
      assert groups.Groups() == gs && bookmarks.Bookmarks() == bs;
      ghost var ss := Spaces();
      previousGroups := groups.Retain(OutsideSpace(spaceId));
      assert Spaces() == ss && bookmarks.Bookmarks() == bs;
      ghost var gs' := groups.Groups();
      previousBookmarks := bookmarks.Retain(BookmarkOutsideSpace(spaceId));
      assert Spaces() == ss && groups.Groups() == gs';
    }

    /** `deleteSpace`, after the remote call: a failure puts the three previous
        arrays back and rethrows. */
    method SettleDelete(previousSpaces: seq<Cell<Space>>, previousGroups: seq<Cell<Group>>,
                        previousBookmarks: seq<Cell<Bookmark>>,
                        groups: GroupsModel.GroupStore, bookmarks: BookmarksModel.BookmarkStore, reply: Outcome)
      returns (r: Outcome)
      requires Valid() && groups.Valid() && bookmarks.Valid()
      requires DistinctCells(previousSpaces) && DistinctCells(previousGroups) && DistinctCells(previousBookmarks)
      modifies this, groups, bookmarks
      ensures Valid() && groups.Valid() && bookmarks.Valid() && r == reply
      ensures reply.Pass? ==> cells == old(cells) && Spaces() == old(Spaces())
      ensures reply.Pass? ==> groups.cells == old(groups.cells) && groups.Groups() == old(groups.Groups())
      ensures reply.Pass? ==>
        bookmarks.cells == old(bookmarks.cells) && bookmarks.Bookmarks() == old(bookmarks.Bookmarks())
      ensures reply.Fail? ==> cells == previousSpaces && Spaces() == old(Values(previousSpaces))
      ensures reply.Fail? ==> groups.cells == previousGroups && groups.Groups() == old(Values(previousGroups))
      ensures reply.Fail? ==>
        bookmarks.cells == previousBookmarks && bookmarks.Bookmarks() == old(Values(previousBookmarks))
    {
      if reply.Fail? {
        Reset(previousSpaces);
        groups.Reset(previousGroups);
        bookmarks.Reset(previousBookmarks);
      }
      r := reply;
    }

    /** `deleteSpace`: success drops the space, its groups and its bookmarks;
        failure leaves the three collections exactly as they were. */
    method DeleteSpace(spaceId: string, groups: GroupsModel.GroupStore, bookmarks: BookmarksModel.BookmarkStore,
                       reply: Outcome) returns (r: Outcome)
      requires Valid() && groups.Valid() && bookmarks.Valid()
      modifies this, groups, bookmarks
      ensures Valid() && groups.Valid() && bookmarks.Valid() && r == reply
      ensures reply.Pass? ==> Spaces() == Filter(old(Spaces()), SpaceLacksId(spaceId))
      ensures reply.Pass? ==> groups.Groups() == Filter(old(groups.Groups()), OutsideSpace(spaceId))
      ensures reply.Pass? ==>
        bookmarks.Bookmarks() == Filter(old(bookmarks.Bookmarks()), BookmarkOutsideSpace(spaceId))
      ensures reply.Fail? ==> cells == old(cells) && Spaces() == old(Spaces())
      ensures reply.Fail? ==> groups.cells == old(groups.cells) && groups.Groups() == old(groups.Groups())
      ensures reply.Fail? ==>
        bookmarks.cells == old(bookmarks.cells) && bookmarks.Bookmarks() == old(bookmarks.Bookmarks())
    {
      var previousSpaces, previousGroups, previousBookmarks := BeginDelete(spaceId, groups, bookmarks);
      r := SettleDelete(previousSpaces, previousGroups, previousBookmarks, groups, bookmarks, reply);
    }

    /** `reorderSpaces`, before the remote call: the optimistic pass. */
    method BeginReorder(orderedIds: seq<string>, now: Timestamp) returns (snapshots: seq<Entry<Space>>)
      requires Valid()
      modifies cells
      ensures Run(Spaces(), snapshots) == ReorderRun(old(Spaces()), orderedIds, SpaceIdOf, SpaceStamp(now))
    {
      snapshots := ApplyReorder(cells, orderedIds, SpaceIdOf, SpaceStamp(now));
    }

    /** `reorderSpaces`, after the remote call: a failure writes the saved
        states back. */
    method SettleReorder(snapshots: seq<Entry<Space>>, reply: Outcome) returns (r: Outcome)
      requires Valid()
      modifies cells
      ensures r == reply
      ensures reply.Pass? ==> Spaces() == old(Spaces())
      ensures reply.Fail? ==> Spaces() == Restored(old(Spaces()), snapshots, SpaceIdOf)
    {
      if reply.Fail? {
        RestoreCells(cells, snapshots, SpaceIdOf);
      }
      r := reply;
    }

    /** `reorderSpaces`: when no id is listed twice, a failure restores the
        collection exactly. */
    method ReorderSpaces(orderedIds: seq<string>, now: Timestamp, reply: Outcome) returns (r: Outcome)
      requires Valid()
      modifies cells
      ensures r == reply
      ensures reply.Pass? ==> Spaces() == ReorderRun(old(Spaces()), orderedIds, SpaceIdOf, SpaceStamp(now)).values
      ensures reply.Fail? && NoDuplicates(orderedIds) ==> Spaces() == old(Spaces())
    {
      var snapshots := BeginReorder(orderedIds, now);
      r := SettleReorder(snapshots, reply);
      if reply.Fail? && NoDuplicates(orderedIds) {
        assert KeepsIds(SpaceIdOf, SpaceStamp(now));
        ReorderRollback(old(Spaces()), orderedIds, SpaceIdOf, SpaceStamp(now));
      }
    }
  }
}
