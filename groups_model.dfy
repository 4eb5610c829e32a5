/** The server-synced group collection, shaped like the bookmark one: an array
    of group cells and a loading flag, each action split at its `await` into
    `Begin...` and `Settle...`. Deleting a group also drops its bookmarks from
    the bookmark collection, and a failure puts both arrays back. */
module GroupsModel {
  import opened Common
  import opened Collections
  import opened Entities
  import opened EntityIds
  import opened Atoms
  import opened Reorder
  import opened Invariants
  import BookmarksModel

  /** What an update keeps for its rollback. */
  datatype Rollback = Rollback(cell: Cell<Group>, previous: Group)

  /** `groupsAtom().filter((g) => g().spaceId === spaceId).length` */
  function SpaceSize(gs: seq<Group>, spaceId: string): nat {
    Count(gs, InSpace(spaceId))
  }

  /** A group appended with the size of its space as order keeps the orders
      of every space dense. */
  lemma AppendAtSpaceSize(gs: seq<Group>, g: Group)
    requires GroupsDensePerSpace(gs) && g.order == SpaceSize(gs, g.spaceId)
    ensures GroupsDensePerSpace(gs + [g])
  {
    CountIsFilterLength(gs, InSpace(g.spaceId));
    AppendGroupKeepsDense(gs, g);
  }

  /** Dropping a group together with its bookmarks leaves every remaining
      bookmark pointing at a remaining group, with the same space. */
  lemma CascadeKeepsReferences(gs: seq<Group>, bs: seq<Bookmark>, groupId: string)
    requires BookmarksReferToGroups(gs, bs) && BookmarkSpacesAgree(gs, bs)
    ensures BookmarksReferToGroups(Filter(gs, GroupLacksId(groupId)), Filter(bs, OutsideGroup(groupId)))
    ensures BookmarkSpacesAgree(Filter(gs, GroupLacksId(groupId)), Filter(bs, OutsideGroup(groupId)))
    ensures forall b :: b in Filter(bs, OutsideGroup(groupId)) ==> b.groupId != groupId
  {
    var gs' := Filter(gs, GroupLacksId(groupId));
    FilterMembers(gs, GroupLacksId(groupId));
    FilterMembers(bs, OutsideGroup(groupId));
    forall b | b in Filter(bs, OutsideGroup(groupId)) ensures exists g :: g in gs' && g.id == b.groupId {
      var g :| g in gs && g.id == b.groupId;
      assert g in gs';
    }
  }

  /** Dropping an id no group has changes nothing. */
  lemma DeleteAbsent(gs: seq<Group>, id: string)
    ensures (forall i :: 0 <= i < |gs| ==> gs[i].id != id) ==> Filter(gs, GroupLacksId(id)) == gs
  {
    if forall i :: 0 <= i < |gs| ==> gs[i].id != id {
      FilterKeepsAll(gs, GroupLacksId(id));
    }
  }

  class GroupStore {
    /** `groupsAtom` */
    var cells: seq<Cell<Group>>
    /** `groupsLoadingAtom` */
    var loading: bool

    ghost predicate Valid()
      reads this
    {
      DistinctCells(cells)
    }

    /** The groups the collection shows, in array order. */
    function Groups(): seq<Group>
      reads this, cells
    {
      Values(cells)
    }

    constructor()
      ensures cells == [] && !loading && Valid()
    {
      cells := [];
      loading := false;
    }

    /** `groupsAtom.set((curr) => curr.filter((x) => keep(x())))`, answering the array it replaced. */
    method Retain(keep: Group -> bool) returns (previous: seq<Cell<Group>>)
      requires Valid()
      modifies this
      ensures Valid() && loading == old(loading)
      ensures previous == old(cells) && Values(previous) == old(Groups())
      ensures Groups() == Filter(old(Groups()), keep)
    {
      previous := cells;
      KeepWhereValues(cells, keep);
      KeepWhereDistinct(cells, keep);
      cells := KeepWhere(cells, keep);
    }

    /** `groupsAtom.set(previous)` */
    method Reset(previous: seq<Cell<Group>>)
      requires DistinctCells(previous)
      modifies this
      ensures cells == previous && loading == old(loading) && Valid()
    {
      cells := previous;
    }

    /** `loadGroups`, before the query. */
    method BeginLoad()
      modifies this
      ensures loading && cells == old(cells)
    {
      loading := true;
    }

    /** `loadGroups`, after the query: fresh cells sorted by `order` on success;
        the flag goes down in every case and a failure leaves the array. */
    method SettleLoad(reply: Result<seq<Group>>) returns (r: Result<seq<Group>>)
      requires Valid()
      modifies this
      ensures Valid() && !loading
      ensures reply.Ok? ==> r.Ok? && r.value == Groups()
      ensures reply.Ok? ==> multiset(Groups()) == multiset(reply.value) && SortedBy(Groups(), GroupOrder)
      ensures reply.Ok? ==> forall i :: 0 <= i < |cells| ==> fresh(cells[i])
      ensures reply.Err? ==> r == reply && cells == old(cells)
    {
      if reply.Ok? {
        var sorted := SortBy(reply.value, GroupOrder);
        cells := NewCells(sorted);
        r := Ok(sorted);
      } else {
        r := reply;
      }
      loading := false;
    }

    /** `loadGroups` */
    method LoadGroups(reply: Result<seq<Group>>) returns (r: Result<seq<Group>>)
      requires Valid()
      modifies this
      ensures Valid() && !loading
      ensures reply.Ok? ==> r.Ok? && r.value == Groups()
      ensures reply.Ok? ==> multiset(Groups()) == multiset(reply.value) && SortedBy(Groups(), GroupOrder)
      ensures reply.Err? ==> r == reply && cells == old(cells) && Groups() == old(Groups())
    {
      BeginLoad();
      r := SettleLoad(reply);
    }

    /** `createGroup`, before the remote call: without a user "User not
        authenticated" is thrown; otherwise a fresh cell is appended whose group
        takes as order the number of groups already in its space. */
    method BeginCreate(userId: Option<string>, input: CreateGroupInput, bytes: seq<byte>, now: Timestamp)
      returns (r: Result<Cell<Group>>)
      requires Valid() && |bytes| == SuffixLength
      modifies this
      ensures Valid() && loading == old(loading)
      ensures !Truthy(userId) ==> r == Err(Local("User not authenticated")) && cells == old(cells)
      ensures Truthy(userId) ==> r.Ok? && fresh(r.value) && cells == old(cells) + [r.value]
      ensures Truthy(userId) ==> Groups() == old(Groups()) + [r.value.value]
      ensures Truthy(userId) ==>
        r.value.value == Group(IdFor(GroupKind, bytes), userId.value, input.spaceId, input.name, input.icon,
                               SpaceSize(old(Groups()), input.spaceId), false, now, now)
    {
      if !Truthy(userId) {
        return Err(Local("User not authenticated"));
      }
      var newId := GenerateId(GroupKind, bytes);
      var order := SpaceSize(Groups(), input.spaceId);
      var stamps := CreateTimestamps(now);
      var optimistic := Group(newId, userId.value, input.spaceId, input.name, input.icon, order, false,
                              stamps.createdAt, stamps.updatedAt);
      var cell := new Cell(optimistic);
      ValuesConcat(cells, [cell]);
      cells := cells + [cell];
      r := Ok(cell);
    }

    /** `createGroup`, after the remote call: the cell takes the server's group,
        or is removed by identity and the error rethrown. */
    method SettleCreate(cell: Cell<Group>, reply: Result<Group>) returns (r: Outcome)
      requires Valid()
      modifies this, cell
      ensures Valid() && loading == old(loading)
      ensures reply.Ok? ==> r == Pass && cells == old(cells) && cell.value == reply.value
      ensures reply.Err? ==> r == Fail(reply.error) && cells == RemoveCell(old(cells), cell)
      ensures reply.Err? ==> cell.value == old(cell.value)
    {
      if reply.Ok? {
        cell.value := reply.value;
        r := Pass;
      } else {
        cells := RemoveCell(cells, cell);
        r := Fail(reply.error);
      }
    }

    /** `createGroup`: success answers the new id, failure leaves exactly the
        cells found before. */
    method CreateGroup(userId: Option<string>, input: CreateGroupInput, bytes: seq<byte>, now: Timestamp,
                       reply: Result<Group>) returns (r: Result<string>)
      requires Valid() && |bytes| == SuffixLength
      modifies this
      ensures Valid()
      ensures !Truthy(userId) ==> r == Err(Local("User not authenticated")) && cells == old(cells)
      ensures Truthy(userId) && reply.Ok? ==>
        && r == Ok(IdFor(GroupKind, bytes))
        && |cells| == |old(cells)| + 1 && cells[..|old(cells)|] == old(cells)
        && Groups() == old(Groups()) + [reply.value]
      ensures Truthy(userId) && reply.Err? ==>
        r == Err(reply.error) && cells == old(cells) && Groups() == old(Groups())
    {
      var begun := BeginCreate(userId, input, bytes, now);
      if begun.Err? {
        return Err(begun.error);
      }
      var cell := begun.value;
      var newId := cell.value.id;
      var settled := SettleCreate(cell, reply);
      if settled.Fail? {
        RemoveAppended(old(cells), cell);
        return Err(settled.error);
      }
      assert cells[..|old(cells)|] == old(cells);
      assert cells[|old(cells)|] == cell;
      r := Ok(newId);
    }

    /** `updateGroup`, before the remote call: an absent id throws "Group not
        found"; otherwise the first cell with the id takes the merged value. */
    method BeginUpdate(id: string, patch: GroupPatch, now: Timestamp) returns (r: Result<Rollback>)
      requires Valid()
      modifies cells
      ensures Locate(old(Groups()), GroupIdOf, id).None? ==>
                r == Err(Local("Group not found")) && Groups() == old(Groups())
      ensures Locate(old(Groups()), GroupIdOf, id).Some? ==>
                var p := Locate(old(Groups()), GroupIdOf, id).value;
                && r.Ok? && r.value.cell == cells[p] && r.value.previous == old(Groups())[p]
                && Groups() == old(Groups())[p := PatchGroup(old(Groups())[p], patch, now)]
    {
      var found := Locate(Groups(), GroupIdOf, id);
      if found.None? {
        return Err(Local("Group not found"));
      }
      var cell := cells[found.value];
      var previous := cell.value;
      SetCell(cells, found.value, PatchGroup(previous, patch, now));
      r := Ok(Rollback(cell, previous));
    }

    /** `updateGroup`, after the remote call: the server's group, or the
        previous value back. */
    method SettleUpdate(token: Rollback, reply: Result<Group>) returns (r: Result<Group>)
      requires Valid() && token.cell in cells
      modifies token.cell
      ensures r == reply
      ensures forall p :: 0 <= p < |cells| && cells[p] == token.cell ==>
        Groups() == old(Groups())[p := if reply.Ok? then reply.value else token.previous]
    {
      if reply.Ok? {
        SetCellOf(cells, token.cell, reply.value);
      } else {
        SetCellOf(cells, token.cell, token.previous);
      }
      r := reply;
    }

    /** `updateGroup`: success stores the server's copy, failure restores the
        previous collection exactly. */
    method UpdateGroup(id: string, patch: GroupPatch, now: Timestamp, reply: Result<Group>)
      returns (r: Result<Group>)
      requires Valid()
      modifies cells
      ensures Locate(old(Groups()), GroupIdOf, id).None? ==>
                r == Err(Local("Group not found")) && Groups() == old(Groups())
      ensures Locate(old(Groups()), GroupIdOf, id).Some? ==> r == reply
      ensures Locate(old(Groups()), GroupIdOf, id).Some? && reply.Ok? ==>
                Groups() == old(Groups())[Locate(old(Groups()), GroupIdOf, id).value := reply.value]
      ensures reply.Err? ==> Groups() == old(Groups())
    {
      ghost var xs := Groups();
      var begun := BeginUpdate(id, patch, now);
      if begun.Err? {
        return Err(begun.error);
      }
      ghost var p := Locate(xs, GroupIdOf, id).value;
      ghost var patched := Groups();
      r := SettleUpdate(begun.value, reply);
      assert cells[p] == begun.value.cell;
      Overwrite(xs, p, PatchGroup(xs[p], patch, now), if reply.Ok? then reply.value else xs[p]);
    }

    /** `deleteGroup`, before the remote call: the group's cells and the cells
        of its bookmarks are dropped; both previous arrays are kept. */
    method BeginDelete(groupId: string, bookmarks: BookmarksModel.BookmarkStore)
      returns (previousGroups: seq<Cell<Group>>, previousBookmarks: seq<Cell<Bookmark>>)
      requires Valid() && bookmarks.Valid()
      modifies this, bookmarks
      ensures Valid() && bookmarks.Valid()
      ensures loading == old(loading) && bookmarks.loading == old(bookmarks.loading)
      ensures previousGroups == old(cells) && Values(previousGroups) == old(Groups())
      ensures previousBookmarks == old(bookmarks.cells) && Values(previousBookmarks) == old(bookmarks.Bookmarks())
      ensures Groups() == Filter(old(Groups()), GroupLacksId(groupId))
      ensures bookmarks.Bookmarks() == Filter(old(bookmarks.Bookmarks()), OutsideGroup(groupId))
    {
      previousGroups := Retain(GroupLacksId(groupId));
      previousBookmarks := bookmarks.Retain(OutsideGroup(groupId));
    }

    /** `deleteGroup`, after the remote call: a failure puts both previous
        arrays back and rethrows. */
    method SettleDelete(previousGroups: seq<Cell<Group>>, previousBookmarks: seq<Cell<Bookmark>>,
                        bookmarks: BookmarksModel.BookmarkStore, reply: Outcome) returns (r: Outcome)
      requires Valid() && bookmarks.Valid()
      requires DistinctCells(previousGroups) && DistinctCells(previousBookmarks)
      modifies this, bookmarks
      ensures Valid() && bookmarks.Valid() && r == reply
      ensures loading == old(loading) && bookmarks.loading == old(bookmarks.loading)
      ensures reply.Pass? ==> cells == old(cells) && Groups() == old(Groups())
      ensures reply.Pass? ==> bookmarks.cells == old(bookmarks.cells) && bookmarks.Bookmarks() == old(bookmarks.Bookmarks())
      ensures reply.Fail? ==> cells == previousGroups && Groups() == old(Values(previousGroups))
      ensures reply.Fail? ==>
        bookmarks.cells == previousBookmarks && bookmarks.Bookmarks() == old(Values(previousBookmarks))
    {
      if reply.Fail? {
        Reset(previousGroups);
        bookmarks.Reset(previousBookmarks);
      }
      r := reply;
    }

    /** `deleteGroup`: success drops the group and its bookmarks, failure
        leaves both collections exactly as they were. */
    method DeleteGroup(groupId: string, bookmarks: BookmarksModel.BookmarkStore, reply: Outcome)
      returns (r: Outcome)
      requires Valid() && bookmarks.Valid()
      modifies this, bookmarks
      ensures Valid() && bookmarks.Valid() && r == reply
      ensures reply.Pass? ==> Groups() == Filter(old(Groups()), GroupLacksId(groupId))
      ensures reply.Pass? ==>
        bookmarks.Bookmarks() == Filter(old(bookmarks.Bookmarks()), OutsideGroup(groupId))
      ensures reply.Fail? ==> cells == old(cells) && Groups() == old(Groups())
      ensures reply.Fail? ==> bookmarks.cells == old(bookmarks.cells) && bookmarks.Bookmarks() == old(bookmarks.Bookmarks())
    {
      var previousGroups, previousBookmarks := BeginDelete(groupId, bookmarks);
      r := SettleDelete(previousGroups, previousBookmarks, bookmarks, reply);
    }

    /** `reorderGroups`, before the remote call: the optimistic pass. The space
        id only goes to the server. */
    method BeginReorder(spaceId: string, orderedIds: seq<string>, now: Timestamp)
      returns (snapshots: seq<Entry<Group>>)
      requires Valid()
      modifies cells
      ensures Run(Groups(), snapshots) == ReorderRun(old(Groups()), orderedIds, GroupIdOf, GroupStamp(now))
    {
      snapshots := ApplyReorder(cells, orderedIds, GroupIdOf, GroupStamp(now));
    }

    /** `reorderGroups`, after the remote call: a failure writes the saved
        states back. */
    method SettleReorder(snapshots: seq<Entry<Group>>, reply: Outcome) returns (r: Outcome)
      requires Valid()
      modifies cells
      ensures r == reply
      ensures reply.Pass? ==> Groups() == old(Groups())
      ensures reply.Fail? ==> Groups() == Restored(old(Groups()), snapshots, GroupIdOf)
    {
      if reply.Fail? {
        RestoreCells(cells, snapshots, GroupIdOf);
      }
      r := reply;
    }

    /** `reorderGroups`: when no id is listed twice, a failure restores the
        collection exactly. */
    method ReorderGroups(spaceId: string, orderedIds: seq<string>, now: Timestamp, reply: Outcome)
      returns (r: Outcome)
      requires Valid()
      modifies cells
      ensures r == reply
      ensures reply.Pass? ==> Groups() == ReorderRun(old(Groups()), orderedIds, GroupIdOf, GroupStamp(now)).values
      ensures reply.Fail? && NoDuplicates(orderedIds) ==> Groups() == old(Groups())
    {
      var snapshots := BeginReorder(spaceId, orderedIds, now);
      r := SettleReorder(snapshots, reply);
      if reply.Fail? && NoDuplicates(orderedIds) {
        assert KeepsIds(GroupIdOf, GroupStamp(now));
        ReorderRollback(old(Groups()), orderedIds, GroupIdOf, GroupStamp(now));
      }
    }
  }
}
