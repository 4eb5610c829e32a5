/** The server-synced bookmark collection: an array of bookmark cells and a
    loading flag. Every change is applied at once and then either confirmed
    with the server's copy or undone when the remote call fails. Each action is
    split at its `await`: `Begin...` is the part before it and `Settle...` the
    part after, given the remote reply; the action itself runs both in turn. */
module BookmarksModel {
  import opened Common
  import opened Collections
  import opened Entities
  import opened EntityIds
  import opened Atoms
  import opened Reorder

  /** What an update or a move keeps for its rollback: the cell it changed and
      the value the cell had before. */
  datatype Rollback = Rollback(cell: Cell<Bookmark>, previous: Bookmark)

  /** `bookmarksAtom().filter((b) => b().groupId === groupId).length` */
  function GroupSize(bs: seq<Bookmark>, groupId: string): nat {
    Count(bs, InGroup(groupId))
  }

  /** The bookmark `createBookmark` shows before the server answers: a fresh
      id, the space and group named by the input, no favicon, unpinned and live. */
  function Optimistic(userId: string, input: SyncedBookmarkInput, bytes: seq<byte>, order: int, now: Timestamp): Bookmark
    requires |bytes| == SuffixLength
  {
    Bookmark(IdFor(BookmarkKind, bytes), userId, input.spaceId, input.groupId,
             input.title, input.url, None, input.description, order, false, false, now, now)
  }

  /** `moveBookmark`'s optimistic value: new parent, and the size of the target
      group as it was just before the move. */
  function Moved(bs: seq<Bookmark>, p: nat, groupId: string, spaceId: string, now: Timestamp): (b: Bookmark)
    requires p < |bs|
    ensures b.id == bs[p].id && b.groupId == groupId && b.spaceId == spaceId && b.updatedAt == now
    ensures b.order == GroupSize(bs, groupId)
  {
    bs[p].(groupId := groupId, spaceId := spaceId, order := GroupSize(bs, groupId), updatedAt := now)
  }

  /** A bookmark moved into the group it is already in is counted in its own
      new order: it lands one past the other members of the group. */
  lemma MoveWithinGroupCountsItself(bs: seq<Bookmark>, p: nat, spaceId: string, now: Timestamp)
    requires p < |bs|
    ensures Moved(bs, p, bs[p].groupId, spaceId, now).order == GroupSize(bs[..p] + bs[p + 1..], bs[p].groupId) + 1
  {
    var g := InGroup(bs[p].groupId);
    assert bs == bs[..p] + [bs[p]] + bs[p + 1..];
    FilterConcat(bs[..p] + [bs[p]], bs[p + 1..], g);
    FilterConcat(bs[..p], [bs[p]], g);
    FilterConcat(bs[..p], bs[p + 1..], g);
    CountIsFilterLength(bs, g);
    CountIsFilterLength(bs[..p] + bs[p + 1..], g);
  }

  /** Dropping an id no bookmark has changes nothing. */
  lemma DeleteAbsent(bs: seq<Bookmark>, id: string)
    ensures (forall i :: 0 <= i < |bs| ==> bs[i].id != id) ==> Filter(bs, BookmarkLacksId(id)) == bs
  {
    if forall i :: 0 <= i < |bs| ==> bs[i].id != id {
      FilterKeepsAll(bs, BookmarkLacksId(id));
    }
  }

  class BookmarkStore {
    /** `bookmarksAtom` */
    var cells: seq<Cell<Bookmark>>
    /** `bookmarksLoadingAtom` */
    var loading: bool

    ghost predicate Valid()
      reads this
    {
      DistinctCells(cells)
    }

    /** The bookmarks the collection shows, in array order. */
    function Bookmarks(): seq<Bookmark>
      reads this, cells
    {
      Values(cells)
    }

    constructor()
      ensures cells == [] && !loading && Valid()
    {
      cells := [];
      loading := false;
    }

    /** `bookmarksAtom.set((curr) => curr.filter((x) => keep(x())))`, answering the array it replaced. */
    method Retain(keep: Bookmark -> bool) returns (previous: seq<Cell<Bookmark>>)
      requires Valid()
      modifies this
      ensures Valid() && loading == old(loading)
      ensures previous == old(cells) && Values(previous) == old(Bookmarks())
      ensures Bookmarks() == Filter(old(Bookmarks()), keep)
    {
      previous := cells;
      KeepWhereValues(cells, keep);
      KeepWhereDistinct(cells, keep);
      cells := KeepWhere(cells, keep);
    }

    /** `bookmarksAtom.set(previous)` */
    method Reset(previous: seq<Cell<Bookmark>>)
      requires DistinctCells(previous)
      modifies this
      ensures cells == previous && loading == old(loading) && Valid()
    {
      cells := previous;
    }

    /** `loadBookmarks`, before the query: the flag goes up. */
    method BeginLoad()
      modifies this
      ensures loading && cells == old(cells)
    {
      loading := true;
    }

    /** `loadBookmarks`, after the query: on success the array becomes one fresh
        cell per server bookmark, sorted by `order`; in every case the flag goes
        down (`finally`) and a failure is rethrown with the array untouched. */
    method SettleLoad(reply: Result<seq<Bookmark>>) returns (r: Result<seq<Bookmark>>)
      requires Valid()
      modifies this
      ensures Valid() && !loading
      ensures reply.Ok? ==> r.Ok? && r.value == Bookmarks()
      ensures reply.Ok? ==> multiset(Bookmarks()) == multiset(reply.value) && SortedBy(Bookmarks(), BookmarkOrder)
      ensures reply.Ok? ==> forall i :: 0 <= i < |cells| ==> fresh(cells[i])
      ensures reply.Err? ==> r == reply && cells == old(cells)
    {
      if reply.Ok? {
        var sorted := SortBy(reply.value, BookmarkOrder);
        cells := NewCells(sorted);
        r := Ok(sorted);
      } else {
        r := reply;
      }
      loading := false;
    }

    /** `loadBookmarks` */
    method LoadBookmarks(reply: Result<seq<Bookmark>>) returns (r: Result<seq<Bookmark>>)
      requires Valid()
      modifies this
      ensures Valid() && !loading
      ensures reply.Ok? ==> r.Ok? && r.value == Bookmarks()
      ensures reply.Ok? ==> multiset(Bookmarks()) == multiset(reply.value) && SortedBy(Bookmarks(), BookmarkOrder)
      ensures reply.Err? ==> r == reply && cells == old(cells) && Bookmarks() == old(Bookmarks())
    {
      BeginLoad();
      r := SettleLoad(reply);
    }

    /** `createBookmark`, before the remote call. Without a user nothing changes
        and "User not authenticated" is thrown; otherwise one fresh cell holding
        the optimistic bookmark is appended, its order being the number of
        bookmarks already in the target group. */
    method BeginCreate(userId: Option<string>, input: SyncedBookmarkInput, bytes: seq<byte>, now: Timestamp)
      returns (r: Result<Cell<Bookmark>>)
      requires Valid() && |bytes| == SuffixLength
      modifies this
      ensures Valid() && loading == old(loading)
      ensures !Truthy(userId) ==> r == Err(Local("User not authenticated")) && cells == old(cells)
      ensures Truthy(userId) ==> r.Ok? && fresh(r.value) && cells == old(cells) + [r.value]
      ensures Truthy(userId) ==> Bookmarks() == old(Bookmarks()) + [r.value.value]
      ensures Truthy(userId) ==>
        r.value.value == Optimistic(userId.value, input, bytes, GroupSize(old(Bookmarks()), input.groupId), now)
    {
      if !Truthy(userId) {
        return Err(Local("User not authenticated"));
      }
      var newId := GenerateId(BookmarkKind, bytes);
      var order := GroupSize(Bookmarks(), input.groupId);
      var stamps := CreateTimestamps(now);
      var optimistic := Bookmark(newId, userId.value, input.spaceId, input.groupId, input.title, input.url,
                                 None, input.description, order, false, false, stamps.createdAt, stamps.updatedAt);
      assert optimistic == Optimistic(userId.value, input, bytes, order, now);
      var cell := new Cell(optimistic);
      ValuesConcat(cells, [cell]);
      cells := cells + [cell];
      r := Ok(cell);
    }

    /** `createBookmark`, after the remote call: the optimistic cell takes the
        server's bookmark, or is removed again by identity and the error rethrown. */
    method SettleCreate(cell: Cell<Bookmark>, reply: Result<Bookmark>) returns (r: Result<Bookmark>)
      requires Valid()
      modifies this, cell
      ensures Valid() && loading == old(loading) && r == reply
      ensures reply.Ok? ==> cells == old(cells) && cell.value == reply.value
      ensures reply.Err? ==> cells == RemoveCell(old(cells), cell) && cell.value == old(cell.value)
    {
      if reply.Ok? {
        cell.value := reply.value;
      } else {
        cells := RemoveCell(cells, cell);
      }
      r := reply;
    }

    /** `createBookmark`: a failure leaves exactly the cells found before. */
    method CreateBookmark(userId: Option<string>, input: SyncedBookmarkInput, bytes: seq<byte>, now: Timestamp,
                          reply: Result<Bookmark>) returns (r: Result<Bookmark>)
      requires Valid() && |bytes| == SuffixLength
      modifies this
      ensures Valid()
      ensures !Truthy(userId) ==> r == Err(Local("User not authenticated")) && cells == old(cells)
      ensures Truthy(userId) ==> r == reply
      ensures Truthy(userId) && reply.Ok? ==>
        |cells| == |old(cells)| + 1 && cells[..|old(cells)|] == old(cells)
        && Bookmarks() == old(Bookmarks()) + [reply.value]
      ensures Truthy(userId) && reply.Err? ==> cells == old(cells) && Bookmarks() == old(Bookmarks())
    {
      var begun := BeginCreate(userId, input, bytes, now);
      if begun.Err? {
        return Err(begun.error);
      }
      var cell := begun.value;
      ghost var before := cells;
      r := SettleCreate(cell, reply);
      if reply.Ok? {
        assert cells[..|old(cells)|] == old(cells);
        assert cells[|old(cells)|] == cell;
      } else {
        RemoveAppended(old(cells), cell);
      }
    }

    /** `updateBookmark`, before the remote call: an absent id throws "Bookmark
        not found" with nothing changed; otherwise the first cell with that id
        takes the merged value, and its previous value is kept. */
    method BeginUpdate(id: string, patch: BookmarkPatch, now: Timestamp) returns (r: Result<Rollback>)
      requires Valid()
      modifies cells
      ensures Locate(old(Bookmarks()), BookmarkIdOf, id).None? ==>
                r == Err(Local("Bookmark not found")) && Bookmarks() == old(Bookmarks())
      ensures Locate(old(Bookmarks()), BookmarkIdOf, id).Some? ==>
                var p := Locate(old(Bookmarks()), BookmarkIdOf, id).value;
                && r.Ok? && r.value.cell == cells[p] && r.value.previous == old(Bookmarks())[p]
                && Bookmarks() == old(Bookmarks())[p := PatchBookmark(old(Bookmarks())[p], patch, now)]
    {
      var found := Locate(Bookmarks(), BookmarkIdOf, id);
      if found.None? {
        return Err(Local("Bookmark not found"));
      }
      var cell := cells[found.value];
      var previous := cell.value;
      SetCell(cells, found.value, PatchBookmark(previous, patch, now));
      r := Ok(Rollback(cell, previous));
    }

    /** After the remote call of an update or a move: the cell takes the
        server's bookmark, or its previous value back, and the error is rethrown. */
    method SettleUpdate(token: Rollback, reply: Result<Bookmark>) returns (r: Result<Bookmark>)
      requires Valid() && token.cell in cells
      modifies token.cell
      ensures r == reply
      ensures forall p :: 0 <= p < |cells| && cells[p] == token.cell ==>
        Bookmarks() == old(Bookmarks())[p := if reply.Ok? then reply.value else token.previous]
    {
      if reply.Ok? {
        SetCellOf(cells, token.cell, reply.value);
      } else {
        SetCellOf(cells, token.cell, token.previous);
      }
      r := reply;
    }

    /** `updateBookmark`: success stores the server's copy in the target cell,
        failure restores exactly the previous collection. */
    method UpdateBookmark(id: string, patch: BookmarkPatch, now: Timestamp, reply: Result<Bookmark>)
      returns (r: Result<Bookmark>)
      requires Valid()
      modifies cells
      ensures Locate(old(Bookmarks()), BookmarkIdOf, id).None? ==>
                r == Err(Local("Bookmark not found")) && Bookmarks() == old(Bookmarks())
      ensures Locate(old(Bookmarks()), BookmarkIdOf, id).Some? ==> r == reply
      ensures Locate(old(Bookmarks()), BookmarkIdOf, id).Some? && reply.Ok? ==>
                Bookmarks() == old(Bookmarks())[Locate(old(Bookmarks()), BookmarkIdOf, id).value := reply.value]
      ensures reply.Err? ==> Bookmarks() == old(Bookmarks())
    {
      ghost var xs := Bookmarks();
      var begun := BeginUpdate(id, patch, now);
      if begun.Err? {
        return Err(begun.error);
      }
      ghost var p := Locate(xs, BookmarkIdOf, id).value;
      ghost var patched := Bookmarks();
      r := SettleUpdate(begun.value, reply);
      assert cells[p] == begun.value.cell;
      Overwrite(xs, p, PatchBookmark(xs[p], patch, now), if reply.Ok? then reply.value else xs[p]);
    }

    /** `deleteBookmark`, before the remote call: every cell with the id is
        dropped; the previous array is kept for the rollback. */
    method BeginDelete(id: string) returns (previous: seq<Cell<Bookmark>>)
      requires Valid()
      modifies this
      ensures Valid() && loading == old(loading)
      ensures previous == old(cells) && Values(previous) == old(Bookmarks())
      ensures Bookmarks() == Filter(old(Bookmarks()), BookmarkLacksId(id))
    {
      previous := Retain(BookmarkLacksId(id));
    }

    /** `deleteBookmark`, after the remote call: a failure puts the previous
        array back and rethrows. */
    method SettleDelete(previous: seq<Cell<Bookmark>>, reply: Outcome) returns (r: Outcome)
      requires Valid() && DistinctCells(previous)
      modifies this
      ensures Valid() && loading == old(loading) && r == reply
      ensures reply.Pass? ==> cells == old(cells) && Bookmarks() == old(Bookmarks())
      ensures reply.Fail? ==> cells == previous && Bookmarks() == old(Values(previous))
    {
      if reply.Fail? {
        Reset(previous);
      }
      r := reply;
    }

    /** `deleteBookmark`: an unknown id is no error and removes nothing. */
    method DeleteBookmark(id: string, reply: Outcome) returns (r: Outcome)
      requires Valid()
      modifies this
      ensures Valid() && r == reply
      ensures reply.Pass? ==> Bookmarks() == Filter(old(Bookmarks()), BookmarkLacksId(id))
      ensures reply.Pass? && (forall i :: 0 <= i < |old(Bookmarks())| ==> old(Bookmarks())[i].id != id) ==>
                Bookmarks() == old(Bookmarks())
      ensures reply.Fail? ==> cells == old(cells) && Bookmarks() == old(Bookmarks())
    {
      ghost var bs := Bookmarks();
      DeleteAbsent(bs, id);
      var previous := BeginDelete(id);
      r := SettleDelete(previous, reply);
    }

    /** `reorderBookmarks`, before the remote call: the optimistic pass. The
        group id only goes to the server; nothing checks it locally. */
    method BeginReorder(groupId: string, orderedIds: seq<string>, now: Timestamp)
      returns (snapshots: seq<Entry<Bookmark>>)
      requires Valid()
      modifies cells
      ensures Run(Bookmarks(), snapshots)
           == ReorderRun(old(Bookmarks()), orderedIds, BookmarkIdOf, BookmarkStamp(now))
    {
      snapshots := ApplyReorder(cells, orderedIds, BookmarkIdOf, BookmarkStamp(now));
    }

    /** `reorderBookmarks`, after the remote call: a failure writes the saved
        states back and rethrows. */
    method SettleReorder(snapshots: seq<Entry<Bookmark>>, reply: Outcome) returns (r: Outcome)
      requires Valid()
      modifies cells
      ensures r == reply
      ensures reply.Pass? ==> Bookmarks() == old(Bookmarks())
      ensures reply.Fail? ==> Bookmarks() == Restored(old(Bookmarks()), snapshots, BookmarkIdOf)
    {
      if reply.Fail? {
        RestoreCells(cells, snapshots, BookmarkIdOf);
      }
      r := reply;
    }

    /** `reorderBookmarks`: when no id is listed twice, a failure restores the
        collection exactly. */
    method ReorderBookmarks(groupId: string, orderedIds: seq<string>, now: Timestamp, reply: Outcome)
      returns (r: Outcome)
      requires Valid()
      modifies cells
      ensures r == reply
      ensures reply.Pass? ==>
        Bookmarks() == ReorderRun(old(Bookmarks()), orderedIds, BookmarkIdOf, BookmarkStamp(now)).values
      ensures reply.Fail? && NoDuplicates(orderedIds) ==> Bookmarks() == old(Bookmarks())
    {
      var snapshots := BeginReorder(groupId, orderedIds, now);
      r := SettleReorder(snapshots, reply);
      if reply.Fail? && NoDuplicates(orderedIds) {
        assert KeepsIds(BookmarkIdOf, BookmarkStamp(now));
        ReorderRollback(old(Bookmarks()), orderedIds, BookmarkIdOf, BookmarkStamp(now));
      }
    }

    /** `moveBookmark`, before the remote call: an absent id throws "Bookmark
        not found"; otherwise the bookmark takes the new group and space, and
        as order the target group's size counted before the move. */
    method BeginMove(id: string, groupId: string, spaceId: string, now: Timestamp) returns (r: Result<Rollback>)
      requires Valid()
      modifies cells
      ensures Locate(old(Bookmarks()), BookmarkIdOf, id).None? ==>
                r == Err(Local("Bookmark not found")) && Bookmarks() == old(Bookmarks())
      ensures Locate(old(Bookmarks()), BookmarkIdOf, id).Some? ==>
                var p := Locate(old(Bookmarks()), BookmarkIdOf, id).value;
                && r.Ok? && r.value.cell == cells[p] && r.value.previous == old(Bookmarks())[p]
                && Bookmarks() == old(Bookmarks())[p := Moved(old(Bookmarks()), p, groupId, spaceId, now)]
    {
      var found := Locate(Bookmarks(), BookmarkIdOf, id);
      if found.None? {
        return Err(Local("Bookmark not found"));
      }
      var cell := cells[found.value];
      var previous := cell.value;
      var moved := Moved(Bookmarks(), found.value, groupId, spaceId, now);
      SetCell(cells, found.value, moved);
      r := Ok(Rollback(cell, previous));
    }

    /** `moveBookmark`: success stores the server's copy, failure restores the
        previous collection exactly. */
    method MoveBookmark(id: string, groupId: string, spaceId: string, now: Timestamp, reply: Result<Bookmark>)
      returns (r: Result<Bookmark>)
      requires Valid()
      modifies cells
      ensures Locate(old(Bookmarks()), BookmarkIdOf, id).None? ==>
                r == Err(Local("Bookmark not found")) && Bookmarks() == old(Bookmarks())
      ensures Locate(old(Bookmarks()), BookmarkIdOf, id).Some? ==> r == reply
      ensures Locate(old(Bookmarks()), BookmarkIdOf, id).Some? && reply.Ok? ==>
                Bookmarks() == old(Bookmarks())[Locate(old(Bookmarks()), BookmarkIdOf, id).value := reply.value]
      ensures reply.Err? ==> Bookmarks() == old(Bookmarks())
    {
      ghost var bs := Bookmarks();
      var begun := BeginMove(id, groupId, spaceId, now);
      if begun.Err? {
        return Err(begun.error);
      }
      ghost var p := Locate(bs, BookmarkIdOf, id).value;
      ghost var moved := Bookmarks();
      assert moved == bs[p := moved[p]];
      r := SettleUpdate(begun.value, reply);
      assert cells[p] == begun.value.cell;
      Overwrite(bs, p, moved[p], if reply.Ok? then reply.value else bs[p]);
    }
  }
}
