/** The local persistence store: the shown collections of spaces, groups and
    bookmarks plus a loading flag. Every action computes the next arrays from
    the shown ones, awaits the writes to the key/value database, and only
    when they pass shows the new arrays; a failed write is rethrown and the
    shown arrays stay as they were. Deletes are hard (the items are filtered
    out) or soft (the items are archived in storage and hidden from view). */
module DataStore {
  import opened Common
  import opened Collections
  import opened Entities
  import opened EntityIds
  import opened Invariants
  import opened Computed
  import Seed
  import opened LocalData
  import opened KeyValueStore

  /** The shape of the sample data a first-time user is given. */
  ghost predicate SampleData(t: Tables, userId: string) {
    && |t.spaces| == 3 && |t.groups| == 7 && |t.bookmarks| == 14
    && AllLive(t)
    && DenselyOrdered(t.spaces, SpaceOrder)
    && GroupsReferToSpaces(t.spaces, t.groups) && BookmarksReferToGroups(t.groups, t.bookmarks)
    && (forall s :: s in t.spaces ==> s.userId == userId)
    && (forall g :: g in t.groups ==> g.userId == userId)
    && (forall b :: b in t.bookmarks ==> b.userId == userId)
  }

  class LocalStore {
    var spaces: seq<Space>
    var groups: seq<Group>
    var bookmarks: seq<Bookmark>
    var isLoading: bool

    constructor ()
      ensures spaces == [] && groups == [] && bookmarks == [] && !isLoading
    {
      spaces, groups, bookmarks, isLoading := [], [], [], false;
    }

    /** The three shown collections. */
    function State(): Tables
      reads this
    {
      Tables(spaces, groups, bookmarks)
    }

    // -------------------------------------------------------------------------
    // Load

    /** The synchronous start of `loadAllData`. */
    method BeginLoad()
      modifies this
      ensures isLoading && State() == old(State())
    {
      isLoading := true;
    }

    /** The sample data of a first-time user, written side by side under `userId`. */
    method SeedUser(db: Database, userId: string, rand: nat -> seq<byte>, now: Timestamp, writes: seq<Outcome>)
      returns (r: Outcome, seed: Tables)
      requires |writes| == 3
      modifies db
      ensures SampleData(seed, userId)
      ensures r == All(writes)
      ensures db.spaces == (if writes[0].Pass? then old(db.spaces)[userId := seed.spaces] else old(db.spaces))
      ensures db.groups == (if writes[1].Pass? then old(db.groups)[userId := seed.groups] else old(db.groups))
      ensures db.bookmarks == (if writes[2].Pass? then old(db.bookmarks)[userId := seed.bookmarks]
                               else old(db.bookmarks))
    {
      var data := Seed.CreateSeedData(userId, rand, now);
      seed := Tables(data.spaces, data.groups, data.bookmarks);
      assert AllLive(seed) by {
        assert forall i :: 0 <= i < |seed.spaces| ==> seed.spaces[i] in data.spaces;
        assert forall i :: 0 <= i < |seed.groups| ==> seed.groups[i] in data.groups;
        assert forall i :: 0 <= i < |seed.bookmarks| ==> seed.bookmarks[i] in data.bookmarks;
      }
      r := PersistAll(db, userId, seed, writes);
    }

    /** The rest of `loadAllData` once the three reads settle as `read`: a user
        with no stored spaces gets the sample data, written with the outcomes
        `writes`; the shown state is the stored state without archived items.
        The flag is cleared on every path and any failure is rethrown. */
    method SettleLoad(db: Database, userId: string, read: Outcome, rand: nat -> seq<byte>, now: Timestamp,
                      writes: seq<Outcome>)
      returns (r: Outcome)
      requires |writes| == 3
      modifies this, db
      ensures !isLoading
      ensures r.Fail? ==> State() == old(State())
      ensures read.Fail? ==> r == read && unchanged(db)
      ensures read.Pass? && old(db.GetSpaces(userId)) != [] ==>
                r == Pass && unchanged(db)
                && State() == Visible(Tables(old(db.GetSpaces(userId)), old(db.GetGroups(userId)),
                                             old(db.GetBookmarks(userId))))
      ensures read.Pass? && old(db.GetSpaces(userId)) == [] ==> r == All(writes)
      ensures read.Pass? && old(db.GetSpaces(userId)) == [] && r.Pass? ==>
                SampleData(State(), userId)
                && db.GetSpaces(userId) == spaces && db.GetGroups(userId) == groups
                && db.GetBookmarks(userId) == bookmarks
      ensures r.Pass? ==> AllLive(State())
    {
      if read.Fail? {
        isLoading := false;
        return read;
      }
      var stored := Tables(db.GetSpaces(userId), db.GetGroups(userId), db.GetBookmarks(userId));
      if |stored.spaces| == 0 {
        r, stored := SeedUser(db, userId, rand, now, writes);
        if r.Fail? {
          isLoading := false;
          return;
        }
        VisibleWhenAllLive(stored);
      }
      r := Pass;
      VisibleIsLive(stored);
      var shown := Visible(stored);
      spaces, groups, bookmarks := shown.spaces, shown.groups, shown.bookmarks;
      isLoading := false;
    }

    /** `loadAllData(userId)` */
    method LoadAllData(db: Database, userId: string, read: Outcome, rand: nat -> seq<byte>, now: Timestamp,
                       writes: seq<Outcome>)
      returns (r: Outcome)
      requires |writes| == 3
      modifies this, db
      ensures !isLoading
      ensures r.Fail? ==> State() == old(State())
      ensures read.Pass? && old(db.GetSpaces(userId)) != [] ==>
                r == Pass && State() == Visible(Tables(old(db.GetSpaces(userId)), old(db.GetGroups(userId)),
                                                       old(db.GetBookmarks(userId))))
      ensures read.Pass? && old(db.GetSpaces(userId)) == [] ==> r == All(writes)
      ensures r.Pass? ==> AllLive(State())
    {
      BeginLoad();
      r := SettleLoad(db, userId, read, rand, now, writes);
    }

    /** `clearAllData()` */
    method ClearAllData()
      modifies this
      ensures State() == Tables([], [], []) && isLoading == old(isLoading)
    {
      spaces, groups, bookmarks := [], [], [];
    }

    // -------------------------------------------------------------------------
    // Getters

    /** `getSpaceById(id)` */
    function GetSpaceById(id: string): (r: Option<Space>)
      reads this
      ensures r.Some? ==> r.value in spaces && r.value.id == id
      ensures r.None? <==> forall i :: 0 <= i < |spaces| ==> spaces[i].id != id
    {
      SpaceById(spaces, id)
    }

    /** `getGroupsBySpace(spaceId)` */
    function GetGroupsBySpace(spaceId: string): (r: seq<Group>)
      reads this
      ensures forall g :: g in r <==> g in groups && g.spaceId == spaceId
      ensures multiset(r) == multiset(Filter(groups, InSpace(spaceId)))
      ensures SortedBy(r, GroupOrder)
    {
      GroupsBySpaceId(groups, spaceId)
    }

    /** `getBookmarksByGroup(groupId)` */
    function GetBookmarksByGroup(groupId: string): (r: seq<Bookmark>)
      reads this
      ensures forall b :: b in r <==> b in bookmarks && b.groupId == groupId
      ensures multiset(r) == multiset(Filter(bookmarks, InGroup(groupId)))
      ensures SortedBy(r, BookmarkOrder)
    {
      BookmarksByGroupId(bookmarks, groupId)
    }

    // -------------------------------------------------------------------------
    // Create

    /** `createSpace(userId, input)`: the new space is appended once `setSpaces` passes. */
    method CreateSpace(db: Database, userId: string, input: CreateSpaceInput, bytes: seq<byte>, now: Timestamp,
                       write: Outcome)
      returns (r: Result<Space>)
      requires |bytes| == SuffixLength
      modifies this, db
      ensures write.Pass? ==> r == Ok(NewSpace(old(spaces), userId, input, bytes, now))
                              && spaces == old(spaces) + [r.value]
                              && db.spaces == old(db.spaces)[userId := spaces]
      ensures write.Fail? ==> r == Err(write.error) && spaces == old(spaces) && db.spaces == old(db.spaces)
      ensures groups == old(groups) && bookmarks == old(bookmarks) && isLoading == old(isLoading)
      ensures db.groups == old(db.groups) && db.bookmarks == old(db.bookmarks)
    {
      var id := GenerateId(SpaceKind, bytes);
      var stamps := CreateTimestamps(now);
      var newSpace := Space(id, userId, input.name, input.icon, input.color, |spaces|, false,
                            stamps.createdAt, stamps.updatedAt);
      var updated := spaces + [newSpace];
      var w := db.SetSpaces(userId, updated, write);
      if w.Fail? {
        return Err(w.error);
      }
      spaces := updated;
      r := Ok(newSpace);
    }

    /** `createGroup(userId, input)`: the new group goes last in its space. */
    method CreateGroup(db: Database, userId: string, input: CreateGroupInput, bytes: seq<byte>, now: Timestamp,
                       write: Outcome)
      returns (r: Result<Group>)
      requires |bytes| == SuffixLength
      modifies this, db
      ensures write.Pass? ==> r == Ok(NewGroup(old(groups), userId, input, bytes, now))
                              && groups == old(groups) + [r.value]
                              && db.groups == old(db.groups)[userId := groups]
      ensures write.Fail? ==> r == Err(write.error) && groups == old(groups) && db.groups == old(db.groups)
      ensures spaces == old(spaces) && bookmarks == old(bookmarks) && isLoading == old(isLoading)
      ensures db.spaces == old(db.spaces) && db.bookmarks == old(db.bookmarks)
    {
      var id := GenerateId(GroupKind, bytes);
      var spaceGroups := Filter(groups, InSpace(input.spaceId));
      var stamps := CreateTimestamps(now);
      var newGroup := Group(id, userId, input.spaceId, input.name, input.icon, |spaceGroups|, false,
                            stamps.createdAt, stamps.updatedAt);
      var updated := groups + [newGroup];
      var w := db.SetGroups(userId, updated, write);
      if w.Fail? {
        return Err(w.error);
      }
      groups := updated;
      r := Ok(newGroup);
    }

    /** `createBookmark(userId, input)`: "Group not found" before any write when
        the group is unknown; otherwise the bookmark takes the group's space. */
    method CreateBookmark(db: Database, userId: string, input: CreateBookmarkInput, bytes: seq<byte>,
                          now: Timestamp, write: Outcome)
      returns (r: Result<Bookmark>)
      requires |bytes| == SuffixLength
      modifies this, db
      ensures NewBookmark(old(groups), old(bookmarks), userId, input, bytes, now).Err? ==>
                r == NewBookmark(old(groups), old(bookmarks), userId, input, bytes, now)
                && bookmarks == old(bookmarks) && unchanged(db)
      ensures NewBookmark(old(groups), old(bookmarks), userId, input, bytes, now).Ok? ==>
                if write.Pass? then
                  r == NewBookmark(old(groups), old(bookmarks), userId, input, bytes, now)
                  && bookmarks == old(bookmarks) + [r.value]
                  && db.bookmarks == old(db.bookmarks)[userId := bookmarks]
                else
                  r == Err(write.error) && bookmarks == old(bookmarks) && db.bookmarks == old(db.bookmarks)
      ensures spaces == old(spaces) && groups == old(groups) && isLoading == old(isLoading)
      ensures db.spaces == old(db.spaces) && db.groups == old(db.groups)
    {
      var made := NewBookmark(groups, bookmarks, userId, input, bytes, now);
      if made.Err? {
        return made;
      }
      var updated := bookmarks + [made.value];
      var w := db.SetBookmarks(userId, updated, write);
      if w.Fail? {
        return Err(w.error);
      }
      bookmarks := updated;
      r := made;
    }

    // -------------------------------------------------------------------------
    // Update

    /** `updateSpace(id, input)`: "Space not found" with no write when the id is
        absent; otherwise the patched array is written under the owner of the
        space found, and shown once that write passes. */
    method UpdateSpace(db: Database, id: string, patch: SpacePatch, now: Timestamp, write: Outcome)
      returns (r: Outcome)
      modifies this, db
      ensures UpdateById(old(spaces), SpaceIdOf, id, SpacePatcher(patch, now), "Space not found").Err? ==>
                r == Fail(Local("Space not found")) && spaces == old(spaces) && unchanged(db)
      ensures UpdateById(old(spaces), SpaceIdOf, id, SpacePatcher(patch, now), "Space not found").Ok? ==>
                var updated := UpdateById(old(spaces), SpaceIdOf, id, SpacePatcher(patch, now), "Space not found").value;
                var owner := old(spaces)[Atoms.Locate(old(spaces), SpaceIdOf, id).value].userId;
                r == write
                && spaces == (if write.Pass? then updated else old(spaces))
                && db.spaces == (if write.Pass? then old(db.spaces)[owner := updated] else old(db.spaces))
      ensures groups == old(groups) && bookmarks == old(bookmarks) && isLoading == old(isLoading)
      ensures db.groups == old(db.groups) && db.bookmarks == old(db.bookmarks)
    {
      var u := UpdateById(spaces, SpaceIdOf, id, SpacePatcher(patch, now), "Space not found");
      if u.Err? {
        return Fail(u.error);
      }
      var owner := spaces[Atoms.Locate(spaces, SpaceIdOf, id).value].userId;
      r := db.SetSpaces(owner, u.value, write);
      if r.Pass? {
        spaces := u.value;
      }
    }

    /** `updateGroup(id, input)` */
    method UpdateGroup(db: Database, id: string, patch: GroupPatch, now: Timestamp, write: Outcome)
      returns (r: Outcome)
      modifies this, db
      ensures UpdateById(old(groups), GroupIdOf, id, GroupPatcher(patch, now), "Group not found").Err? ==>
                r == Fail(Local("Group not found")) && groups == old(groups) && unchanged(db)
      ensures UpdateById(old(groups), GroupIdOf, id, GroupPatcher(patch, now), "Group not found").Ok? ==>
                var updated := UpdateById(old(groups), GroupIdOf, id, GroupPatcher(patch, now), "Group not found").value;
                var owner := old(groups)[Atoms.Locate(old(groups), GroupIdOf, id).value].userId;
                r == write
                && groups == (if write.Pass? then updated else old(groups))
                && db.groups == (if write.Pass? then old(db.groups)[owner := updated] else old(db.groups))
      ensures spaces == old(spaces) && bookmarks == old(bookmarks) && isLoading == old(isLoading)
      ensures db.spaces == old(db.spaces) && db.bookmarks == old(db.bookmarks)
    {
      var u := UpdateById(groups, GroupIdOf, id, GroupPatcher(patch, now), "Group not found");
      if u.Err? {
        return Fail(u.error);
      }
      var owner := groups[Atoms.Locate(groups, GroupIdOf, id).value].userId;
      r := db.SetGroups(owner, u.value, write);
      if r.Pass? {
        groups := u.value;
      }
    }

    /** `updateBookmark(id, input)` */
    method UpdateBookmark(db: Database, id: string, patch: BookmarkPatch, now: Timestamp, write: Outcome)
      returns (r: Outcome)
      modifies this, db
      ensures UpdateById(old(bookmarks), BookmarkIdOf, id, BookmarkPatcher(patch, now), "Bookmark not found").Err? ==>
                r == Fail(Local("Bookmark not found")) && bookmarks == old(bookmarks) && unchanged(db)
      ensures UpdateById(old(bookmarks), BookmarkIdOf, id, BookmarkPatcher(patch, now), "Bookmark not found").Ok? ==>
                var updated := UpdateById(old(bookmarks), BookmarkIdOf, id, BookmarkPatcher(patch, now),
                                          "Bookmark not found").value;
                var owner := old(bookmarks)[Atoms.Locate(old(bookmarks), BookmarkIdOf, id).value].userId;
                r == write
                && bookmarks == (if write.Pass? then updated else old(bookmarks))
                && db.bookmarks == (if write.Pass? then old(db.bookmarks)[owner := updated] else old(db.bookmarks))
      ensures spaces == old(spaces) && groups == old(groups) && isLoading == old(isLoading)
      ensures db.spaces == old(db.spaces) && db.groups == old(db.groups)
    {
      var u := UpdateById(bookmarks, BookmarkIdOf, id, BookmarkPatcher(patch, now), "Bookmark not found");
      if u.Err? {
        return Fail(u.error);
      }
      var owner := bookmarks[Atoms.Locate(bookmarks, BookmarkIdOf, id).value].userId;
      r := db.SetBookmarks(owner, u.value, write);
      if r.Pass? {
        bookmarks := u.value;
      }
    }

    // -------------------------------------------------------------------------
    // Delete

    /** Writes the three arrays of `t` under `userId` side by side. */
    method PersistAll(db: Database, userId: string, t: Tables, writes: seq<Outcome>) returns (r: Outcome)
      requires |writes| == 3
      modifies db
      ensures r == All(writes)
      ensures db.spaces == (if writes[0].Pass? then old(db.spaces)[userId := t.spaces] else old(db.spaces))
      ensures db.groups == (if writes[1].Pass? then old(db.groups)[userId := t.groups] else old(db.groups))
      ensures db.bookmarks == (if writes[2].Pass? then old(db.bookmarks)[userId := t.bookmarks] else old(db.bookmarks))
    {
      var w0 := db.SetSpaces(userId, t.spaces, writes[0]);
      var w1 := db.SetGroups(userId, t.groups, writes[1]);
      var w2 := db.SetBookmarks(userId, t.bookmarks, writes[2]);
      assert [w0, w1, w2] == writes;
      r := All([w0, w1, w2]);
    }

    /** `deleteSpace(userId, id, hard)`: the space, its groups and their
        bookmarks are filtered out (hard) or archived and hidden (soft). */
    method DeleteSpace(db: Database, userId: string, id: string, hard: bool, now: Timestamp, writes: seq<Outcome>)
      returns (r: Outcome)
      requires |writes| == 3
      modifies this, db
      ensures r == All(writes)
      ensures var t := if hard then HardDeleteSpace(old(State()), id) else SoftDeleteSpace(old(State()), id, now);
              && db.spaces == (if writes[0].Pass? then old(db.spaces)[userId := t.spaces] else old(db.spaces))
              && db.groups == (if writes[1].Pass? then old(db.groups)[userId := t.groups] else old(db.groups))
              && db.bookmarks == (if writes[2].Pass? then old(db.bookmarks)[userId := t.bookmarks]
                                  else old(db.bookmarks))
      ensures r.Pass? && hard ==> State() == HardDeleteSpace(old(State()), id)
      ensures r.Pass? && !hard ==> State() == Visible(SoftDeleteSpace(old(State()), id, now))
      ensures r.Fail? ==> State() == old(State())
      ensures isLoading == old(isLoading)
    {
      ghost var before := State();
      var t := if hard then HardDeleteSpace(State(), id) else SoftDeleteSpace(State(), id, now);
      r := PersistAll(db, userId, t, writes);
      if r.Fail? {
        assert State() == before;
        return;
      }
      if !hard {
        t := Visible(t);
      }
      spaces, groups, bookmarks := t.spaces, t.groups, t.bookmarks;
      assert State() == t;
    }

    /** `deleteGroup(userId, id, hard)`: the group and its bookmarks; spaces are not written. */
    method DeleteGroup(db: Database, userId: string, id: string, hard: bool, now: Timestamp, writes: seq<Outcome>)
      returns (r: Outcome)
      requires |writes| == 2
      modifies this, db
      ensures r == All(writes)
      ensures var t := if hard then HardDeleteGroup(old(State()), id) else SoftDeleteGroup(old(State()), id, now);
              && db.spaces == old(db.spaces)
              && db.groups == (if writes[0].Pass? then old(db.groups)[userId := t.groups] else old(db.groups))
              && db.bookmarks == (if writes[1].Pass? then old(db.bookmarks)[userId := t.bookmarks]
                                  else old(db.bookmarks))
      ensures r.Pass? && hard ==> State() == HardDeleteGroup(old(State()), id)
      ensures r.Pass? && !hard ==> groups == Filter(SoftDeleteGroup(old(State()), id, now).groups, GroupLive)
                                   && bookmarks == Filter(SoftDeleteGroup(old(State()), id, now).bookmarks, BookmarkLive)
                                   && spaces == old(spaces)
      ensures r.Fail? ==> State() == old(State())
      ensures isLoading == old(isLoading)
    {
      var t := if hard then HardDeleteGroup(State(), id) else SoftDeleteGroup(State(), id, now);
      var w0 := db.SetGroups(userId, t.groups, writes[0]);
      var w1 := db.SetBookmarks(userId, t.bookmarks, writes[1]);
      assert [w0, w1] == writes;
      r := All([w0, w1]);
      if r.Fail? {
        return;
      }
      if hard {
        groups, bookmarks := t.groups, t.bookmarks;
      } else {
        groups, bookmarks := Filter(t.groups, GroupLive), Filter(t.bookmarks, BookmarkLive);
      }
    }

    /** `deleteBookmark(userId, id, hard)`: one write, of the bookmarks only. */
    method DeleteBookmark(db: Database, userId: string, id: string, hard: bool, now: Timestamp, write: Outcome)
      returns (r: Outcome)
      modifies this, db
      ensures r == write
      ensures var t := if hard then HardDeleteBookmark(old(State()), id) else SoftDeleteBookmark(old(State()), id, now);
              && db.spaces == old(db.spaces) && db.groups == old(db.groups)
              && db.bookmarks == (if write.Pass? then old(db.bookmarks)[userId := t.bookmarks] else old(db.bookmarks))
      ensures r.Pass? && hard ==> State() == HardDeleteBookmark(old(State()), id)
      ensures r.Pass? && !hard ==> bookmarks == Filter(SoftDeleteBookmark(old(State()), id, now).bookmarks, BookmarkLive)
                                   && spaces == old(spaces) && groups == old(groups)
      ensures r.Fail? ==> State() == old(State())
      ensures isLoading == old(isLoading)
    {
      var t := if hard then HardDeleteBookmark(State(), id) else SoftDeleteBookmark(State(), id, now);
      r := db.SetBookmarks(userId, t.bookmarks, write);
      if r.Fail? {
        return;
      }
      bookmarks := if hard then t.bookmarks else Filter(t.bookmarks, BookmarkLive);
    }

    // -------------------------------------------------------------------------
    // Reorder

    /** `reorderSpaces(userId, ids)`; every listed id must name a shown space. */
    method ReorderSpaces(db: Database, userId: string, ids: seq<string>, now: Timestamp, write: Outcome)
      returns (r: Outcome)
      requires AllListed(spaces, SpaceIdOf, ids)
      modifies this, db
      ensures r == write
      ensures write.Pass? ==> spaces == ReorderListed(old(spaces), SpaceIdOf, ids, SpaceStamp(now))
                              && db.spaces == old(db.spaces)[userId := spaces]
      ensures write.Fail? ==> spaces == old(spaces) && db.spaces == old(db.spaces)
      ensures groups == old(groups) && bookmarks == old(bookmarks) && isLoading == old(isLoading)
      ensures db.groups == old(db.groups) && db.bookmarks == old(db.bookmarks)
    {
      var updated := ReorderListed(spaces, SpaceIdOf, ids, SpaceStamp(now));
      r := db.SetSpaces(userId, updated, write);
      if r.Pass? {
        spaces := updated;
      }
    }

    /** `reorderGroups(userId, spaceId, ids)`; every listed id must name a shown group. */
    method ReorderGroups(db: Database, userId: string, spaceId: string, ids: seq<string>, now: Timestamp,
                         write: Outcome)
      returns (r: Outcome)
      requires AllListed(groups, GroupIdOf, ids)
      modifies this, db
      ensures r == write
      ensures write.Pass? ==> groups == ReorderGroupsIn(old(groups), spaceId, ids, now)
                              && db.groups == old(db.groups)[userId := groups]
      ensures write.Fail? ==> groups == old(groups) && db.groups == old(db.groups)
      ensures spaces == old(spaces) && bookmarks == old(bookmarks) && isLoading == old(isLoading)
      ensures db.spaces == old(db.spaces) && db.bookmarks == old(db.bookmarks)
    {
      var others := Filter(groups, OutsideSpace(spaceId));
      var listed := ReorderListed(groups, GroupIdOf, ids, GroupStamp(now));
      var updated := others + listed;
      r := db.SetGroups(userId, updated, write);
      if r.Pass? {
        groups := updated;
      }
    }

    /** `reorderBookmarks(userId, groupId, ids)`; every listed id must name a shown bookmark. */
    method ReorderBookmarks(db: Database, userId: string, groupId: string, ids: seq<string>, now: Timestamp,
                            write: Outcome)
      returns (r: Outcome)
      requires AllListed(bookmarks, BookmarkIdOf, ids)
      modifies this, db
      ensures r == write
      ensures write.Pass? ==> bookmarks == ReorderBookmarksIn(old(bookmarks), groupId, ids, now)
                              && db.bookmarks == old(db.bookmarks)[userId := bookmarks]
      ensures write.Fail? ==> bookmarks == old(bookmarks) && db.bookmarks == old(db.bookmarks)
      ensures spaces == old(spaces) && groups == old(groups) && isLoading == old(isLoading)
      ensures db.spaces == old(db.spaces) && db.groups == old(db.groups)
    {
      var others := Filter(bookmarks, OutsideGroup(groupId));
      var listed := ReorderListed(bookmarks, BookmarkIdOf, ids, BookmarkStamp(now));
      var updated := others + listed;
      r := db.SetBookmarks(userId, updated, write);
      if r.Pass? {
        bookmarks := updated;
      }
    }
  }
}
