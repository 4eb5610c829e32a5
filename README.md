# Bookmarks index: a verified model of the entity-collection layer

The extension organises a user's links as **spaces → groups → bookmarks**. Every
entity carries an `order` used for display, and every mutation is keyed by a
prefixed random id.

The client keeps those collections in two generations:

- **Server-synced optimistic stores** (`SpacesModel`, `GroupsModel`,
  `BookmarksModel`). Each collection is an array of per-entity cells (`Atoms.Cell`).
  An action snapshots the state, applies the change at once, awaits the server,
  then keeps the server's value or writes the snapshot back and rethrows. The
  await splits every action into a `Begin…` method and a `Settle…` method, and a
  composite method runs both with the server's reply as a parameter.
- **Local persistence store** (`DataStore.LocalStore`, over `LocalData` and the
  key/value `KeyValueStore.Database`). This one computes new arrays, writes them to
  the key/value store and only then sets its state. It seeds first-time users with
  sample data (`Seed`) and deletes either hard (filter) or soft (archive, then hide).

Around these sit:

- prefixed id generation (`EntityIds`);
- the filtered and sorted views (`Computed`);
- the input validators (`Validators`);
- the navigation, modal and theme state (`UiState.UiStore`);
- the sign-in bootstrap (`UserSync.UserSync`), which loads all three server stores
  and picks the default space and group.

`Generations` relates the two cascade rules for deleting a space. `Invariants`
states the referential and ordering invariants both generations aim at.

Conventions of the model:

- Remote and storage replies are parameters: `Result` for calls that yield a value,
  `Outcome` for calls that yield nothing.
- Clock readings are an opaque `Timestamp` parameter `now`.
- The random bytes of `crypto.getRandomValues` are a parameter. `Seed` draws the
  `k`-th id from `rand(k)`.
- Promise rejections are modelled as `Common.Error`. `Local` is an `Error` the
  client throws itself; `Remote` is a collaborator's rejection.

## Model

| member | source | states |
|---|---|---|
| Common.ErrorText | src/app/auth/clerk-user-sync.tsx:47 | an `Error` yields its message, whether it is a local error or a server rejection that carries one, and any other rejected value yields the fallback text |
| Atoms.Cell.constructor | src/domain/spaces/spaces.model.ts:75 | a new atom holds exactly the value it was created with |
| Atoms.Values | src/domain/spaces/spaces.model.ts:39-48 | reading the cell array gives one value per cell, in cell order |
| Atoms.RemoveCell | src/domain/spaces/spaces.model.ts:93-96 | removing by identity keeps every other cell, drops that cell, and keeps the cells distinct |
| Atoms.RemoveAppended | src/domain/spaces/spaces.model.ts:93-96 | removing the cell just appended gives back exactly the array from before the append |
| Atoms.KeepWhere | src/domain/spaces/spaces.model.ts:149 | `filter` on cells keeps only cells whose value passes the test |
| Atoms.KeepWhereValues | src/domain/spaces/spaces.model.ts:149-151 | the values of the filtered cells are the filter of the values |
| Atoms.Locate | src/domain/spaces/spaces.model.ts:104 | `find` by id gives the first position carrying the id, or none exactly when no cell carries it |
| Atoms.SetCell | src/domain/spaces/spaces.model.ts:111-115 | setting one cell changes exactly that position of the value array |
| Atoms.NewCells | src/domain/spaces/spaces.model.ts:40-48 | fresh, distinct cells are built whose values are exactly the given list |
| Collections.Filter | src/stores/data-store.ts:104-109 | `filter` keeps only elements that pass the test and never grows the array |
| Collections.FilterMembers | src/stores/data/computed.ts:30 | an element is in the filtered copy iff it is in the source and passes the test, and no element occurs more often |
| Collections.FirstIndex | src/stores/data-store.ts:157 | `findIndex`/`find` gives the first index that passes, or none iff no element passes |
| Collections.Find | src/app/auth/clerk-user-sync.tsx:37 | `find` gives the first passing element, or none iff no element passes |
| Collections.Map | src/stores/data-store.ts:161 | `map` keeps the length and applies the function at every position |
| Collections.SortBy | src/domain/spaces/spaces.model.ts:39 | `[...xs].sort((a, b) => a.order - b.order)` is a permutation of its input in ascending key order |
| Collections.SortByStable | src/stores/data/computed.ts:8-11 | the sort is stable: elements with equal keys keep the relative order they have in the input |
| Collections.SortedSelection | src/stores/data/computed.ts:26-34 | sorting a filtered copy gives exactly the selected elements, with their counts, in key order |
| Collections.FirstSelectedIsLeast | src/app/auth/clerk-user-sync.tsx:37 | in a sorted copy, the first element passing a test has the least key among all passing elements of the source |
| Entities.PatchSpace | src/domain/spaces/spaces.model.ts:111-115 | `{...space, ...partial, ...updateTimestamp()}` takes each field from the patch when its key is present, so a nullable field passed as `undefined` is cleared, and keeps id, owner and creation time |
| Entities.PatchGroup | src/domain/groups/groups.model.ts:105 | the same merge for groups |
| Entities.PatchBookmark | src/domain/bookmarks/bookmarks.model.ts:109 | the same merge for bookmarks |
| Entities.EmptyPatchTouchesOnlyTimestamp | src/lib/utils/entity.ts:46-50 | an update with no fields changes nothing but `updatedAt` |
| Entities.DialogEditClearsOptionalFields | src/screens/main-screen/main-screen.tsx:296-313 | the edit dialog's patch, which passes `color` and `description` as `undefined`, clears the stored colour and description |
| EntityIds.IdPrefix | src/lib/storage/keys.ts:2-7 | every prefix is non-empty and ends with `_` |
| EntityIds.GenerateRandomId | src/lib/utils/entity.ts:10-18 | the id has one character per random byte, character i is `ALPHABET[bytes[i] % 62]`, and all lie in the alphabet |
| EntityIds.GenerateId | src/lib/utils/entity.ts:25-27 | the id is the kind's prefix followed by 10 alphabet characters |
| EntityIds.PrefixesAreIndependent | src/lib/storage/keys.ts:2-7 | no prefix of one kind is a prefix of another kind's |
| EntityIds.IdsOfDifferentKindsDiffer | src/lib/storage/keys.ts:2-7 | ids of different kinds never coincide, whatever the random bytes |
| EntityIds.CreateTimestamps | src/lib/utils/entity.ts:34-40 | `createdAt` and `updatedAt` are the same reading of the clock |
| Computed.SortedSpaces | src/stores/data/computed.ts:8-11 | the sorted view is a permutation of the spaces in ascending `order` |
| Computed.SpaceById | src/stores/data/computed.ts:16-21 | the lookup gives the first space with the id, or none iff there is none |
| Computed.GroupsBySpaceId | src/stores/data/computed.ts:26-34 | exactly the groups of the space, each as often as stored, in ascending `order` |
| Computed.BookmarksByGroupId | src/stores/data/computed.ts:39-47 | exactly the bookmarks of the group, each as often as stored, in ascending `order` |
| Computed.GroupsBySpaceIdCounts | src/stores/data/computed.ts:26-34 | a group occurs in the view as often as in the store when it is in the space, and otherwise not at all |
| Validators.SpaceInputValidIff | src/lib/utils/validators.ts:5-12 | a space input is accepted iff the name has 1..50 characters and the icon 1..4 |
| Validators.GroupInputValidIff | src/lib/utils/validators.ts:15-22 | a group input is accepted iff the space id is non-empty and the name has 1..50 characters |
| Validators.BookmarkInputValidIff | src/lib/utils/validators.ts:25-49 | a bookmark input is accepted iff it has a group id, a 1..100 title and a non-empty url, and its description is absent or at most 500 characters |
| Validators.UsernameValidIff | src/lib/utils/validators.ts:52-59 | a username is accepted iff it has 2..30 characters, all letters, digits, `_` or `-` |
| Validators.EmptyUsernameHasTwoIssues | src/lib/utils/validators.ts:52-59 | the empty username fails both the length rule and the pattern rule, in that order |
| Invariants.SameSpaceId | src/domain/spaces/spaces.model.ts:104 | with unique ids, two spaces sharing an id are the same space |
| Invariants.SameGroupId | src/domain/groups/groups.model.ts:98 | with unique ids, two groups sharing an id are the same group |
| Invariants.AgreementFromHomes | src/stores/data-store.ts:326 | bookmarks that take `spaceId` from their group refer to groups and agree with them on the space |
| Invariants.AppendGroupBlock | src/lib/storage/seed.ts:53-83 | appending a space's groups numbered 0..n-1 keeps every space's groups densely ordered |
| Invariants.AppendBookmarkBlock | src/lib/storage/seed.ts:153-208 | appending a group's bookmarks numbered 0..n-1 keeps every group's bookmarks densely ordered |
| Invariants.AppendGroupKeepsDense | src/stores/data-store.ts:231-251 | a group appended with `order` = its space's group count keeps every space densely ordered |
| Invariants.AppendBookmarkKeepsDense | src/stores/data-store.ts:316-342 | a bookmark appended with `order` = its group's bookmark count keeps every group densely ordered |
| Reorder.MapSet | src/domain/spaces/spaces.model.ts:175 | `Map.set` replaces the entry under an existing key in place, or appends a new one, and keeps keys unique |
| Reorder.ReorderRun | src/domain/spaces/spaces.model.ts:172-182 | the `forEach` pass gives one value per cell and a `Map` of saved states |
| Reorder.Restored | src/domain/spaces/spaces.model.ts:186-191 | the rollback pass gives one value per cell |
| Reorder.ReorderRunFacts | src/domain/spaces/spaces.model.ts:172-182 | the pass keeps every cell's id, saves each state under its own id, keeps the saved keys unique, and saves only listed ids; the order each cell receives is stated by `Reorder.ReorderRunValues` |
| Reorder.ReorderRunValues | src/domain/spaces/spaces.model.ts:172-182 | with distinct listed ids, each found cell holds its index as order and every other cell is unchanged |
| Reorder.ReorderRollback | src/domain/spaces/spaces.model.ts:184-195 | with distinct listed ids, writing the saved states back after the pass restores every value exactly |
| Reorder.RestoredKeepsIds | src/domain/spaces/spaces.model.ts:186-191 | writing saved states back never changes a cell's id |
| Reorder.GuardedRun | src/domain/spaces/spaces.model.ts:172-182 | the pass that saves a state only on an id's first visit gives one value per cell |
| Reorder.GuardedRollback | src/domain/spaces/spaces.model.ts:184-195 | for every list of ids, repeated ones included, the guarded pass followed by the rollback restores every value exactly |
| Reorder.RepeatedIdRollback | src/domain/spaces/spaces.model.ts:172-191 | as written, an id listed twice leaves its cell stamped with the first index after the rollback |
| Reorder.ApplyReorder | src/domain/spaces/spaces.model.ts:172-182 | the loop over cells yields exactly the values and saved states of the reorder pass |
| Reorder.RestoreCells | src/domain/spaces/spaces.model.ts:186-191 | the rollback loop over cells yields exactly the restored values |
| SpacesModel.AppendAtEnd | src/domain/spaces/spaces.model.ts:69 | a space appended with `order` = the space count keeps a densely ordered list dense |
| SpacesModel.CascadeKeepsReferences | src/domain/spaces/spaces.model.ts:149-151 | the three-way cascade keeps every surviving group pointing at a surviving space and every surviving bookmark at a surviving group |
| SpacesModel.RepeatedIdLosesOrder | src/domain/spaces/spaces.model.ts:172-191 | a space with non-zero order listed twice is not restored by the rollback |
| SpacesModel.GuardedRepeatedIdRestores | src/domain/spaces/spaces.model.ts:172-191 | with the first-visit guard, the same input is restored exactly |
| SpacesModel.SpaceStore.constructor | src/domain/spaces/spaces.model.ts:12-16 | the store starts empty and not loading |
| SpacesModel.SpaceStore.GetSpaceById | src/domain/spaces/spaces.model.ts:28-30 | gives the first cell whose space has the id, or none iff no cell has it |
| SpacesModel.SpaceStore.LoadSpaces | src/domain/spaces/spaces.model.ts:35-53 | success replaces the spaces with a sorted permutation of the reply, failure rethrows and keeps them, and loading ends false on both paths |
| SpacesModel.SpaceStore.BeginLoad | src/domain/spaces/spaces.model.ts:36 | loading becomes true and the spaces stay |
| SpacesModel.SpaceStore.SettleLoad | src/domain/spaces/spaces.model.ts:37-52 | the reply settles the load as `LoadSpaces` states |
| SpacesModel.SpaceStore.BeginCreate | src/domain/spaces/spaces.model.ts:59-76 | without a user it throws "User not authenticated" and changes nothing, otherwise it appends one fresh cell with a new space id and `order` = the old count |
| SpacesModel.SpaceStore.SettleCreate | src/domain/spaces/spaces.model.ts:87-96 | success stores the server's space in that cell, and failure removes exactly that cell by identity and rethrows |
| SpacesModel.SpaceStore.CreateSpace | src/domain/spaces/spaces.model.ts:58-98 | success appends the server's space and failure leaves the spaces as they were |
| SpacesModel.SpaceStore.BeginUpdate | src/domain/spaces/spaces.model.ts:103-115 | an absent id throws "Space not found" with no change, otherwise the first matching cell gets the merged value and its previous value is kept |
| SpacesModel.SpaceStore.SettleUpdate | src/domain/spaces/spaces.model.ts:117-136 | success stores the server's value in the cell and failure writes back the snapshot |
| SpacesModel.SpaceStore.UpdateSpace | src/domain/spaces/spaces.model.ts:103-137 | an absent id throws "Space not found", success leaves the server's value at the space's position, and failure leaves the spaces as they were |
| SpacesModel.SpaceStore.Retain | src/domain/spaces/spaces.model.ts:144-149 | returns the previous cells and keeps exactly the spaces that pass the test |
| SpacesModel.SpaceStore.Reset | src/domain/spaces/spaces.model.ts:157 | the collection becomes exactly the saved cell array |
| SpacesModel.SpaceStore.BeginDelete | src/domain/spaces/spaces.model.ts:142-151 | snapshots all three arrays, then drops the space, the groups of that space and the bookmarks whose `spaceId` is that space |
| SpacesModel.SpaceStore.SettleDelete | src/domain/spaces/spaces.model.ts:153-161 | success keeps the filtered arrays and failure restores all three snapshots |
| SpacesModel.SpaceStore.DeleteSpace | src/domain/spaces/spaces.model.ts:142-162 | success leaves the three filtered collections and failure leaves all three as they were |
| SpacesModel.SpaceStore.BeginReorder | src/domain/spaces/spaces.model.ts:168-182 | the optimistic pass over the cells is exactly the reorder pass |
| SpacesModel.SpaceStore.SettleReorder | src/domain/spaces/spaces.model.ts:184-195 | success keeps the reordered values and failure writes the saved states back |
| SpacesModel.SpaceStore.ReorderSpaces | src/domain/spaces/spaces.model.ts:167-196 | success leaves the reorder pass's values, and failure with distinct ids restores the spaces exactly |
| GroupsModel.AppendAtSpaceSize | src/domain/groups/groups.model.ts:55 | a group appended with `order` = its space's group count keeps every space densely ordered |
| GroupsModel.CascadeKeepsReferences | src/domain/groups/groups.model.ts:142-143 | the group cascade leaves no bookmark of the deleted group and keeps surviving bookmarks pointing at surviving groups |
| GroupsModel.DeleteAbsent | src/domain/groups/groups.model.ts:142 | deleting an absent id leaves the groups unchanged |
| GroupsModel.GroupStore.constructor | src/domain/groups/groups.model.ts:11-15 | the store starts empty and not loading |
| GroupsModel.GroupStore.LoadGroups | src/domain/groups/groups.model.ts:27-45 | success replaces the groups with a sorted permutation of the reply, failure rethrows and keeps them, and loading ends false on both paths |
| GroupsModel.GroupStore.BeginLoad | src/domain/groups/groups.model.ts:28 | loading becomes true and the groups stay |
| GroupsModel.GroupStore.SettleLoad | src/domain/groups/groups.model.ts:29-44 | the reply settles the load as `LoadGroups` states |
| GroupsModel.GroupStore.BeginCreate | src/domain/groups/groups.model.ts:51-70 | without a user it throws with no change, otherwise it appends one fresh cell whose `order` is its space's group count |
| GroupsModel.GroupStore.SettleCreate | src/domain/groups/groups.model.ts:72-91 | success stores the server's group and failure removes exactly that cell and rethrows |
| GroupsModel.GroupStore.CreateGroup | src/domain/groups/groups.model.ts:50-92 | success appends the server's group and failure leaves the groups as they were |
| GroupsModel.GroupStore.BeginUpdate | src/domain/groups/groups.model.ts:97-105 | an absent id throws "Group not found", otherwise the first matching cell gets the merged value |
| GroupsModel.GroupStore.SettleUpdate | src/domain/groups/groups.model.ts:111-129 | success stores the server's value and failure writes back the snapshot |
| GroupsModel.GroupStore.UpdateGroup | src/domain/groups/groups.model.ts:97-131 | an absent id throws, success leaves the server's value and failure leaves the groups as they were |
| GroupsModel.GroupStore.Retain | src/domain/groups/groups.model.ts:138-143 | returns the previous cells and keeps exactly the groups that pass the test |
| GroupsModel.GroupStore.Reset | src/domain/groups/groups.model.ts:148-149 | the collection becomes exactly the saved cell array |
| GroupsModel.GroupStore.BeginDelete | src/domain/groups/groups.model.ts:136-143 | snapshots groups and bookmarks, then drops the group and the bookmarks with its `groupId` |
| GroupsModel.GroupStore.SettleDelete | src/domain/groups/groups.model.ts:145-152 | success keeps the filtered arrays and failure restores both snapshots |
| GroupsModel.GroupStore.DeleteGroup | src/domain/groups/groups.model.ts:136-153 | success leaves both filtered collections and failure leaves both as they were |
| GroupsModel.GroupStore.BeginReorder | src/domain/groups/groups.model.ts:159-173 | the optimistic pass is exactly the reorder pass |
| GroupsModel.GroupStore.SettleReorder | src/domain/groups/groups.model.ts:175-186 | success keeps the values and failure writes the saved states back |
| GroupsModel.GroupStore.ReorderGroups | src/domain/groups/groups.model.ts:158-187 | success leaves the reorder pass's values, and failure with distinct ids restores the groups exactly |
| BookmarksModel.Moved | src/domain/bookmarks/bookmarks.model.ts:205-212 | the moved bookmark keeps its id, takes the target group and space, and gets `order` = the target group's count before the move |
| BookmarksModel.MoveWithinGroupCountsItself | src/domain/bookmarks/bookmarks.model.ts:205 | moving within the same group counts the bookmark itself, so the order is one past the count of the others |
| BookmarksModel.DeleteAbsent | src/domain/bookmarks/bookmarks.model.ts:149 | deleting an unknown id leaves the bookmarks unchanged, with no not-found error |
| BookmarksModel.BookmarkStore.constructor | src/domain/bookmarks/bookmarks.model.ts:11-14 | the store starts empty and not loading |
| BookmarksModel.BookmarkStore.LoadBookmarks | src/domain/bookmarks/bookmarks.model.ts:26-44 | success replaces the bookmarks with a sorted permutation of the reply, failure rethrows and keeps them, and loading ends false on both paths |
| BookmarksModel.BookmarkStore.BeginLoad | src/domain/bookmarks/bookmarks.model.ts:27 | loading becomes true and the bookmarks stay |
| BookmarksModel.BookmarkStore.SettleLoad | src/domain/bookmarks/bookmarks.model.ts:28-43 | the reply settles the load as `LoadBookmarks` states |
| BookmarksModel.BookmarkStore.BeginCreate | src/domain/bookmarks/bookmarks.model.ts:50-72 | without a user it throws with no change, otherwise it appends a fresh cell with `order` = the group's count, not pinned or archived, and ids taken from the input |
| BookmarksModel.BookmarkStore.SettleCreate | src/domain/bookmarks/bookmarks.model.ts:74-95 | success stores the server's bookmark and failure removes exactly that cell and rethrows |
| BookmarksModel.BookmarkStore.CreateBookmark | src/domain/bookmarks/bookmarks.model.ts:49-96 | success appends the server's bookmark and failure leaves the bookmarks as they were |
| BookmarksModel.BookmarkStore.BeginUpdate | src/domain/bookmarks/bookmarks.model.ts:101-109 | an absent id throws "Bookmark not found", otherwise the first matching cell gets the merged value |
| BookmarksModel.BookmarkStore.SettleUpdate | src/domain/bookmarks/bookmarks.model.ts:115-138 | success stores the server's value and failure writes back the snapshot |
| BookmarksModel.BookmarkStore.UpdateBookmark | src/domain/bookmarks/bookmarks.model.ts:101-139 | an absent id throws, success leaves the server's value and failure leaves the bookmarks as they were |
| BookmarksModel.BookmarkStore.Retain | src/domain/bookmarks/bookmarks.model.ts:146-149 | returns the previous cells and keeps exactly the bookmarks that pass the test |
| BookmarksModel.BookmarkStore.Reset | src/domain/bookmarks/bookmarks.model.ts:155 | the collection becomes exactly the saved cell array |
| BookmarksModel.BookmarkStore.BeginDelete | src/domain/bookmarks/bookmarks.model.ts:144-149 | snapshots the bookmarks and drops those with the id |
| BookmarksModel.BookmarkStore.SettleDelete | src/domain/bookmarks/bookmarks.model.ts:151-157 | success keeps the filtered array and failure restores the whole snapshot |
| BookmarksModel.BookmarkStore.DeleteBookmark | src/domain/bookmarks/bookmarks.model.ts:144-158 | success leaves the filtered bookmarks and failure leaves them as they were |
| BookmarksModel.BookmarkStore.BeginReorder | src/domain/bookmarks/bookmarks.model.ts:164-178 | the optimistic pass is exactly the reorder pass |
| BookmarksModel.BookmarkStore.SettleReorder | src/domain/bookmarks/bookmarks.model.ts:180-191 | success keeps the values and failure writes the saved states back |
| BookmarksModel.BookmarkStore.ReorderBookmarks | src/domain/bookmarks/bookmarks.model.ts:163-192 | success leaves the reorder pass's values, and failure with distinct ids restores the bookmarks exactly |
| BookmarksModel.BookmarkStore.BeginMove | src/domain/bookmarks/bookmarks.model.ts:197-212 | an absent id throws with no change, otherwise the first matching cell is moved and its previous value kept |
| BookmarksModel.BookmarkStore.MoveBookmark | src/domain/bookmarks/bookmarks.model.ts:197-234 | an absent id throws, success leaves the server's value and failure leaves the bookmarks as they were |
| KeyValueStore.All | src/stores/data-store.ts:96-100 | `Promise.all` of writes passes iff every write passes, and otherwise rejects with the first failure in list order |
| KeyValueStore.Database.constructor | src/lib/storage/idb.ts:47-84 | the store starts with no entry under any user |
| KeyValueStore.Database.SetSpaces | src/lib/storage/idb.ts:52-58 | a passing write stores the list under the user's key, a failing one changes nothing, and the other tables never change |
| KeyValueStore.Database.SetGroups | src/lib/storage/idb.ts:65-71 | the same for groups |
| KeyValueStore.Database.SetBookmarks | src/lib/storage/idb.ts:78-84 | the same for bookmarks |
| LocalData.VisibleWhenAllLive | src/stores/data-store.ts:104-109 | hiding archived items changes nothing when none is archived |
| LocalData.VisibleIsLive | src/stores/data-store.ts:104-109 | after hiding archived items, none is archived |
| LocalData.NewSpaceKeepsDense | src/stores/data-store.ts:135-153 | a new space gets `order` = the space count, so a densely ordered list stays dense |
| LocalData.NewGroupKeepsInvariants | src/stores/data-store.ts:231-251 | a new group keeps every space's groups densely ordered, and refers to a space when its space exists |
| LocalData.NewBookmark | src/stores/data-store.ts:316-342 | an unknown group throws "Group not found", otherwise the bookmark takes the group's `spaceId`, gets `order` = the group's count and is not pinned or archived |
| LocalData.NewBookmarkKeepsInvariants | src/stores/data-store.ts:316-342 | a created bookmark keeps references, space agreement and dense per-group order |
| LocalData.UpdateById | src/stores/data-store.ts:155-165 | an absent id throws the not-found message, otherwise only the items carrying the id change, each to the merge of the first match |
| LocalData.UpdateUniqueById | src/stores/data-store.ts:155-165 | with unique ids the update changes exactly one position and keeps ids unique |
| LocalData.GroupIdsOfMembers | src/stores/data-store.ts:170-173 | the collected ids are exactly the ids of the space's groups |
| LocalData.HardDeleteSpace | src/stores/data-store.ts:170-189 | removes exactly the space, its groups and the bookmarks of those groups, and adds nothing |
| LocalData.HardDeleteGroup | src/stores/data-store.ts:268-277 | removes exactly the group and its bookmarks, and leaves the spaces |
| LocalData.HardDeleteBookmark | src/stores/data-store.ts:361-365 | removes exactly the bookmark and leaves spaces and groups |
| LocalData.HideArchived | src/stores/data-store.ts:190-216 | archiving the selected live items and then hiding archived ones is the same as filtering them out |
| LocalData.SoftDeleteSpaceShowsHard | src/stores/data-store.ts:190-216 | from a state with nothing archived, soft delete of a space shows the same collections as hard delete |
| LocalData.SoftDeleteGroupShowsHard | src/stores/data-store.ts:278-295 | the same for groups |
| LocalData.SoftDeleteBookmarkShowsHard | src/stores/data-store.ts:366-371 | the same for bookmarks |
| LocalData.ReorderListed | src/stores/data-store.ts:219-228 | one item per listed id |
| LocalData.ReorderListedEntries | src/stores/data-store.ts:219-228 | entry k is the first item with the k-th listed id, stamped with `order` = k |
| LocalData.ReorderedSpacesShape | src/stores/data-store.ts:219-228 | the reordered spaces are exactly the listed ones, in listed order, numbered 0..n-1, and unique when the ids are |
| LocalData.FilterNested | src/stores/data-store.ts:298-313 | filtering a selection with a narrower test is the narrower filter |
| LocalData.ReorderGroupsInShape | src/stores/data-store.ts:298-313 | other spaces' groups are untouched and the space's groups become the listed ones numbered 0..n-1, keeping dense orders |
| LocalData.ReorderBookmarksInShape | src/stores/data-store.ts:374-389 | other groups' bookmarks are untouched and the group's bookmarks become the listed ones numbered 0..n-1, keeping dense orders |
| DataStore.LocalStore.constructor | src/stores/data-store.ts:72-75 | the store starts with three empty collections, not loading |
| DataStore.LocalStore.BeginLoad | src/stores/data-store.ts:79 | loading becomes true |
| DataStore.LocalStore.SeedUser | src/stores/data-store.ts:89-101 | builds the sample data and stores each table whose write passes, rejecting with the first failed write |
| DataStore.LocalStore.SettleLoad | src/stores/data-store.ts:80-114 | stored data is shown without archived items, an empty store is seeded and shown once all writes pass, failure rethrows with the state unchanged, and loading ends false |
| DataStore.LocalStore.LoadAllData | src/stores/data-store.ts:78-115 | the whole load: loading ends false, failure keeps the state, success shows only live items; src/stores/data/actions.ts:42-82 does the same |
| DataStore.LocalStore.ClearAllData | src/stores/data/actions.ts:87-91 | all three collections become empty |
| DataStore.LocalStore.GetSpaceById | src/stores/data-store.ts:118-120 | the first space with the id, or none iff there is none |
| DataStore.LocalStore.GetGroupsBySpace | src/stores/data-store.ts:122-126 | exactly the space's groups, in ascending `order` |
| DataStore.LocalStore.GetBookmarksByGroup | src/stores/data-store.ts:128-132 | exactly the group's bookmarks, in ascending `order` |
| DataStore.LocalStore.CreateSpace | src/stores/data-store.ts:135-153 | a passing write appends the new space to state and storage, and a failing one rethrows with both unchanged; src/stores/data/actions.ts:100-121 does the same |
| DataStore.LocalStore.CreateGroup | src/stores/data-store.ts:231-251 | a passing write appends the new group, numbered within its space, and a failing one changes nothing; src/stores/data/actions.ts:221-244 does the same |
| DataStore.LocalStore.CreateBookmark | src/stores/data-store.ts:316-342 | an unknown group throws with nothing written, and otherwise the bookmark is persisted, then appended; src/stores/data/actions.ts:329-359 does the same |
| DataStore.LocalStore.UpdateSpace | src/stores/data-store.ts:155-165 | an absent id throws with nothing written, and otherwise the merged list is stored under the space's owner and set only if the write passes; src/stores/data/actions.ts:126-139 does the same |
| DataStore.LocalStore.UpdateGroup | src/stores/data-store.ts:253-263 | the same for groups; src/stores/data/actions.ts:249-262 does the same |
| DataStore.LocalStore.UpdateBookmark | src/stores/data-store.ts:344-356 | the same for bookmarks; src/stores/data/actions.ts:364-379 does the same |
| DataStore.LocalStore.PersistAll | src/stores/data-store.ts:179-183 | writes the three tables together and rejects with the first failure |
| DataStore.LocalStore.DeleteSpace | src/stores/data-store.ts:167-217 | storage gets the hard or soft result table by table, and the state becomes the hard result or the live part of the soft one only when every write passes; src/stores/data/actions.ts:144-195 does the same |
| DataStore.LocalStore.DeleteGroup | src/stores/data-store.ts:265-296 | the same for a group and its bookmarks, with spaces untouched; src/stores/data/actions.ts:267-301 does the same |
| DataStore.LocalStore.DeleteBookmark | src/stores/data-store.ts:358-372 | the same for one bookmark; src/stores/data/actions.ts:384-401 does the same |
| DataStore.LocalStore.ReorderSpaces | src/stores/data-store.ts:219-228 | a passing write stores and sets the listed spaces in listed order, and a failing one changes nothing; src/stores/data/actions.ts:200-212 does the same |
| DataStore.LocalStore.ReorderGroups | src/stores/data-store.ts:298-313 | a passing write stores and sets the other spaces' groups followed by the listed ones renumbered, and a failing one changes nothing; src/stores/data/actions.ts:306-320 does the same |
| DataStore.LocalStore.ReorderBookmarks | src/stores/data-store.ts:374-389 | the same within one group; src/stores/data/actions.ts:406-420 does the same |
| Generations.CascadesCoincide | src/stores/data-store.ts:174-177 | when every bookmark shares its group's space, dropping bookmarks by `spaceId` and dropping them by membership in the space's groups keep the same bookmarks |
| Generations.CascadesDifferWithoutAgreement | src/domain/spaces/spaces.model.ts:151 | a bookmark whose `spaceId` differs from its group's is kept by one cascade and dropped by the other |
| Generations.SyncedCreateCanDisagree | src/domain/bookmarks/bookmarks.model.ts:55-59 | the optimistic bookmark the synced create appends takes `spaceId` from the input, so when the input names another space than its group's, the store breaks the agreement the local store keeps |
| Seed.SeedSpaces | src/lib/storage/seed.ts:8-40 | exactly Work, Personal and Learning, numbered 0, 1, 2, owned by the user and live |
| Seed.SpaceNamed | src/lib/storage/seed.ts:47-49 | a space with the name, or none iff no space has it |
| Seed.GroupBlock | src/lib/storage/seed.ts:54-82 | one group per name, in the space, numbered from 0 |
| Seed.GetSeedGroups | src/lib/storage/seed.ts:45-132 | each found space gets its groups, every group refers to a given space, and with unique space ids every space's groups are numbered 0..n-1 |
| Seed.SeedGroupsFields | src/lib/storage/seed.ts:53-129 | the three blocks refer to given spaces, belong to the user, and number 3 + 2 + 2 for the spaces found |
| Seed.SeedGroupsDense | src/lib/storage/seed.ts:53-129 | with unique space ids, every space's seed groups are numbered 0..n-1 |
| Seed.FindGroup | src/lib/storage/seed.ts:146-150 | `findGroup` gives a group with the name in the named space, or none |
| Seed.BookmarkBlock | src/lib/storage/seed.ts:153-208 | one bookmark per entry in the group, taking the group's `spaceId`, numbered from 0 |
| Seed.GetSeedBookmarks | src/lib/storage/seed.ts:137-374 | every bookmark names a given group and shares its space, 14 when every planned group is found, and numbered 0..n-1 within each group when group ids are unique |
| Seed.PlannedBookmarksDense | src/lib/storage/seed.ts:152-372 | the successive blocks keep every group's bookmarks numbered 0..n-1 |
| Seed.CreateSeedData | src/lib/storage/seed.ts:379-385 | 3 spaces, 7 groups and 14 bookmarks, densely ordered and referentially sound, all live and owned by the user |
| UiState.ThemeOrDefault | src/stores/ui-store.ts:73-74 | the stored theme when there is one, otherwise "system" |
| UiState.UiStore.constructor | src/stores/ui-store.ts:36-40 | nothing active, selected or open, and the system theme |
| UiState.UiStore.SetActiveSpace | src/stores/ui/actions.ts:15-18 | sets the space and clears the selected group, leaving the rest; src/stores/ui-store.ts:43-45 does the same |
| UiState.UiStore.SetSelectedGroup | src/stores/ui/actions.ts:20-22 | changes only the selected group; src/stores/ui-store.ts:47-49 does the same |
| UiState.UiStore.OpenModal | src/stores/ui/actions.ts:25-31 | sets the dialog kind and its item, `null` when none is given, leaving the rest; src/stores/ui-store.ts:52-54 does the same |
| UiState.UiStore.CloseModal | src/stores/ui/actions.ts:33-36 | both dialog fields return to `null` and the rest stays; src/stores/ui-store.ts:56-58 does the same |
| UiState.UiStore.SetTheme | src/stores/ui/actions.ts:39-41 | changes only the theme; src/stores/ui-store.ts:61-69 does the same |
| UiState.UiStore.InitializeTheme | src/stores/ui-store.ts:71-80 | the theme becomes the stored one or "system", and the rest stays |
| UserSync.LoadFailure | src/app/auth/clerk-user-sync.tsx:29 | the three loads fail iff one fails, with the first failure in list order |
| UserSync.ShowsMigrationDialog | src/app/auth/clerk-user-sync.tsx:56-80 | the dialog shows iff both calls succeed and the check asks for it, so any failure counts as "no dialog" |
| UserSync.UserSync.constructor | src/app/auth/clerk-user-sync.tsx:94-97 | no user, nothing loaded or loading, no error |
| UserSync.UserSync.LoadUserData | src/app/auth/clerk-user-sync.tsx:16-51 | loading ends false, and a failure records its message or "Failed to load data" and leaves loaded as it was. Success marks loaded, leaves each store a sorted copy of its reply, and selects the lowest-ordered space and that space's lowest-ordered group or none |
| UserSync.UserSync.LoadFromServer | src/app/auth/clerk-user-sync.tsx:29-44 | the loads and the default selection after the user exists on the server |
| UserSync.UserSync.LoadAll | src/app/auth/clerk-user-sync.tsx:29 | each store settles its own reply |
| UserSync.UserSync.SelectDefault | src/app/auth/clerk-user-sync.tsx:32-42 | the first sorted space is the lowest-ordered one, and the first of its groups in sorted order is its lowest-ordered group, or none when it has none |
| UserSync.UserSync.OnAuthChange | src/app/auth/clerk-user-sync.tsx:99-128 | sign-out clears user, previous user, loaded and error. A new signed-in user is recorded and starts the migration check, and an unchanged user or an unloaded session starts nothing |
| UserSync.UserSync.AfterMigrationCheck | src/app/auth/clerk-user-sync.tsx:121-126 | a shown dialog leaves everything unchanged, and otherwise data loads |
| UserSync.UserSync.OnDialogChange | src/app/auth/clerk-user-sync.tsx:133-145 | data loads iff the dialog is closed, a user is set and data is not loaded, and otherwise nothing changes |

## Left out

- Wall-clock time: `new Date().toISOString()` and `normalizeTimestamp` become an opaque `now` parameter, the same for every field an action stamps.
- Randomness: `crypto.getRandomValues` becomes a byte-sequence parameter. The seed's successive `generateId` calls draw `rand(0)`, `rand(1)`, and so on.
- Concurrency: overlapping actions on the same cell, the parallel start of the three loads and React effect scheduling are not modelled. Actions run one at a time as `Begin…` then `Settle…`, so the intermediate `loading == true` state of `loadUserData` and of the store loads is internal to one method call.
- `Promise.all`: a rejection is taken to be the first failure in list order, while in the program the first to settle wins.
- Transport, the server routers and the identity provider are not part of this model. Their replies are parameters, and so are the `ensureUser` mutation and the migration check.
- `ensureUser`'s email, name and avatar arguments and the `user` object they come from are not modelled, because they do not affect the client state.
- The migration store, the retry/back-off helpers and the error-slot atoms are referenced but not defined in the code, so they are not modelled.
- The URL well-formedness refinement of the bookmark validator depends on the platform's `URL` parser and is not modelled. `BookmarkInputValidIff` states the remaining rules.
- String lengths count `char`s of `seq<char>`, not UTF-16 code units. No Unicode normalisation is modelled.
- Theme side effects are not modelled: `localStorage`, `matchMedia` and the DOM class toggling. The stored theme is passed in already decoded and is not validated.
- A required field (`name`, `title`, `url`, ...) passed as `undefined` in a patch is modelled as an absent field (`None`). The nullable fields (`color`, a group's `icon`, `faviconUrl`, `description`) keep the program's three states, so an explicit `undefined` clears them.
- Reorder calls do not check that the listed ids belong to the given space or group, in either generation; the model does not check it either.
- `DataStore.LocalStore.ReorderSpaces`, `ReorderGroups` and `ReorderBookmarks`: the `find(...)!` non-null assertion becomes a precondition that every listed id is stored. The program checks nothing there: for an unknown id `find` yields `undefined`, and spreading it gives an object holding only `order` and `updatedAt`, with no `id`. That record is persisted and set in place of an item, without any error. The model does not cover that case.
- `SpacesModel.SpaceStore.ReorderSpaces` states the exact restore on failure only when the listed ids are distinct; see the finding below.
- `GroupsModel.GroupStore.ReorderGroups` states the exact restore on failure only when the listed ids are distinct, for the same reason.
- `BookmarksModel.BookmarkStore.ReorderBookmarks` states the exact restore on failure only when the listed ids are distinct, for the same reason.
- `UserSync.UserSync.LoadUserData` states that the bookmark store holds a permutation of its reply, without the sort order the other two stores state.
- `src/lib/storage/idb.ts`: only the three table reads and writes are modelled. Its user record, current-user key and `clearUserData` are not part of this model.
- The local store persists the live collections it holds, so archived items written earlier are overwritten on the next write of that table, as in the program.
- Sign-out resets the flags but does not empty the three server-synced stores. The program does not clear them, and the model follows the program.
- Deletes leave gaps in the remaining items' `order` values. The program does not renumber, and the model follows the program.
- `src/hooks/*` and every screen and widget are not part of this model.

## Findings

| source | as written | input that shows it | evidently intended | confidence | as-written member | corrected member |
|---|---|---|---|---|---|---|
| src/domain/spaces/spaces.model.ts:172-191 | the reorder pass saves a space's state on every visit, so a second visit overwrites the saved state with the already-stamped value; the same loop appears in `reorderGroups` and `reorderBookmarks` | `orderedIds = [s.id, s.id]` for a space `s` with `s.order = 3`, and a failing server call: the rollback leaves `s.order = 0` | a failed reorder gives every space back its state from before the call | not executed | SpacesModel.RepeatedIdLosesOrder | SpacesModel.GuardedRepeatedIdRestores |

The stores model the loop as written (`Reorder.ReorderRun`). The corrected pass
`Reorder.GuardedRun` saves a state only on an id's first visit.
`Reorder.GuardedRollback` proves that it restores every value exactly for any list
of ids.
