/** The bridge between the authentication provider and the data layer: on
    sign-in it records the user, asks whether local data awaits migration and
    otherwise loads everything from the server; loading picks a default space
    and group; on sign-out it resets the flags. The server's `ensureUser`
    mutation and the migration check are passed in as their settled replies. */
module UserSync {
  import opened Common
  import opened Collections
  import opened Entities
  import opened UiState
  import opened SpacesModel
  import opened GroupsModel
  import opened BookmarksModel

  /** The message shown when the rejection is not an `Error` instance. */
  const LoadFallback := "Failed to load data"

  /** The rejection of `Promise.all` over the three loads, taken in list order
      when more than one fails. */
  function LoadFailure(spaces: Result<seq<Space>>, groups: Result<seq<Group>>, bookmarks: Result<seq<Bookmark>>): (e: Option<Error>)
    ensures e.None? <==> spaces.Ok? && groups.Ok? && bookmarks.Ok?
    ensures spaces.Err? ==> e == Some(spaces.error)
    ensures spaces.Ok? && groups.Err? ==> e == Some(groups.error)
    ensures spaces.Ok? && groups.Ok? && bookmarks.Err? ==> e == Some(bookmarks.error)
  {
    if spaces.Err? then Some(spaces.error)
    else if groups.Err? then Some(groups.error)
    else if bookmarks.Err? then Some(bookmarks.error)
    else None
  }

  /** `handleMigrationCheck`: any failure of the two calls means "no dialog". */
  function ShowsMigrationDialog(ensure: Outcome, check: Result<bool>): (show: bool)
    ensures show <==> ensure.Pass? && check == Ok(true)
    ensures ensure.Fail? || check.Err? ==> !show
  {
    match ensure
    case Fail(_) => false
    case Pass => check.Ok? && check.value
  }

  /** The space with the lowest order is active, and the selected group is the
      lowest-ordered group of that space, or none when the space has no group. */
  ghost predicate DefaultSelection(spaces: seq<Space>, groups: seq<Group>, active: Option<string>, selected: Option<string>) {
    && active.Some?
    && (exists s :: s in spaces && s.id == active.value && forall t :: t in spaces ==> s.order <= t.order)
    && (selected.None? <==> forall h :: h in groups ==> h.spaceId != active.value)
    && (selected.Some? ==>
          exists g :: g in groups && g.id == selected.value && g.spaceId == active.value
            && forall h :: h in groups && h.spaceId == g.spaceId ==> g.order <= h.order)
  }

  class UserSync {
    /** `userIdAtom` */
    var userId: Option<string>
    /** `dataLoadingAtom` */
    var dataLoading: bool
    /** `dataLoadedAtom` */
    var dataLoaded: bool
    /** `dataErrorAtom` */
    var dataError: Option<string>
    /** `previousUserIdRef.current` */
    var previousUserId: Option<string>

    const ui: UiStore
    const spaces: SpaceStore
    const groups: GroupStore
    const bookmarks: BookmarkStore

    ghost predicate Valid()
      reads this, spaces, groups, bookmarks
    {
      spaces.Valid() && groups.Valid() && bookmarks.Valid()
    }

    constructor (ui: UiStore, spaces: SpaceStore, groups: GroupStore, bookmarks: BookmarkStore)
      requires spaces.Valid() && groups.Valid() && bookmarks.Valid()
      ensures this.ui == ui && this.spaces == spaces && this.groups == groups && this.bookmarks == bookmarks
      ensures userId.None? && !dataLoading && !dataLoaded && dataError.None? && previousUserId.None?
      ensures Valid()
    {
      this.ui, this.spaces, this.groups, this.bookmarks := ui, spaces, groups, bookmarks;
      userId, dataLoading, dataLoaded, dataError, previousUserId := None, false, false, None, None;
    }

    /** What `loadUserData` leaves behind, given the replies of `ensureUser` and
        of the three loads: `Unchanged`, `StoresLoaded`, `FlagsSettled` and
        `SelectionSettled` together. */
    twostate predicate LoadedFrom(ensure: Outcome, sr: Result<seq<Space>>, gr: Result<seq<Group>>, br: Result<seq<Bookmark>>)
      reads this, ui, spaces, spaces.cells, groups, groups.cells, bookmarks, bookmarks.cells
    {
      && KeptAcrossLoad()
      && StoresLoaded(ensure, sr, gr, br)
      && FlagsSettled(ensure, sr, gr, br)
      && SelectionSettled(ensure, sr, gr, br)
    }

    /** A load touches neither the user, nor the dialog, nor the theme, and ends
        with the loading flag down. */
    twostate predicate KeptAcrossLoad()
      reads this, ui
    {
      && !dataLoading
      && userId == old(userId) && previousUserId == old(previousUserId)
      && ui.modalType == old(ui.modalType) && ui.modalEntity == old(ui.modalEntity) && ui.theme == old(ui.theme)
    }

    /** Without the user nothing is loaded; otherwise each store holds its own
        reply, sorted, when that reply arrived, and is left alone when it failed. */
    twostate predicate StoresLoaded(ensure: Outcome, sr: Result<seq<Space>>, gr: Result<seq<Group>>, br: Result<seq<Bookmark>>)
      reads spaces, spaces.cells, groups, groups.cells, bookmarks, bookmarks.cells
    {
      && (ensure.Fail? ==>
            && spaces.Spaces() == old(spaces.Spaces()) && groups.Groups() == old(groups.Groups())
            && bookmarks.Bookmarks() == old(bookmarks.Bookmarks()))
      && (ensure.Pass? ==>
            && (sr.Ok? ==> multiset(spaces.Spaces()) == multiset(sr.value) && SortedBy(spaces.Spaces(), SpaceOrder))
            && (sr.Err? ==> spaces.Spaces() == old(spaces.Spaces()))
            && (gr.Ok? ==> multiset(groups.Groups()) == multiset(gr.value) && SortedBy(groups.Groups(), GroupOrder))
            && (gr.Err? ==> groups.Groups() == old(groups.Groups()))
            && (br.Ok? ==> multiset(bookmarks.Bookmarks()) == multiset(br.value))
            && (br.Err? ==> bookmarks.Bookmarks() == old(bookmarks.Bookmarks())))
    }

    /** The data counts as loaded exactly when everything arrived; otherwise the
        first failure is reported and the loaded flag keeps its value. */
    twostate predicate FlagsSettled(ensure: Outcome, sr: Result<seq<Space>>, gr: Result<seq<Group>>, br: Result<seq<Bookmark>>)
      reads this
    {
      && (ensure.Fail? ==> dataError == Some(ErrorText(ensure.error, LoadFallback)) && dataLoaded == old(dataLoaded))
      && (ensure.Pass? && LoadFailure(sr, gr, br).Some? ==>
            dataError == Some(ErrorText(LoadFailure(sr, gr, br).value, LoadFallback)) && dataLoaded == old(dataLoaded))
      && (ensure.Pass? && LoadFailure(sr, gr, br).None? ==> dataLoaded && dataError.None?)
    }

    /** Only a complete load with at least one space changes the selection, and
        then it is the default one. */
    twostate predicate SelectionSettled(ensure: Outcome, sr: Result<seq<Space>>, gr: Result<seq<Group>>, br: Result<seq<Bookmark>>)
      reads ui
    {
      if ensure.Pass? && LoadFailure(sr, gr, br).None? && sr.value != [] then
        DefaultSelection(sr.value, gr.value, ui.activeSpaceId, ui.selectedGroupId)
      else
        ui.activeSpaceId == old(ui.activeSpaceId) && ui.selectedGroupId == old(ui.selectedGroupId)
    }

    /** `loadUserData`: the loads run only after `ensureUser` succeeds; an error
        is caught and reported, and the loading flag is cleared either way. */
    method LoadUserData(ensure: Outcome, sr: Result<seq<Space>>, gr: Result<seq<Group>>, br: Result<seq<Bookmark>>)
      requires Valid()
      modifies this, ui, spaces, groups, bookmarks
      ensures Valid()
      ensures KeptAcrossLoad()
      ensures StoresLoaded(ensure, sr, gr, br)
      ensures FlagsSettled(ensure, sr, gr, br)
      ensures SelectionSettled(ensure, sr, gr, br)
      ensures LoadedFrom(ensure, sr, gr, br)
    {
      dataLoading := true;
      dataError := None;
      if ensure.Fail? {
        dataError := Some(ErrorText(ensure.error, LoadFallback));
        dataLoading := false;
      } else {
        LoadFromServer(sr, gr, br);
      }
    }

    /** The part of `loadUserData` after `ensureUser` has succeeded, entered with
        the loading flag up and the error cleared. */
    method LoadFromServer(sr: Result<seq<Space>>, gr: Result<seq<Group>>, br: Result<seq<Bookmark>>)
      requires Valid() && dataLoading && dataError.None?
      modifies this, ui, spaces, groups, bookmarks
      ensures Valid()
      ensures KeptAcrossLoad()
      ensures StoresLoaded(Pass, sr, gr, br)
      ensures FlagsSettled(Pass, sr, gr, br)
      ensures SelectionSettled(Pass, sr, gr, br)
    {
      var s, g := LoadAll(sr, gr, br);
      ghost var loaded := (spaces.Spaces(), groups.Groups(), bookmarks.Bookmarks());
      var failure := LoadFailure(sr, gr, br);
      if failure.Some? {
        dataError := Some(ErrorText(failure.value, LoadFallback));
      } else {
        if |s.value| > 0 {
          SelectDefault(s.value, sr.value, g.value, gr.value);
        }
        dataLoaded := true;
      }
      dataLoading := false;
      assert (spaces.Spaces(), groups.Groups(), bookmarks.Bookmarks()) == loaded;
    }

    /** `Promise.all([loadSpaces(), loadGroups(), loadBookmarks()])`: every load
        settles its own store, whatever the others do. */
    method LoadAll(sr: Result<seq<Space>>, gr: Result<seq<Group>>, br: Result<seq<Bookmark>>)
      returns (s: Result<seq<Space>>, g: Result<seq<Group>>)
      requires Valid()
      modifies spaces, groups, bookmarks
      ensures Valid()
      ensures sr.Ok? ==> s.Ok? && s.value == spaces.Spaces()
      ensures gr.Ok? ==> g.Ok? && g.value == groups.Groups()
      ensures sr.Ok? ==> multiset(spaces.Spaces()) == multiset(sr.value) && SortedBy(spaces.Spaces(), SpaceOrder)
      ensures sr.Err? ==> spaces.Spaces() == old(spaces.Spaces())
      ensures gr.Ok? ==> multiset(groups.Groups()) == multiset(gr.value) && SortedBy(groups.Groups(), GroupOrder)
      ensures gr.Err? ==> groups.Groups() == old(groups.Groups())
      ensures br.Ok? ==> multiset(bookmarks.Bookmarks()) == multiset(br.value)
      ensures br.Err? ==> bookmarks.Bookmarks() == old(bookmarks.Bookmarks())
    {
      s := spaces.LoadSpaces(sr);
      g := groups.LoadGroups(gr);
      var b := bookmarks.LoadBookmarks(br);
    }

    /** The default selection after a load: the first of the sorted spaces
        becomes active, which clears the selected group, and the first group of
        the sorted groups that belongs to it is selected when there is one. */
    method SelectDefault(sorted: seq<Space>, ss: seq<Space>, sortedGroups: seq<Group>, gs: seq<Group>)
      requires sorted != []
      requires multiset(sorted) == multiset(ss) && SortedBy(sorted, SpaceOrder)
      requires multiset(sortedGroups) == multiset(gs) && SortedBy(sortedGroups, GroupOrder)
      modifies ui
      ensures DefaultSelection(ss, gs, ui.activeSpaceId, ui.selectedGroupId)
      ensures ui.modalType == old(ui.modalType) && ui.modalEntity == old(ui.modalEntity) && ui.theme == old(ui.theme)
    {
      SameMembers(sorted, ss);
      FirstSelectedIsLeast(sorted, ss, _ => true, SpaceOrder, 0);
      var active := sorted[0].id;
      ui.SetActiveSpace(Some(active));
      SameMembers(sortedGroups, gs);
      if |sortedGroups| > 0 {
        var first := Find(sortedGroups, InSpace(active));
        if first.Some? {
          var k := FirstIndex(sortedGroups, InSpace(active)).value;
          FirstSelectedIsLeast(sortedGroups, gs, InSpace(active), GroupOrder, k);
          ui.SetSelectedGroup(Some(first.value.id));
        }
      }
    }

    /** The sign-in / sign-out effect. Before the provider has loaded nothing
        happens; a falsy user id signs out; a user id different from the one
        last seen is recorded and starts the migration check (the result is
        `true`); the same user id again starts nothing. */
    method OnAuthChange(isLoaded: bool, clerkUserId: Option<string>) returns (startsCheck: bool)
      modifies this
      ensures startsCheck <==> isLoaded && Truthy(clerkUserId) && old(previousUserId) != clerkUserId
      ensures startsCheck ==> userId == clerkUserId && previousUserId == clerkUserId
      ensures startsCheck ==> dataLoaded == old(dataLoaded) && dataError == old(dataError)
      ensures isLoaded && !Truthy(clerkUserId) ==>
        userId.None? && previousUserId.None? && !dataLoaded && dataError.None?
      ensures !startsCheck && !(isLoaded && !Truthy(clerkUserId)) ==>
        userId == old(userId) && previousUserId == old(previousUserId)
        && dataLoaded == old(dataLoaded) && dataError == old(dataError)
      ensures dataLoading == old(dataLoading)
    {
      startsCheck := false;
      if !isLoaded {
        return;
      }
      if !Truthy(clerkUserId) {
        userId := None;
        dataLoaded := false;
        dataError := None;
        previousUserId := None;
        return;
      }
      if previousUserId != clerkUserId {
        previousUserId := clerkUserId;
        userId := clerkUserId;
        startsCheck := true;
      }
    }

    /** The continuation of the migration check: data is loaded at once unless
        the migration dialog is being shown. */
    method AfterMigrationCheck(showingMigration: bool, ensure: Outcome,
                               sr: Result<seq<Space>>, gr: Result<seq<Group>>, br: Result<seq<Bookmark>>)
      requires Valid()
      modifies this, ui, spaces, groups, bookmarks
      ensures Valid()
      ensures showingMigration ==> unchanged(this, ui, spaces, groups, bookmarks)
      ensures !showingMigration ==> LoadedFrom(ensure, sr, gr, br)
    {
      if !showingMigration {
        LoadUserData(ensure, sr, gr, br);
      }
    }

    /** The migration dialog subscription: once the dialog is closed, a signed-in
        user whose data is not loaded yet gets it loaded. */
    method OnDialogChange(dialogOpen: bool, ensure: Outcome,
                          sr: Result<seq<Space>>, gr: Result<seq<Group>>, br: Result<seq<Bookmark>>)
      returns (loads: bool)
      requires Valid()
      modifies this, ui, spaces, groups, bookmarks
      ensures Valid()
      ensures loads <==> !dialogOpen && Truthy(old(userId)) && !old(dataLoaded)
      ensures !loads ==> unchanged(this, ui, spaces, groups, bookmarks)
      ensures loads ==> LoadedFrom(ensure, sr, gr, br)
    {
      loads := !dialogOpen && Truthy(userId) && !dataLoaded;
      if loads {
        LoadUserData(ensure, sr, gr, br);
      }
    }
  }
}
