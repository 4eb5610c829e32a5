/** Navigation, modal and theme state: which space is shown, which group is
    selected in it, which dialog is open and for which item, and the colour
    theme. The DOM and `localStorage` side effects of the theme actions are not
    part of this model; the stored theme is passed in. */
module UiState {
  import opened Common
  import opened Entities

  datatype Theme = Light | Dark | System

  /** The non-null members of `ModalType`. */
  datatype ModalKind =
    | CreateSpaceModal | EditSpaceModal
    | CreateGroupModal | EditGroupModal
    | CreateBookmarkModal | EditBookmarkModal
    | DeleteConfirmModal | SettingsModal

  /** `Space | Group | Bookmark`: the item a dialog is about. */
  datatype ModalEntity = SpaceEntity(space: Space) | GroupEntity(group: Group) | BookmarkEntity(bookmark: Bookmark)

  /** `stored ?? "system"` */
  function ThemeOrDefault(stored: Option<Theme>): (theme: Theme)
    ensures stored.Some? ==> theme == stored.value
    ensures stored.None? ==> theme == System
  {
    stored.GetOr(System)
  }

  class UiStore {
    var activeSpaceId: Option<string>
    var selectedGroupId: Option<string>
    var modalType: Option<ModalKind>
    var modalEntity: Option<ModalEntity>
    var theme: Theme

    /** The initial state: nothing shown, selected or open, and the system theme. */
    constructor ()
      ensures activeSpaceId.None? && selectedGroupId.None? && modalType.None? && modalEntity.None?
      ensures theme == System
    {
      activeSpaceId, selectedGroupId, modalType, modalEntity, theme := None, None, None, None, System;
    }

    /** `setActiveSpace(spaceId)`: a new space starts with no group selected. */
    method SetActiveSpace(spaceId: Option<string>)
      modifies this
      ensures activeSpaceId == spaceId && selectedGroupId.None?
      ensures modalType == old(modalType) && modalEntity == old(modalEntity) && theme == old(theme)
    {
      activeSpaceId := spaceId;
      selectedGroupId := None;
    }

    /** `setSelectedGroup(groupId)` */
    method SetSelectedGroup(groupId: Option<string>)
      modifies this
      ensures selectedGroupId == groupId
      ensures activeSpaceId == old(activeSpaceId) && modalType == old(modalType)
      ensures modalEntity == old(modalEntity) && theme == old(theme)
    {
      selectedGroupId := groupId;
    }

    /** `openModal(type, entity)`: a missing entity is stored as `null`. */
    method OpenModal(kind: Option<ModalKind>, entity: Option<ModalEntity>)
      modifies this
      ensures modalType == kind && modalEntity == entity
      ensures activeSpaceId == old(activeSpaceId) && selectedGroupId == old(selectedGroupId) && theme == old(theme)
    {
      modalType := kind;
      modalEntity := entity;
    }

    /** `closeModal()`: both modal fields return to their initial `null`. */
    method CloseModal()
      modifies this
      ensures modalType.None? && modalEntity.None?
      ensures activeSpaceId == old(activeSpaceId) && selectedGroupId == old(selectedGroupId) && theme == old(theme)
    {
      modalType := None;
      modalEntity := None;
    }

    /** `setTheme(theme)` */
    method SetTheme(t: Theme)
      modifies this
      ensures theme == t
      ensures activeSpaceId == old(activeSpaceId) && selectedGroupId == old(selectedGroupId)
      ensures modalType == old(modalType) && modalEntity == old(modalEntity)
    {
      theme := t;
    }

    /** `initializeTheme()`, with `stored` the value kept under the theme key. */
    method InitializeTheme(stored: Option<Theme>)
      modifies this
      ensures theme == ThemeOrDefault(stored)
      ensures activeSpaceId == old(activeSpaceId) && selectedGroupId == old(selectedGroupId)
      ensures modalType == old(modalType) && modalEntity == old(modalEntity)
    {
      theme := ThemeOrDefault(stored);
    }
  }
}
