/**
 * The state of a table component (`ClientTable`, `RolesTable`): the search text, the
 * sort key and direction, the derived rows, and the create/edit drawers. Every view
 * update recomputes the rows from the full `data` prop with `SortData`.
 */
module TableView {
  import opened Wrappers
  import opened TableEngine

  /** The direction after clicking the header of `field`: flipped on the same field, forward on a new one. */
  function NextDirection(field: string, sortBy: Option<string>, reversed: bool): (r: bool)
    ensures sortBy == Some(field) ==> r == !reversed
    ensures sortBy != Some(field) ==> !r
  {
    if Some(field) == sortBy then !reversed else false
  }

  /** Clicking the same header twice restores the direction. */
  lemma NextDirectionTwice(field: string, reversed: bool)
    ensures NextDirection(field, Some(field), NextDirection(field, Some(field), reversed)) == reversed
  {
  }

  /** The rows shown before any sort or search: the list as the parent passed it. */
  lemma InitialViewIsUnfilteredSort(data: seq<Record>, cmp: (string, string) -> int)
    requires data != [] ==> data[0].Keys != {}
    ensures SortData(data, None, false, "", cmp) == data
  {
    assert Query("") == "";
    FilterEmptyQueryKeepsAll(data, "");
  }

  class TableView {
    /** The `data` prop: the full list fetched by the parent; never reordered. */
    const data: seq<Record>
    /** The fields whose header calls `setSorting`. */
    const sortable: set<string>
    /** `localeCompare`. */
    const cmp: (string, string) -> int

    var search: string
    var sortBy: Option<string>
    var reverseSortDirection: bool
    var sortedData: seq<Record>
    /** `opened`: the create drawer. */
    var createOpened: bool
    /** `isOpened`: the edit drawer. */
    var editOpened: bool
    /** `clientEditData` / `rolesEditData`: the record being edited. */
    var editData: Record

    /** The rows are those `sortData` computes from the full data and the current settings. */
    ghost predicate ViewIsCurrent()
      reads this
    {
      sortedData == SortData(data, sortBy, reverseSortDirection, search, cmp)
    }

    /** Nothing has been sorted or searched yet: the rows are the data as given. */
    ghost predicate Pristine()
      reads this
    {
      sortedData == data && search == "" && sortBy == None && !reverseSortDirection
    }

    ghost predicate Valid()
      reads this
    {
      && (sortBy.Some? ==> sortBy.value in sortable)
      && (Pristine() || ViewIsCurrent())
    }

    /** The initial state of the component's `useState` hooks. */
    constructor (data: seq<Record>, sortable: set<string>, cmp: (string, string) -> int)
      ensures Valid() && Pristine()
      ensures this.data == data && this.sortable == sortable && this.cmp == cmp
      ensures !createOpened && !editOpened && editData == map[]
    {
      this.data := data;
      this.sortable := sortable;
      this.cmp := cmp;
      search := "";
      sortBy := None;
      reverseSortDirection := false;
      sortedData := data;
      createOpened := false;
      editOpened := false;
      editData := map[];
      new;
      assert Pristine();
    }

    /** `setSorting(field)`: toggle or reset the direction, take the field, recompute from `data`. */
    method SetSorting(field: string)
      requires Valid() && field in sortable
      modifies this
      ensures Valid() && ViewIsCurrent()
      ensures reverseSortDirection == (if old(sortBy) == Some(field) then !old(reverseSortDirection) else false)
      ensures sortBy == Some(field) && search == old(search)
      ensures sortedData == SortData(data, Some(field), reverseSortDirection, old(search), cmp)
      ensures createOpened == old(createOpened) && editOpened == old(editOpened) && editData == old(editData)
    {
      var reversed := NextDirection(field, sortBy, reverseSortDirection);
      reverseSortDirection := reversed;
      sortBy := Some(field);
      sortedData := SortData(data, Some(field), reversed, search, cmp);
      assert ViewIsCurrent();
    }

    /** `handleSearchChange`: take the new text, keep the sort, recompute from `data`. */
    method HandleSearchChange(value: string)
      requires Valid()
      modifies this
      ensures Valid() && ViewIsCurrent()
      ensures search == value
      ensures sortBy == old(sortBy) && reverseSortDirection == old(reverseSortDirection)
      ensures sortedData == SortData(data, old(sortBy), old(reverseSortDirection), value, cmp)
      ensures createOpened == old(createOpened) && editOpened == old(editOpened) && editData == old(editData)
    {
      search := value;
      sortedData := SortData(data, sortBy, reverseSortDirection, value, cmp);
      assert ViewIsCurrent();
    }

    /** The edit icon's click handler: open the edit drawer on `row`. */
    method OpenEdit(row: Record)
      requires Valid()
      modifies this
      ensures Valid()
      ensures editOpened && editData == row
      ensures search == old(search) && sortBy == old(sortBy) && reverseSortDirection == old(reverseSortDirection)
      ensures sortedData == old(sortedData) && createOpened == old(createOpened)
    {
      editOpened := true;
      editData := row;
    }

    /** The edit drawer's `onClose`. */
    method CloseEdit()
      requires Valid()
      modifies this
      ensures Valid()
      ensures !editOpened && editData == old(editData)
      ensures search == old(search) && sortBy == old(sortBy) && reverseSortDirection == old(reverseSortDirection)
      ensures sortedData == old(sortedData) && createOpened == old(createOpened)
    {
      editOpened := false;
    }

    /** The "Add New" button (`open` true) and the create drawer's `onClose` (`open` false). */
    method SetCreateOpened(open: bool)
      requires Valid()
      modifies this
      ensures Valid()
      ensures createOpened == open
      ensures search == old(search) && sortBy == old(sortBy) && reverseSortDirection == old(reverseSortDirection)
      ensures sortedData == old(sortedData) && editOpened == old(editOpened) && editData == old(editData)
    {
      createOpened := open;
    }

    /**
     * `openModalForDelete(row)` followed by the user's answer: the record's `uuid` is
     * handed to the delete mutation on confirm and nothing happens on cancel.
     */
    method OpenModalForDelete(row: Record, confirmed: bool) returns (deleted: Option<string>)
      ensures deleted.Some? <==> confirmed
      ensures deleted.Some? ==> deleted.value == FieldText(row, "uuid")
    {
      if confirmed {
        deleted := Some(FieldText(row, "uuid"));
      } else {
        deleted := None;
      }
    }

    /** The icon of the header of `field`. */
    function HeaderIconOf(field: string): (icon: SortIcon)
      reads this
      ensures icon == ChevronUp <==> sortBy == Some(field) && reverseSortDirection
      ensures icon == ChevronDown <==> sortBy == Some(field) && !reverseSortDirection
      ensures icon == Selector <==> sortBy != Some(field)
    {
      HeaderIcon(sortBy == Some(field), reverseSortDirection)
    }
  }
}
