/**
 * `RolesTable`: the table view over role records, sortable by `name` only.
 */
module RolesTable {
  import opened Wrappers
  import opened TableEngine
  import opened TableView

  /** The one column whose header calls `setSorting` (the `role_uuid` header is commented out). */
  const Sortable: set<string> := {"name"}

  /** Mounting the component with the fetched role list. */
  method Mount(data: seq<Record>, cmp: (string, string) -> int) returns (t: TableView)
    ensures fresh(t)
    ensures t.data == data && t.sortable == Sortable && t.cmp == cmp
    ensures t.Valid() && t.Pristine()
    ensures !t.createOpened && !t.editOpened && t.editData == map[]
  {
    t := new TableView(data, Sortable, cmp);
  }

  /** The sort key of the roles table is either unset or `name`. */
  lemma SortKeyIsName(t: TableView)
    requires t.Valid() && t.sortable == Sortable
    ensures t.sortBy == None || t.sortBy == Some("name")
  {
  }
}
