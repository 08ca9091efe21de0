/**
 * `ClientTable`: the table view over client records, sortable by six of its columns.
 */
module ClientTable {
  import opened Wrappers
  import opened TableEngine
  import opened TableView

  /** The columns whose header calls `setSorting` (the `id` header is commented out). */
  const Sortable: set<string> := {"first_name", "primary_email", "primary_phone", "city", "state", "country"}

  /** Mounting the component with the fetched client list. */
  method Mount(data: seq<Record>, cmp: (string, string) -> int) returns (t: TableView)
    ensures fresh(t)
    ensures t.data == data && t.sortable == Sortable && t.cmp == cmp
    ensures t.Valid() && t.Pristine()
    ensures !t.createOpened && !t.editOpened && t.editData == map[]
  {
    t := new TableView(data, Sortable, cmp);
  }

  /** The client table is never sorted by `id`, so its identifier column keeps the neutral icon. */
  lemma NeverSortedById(t: TableView)
    requires t.Valid() && t.sortable == Sortable
    ensures t.sortBy != Some("id")
    ensures t.HeaderIconOf("id") == Selector
  {
  }
}
