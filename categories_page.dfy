/** The categories page: the status filter, the status counts, the status colour, the row actions
    and the warning in the delete dialog. */
module CategoriesPage {
  import opened Lists
  import Categories

  /** `filteredCategories`. */
  function Filtered(categories: seq<Categories.Category>, statusFilter: string): (r: seq<Categories.Category>)
    ensures statusFilter == "all" ==> r == categories
    ensures statusFilter != "all" ==>
      (forall c :: c in r <==> c in categories && Categories.StatusName(c.status) == statusFilter)
      && SubsequenceOf(r, categories)
  {
    StatusFilter(categories, statusFilter, Categories.StatusOf)
  }

  /** Filtering on a status shows as many rows as the page counts for it. */
  lemma FilteredMatchesCount(categories: seq<Categories.Category>, st: Categories.CategoryStatus)
    ensures |Filtered(categories, Categories.StatusName(st))| == Categories.CountWithStatus(categories, st)
  {
    FilterSameTest(categories, NameIs(Categories.StatusOf, Categories.StatusName(st)), Categories.HasStatus(st));
  }

  /** The active and inactive counts add up to the total shown beside them. */
  lemma CountsAddUp(categories: seq<Categories.Category>)
    ensures |Filtered(categories, "active")| + |Filtered(categories, "inactive")| == |categories|
  {
    FilteredMatchesCount(categories, Categories.Active);
    FilteredMatchesCount(categories, Categories.Inactive);
    Categories.StatusCountsPartition(categories);
  }

  const Green: string := "bg-green-100 text-green-800"
  const Gray: string := "bg-gray-100 text-gray-800"

  /** `getStatusColor`: green for active, gray for everything else. */
  function StatusColor(status: string): (r: string)
    ensures r == Green <==> status == "active"
    ensures r == Green || r == Gray
  {
    if status == "active" then Green else Gray
  }

  /** The delete dialog's warning: the number of associated posts, shown only when it is positive. */
  function DeleteWarning(c: Categories.Category): (r: Option<int>)
    ensures r.Some? <==> c.postCount > 0
    ensures r.Some? ==> r.value == c.postCount
  {
    if c.postCount > 0 then Some(c.postCount) else None
  }

  /** A category just added has no posts, so deleting it shows no warning. */
  lemma NewCategoryNoWarning(categories: seq<Categories.Category>, f: Categories.CategoryFields, now: nat)
    ensures DeleteWarning(Categories.Added(categories, f, now)[0]).None?
  {
  }

  /** `handleStatusChange` on a row: the row's own id goes to `updateCategoryStatus`. */
  method HandleStatusChange(store: Categories.CategoryStore, row: Categories.Category, st: Categories.CategoryStatus)
    modifies store
    ensures store.categories == Categories.StatusSet(old(store.categories), row.id, st)
    ensures store.Mirrored()
  {
    store.UpdateCategoryStatus(row.id, st);
  }

  /** `handleDelete` on a row: the row's own id goes to `deleteCategory`, so the row is gone. */
  method HandleDelete(store: Categories.CategoryStore, row: Categories.Category)
    modifies store
    ensures store.categories == Categories.Deleted(old(store.categories), row.id)
    ensures row !in store.categories && store.Mirrored()
  {
    store.DeleteCategory(row.id);
  }
}
