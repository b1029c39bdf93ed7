/** The category store (`CategoryProvider`): a list of categories, newest first, hydrated from the
    `blog-cms-categories` slot of `localStorage` (or a six-category seed) and written back to that
    slot after every change. */
module Categories {
  import opened Lists
  import opened Text
  import opened Storage
  import Clock

  datatype CategoryStatus = Active | Inactive

  function StatusName(s: CategoryStatus): string
  {
    match s
    case Active => "active"
    case Inactive => "inactive"
  }

  /** `createdAt` is the instant of the ISO timestamp, in milliseconds. */
  datatype Category = Category(id: string, name: string, description: string, slug: string, color: string,
                               postCount: int, createdAt: int, status: CategoryStatus)

  /** What callers supply to `addCategory` and `updateCategory`: `Omit<Category, 'id' | 'createdAt' | 'postCount'>`. */
  datatype CategoryFields = CategoryFields(name: string, description: string, slug: string, color: string,
                                           status: CategoryStatus)

  const StorageKey: string := "blog-cms-categories"

  /** The seed's descriptions, by category id (written as short pieces joined together, which keeps
      the literals cheap for the verifier). */
  function SeedDescription(n: nat): string
  {
    match n
    case 1 => "Articles about modern web " + "development technologies, " + "frameworks, and best practices."
    case 2 => "Deep dives into React " + "concepts, hooks, components, " + "and the React ecosystem."
    case 3 => "Modern CSS techniques, " + "frameworks like Tailwind, and " + "styling best practices."
    case 4 => "Core JavaScript concepts, ES6+ " + "features, and advanced " + "programming patterns."
    case 5 => "Server-side development, APIs, " + "databases, and backend " + "architectures."
    case 6 => "Deployment, CI/CD, " + "containerization, and " + "development operations."
    case _ => ""
  }

  function SeedCategories(): seq<Category>
  {
    [ Category("1", "Web Development", SeedDescription(1), "web-development", "#3B82F6", 2, Clock.Utc(2025, 7, 10, 10, 0, 0), Active),
      Category("2", "React", SeedDescription(2), "react", "#06B6D4", 1, Clock.Utc(2025, 7, 11, 14, 30, 0), Active),
      Category("3", "CSS & Styling", SeedDescription(3), "css-styling", "#8B5CF6", 1, Clock.Utc(2025, 7, 12, 9, 15, 0), Active),
      Category("4", "JavaScript", SeedDescription(4), "javascript", "#F59E0B", 0, Clock.Utc(2025, 7, 13, 16, 45, 0), Active),
      Category("5", "Backend Development", SeedDescription(5), "backend-development", "#10B981", 0, Clock.Utc(2025, 7, 14, 11, 20, 0), Inactive),
      Category("6", "DevOps", SeedDescription(6), "devops", "#EF4444", 0, Clock.Utc(2025, 7, 15, 13, 0, 0), Inactive) ]
  }

  ghost predicate UniqueIds(categories: seq<Category>)
  {
    forall i, j :: 0 <= i < j < |categories| ==> categories[i].id != categories[j].id
  }

  /** `addCategory`: prepends one category whose id is `String(now)`, whose creation time is `now`
      and whose post count is 0; the other fields are the caller's. */
  function Added(categories: seq<Category>, f: CategoryFields, now: nat): (r: seq<Category>)
    ensures |r| == |categories| + 1 && r[1..] == categories
    ensures r[0].id == NatToString(now) && r[0].createdAt == now && r[0].postCount == 0
    ensures r[0].name == f.name && r[0].description == f.description && r[0].slug == f.slug
    ensures r[0].color == f.color && r[0].status == f.status
  {
    [Category(NatToString(now), f.name, f.description, f.slug, f.color, 0, now, f.status)] + categories
  }

  function HasId(id: string): Category -> bool
  {
    (c: Category) => c.id == id
  }

  function IdIsNot(id: string): Category -> bool
  {
    (c: Category) => c.id != id
  }

  /** `deleteCategory`: every category with that id is dropped, the rest keep their order. */
  function Deleted(categories: seq<Category>, id: string): (r: seq<Category>)
    ensures forall c :: multiset(r)[c] == if c.id != id then multiset(categories)[c] else 0
    ensures SubsequenceOf(r, categories)
    ensures (forall i :: 0 <= i < |categories| ==> categories[i].id != id) ==> r == categories
  {
    FilterMultiset(categories, IdIsNot(id));
    FilterSubsequence(categories, IdIsNot(id));
    Filter(categories, IdIsNot(id))
  }

  function Merge(c: Category, f: CategoryFields): Category
  {
    c.(name := f.name, description := f.description, slug := f.slug, color := f.color, status := f.status)
  }

  /** `updateCategory`: shallow merge over every category with that id; id, creation time and
      post count are kept. */
  function Updated(categories: seq<Category>, id: string, f: CategoryFields): (r: seq<Category>)
    ensures |r| == |categories|
    ensures forall i :: 0 <= i < |categories| ==>
      r[i].id == categories[i].id && r[i].createdAt == categories[i].createdAt && r[i].postCount == categories[i].postCount
    ensures forall i :: 0 <= i < |categories| && categories[i].id == id ==>
      r[i].name == f.name && r[i].description == f.description && r[i].slug == f.slug
      && r[i].color == f.color && r[i].status == f.status
    ensures forall i :: 0 <= i < |categories| && categories[i].id != id ==> r[i] == categories[i]
  {
    MapWhere(categories, HasId(id), (c: Category) => Merge(c, f))
  }

  function WithStatus(st: CategoryStatus): Category -> Category
  {
    (c: Category) => c.(status := st)
  }

  /** `updateCategoryStatus`: only the status of the categories with that id changes. */
  function StatusSet(categories: seq<Category>, id: string, st: CategoryStatus): (r: seq<Category>)
    ensures |r| == |categories|
    ensures forall i :: 0 <= i < |categories| ==>
      r[i] == if categories[i].id == id then categories[i].(status := st) else categories[i]
  {
    MapWhere(categories, HasId(id), WithStatus(st))
  }

  /** `getCategory`: the first category in list order with that id. */
  function Lookup(categories: seq<Category>, id: string): (r: Option<Category>)
    ensures r.None? <==> forall i :: 0 <= i < |categories| ==> categories[i].id != id
    ensures r.Some? ==> r.value.id == id
    ensures r.Some? ==>
      exists k :: 0 <= k < |categories| && categories[k] == r.value && (forall j :: 0 <= j < k ==> categories[j].id != id)
  {
    Find(categories, HasId(id))
  }

  /** `getCategoryBySlug`: the first category in list order with that slug. */
  function BySlug(categories: seq<Category>, slug: string): (r: Option<Category>)
    ensures r.None? <==> forall i :: 0 <= i < |categories| ==> categories[i].slug != slug
    ensures r.Some? ==> r.value.slug == slug
    ensures r.Some? ==>
      exists k :: 0 <= k < |categories| && categories[k] == r.value && (forall j :: 0 <= j < k ==> categories[j].slug != slug)
  {
    Find(categories, (c: Category) => c.slug == slug)
  }

  /** `categories.filter(category => category.status === st).length`. */
  function HasStatus(st: CategoryStatus): Category -> bool
  {
    (c: Category) => c.status == st
  }

  /** The status as the listing page's filter compares it. */
  function StatusOf(c: Category): string { StatusName(c.status) }

  /** `categories.filter(category => category.status === st).length`. */
  function CountWithStatus(categories: seq<Category>, st: CategoryStatus): nat
  {
    Count(categories, HasStatus(st))
  }

  /** Every category is active or inactive. */
  lemma {:induction false} StatusCountsPartition(categories: seq<Category>)
    ensures CountWithStatus(categories, Active) + CountWithStatus(categories, Inactive) == |categories|
  {
    if categories != [] {
      StatusCountsPartition(categories[1..]);
    }
  }

  /** After a status change, looking the id up finds the same category with the new status. */
  lemma LookupAfterStatusSet(categories: seq<Category>, id: string, st: CategoryStatus)
    ensures var before := Lookup(categories, id);
      Lookup(StatusSet(categories, id, st), id) == if before.None? then None else Some(before.value.(status := st))
  {
    FindIndexAfterMapWhere(categories, HasId(id), WithStatus(st), HasId(id));
  }

  /** A new category shadows any older one with the same slug. */
  lemma BySlugFindsNewest(categories: seq<Category>, f: CategoryFields, now: nat)
    ensures BySlug(Added(categories, f, now), f.slug) == Some(Added(categories, f, now)[0])
  {
  }

  /** A new category keeps ids unique exactly when its clock value is not already an id. */
  lemma AddKeepsIdsUnique(categories: seq<Category>, f: CategoryFields, now: nat)
    requires UniqueIds(categories)
    ensures UniqueIds(Added(categories, f, now)) <==> forall c :: c in categories ==> c.id != NatToString(now)
  {
    var r := Added(categories, f, now);
    if forall c :: c in categories ==> c.id != NatToString(now) {
      forall i, j | 0 <= i < j < |r| ensures r[i].id != r[j].id {
        if i == 0 {
          assert r[j] == categories[j - 1];
        } else {
          assert r[i] == categories[i - 1] && r[j] == categories[j - 1];
        }
      }
    } else {
      var c :| c in categories && c.id == NatToString(now);
      var k :| 0 <= k < |categories| && categories[k] == c;
      assert r[k + 1] == c;
    }
  }

  /** The category store, its list and the `localStorage` slots it reads and writes. */
  class CategoryStore {
    var categories: seq<Category>
    var slots: Slots<seq<Category>>
    const hasWindow: bool

    /** The sync effect's guarantee: the slot holds exactly the current list. */
    ghost predicate Mirrored()
      reads this
    {
      hasWindow ==> StorageKey in slots && slots[StorageKey] == Json(categories)
    }

    /** Hydration (`useState(loadCategoriesFromStorage)`) followed by the first run of the sync effect. */
    constructor (hasWindow: bool, stored: Slots<seq<Category>>)
      ensures this.hasWindow == hasWindow
      ensures categories == Load(hasWindow, stored, StorageKey, SeedCategories())
      ensures slots == Save(hasWindow, stored, StorageKey, categories)
      ensures Mirrored()
    {
      this.hasWindow := hasWindow;
      new;
      categories := Load(hasWindow, stored, StorageKey, SeedCategories());
      slots := Save(hasWindow, stored, StorageKey, categories);
    }

    method AddCategory(f: CategoryFields, now: nat)
      modifies this
      ensures categories == Added(old(categories), f, now)
      ensures slots == Save(hasWindow, old(slots), StorageKey, categories) && Mirrored()
    {
      categories := Added(categories, f, now);
      slots := Save(hasWindow, slots, StorageKey, categories);
    }

    method DeleteCategory(id: string)
      modifies this
      ensures categories == Deleted(old(categories), id)
      ensures slots == Save(hasWindow, old(slots), StorageKey, categories) && Mirrored()
    {
      categories := Deleted(categories, id);
      slots := Save(hasWindow, slots, StorageKey, categories);
    }

    method UpdateCategory(id: string, f: CategoryFields)
      modifies this
      ensures categories == Updated(old(categories), id, f)
      ensures slots == Save(hasWindow, old(slots), StorageKey, categories) && Mirrored()
    {
      categories := Updated(categories, id, f);
      slots := Save(hasWindow, slots, StorageKey, categories);
    }

    method UpdateCategoryStatus(id: string, st: CategoryStatus)
      modifies this
      ensures categories == StatusSet(old(categories), id, st)
      ensures slots == Save(hasWindow, old(slots), StorageKey, categories) && Mirrored()
    {
      categories := StatusSet(categories, id, st);
      slots := Save(hasWindow, slots, StorageKey, categories);
    }
  }
}
