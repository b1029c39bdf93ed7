/** The admin sidebar: the navigation items, which one is highlighted, the count badges and the
    footer totals. */
module AdminLayout {
  import opened Lists
  import Posts
  import Comments
  import Categories

  datatype NavItem = NavItem(href: string, caption: string, showBadge: bool)

  /** `navigationItems`, in display order. */
  const NavItems: seq<NavItem> := [
    NavItem("/admin/dashboard", "Dashboard", false),
    NavItem("/admin/posts", "Posts", false),
    NavItem("/admin/editor", "Editor", false),
    NavItem("/admin/comments", "Comments", true),
    NavItem("/admin/categories", "Categories", false),
    NavItem("/admin/settings", "Settings", false)
  ]

  /** An item is highlighted when the path is exactly its href; there is no prefix match. */
  predicate IsActive(pathname: string, item: NavItem)
  {
    pathname == item.href
  }

  /** The hrefs differ, so at most one item is highlighted. */
  lemma AtMostOneActive(pathname: string, i: nat, j: nat)
    requires i < |NavItems| && j < |NavItems|
    requires IsActive(pathname, NavItems[i]) && IsActive(pathname, NavItems[j])
    ensures i == j
  {
  }

  /** The new-category form lies under the categories page but highlights no item. */
  lemma NewCategoryHighlightsNothing(i: nat)
    requires i < |NavItems|
    ensures !IsActive("/admin/categories/new", NavItems[i])
  {
  }

  /** The three counts the sidebar shows. */
  datatype Counts = Counts(pendingComments: nat, draftPosts: nat, inactiveCategories: nat)

  function SidebarCounts(posts: seq<Posts.Post>, comments: seq<Comments.Comment>, categories: seq<Categories.Category>): (r: Counts)
    ensures r.pendingComments == Comments.CountWithStatus(comments, Comments.Pending)
    ensures r.draftPosts == Posts.CountWithStatus(posts, Posts.Draft)
    ensures r.inactiveCategories == Categories.CountWithStatus(categories, Categories.Inactive)
    ensures r.pendingComments > 0 <==> exists c :: c in comments && c.status == Comments.Pending
    ensures r.draftPosts > 0 <==> exists p :: p in posts && p.status == Posts.Draft
    ensures r.inactiveCategories > 0 <==> exists c :: c in categories && c.status == Categories.Inactive
  {
    FilterMembers(comments, Comments.HasStatus(Comments.Pending));
    FilterMembers(posts, Posts.HasStatus(Posts.Draft));
    FilterMembers(categories, Categories.HasStatus(Categories.Inactive));
    var r := Counts(Comments.CountWithStatus(comments, Comments.Pending), Posts.CountWithStatus(posts, Posts.Draft),
                    Categories.CountWithStatus(categories, Categories.Inactive));
    assert r.pendingComments > 0 ==> Filter(comments, Comments.HasStatus(Comments.Pending))[0] in comments;
    assert r.draftPosts > 0 ==> Filter(posts, Posts.HasStatus(Posts.Draft))[0] in posts;
    assert r.inactiveCategories > 0 ==> Filter(categories, Categories.HasStatus(Categories.Inactive))[0] in categories;
    r
  }

  /** The badges rendered inside one item: the pending-comment count on the item flagged
      `showBadge`, the draft count on "Posts", the inactive count on "Categories", each only when
      positive. */
  function Badges(item: NavItem, counts: Counts): (r: seq<nat>)
    ensures forall b :: b in r ==> b > 0
    ensures item.showBadge && counts.pendingComments > 0 ==> counts.pendingComments in r
    ensures item.caption == "Posts" && counts.draftPosts > 0 ==> counts.draftPosts in r
    ensures item.caption == "Categories" && counts.inactiveCategories > 0 ==> counts.inactiveCategories in r
    ensures forall b :: b in r ==>
      (item.showBadge && b == counts.pendingComments) || (item.caption == "Posts" && b == counts.draftPosts)
      || (item.caption == "Categories" && b == counts.inactiveCategories)
  {
    (if item.showBadge && counts.pendingComments > 0 then [counts.pendingComments] else [])
    + (if item.caption == "Posts" && counts.draftPosts > 0 then [counts.draftPosts] else [])
    + (if item.caption == "Categories" && counts.inactiveCategories > 0 then [counts.inactiveCategories] else [])
  }

  /** Every item carries at most one badge, and only Comments, Posts and Categories can carry one. */
  lemma OneBadgePerItem(i: nat, counts: Counts)
    requires i < |NavItems|
    ensures |Badges(NavItems[i], counts)| <= 1
    ensures NavItems[i].caption !in {"Comments", "Posts", "Categories"} ==> Badges(NavItems[i], counts) == []
  {
  }

  /** The footer: the lengths of the three lists. */
  datatype Totals = Totals(posts: nat, comments: nat, categories: nat)

  function FooterTotals(posts: seq<Posts.Post>, comments: seq<Comments.Comment>, categories: seq<Categories.Category>): (r: Totals)
    ensures r.posts == |posts| && r.comments == |comments| && r.categories == |categories|
  {
    Totals(|posts|, |comments|, |categories|)
  }

  /** Each badge count is bounded by the matching footer total. */
  lemma BadgesWithinTotals(posts: seq<Posts.Post>, comments: seq<Comments.Comment>, categories: seq<Categories.Category>)
    ensures var c := SidebarCounts(posts, comments, categories);
      var t := FooterTotals(posts, comments, categories);
      c.pendingComments <= t.comments && c.draftPosts <= t.posts && c.inactiveCategories <= t.categories
  {
  }
}
