/** The posts page: the status filter, the status badge and the delete action. */
module PostsPage {
  import opened Lists
  import Posts

  /** `filteredPosts`. */
  function Filtered(posts: seq<Posts.Post>, statusFilter: string): (r: seq<Posts.Post>)
    ensures statusFilter == "all" ==> r == posts
    ensures statusFilter != "all" ==>
      (forall p :: p in r <==> p in posts && Posts.StatusName(p.status) == statusFilter) && SubsequenceOf(r, posts)
  {
    StatusFilter(posts, statusFilter, Posts.StatusOf)
  }

  /** Filtering on a status shows exactly the posts the status count counts. */
  lemma FilteredMatchesCount(posts: seq<Posts.Post>, st: Posts.PostStatus)
    ensures |Filtered(posts, Posts.StatusName(st))| == Posts.CountWithStatus(posts, st)
  {
    FilterSameTest(posts, NameIs(Posts.StatusOf, Posts.StatusName(st)), Posts.HasStatus(st));
  }

  /** The published and draft views together hold every post. */
  lemma ViewsCoverAll(posts: seq<Posts.Post>)
    ensures |Filtered(posts, "Published")| + |Filtered(posts, "Draft")| == |posts|
  {
    FilteredMatchesCount(posts, Posts.Published);
    FilteredMatchesCount(posts, Posts.Draft);
    Posts.StatusCountsPartition(posts);
  }

  const Green: string := "bg-green-100 text-green-800"
  const Yellow: string := "bg-yellow-100 text-yellow-800"

  /** The status badge: green exactly for "Published", yellow otherwise. */
  function BadgeColor(status: string): (r: string)
    ensures r == Green <==> status == "Published"
    ensures r == Green || r == Yellow
  {
    if status == "Published" then Green else Yellow
  }

  /** `handleDelete` on a row: the row's own id goes to `deletePost`, so the row is gone. */
  method HandleDelete(store: Posts.PostStore, row: Posts.Post)
    modifies store
    ensures store.posts == Posts.Deleted(old(store.posts), row.id)
    ensures row !in store.posts
  {
    store.DeletePost(row.id);
  }
}
