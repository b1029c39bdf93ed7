/** The dashboard: the status statistics, the five most recent posts and comments (taken after
    sorting the stores' own lists in place), post titles for the comment feed and the row of
    active-category chips. */
module Dashboard {
  import opened Lists
  import Posts
  import Comments
  import Categories

  datatype Stats = Stats(totalPosts: nat, publishedPosts: nat, draftPosts: nat,
                         totalComments: nat, pendingComments: nat, approvedComments: nat, rejectedComments: nat,
                         totalCategories: nat, activeCategories: nat)

  /** `stats`: every post is published or a draft, every comment is in one of its three states,
      and the active categories are some of the categories. */
  function ComputeStats(posts: seq<Posts.Post>, comments: seq<Comments.Comment>, categories: seq<Categories.Category>): (s: Stats)
    ensures s.totalPosts == |posts| && s.totalComments == |comments| && s.totalCategories == |categories|
    ensures s.publishedPosts == Posts.CountWithStatus(posts, Posts.Published)
    ensures s.draftPosts == Posts.CountWithStatus(posts, Posts.Draft)
    ensures s.pendingComments == Comments.CountWithStatus(comments, Comments.Pending)
    ensures s.approvedComments == Comments.CountWithStatus(comments, Comments.Approved)
    ensures s.rejectedComments == Comments.CountWithStatus(comments, Comments.Rejected)
    ensures s.activeCategories == Categories.CountWithStatus(categories, Categories.Active)
    ensures s.publishedPosts + s.draftPosts == s.totalPosts
    ensures s.pendingComments + s.approvedComments + s.rejectedComments == s.totalComments
    ensures s.activeCategories <= s.totalCategories
  {
    Posts.StatusCountsPartition(posts);
    Comments.StatusCountsPartition(comments);
    Stats(|posts|, Posts.CountWithStatus(posts, Posts.Published), Posts.CountWithStatus(posts, Posts.Draft),
          |comments|, Comments.CountWithStatus(comments, Comments.Pending),
          Comments.CountWithStatus(comments, Comments.Approved), Comments.CountWithStatus(comments, Comments.Rejected),
          |categories|, Categories.CountWithStatus(categories, Categories.Active))
  }

  const RecentCount: nat := 5

  /** `recentPosts`: the store's posts are sorted newest first in place, then the first five are
      shown. */
  method RecentPosts(store: Posts.PostStore) returns (recent: seq<Posts.Post>)
    modifies store
    ensures store.posts == SortDesc(old(store.posts), Posts.PostTime)
    ensures recent == Newest(old(store.posts), Posts.PostTime, RecentCount)
  {
    store.SortByDate();
    recent := store.posts[..Min(RecentCount, |store.posts|)];
  }

  /** `recentComments`, the same by creation time; the comment store's slot is not rewritten. */
  method RecentComments(store: Comments.CommentStore) returns (recent: seq<Comments.Comment>)
    modifies store
    ensures store.comments == SortDesc(old(store.comments), Comments.CommentTime)
    ensures store.slots == old(store.slots)
    ensures recent == Newest(old(store.comments), Comments.CommentTime, RecentCount)
  {
    store.SortByCreated();
    recent := store.comments[..Min(RecentCount, |store.comments|)];
  }

  const UnknownPost: string := "Unknown Post"

  /** `getPostTitle`: the title of the first post with that id; "Unknown Post" when there is
      none or its title is empty. */
  function PostTitle(posts: seq<Posts.Post>, postId: string): (r: string)
    ensures r != []
    ensures forall k :: 0 <= k < |posts| && posts[k].id == postId && (forall j :: 0 <= j < k ==> posts[j].id != postId) ==>
      r == if posts[k].title != [] then posts[k].title else UnknownPost
    ensures (forall k :: 0 <= k < |posts| ==> posts[k].id != postId) ==> r == UnknownPost
  {
    match Posts.Lookup(posts, postId)
    case Some(p) => if p.title != [] then p.title else UnknownPost
    case None => UnknownPost
  }

  const ChipLimit: nat := 6

  /** The active-category chips: at most six chips, and a "+N more" badge for the rest. */
  datatype Chips = Chips(shown: seq<Categories.Category>, more: Option<nat>)

  function ActiveChips(categories: seq<Categories.Category>): (r: Chips)
    ensures var active := Filter(categories, Categories.HasStatus(Categories.Active));
      |r.shown| == Min(ChipLimit, |active|) && r.shown == active[..|r.shown|]
      && (r.more.Some? <==> |active| > ChipLimit)
      && (r.more.Some? ==> |r.shown| + r.more.value == |active|)
    ensures forall c :: c in r.shown ==> c in categories && c.status == Categories.Active
  {
    var active := Filter(categories, Categories.HasStatus(Categories.Active));
    FilterMembers(categories, Categories.HasStatus(Categories.Active));
    var shown := active[..Min(ChipLimit, |active|)];
    assert forall c :: c in shown ==> c in active;
    Chips(shown, if |active| > ChipLimit then Some(|active| - ChipLimit) else None)
  }
}
