/** The comments page: the post-title dictionary, the status filter, the status colours, the
    header counts and the two row actions. */
module CommentsPage {
  import opened Lists
  import Posts
  import Comments
  import Dashboard

  /** The dictionary `postTitleMap` ends up as: each post in list order writes its title under its
      id, so a later post overwrites an earlier one with the same id. */
  function TitlesOf(posts: seq<Posts.Post>): map<string, string>
    decreases |posts|
  {
    if posts == [] then map[]
    else
      var last := posts[|posts| - 1];
      TitlesOf(posts[..|posts| - 1])[last.id := last.title]
  }

  /** `postTitleMap`, built entry by entry as `reduce` does. */
  method PostTitleMap(posts: seq<Posts.Post>) returns (titles: map<string, string>)
    ensures titles == TitlesOf(posts)
    ensures forall id :: id in titles <==> exists k :: 0 <= k < |posts| && posts[k].id == id
    ensures forall k :: 0 <= k < |posts| && (forall j :: k < j < |posts| ==> posts[j].id != posts[k].id) ==>
      posts[k].id in titles && titles[posts[k].id] == posts[k].title
  {
    titles := map[];
    for i := 0 to |posts|
      invariant titles == TitlesOf(posts[..i])
    {
      assert posts[..i + 1][..i] == posts[..i];
      titles := titles[posts[i].id := posts[i].title];
    }
    assert posts[..|posts|] == posts;
    TitlesOfKeys(posts);
    TitlesOfLastWins(posts);
  }

  /** The dictionary's keys are the post ids. */
  lemma {:induction false} TitlesOfKeys(posts: seq<Posts.Post>)
    ensures forall id :: id in TitlesOf(posts) <==> exists k :: 0 <= k < |posts| && posts[k].id == id
    decreases |posts|
  {
    if posts != [] {
      var init, last := posts[..|posts| - 1], posts[|posts| - 1];
      TitlesOfKeys(init);
      assert TitlesOf(posts) == TitlesOf(init)[last.id := last.title];
      forall id | id in TitlesOf(posts)
        ensures exists k :: 0 <= k < |posts| && posts[k].id == id
      {
        if id != posts[|posts| - 1].id {
          var k :| 0 <= k < |init| && init[k].id == id;
          assert posts[k] == init[k];
        }
      }
      forall id | exists k :: 0 <= k < |posts| && posts[k].id == id
        ensures id in TitlesOf(posts)
      {
        var k :| 0 <= k < |posts| && posts[k].id == id;
        if k < |init| {
          assert init[k] == posts[k];
        }
      }
    }
  }

  /** Under every id the dictionary holds the title of the last post with that id. */
  lemma {:induction false} TitlesOfLastWins(posts: seq<Posts.Post>)
    ensures forall k :: 0 <= k < |posts| && (forall j :: k < j < |posts| ==> posts[j].id != posts[k].id) ==>
      posts[k].id in TitlesOf(posts) && TitlesOf(posts)[posts[k].id] == posts[k].title
    decreases |posts|
  {
    if posts != [] {
      var init := posts[..|posts| - 1];
      TitlesOfLastWins(init);
      forall k | 0 <= k < |posts| && (forall j :: k < j < |posts| ==> posts[j].id != posts[k].id)
        ensures posts[k].id in TitlesOf(posts) && TitlesOf(posts)[posts[k].id] == posts[k].title
      {
        if k < |init| {
          assert posts[|posts| - 1].id != posts[k].id;
          assert init[k] == posts[k];
          assert forall j :: k < j < |init| ==> init[j] == posts[j];
        }
      }
    }
  }

  /** `postTitleMap[postId] || 'Unknown Post'`. */
  function DisplayTitle(titles: map<string, string>, postId: string): (r: string)
    ensures r != []
    ensures postId !in titles ==> r == Dashboard.UnknownPost
    ensures postId in titles && titles[postId] != [] ==> r == titles[postId]
    ensures postId in titles && titles[postId] == [] ==> r == Dashboard.UnknownPost
  {
    if postId in titles && titles[postId] != [] then titles[postId] else Dashboard.UnknownPost
  }

  /** When post ids are unique, the comments page and the dashboard show the same title for a
      post (the last post with an id is then also the first). */
  lemma TitlesAgree(posts: seq<Posts.Post>, postId: string)
    requires Posts.UniqueIds(posts)
    ensures DisplayTitle(TitlesOf(posts), postId) == Dashboard.PostTitle(posts, postId)
  {
    TitlesOfKeys(posts);
    TitlesOfLastWins(posts);
    if k :| 0 <= k < |posts| && posts[k].id == postId {
      assert forall j :: 0 <= j < |posts| && j != k ==> posts[j].id != postId;
    }
  }

  /** `filteredComments`. */
  function Filtered(comments: seq<Comments.Comment>, statusFilter: string): (r: seq<Comments.Comment>)
    ensures statusFilter == "all" ==> r == comments
    ensures statusFilter != "all" ==>
      (forall c :: c in r <==> c in comments && Comments.StatusName(c.status) == statusFilter) && SubsequenceOf(r, comments)
  {
    StatusFilter(comments, statusFilter, Comments.StatusOf)
  }

  /** Filtering on a status shows as many rows as the header counts for it. */
  lemma FilteredMatchesCount(comments: seq<Comments.Comment>, st: Comments.CommentStatus)
    ensures |Filtered(comments, Comments.StatusName(st))| == Comments.CountWithStatus(comments, st)
  {
    FilterSameTest(comments, NameIs(Comments.StatusOf, Comments.StatusName(st)), Comments.HasStatus(st));
  }

  /** The header: the three per-status counts add up to the total. */
  lemma HeaderCountsAddUp(comments: seq<Comments.Comment>)
    ensures |Filtered(comments, "pending")| + |Filtered(comments, "approved")| + |Filtered(comments, "rejected")| == |comments|
  {
    FilteredMatchesCount(comments, Comments.Pending);
    FilteredMatchesCount(comments, Comments.Approved);
    FilteredMatchesCount(comments, Comments.Rejected);
    Comments.StatusCountsPartition(comments);
  }

  const Green: string := "bg-green-100 text-green-800"
  const Yellow: string := "bg-yellow-100 text-yellow-800"
  const Red: string := "bg-red-100 text-red-800"
  const Gray: string := "bg-gray-100 text-gray-800"

  /** `getStatusColor`: each comment status has its own colour, anything else is gray. */
  function StatusColor(status: string): (r: string)
    ensures r == Gray <==> status != "approved" && status != "pending" && status != "rejected"
  {
    if status == "approved" then Green
    else if status == "pending" then Yellow
    else if status == "rejected" then Red
    else Gray
  }

  /** Different statuses are shown in different colours. */
  lemma ColorsTellStatusesApart(a: Comments.CommentStatus, b: Comments.CommentStatus)
    ensures StatusColor(Comments.StatusName(a)) == StatusColor(Comments.StatusName(b)) <==> a == b
  {
  }

  /** `handleStatusChange` on a row: the row's own id goes to `updateCommentStatus`. */
  method HandleStatusChange(store: Comments.CommentStore, row: Comments.Comment, st: Comments.CommentStatus)
    modifies store
    ensures store.comments == Comments.StatusSet(old(store.comments), row.id, st)
    ensures store.Mirrored()
  {
    store.UpdateCommentStatus(row.id, st);
  }

  /** `handleDelete` on a row: the row's own id goes to `deleteComment`, so the row is gone. */
  method HandleDelete(store: Comments.CommentStore, row: Comments.Comment)
    modifies store
    ensures store.comments == Comments.Deleted(old(store.comments), row.id)
    ensures row !in store.comments && store.Mirrored()
  {
    store.DeleteComment(row.id);
  }
}
