/** The post store (`PostProvider`): an in-memory list of posts, newest first, seeded with three
    posts. Unlike the other two stores it is never mirrored to `localStorage`, so the class below has
    no storage field, and a post has no `content`. */
module Posts {
  import opened Lists
  import opened Text
  import Clock

  datatype PostStatus = Published | Draft

  /** The status as the string the pages compare filters against. */
  function StatusName(s: PostStatus): string
  {
    match s
    case Published => "Published"
    case Draft => "Draft"
  }

  /** `date` is the instant of the `YYYY-MM-DD` string, midnight UTC of the creation day. */
  datatype Post = Post(id: string, title: string, author: string, date: int, status: PostStatus)

  /** What callers supply to `addPost` and `updatePost`: `Omit<Post, 'id' | 'date'>`. */
  datatype PostFields = PostFields(title: string, author: string, status: PostStatus)

  function PostTime(p: Post): int { p.date }

  function PostId(p: Post): string { p.id }

  function SeedPosts(): seq<Post>
  {
    [ Post("1", "Building a Blog with Next.js", "Oussama", Clock.Utc(2025, 7, 14, 0, 0, 0), Published),
      Post("2", "Understanding React Server Components", "Oussama", Clock.Utc(2025, 7, 10, 0, 0, 0), Draft),
      Post("3", "Styling with Tailwind CSS", "Oussama", Clock.Utc(2025, 7, 12, 0, 0, 0), Published) ]
  }

  ghost predicate UniqueIds(posts: seq<Post>)
  {
    forall i, j :: 0 <= i < j < |posts| ==> posts[i].id != posts[j].id
  }

  /** `addPost`: prepends a post whose id is the decimal form of the new length and whose date is
      the current UTC day; the given fields are taken as they are. */
  function Added(posts: seq<Post>, f: PostFields, now: nat): (r: seq<Post>)
    ensures |r| == |posts| + 1 && r[1..] == posts
    ensures r[0].title == f.title && r[0].author == f.author && r[0].status == f.status
    ensures r[0].id == NatToString(|r|)
    ensures r[0].date == Clock.DayStart(now) && r[0].date <= now < r[0].date + Clock.MillisPerDay
  {
    [Post(NatToString(|posts| + 1), f.title, f.author, Clock.DayStart(now), f.status)] + posts
  }

  function IdIsNot(id: string): Post -> bool
  {
    (p: Post) => p.id != id
  }

  /** `deletePost`: every post with that id is dropped, the others keep their order. */
  function Deleted(posts: seq<Post>, id: string): (r: seq<Post>)
    ensures forall p :: p in r <==> p in posts && p.id != id
    ensures forall p :: multiset(r)[p] == if p.id != id then multiset(posts)[p] else 0
    ensures SubsequenceOf(r, posts)
    ensures (forall i :: 0 <= i < |posts| ==> posts[i].id != id) ==> r == posts
  {
    FilterMultiset(posts, IdIsNot(id));
    FilterMembers(posts, IdIsNot(id));
    FilterSubsequence(posts, IdIsNot(id));
    Filter(posts, IdIsNot(id))
  }

  function Merge(p: Post, f: PostFields): Post
  {
    p.(title := f.title, author := f.author, status := f.status)
  }

  /** `updatePost`: shallow merge over every post with that id; id and date are kept. */
  function Updated(posts: seq<Post>, id: string, f: PostFields): (r: seq<Post>)
    ensures |r| == |posts|
    ensures forall i :: 0 <= i < |posts| ==> r[i].id == posts[i].id && r[i].date == posts[i].date
    ensures forall i :: 0 <= i < |posts| && posts[i].id == id ==>
      r[i].title == f.title && r[i].author == f.author && r[i].status == f.status
    ensures forall i :: 0 <= i < |posts| && posts[i].id != id ==> r[i] == posts[i]
  {
    MapWhere(posts, (p: Post) => p.id == id, (p: Post) => Merge(p, f))
  }

  /** `getPost`: the first post in list order with that id. */
  function Lookup(posts: seq<Post>, id: string): (r: Option<Post>)
    ensures r.None? <==> forall i :: 0 <= i < |posts| ==> posts[i].id != id
    ensures r.Some? ==> r.value.id == id
    ensures r.Some? ==>
      exists k :: 0 <= k < |posts| && posts[k] == r.value && (forall j :: 0 <= j < k ==> posts[j].id != id)
  {
    Find(posts, (p: Post) => p.id == id)
  }

  /** `posts.filter(post => post.status === st).length`. */
  function HasStatus(st: PostStatus): Post -> bool
  {
    (p: Post) => p.status == st
  }

  /** The status as the listing page's filter compares it. */
  function StatusOf(p: Post): string { StatusName(p.status) }

  /** `posts.filter(post => post.status === st).length`. */
  function CountWithStatus(posts: seq<Post>, st: PostStatus): nat
  {
    Count(posts, HasStatus(st))
  }

  /** Every post is either published or a draft. */
  lemma {:induction false} StatusCountsPartition(posts: seq<Post>)
    ensures CountWithStatus(posts, Published) + CountWithStatus(posts, Draft) == |posts|
  {
    if posts != [] {
      StatusCountsPartition(posts[1..]);
    }
  }

  /** With unique ids, deleting a present id removes exactly that post. */
  lemma DeleteRemovesOne(posts: seq<Post>, k: nat)
    requires UniqueIds(posts) && k < |posts|
    ensures Deleted(posts, posts[k].id) == posts[..k] + posts[k + 1..]
  {
    FilterDropsOne(posts, IdIsNot(posts[k].id), k);
  }

  /** Updating never touches ids, so unique ids stay unique. */
  lemma UpdateKeepsIdsUnique(posts: seq<Post>, id: string, f: PostFields)
    requires UniqueIds(posts)
    ensures UniqueIds(Updated(posts, id, f))
  {
  }

  /** Deleting keeps unique ids unique. */
  lemma DeleteKeepsIdsUnique(posts: seq<Post>, id: string)
    requires UniqueIds(posts)
    ensures UniqueIds(Deleted(posts, id))
  {
    assert DistinctBy(posts, PostId);
    FilterKeepsDistinct(posts, IdIsNot(id), PostId);
  }

  /** Adding keeps ids unique only when the new id is not already taken. */
  lemma AddKeepsIdsUnique(posts: seq<Post>, f: PostFields, now: nat)
    requires UniqueIds(posts)
    requires forall p :: p in posts ==> p.id != NatToString(|posts| + 1)
    ensures UniqueIds(Added(posts, f, now))
  {
    var r := Added(posts, f, now);
    forall i, j | 0 <= i < j < |r| ensures r[i].id != r[j].id {
      if i == 0 {
        assert r[j] == posts[j - 1];
      } else {
        assert r[i] == posts[i - 1] && r[j] == posts[j - 1];
      }
    }
  }

  /** The seed's ids, in order. */
  lemma SeedIds()
    ensures var seed := SeedPosts();
      |seed| == 3 && seed[0].id == "1" && seed[1].id == "2" && seed[2].id == "3"
  {
  }

  /** The seed's ids are unique. */
  lemma SeedIdsUnique()
    ensures UniqueIds(SeedPosts())
  {
    SeedIds();
  }

  /** Deleting an id that only the first post has drops exactly that post. */
  lemma DeleteOnlyFirst(posts: seq<Post>, id: string)
    requires posts != [] && posts[0].id == id
    requires forall i :: 1 <= i < |posts| ==> posts[i].id != id
    ensures Deleted(posts, id) == posts[1..]
  {
    var tail := posts[1..];
    assert posts == [posts[0]] + tail;
    FilterCons(posts[0], tail, IdIsNot(id));
    assert Deleted(tail, id) == tail;
  }

  /** Deleting "1" from the seed leaves its last two posts. */
  lemma SeedWithoutFirst()
    ensures Deleted(SeedPosts(), "1") == SeedPosts()[1..]
  {
    SeedIds();
    DeleteOnlyFirst(SeedPosts(), "1");
  }

  /** Adding to a two-post list whose last id is "3" repeats the id "3". */
  lemma AddRepeatsThree(posts: seq<Post>, f: PostFields, now: nat)
    requires |posts| == 2 && posts[1].id == "3"
    ensures var after := Added(posts, f, now);
      |after| == 3 && after[0].id == "3" && after[2].id == "3" && !UniqueIds(after)
  {
    var after := Added(posts, f, now);
    assert after[0].id == NatToString(3) == "3";
    assert after[2] == posts[1];
  }

  /** Ids are not unique in general: from the seed, deleting "1" and adding a post gives two "3"s. */
  lemma PostIdCollision(f: PostFields, now: nat)
    ensures var after := Added(Deleted(SeedPosts(), "1"), f, now);
      |after| == 3 && after[0].id == "3" && after[2].id == "3" && !UniqueIds(after)
  {
    SeedIds();
    SeedWithoutFirst();
    AddRepeatsThree(SeedPosts()[1..], f, now);
  }

  /** Adding to the seed puts the new post first of four. */
  lemma SeedAddScenario(now: nat)
    ensures var r := Added(SeedPosts(), PostFields("X", "A", Draft), now);
      |r| == 4 && r[0].title == "X" && r[0].status == Draft
  {
    SeedIds();
  }

  /** In three posts with distinct ids, deleting the middle id leaves the outer two. */
  lemma DeleteMiddleOfThree(posts: seq<Post>)
    requires |posts| == 3 && UniqueIds(posts)
    ensures Deleted(posts, posts[1].id) == [posts[0], posts[2]]
  {
    DeleteRemovesOne(posts, 1);
    assert posts[..1] + posts[2..] == [posts[0], posts[2]];
  }

  /** Deleting "2" from the seed leaves its first and last post. */
  lemma SeedDeleteScenario()
    ensures Deleted(SeedPosts(), "2") == [SeedPosts()[0], SeedPosts()[2]]
  {
    SeedIds();
    SeedIdsUnique();
    DeleteMiddleOfThree(SeedPosts());
  }

  /** Adding to the seed: the new post is first and the list has four posts. Deleting "2" from the
      seed leaves the first and the last post. */
  lemma SeedScenarios(now: nat)
    ensures var r := Added(SeedPosts(), PostFields("X", "A", Draft), now);
      |r| == 4 && r[0].title == "X" && r[0].status == Draft
    ensures Deleted(SeedPosts(), "2") == [SeedPosts()[0], SeedPosts()[2]]
  {
    SeedAddScenario(now);
    SeedDeleteScenario();
  }

  /** The post store: its list, updated by the three mutators, and sorted in place by the dashboard. */
  class PostStore {
    var posts: seq<Post>

    constructor ()
      ensures posts == SeedPosts()
    {
      posts := SeedPosts();
    }

    method AddPost(f: PostFields, now: nat)
      modifies this
      ensures posts == Added(old(posts), f, now)
    {
      posts := Added(posts, f, now);
    }

    method DeletePost(id: string)
      modifies this
      ensures posts == Deleted(old(posts), id)
    {
      posts := Deleted(posts, id);
    }

    method UpdatePost(id: string, f: PostFields)
      modifies this
      ensures posts == Updated(old(posts), id, f)
    {
      posts := Updated(posts, id, f);
    }

    /** `posts.sort((a, b) => time(b.date) - time(a.date))` on the store's own array. */
    method SortByDate()
      modifies this
      ensures posts == SortDesc(old(posts), PostTime)
      ensures multiset(posts) == multiset(old(posts)) && SortedDesc(posts, PostTime)
    {
      posts := SortDesc(posts, PostTime);
    }
  }
}
