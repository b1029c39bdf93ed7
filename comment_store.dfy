/** The comment store (`CommentProvider`): a list of comments, newest first, hydrated from the
    `blog-cms-comments` slot of `localStorage` (or a seven-comment seed) and written back to that
    slot after every change. */
module Comments {
  import opened Lists
  import opened Text
  import opened Storage
  import Clock

  datatype CommentStatus = Pending | Approved | Rejected

  function StatusName(s: CommentStatus): string
  {
    match s
    case Pending => "pending"
    case Approved => "approved"
    case Rejected => "rejected"
  }

  /** `createdAt` is the instant of the ISO timestamp, in milliseconds. */
  datatype Comment = Comment(id: string, postId: string, author: string, content: string,
                             status: CommentStatus, createdAt: int)

  /** What callers supply to `addComment` and `updateComment`: `Omit<Comment, 'id' | 'createdAt'>`. */
  datatype CommentFields = CommentFields(postId: string, author: string, content: string, status: CommentStatus)

  const StorageKey: string := "blog-cms-comments"

  function CommentTime(c: Comment): int { c.createdAt }

  /** The seed's comment texts, by comment id (written as short pieces joined together, which keeps
      the literals cheap for the verifier). */
  function SeedContent(n: nat): string
  {
    match n
    case 1 => "Great article! I really " + "enjoyed reading about Next.js " + "features. The explanation of " + "server-side rendering was " + "particularly helpful."
    case 2 => "Thanks for sharing this. " + "Could you write more about " + "the app router? I'm still " + "getting confused between " + "pages and app router."
    case 3 => "This is exactly what I was " + "looking for! React Server " + "Components seem powerful but " + "complex."
    case 4 => "Tailwind CSS has been a game " + "changer for my workflow. Love " + "the utility-first approach!"
    case 5 => "This article is terrible and " + "completely wrong. Next.js is " + "overrated."
    case 6 => "Could you provide some " + "practical examples? The " + "theory is good but I need to " + "see it in action."
    case 7 => "I've been using Bootstrap for " + "years. Should I really switch " + "to Tailwind? What are the " + "main benefits?"
    case _ => ""
  }

  function SeedComments(): seq<Comment>
  {
    [ Comment("1", "1", "Ahmed Hassan", SeedContent(1), Approved, Clock.Utc(2025, 7, 15, 10, 30, 0)),
      Comment("2", "1", "Sarah Johnson", SeedContent(2), Approved, Clock.Utc(2025, 7, 15, 14, 20, 0)),
      Comment("3", "2", "Mike Chen", SeedContent(3), Pending, Clock.Utc(2025, 7, 16, 9, 15, 0)),
      Comment("4", "3", "Lisa Rodriguez", SeedContent(4), Approved, Clock.Utc(2025, 7, 16, 16, 45, 0)),
      Comment("5", "1", "Anonymous User", SeedContent(5), Rejected, Clock.Utc(2025, 7, 17, 8, 30, 0)),
      Comment("6", "2", "David Kim", SeedContent(6), Pending, Clock.Utc(2025, 7, 17, 12, 0, 0)),
      Comment("7", "3", "Emma Thompson", SeedContent(7), Approved, Clock.Utc(2025, 7, 17, 20, 15, 0)) ]
  }

  ghost predicate UniqueIds(comments: seq<Comment>)
  {
    forall i, j :: 0 <= i < j < |comments| ==> comments[i].id != comments[j].id
  }

  /** `addComment`: prepends one comment whose id is `String(now)` and whose creation time is `now`;
      post, author, content and status are the caller's (the status is not defaulted). */
  function Added(comments: seq<Comment>, f: CommentFields, now: nat): (r: seq<Comment>)
    ensures |r| == |comments| + 1 && r[1..] == comments
    ensures r[0].id == NatToString(now) && r[0].createdAt == now
    ensures r[0].postId == f.postId && r[0].author == f.author && r[0].content == f.content
    ensures r[0].status == f.status
  {
    [Comment(NatToString(now), f.postId, f.author, f.content, f.status, now)] + comments
  }

  function IdIsNot(id: string): Comment -> bool
  {
    (c: Comment) => c.id != id
  }

  function OnPost(postId: string): Comment -> bool
  {
    (c: Comment) => c.postId == postId
  }

  /** `deleteComment`: every comment with that id is dropped, the rest keep their order. */
  function Deleted(comments: seq<Comment>, id: string): (r: seq<Comment>)
    ensures forall c :: multiset(r)[c] == if c.id != id then multiset(comments)[c] else 0
    ensures SubsequenceOf(r, comments)
    ensures (forall i :: 0 <= i < |comments| ==> comments[i].id != id) ==> r == comments
  {
    FilterMultiset(comments, IdIsNot(id));
    FilterSubsequence(comments, IdIsNot(id));
    Filter(comments, IdIsNot(id))
  }

  function Merge(c: Comment, f: CommentFields): Comment
  {
    c.(postId := f.postId, author := f.author, content := f.content, status := f.status)
  }

  /** `updateComment`: shallow merge over every comment with that id; id and creation time kept. */
  function Updated(comments: seq<Comment>, id: string, f: CommentFields): (r: seq<Comment>)
    ensures |r| == |comments|
    ensures forall i :: 0 <= i < |comments| ==> r[i].id == comments[i].id && r[i].createdAt == comments[i].createdAt
    ensures forall i :: 0 <= i < |comments| && comments[i].id == id ==>
      r[i].postId == f.postId && r[i].author == f.author && r[i].content == f.content && r[i].status == f.status
    ensures forall i :: 0 <= i < |comments| && comments[i].id != id ==> r[i] == comments[i]
  {
    MapWhere(comments, (c: Comment) => c.id == id, (c: Comment) => Merge(c, f))
  }

  /** `updateCommentStatus`: only the status of the comments with that id changes. */
  function StatusSet(comments: seq<Comment>, id: string, st: CommentStatus): (r: seq<Comment>)
    ensures |r| == |comments|
    ensures forall i :: 0 <= i < |comments| ==>
      r[i] == if comments[i].id == id then comments[i].(status := st) else comments[i]
  {
    MapWhere(comments, (c: Comment) => c.id == id, (c: Comment) => c.(status := st))
  }

  /** `getComment`: the first comment in list order with that id. */
  function Lookup(comments: seq<Comment>, id: string): (r: Option<Comment>)
    ensures r.None? <==> forall i :: 0 <= i < |comments| ==> comments[i].id != id
    ensures r.Some? ==> r.value.id == id
    ensures r.Some? ==>
      exists k :: 0 <= k < |comments| && comments[k] == r.value && (forall j :: 0 <= j < k ==> comments[j].id != id)
  {
    Find(comments, (c: Comment) => c.id == id)
  }

  /** `getCommentsByPost`: exactly the comments on that post, in stored order. */
  function ByPost(comments: seq<Comment>, postId: string): (r: seq<Comment>)
    ensures forall c :: multiset(r)[c] == if c.postId == postId then multiset(comments)[c] else 0
    ensures forall c :: c in r <==> c in comments && c.postId == postId
    ensures SubsequenceOf(r, comments)
  {
    FilterMultiset(comments, OnPost(postId));
    FilterMembers(comments, OnPost(postId));
    FilterSubsequence(comments, OnPost(postId));
    Filter(comments, OnPost(postId))
  }

  /** `comments.filter(comment => comment.status === st).length`. */
  function HasStatus(st: CommentStatus): Comment -> bool
  {
    (c: Comment) => c.status == st
  }

  /** The status as the listing page's filter compares it. */
  function StatusOf(c: Comment): string { StatusName(c.status) }

  /** `comments.filter(comment => comment.status === st).length`. */
  function CountWithStatus(comments: seq<Comment>, st: CommentStatus): nat
  {
    Count(comments, HasStatus(st))
  }

  /** Every comment is pending, approved or rejected. */
  lemma {:induction false} StatusCountsPartition(comments: seq<Comment>)
    ensures CountWithStatus(comments, Pending) + CountWithStatus(comments, Approved)
      + CountWithStatus(comments, Rejected) == |comments|
  {
    if comments != [] {
      StatusCountsPartition(comments[1..]);
    }
  }

  /** Adding a comment puts it in front of its own post's list and leaves the others alone. */
  lemma ByPostAfterAdd(comments: seq<Comment>, f: CommentFields, now: nat, postId: string)
    ensures var r := Added(comments, f, now);
      ByPost(r, postId) == (if f.postId == postId then [r[0]] else []) + ByPost(comments, postId)
  {
    FilterCons(Added(comments, f, now)[0], comments, OnPost(postId));
  }

  /** Seven comments on posts "1", "1", "2", "3", "1", "2", "3" give post "1" the first, second
      and fifth. */
  lemma ByPostOfSeven(s: seq<Comment>)
    requires |s| == 7
    requires s[0].postId == "1" && s[1].postId == "1" && s[2].postId == "2" && s[3].postId == "3"
    requires s[4].postId == "1" && s[5].postId == "2" && s[6].postId == "3"
    ensures Filter(s, OnPost("1")) == [s[0], s[1], s[4]]
  {
    var k := OnPost("1");
    assert Filter(s[3..], k) == [s[4]] by {
      FilterFrom(s, k, 6);
      FilterFrom(s, k, 5);
      FilterFrom(s, k, 4);
      FilterFrom(s, k, 3);
      assert s[7..] == [];
    }
    FilterFrom(s, k, 2);
    FilterFrom(s, k, 1);
    FilterFrom(s, k, 0);
    assert s[0..] == s;
  }

  /** The seed's ids and post ids, in order. */
  lemma SeedShape()
    ensures var s := SeedComments();
      && |s| == 7 && s[0].id == "1" && s[1].id == "2" && s[4].id == "5"
      && s[0].postId == "1" && s[1].postId == "1" && s[2].postId == "2" && s[3].postId == "3"
      && s[4].postId == "1" && s[5].postId == "2" && s[6].postId == "3"
  {
  }

  /** On the seed, post "1" has the comments "1", "2" and "5", in that order. */
  lemma SeedCommentsOnFirstPost()
    ensures var r := ByPost(SeedComments(), "1");
      |r| == 3 && r[0].id == "1" && r[1].id == "2" && r[2].id == "5"
  {
    SeedShape();
    ByPostOfSeven(SeedComments());
    assert ByPost(SeedComments(), "1") == Filter(SeedComments(), OnPost("1"));
  }

  /** Deleting and then listing a post's comments is listing and then deleting. */
  lemma ByPostAfterDelete(comments: seq<Comment>, id: string, postId: string)
    ensures ByPost(Deleted(comments, id), postId) == Deleted(ByPost(comments, postId), id)
  {
    FilterCommutes(comments, IdIsNot(id), OnPost(postId));
  }

  /** A new comment keeps ids unique exactly when its clock value is not already an id. */
  lemma AddKeepsIdsUnique(comments: seq<Comment>, f: CommentFields, now: nat)
    requires UniqueIds(comments)
    ensures UniqueIds(Added(comments, f, now)) <==> forall c :: c in comments ==> c.id != NatToString(now)
  {
    var r := Added(comments, f, now);
    if forall c :: c in comments ==> c.id != NatToString(now) {
      forall i, j | 0 <= i < j < |r| ensures r[i].id != r[j].id {
        if i == 0 {
          assert r[j] == comments[j - 1];
        } else {
          assert r[i] == comments[i - 1] && r[j] == comments[j - 1];
        }
      }
    } else {
      var c :| c in comments && c.id == NatToString(now);
      var k :| 0 <= k < |comments| && comments[k] == c;
      assert r[k + 1] == c;
    }
  }

  /** Two comments added at different clock values get different ids. */
  lemma DistinctClocksDistinctIds(comments: seq<Comment>, f: CommentFields, g: CommentFields, t1: nat, t2: nat)
    requires t1 != t2
    ensures Added(Added(comments, f, t1), g, t2)[0].id != Added(Added(comments, f, t1), g, t2)[1].id
  {
    NatToStringInjective(t1, t2);
  }

  /** The comment store, its list and the `localStorage` slots it reads and writes. */
  class CommentStore {
    var comments: seq<Comment>
    var slots: Slots<seq<Comment>>
    const hasWindow: bool

    /** The sync effect's guarantee: the slot holds exactly the current list. */
    ghost predicate Mirrored()
      reads this
    {
      hasWindow ==> StorageKey in slots && slots[StorageKey] == Json(comments)
    }

    /** Hydration (`useState(loadCommentsFromStorage)`) followed by the first run of the sync effect. */
    constructor (hasWindow: bool, stored: Slots<seq<Comment>>)
      ensures this.hasWindow == hasWindow
      ensures comments == Load(hasWindow, stored, StorageKey, SeedComments())
      ensures slots == Save(hasWindow, stored, StorageKey, comments)
      ensures Mirrored()
    {
      this.hasWindow := hasWindow;
      new;
      comments := Load(hasWindow, stored, StorageKey, SeedComments());
      slots := Save(hasWindow, stored, StorageKey, comments);
    }

    method AddComment(f: CommentFields, now: nat)
      modifies this
      ensures comments == Added(old(comments), f, now)
      ensures slots == Save(hasWindow, old(slots), StorageKey, comments) && Mirrored()
    {
      comments := Added(comments, f, now);
      slots := Save(hasWindow, slots, StorageKey, comments);
    }

    method DeleteComment(id: string)
      modifies this
      ensures comments == Deleted(old(comments), id)
      ensures slots == Save(hasWindow, old(slots), StorageKey, comments) && Mirrored()
    {
      comments := Deleted(comments, id);
      slots := Save(hasWindow, slots, StorageKey, comments);
    }

    method UpdateComment(id: string, f: CommentFields)
      modifies this
      ensures comments == Updated(old(comments), id, f)
      ensures slots == Save(hasWindow, old(slots), StorageKey, comments) && Mirrored()
    {
      comments := Updated(comments, id, f);
      slots := Save(hasWindow, slots, StorageKey, comments);
    }

    method UpdateCommentStatus(id: string, st: CommentStatus)
      modifies this
      ensures comments == StatusSet(old(comments), id, st)
      ensures slots == Save(hasWindow, old(slots), StorageKey, comments) && Mirrored()
    {
      comments := StatusSet(comments, id, st);
      slots := Save(hasWindow, slots, StorageKey, comments);
    }

    /** The dashboard's `comments.sort(...)` reorders the held array without a state update, so
        the sync effect does not run: the slot keeps the previous order. */
    method SortByCreated()
      modifies this
      ensures comments == SortDesc(old(comments), CommentTime)
      ensures multiset(comments) == multiset(old(comments)) && SortedDesc(comments, CommentTime)
      ensures slots == old(slots)
    {
      comments := SortDesc(comments, CommentTime);
    }
  }
}
