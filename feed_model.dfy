/** The records both feed backends keep in memory, and the list queries they share. */
module FeedModel {
  import opened Wrappers
  import Seqs

  /** A comment as stored: `created_at` is an opaque timestamp. */
  datatype Comment = Comment(id: int, postId: int, author: string, text: string, createdAt: int)

  /** A post as stored, with its own copy of the comments added to it. */
  datatype Post = Post(
    id: int,
    author: string,
    title: string,
    content: string,
    imageUrl: Option<string>,
    likes: int,
    createdAt: int,
    comments: seq<Comment>)

  /** How a handler fails: an HTTP error the framework reports with its status, or an
      uncaught exception (FastAPI answers 500). */
  datatype Failure = HttpError(status: int, detail: string) | Uncaught(message: string)

  /** The body of a `DELETE /posts/{id}` reply. */
  datatype DeleteReply = DeleteReply(ok: bool, error: Option<string>)

  const PostNotFound := "Post not found"

  /** Whether some post has this id (`any(p.id == post_id for p in posts)`). */
  predicate HasPost(posts: seq<Post>, id: int)
  {
    exists k :: 0 <= k < |posts| && posts[k].id == id
  }

  /** The index of the first post with this id, as a front-to-back search finds it. */
  function FindPost(posts: seq<Post>, id: int): (r: Option<nat>)
    ensures r.Some? ==> r.value < |posts| && posts[r.value].id == id
    ensures r.Some? ==> forall k :: 0 <= k < r.value ==> posts[k].id != id
    ensures r.None? <==> !HasPost(posts, id)
  {
    if posts == [] then None
    else if posts[0].id == id then Some(0)
    else
      match FindPost(posts[1..], id)
      case None => None
      case Some(k) => Some(k + 1)
  }

  /** With unique ids, the search finds exactly the post carrying the id. */
  lemma FindPostUnique(posts: seq<Post>, id: int, k: nat)
    requires k < |posts| && posts[k].id == id
    requires forall i, j :: 0 <= i < j < |posts| ==> posts[i].id != posts[j].id
    ensures FindPost(posts, id) == Some(k)
  {
  }

  /** `sorted(posts, key=lambda p: p.created_at, reverse=True)`: Python's sort is stable
      also in reverse mode, so this is the stable ascending sort on the negated time. */
  function NewestFirst(posts: seq<Post>): seq<Post>
  {
    Seqs.SortBy(posts, (p: Post) => -p.createdAt)
  }

  /** The listing is a permutation of the posts, newest first, and posts created at the
      same instant keep their insertion order. */
  lemma NewestFirstSpec(posts: seq<Post>, t: int)
    ensures multiset(NewestFirst(posts)) == multiset(posts)
    ensures forall i, j :: 0 <= i < j < |posts| ==> NewestFirst(posts)[i].createdAt >= NewestFirst(posts)[j].createdAt
    ensures Seqs.WithKey(NewestFirst(posts), (p: Post) => -p.createdAt, -t)
         == Seqs.WithKey(posts, (p: Post) => -p.createdAt, -t)
  {
    var key := (p: Post) => -p.createdAt;
    Seqs.SortBySorted(posts, key);
    Seqs.SortByStable(posts, key, -t);
  }

  /** Both backends' `GET /posts`: the posts copied into an array and sorted there. */
  method SortNewestFirst(posts: seq<Post>) returns (r: seq<Post>)
    ensures r == NewestFirst(posts)
  {
    var a := new Post[|posts|](i requires 0 <= i < |posts| => posts[i]);
    assert a[..] == posts;
    Seqs.SortInPlace(a, (p: Post) => -p.createdAt);
    r := a[..];
  }

  /** The comments on one post, in the order they were added. */
  function CommentsOn(comments: seq<Comment>, postId: int): seq<Comment>
  {
    Seqs.Filter(comments, (c: Comment) => c.postId == postId)
  }

  /** `[p for p in posts if p.id != post_id]` */
  function WithoutPost(posts: seq<Post>, id: int): seq<Post>
  {
    Seqs.Filter(posts, (p: Post) => p.id != id)
  }

  /** `[c for c in comments if c.post_id != post_id]` */
  function WithoutCommentsOn(comments: seq<Comment>, postId: int): seq<Comment>
  {
    Seqs.Filter(comments, (c: Comment) => c.postId != postId)
  }

  /** Appending a comment extends the list of exactly the post it names. */
  lemma CommentsOnAppend(comments: seq<Comment>, c: Comment, postId: int)
    ensures CommentsOn(comments + [c], postId)
         == CommentsOn(comments, postId) + (if c.postId == postId then [c] else [])
  {
    Seqs.FilterConcat(comments, [c], (x: Comment) => x.postId == postId);
  }

  /** Deleting the comments on one post leaves every other post's comments as they were. */
  lemma CommentsOnAfterCascade(comments: seq<Comment>, gone: int, postId: int)
    requires postId != gone
    ensures CommentsOn(WithoutCommentsOn(comments, gone), postId) == CommentsOn(comments, postId)
  {
    Seqs.FilterFilterImplied(comments, (c: Comment) => c.postId != gone, (c: Comment) => c.postId == postId);
  }

  /** After the cascade, no comment on the deleted post remains. */
  lemma CascadeRemovesAll(comments: seq<Comment>, gone: int)
    ensures CommentsOn(WithoutCommentsOn(comments, gone), gone) == []
  {
    Seqs.FilterKeepsNone(WithoutCommentsOn(comments, gone), (c: Comment) => c.postId == gone);
  }
}
