/** The simpler feed backend: the same lists and counters without a like map, images kept
    as local files served under `/static/`, no existence check on comments, and every
    "not found" raised as an uncaught exception. */
module CatApiFeed {
  import opened Wrappers
  import Strings
  import Seqs
  import opened FeedModel

  datatype Store = Store(posts: seq<Post>, comments: seq<Comment>, nextPostId: int, nextCommentId: int)

  /** The store after a handler, together with its reply. */
  datatype Step<R> = Step(store: Store, reply: R)

  /** What a delete answers, and the uploaded file it then tries to remove, if any. */
  datatype DeleteOutcome = DeleteOutcome(reply: DeleteReply, removedFile: Option<string>)

  const Initial := Store([], [], 1, 1)

  const StaticPrefix := "/static/"

  /** Post ids strictly increase along the list and stay below the counter. */
  predicate PostIdsBelow(posts: seq<Post>, next: int)
  {
    && (forall i, j :: 0 <= i < j < |posts| ==> posts[i].id < posts[j].id)
    && (forall i :: 0 <= i < |posts| ==> posts[i].id < next)
  }

  /** Comment ids strictly increase along the list and stay below the counter. */
  predicate CommentIdsBelow(comments: seq<Comment>, next: int)
  {
    && (forall i, j :: 0 <= i < j < |comments| ==> comments[i].id < comments[j].id)
    && (forall i :: 0 <= i < |comments| ==> comments[i].id < next)
  }

  /** Every comment a post carries names that post and is in the global list. */
  predicate PostCommentsListed(posts: seq<Post>, comments: seq<Comment>)
  {
    forall i, j :: 0 <= i < |posts| && 0 <= j < |posts[i].comments| ==>
      posts[i].comments[j].postId == posts[i].id && posts[i].comments[j] in comments
  }

  /** What this backend keeps: unique increasing ids below the counters, and every comment
      attached to a post also in the global list. Unlike the main backend, the global list
      may hold comments no post carries. */
  predicate Inv(st: Store)
  {
    && 1 <= st.nextPostId
    && 1 <= st.nextCommentId
    && PostIdsBelow(st.posts, st.nextPostId)
    && CommentIdsBelow(st.comments, st.nextCommentId)
    && PostCommentsListed(st.posts, st.comments)
  }

  /** `GET /posts` */
  function Listing(st: Store): seq<Post>
  {
    NewestFirst(st.posts)
  }

  /** `GET /posts/{post_id}`: the first post with the id; otherwise a `RuntimeError` escapes. */
  function Lookup(st: Store, id: int): (r: Result<Post, Failure>)
    ensures r.Ok? <==> HasPost(st.posts, id)
    ensures r.Ok? ==> r.value.id == id && r.value in st.posts
    ensures r.Err? ==> r.error == Uncaught(PostNotFound)
  {
    match FindPost(st.posts, id)
    case Some(k) => Ok(st.posts[k])
    case None => Err(Uncaught(PostNotFound))
  }

  /** Where an uploaded file is served from. */
  function ImageUrl(image: Option<string>): Option<string>
  {
    if image.Some? then Some(StaticPrefix + image.value) else None
  }

  /** `POST /posts`, given the name of the uploaded file, if one was sent. */
  function Created(st: Store, author: string, title: string, content: string, image: Option<string>, now: int): Step<Post>
  {
    var p := Post(st.nextPostId, author, title, content, ImageUrl(image), 0, now, []);
    Step(st.(posts := st.posts + [p], nextPostId := st.nextPostId + 1), p)
  }

  /** `POST /posts/{post_id}/like`: one more like on every call. */
  function Liked(st: Store, id: int): Step<Result<Post, Failure>>
  {
    match FindPost(st.posts, id)
    case None => Step(st, Err(Uncaught(PostNotFound)))
    case Some(k) =>
      var p := st.posts[k].(likes := st.posts[k].likes + 1);
      Step(st.(posts := st.posts[k := p]), Ok(p))
  }

  /** `POST /comments`: stored and counted whether or not the post exists. */
  function Commented(st: Store, postId: int, author: string, text: string, now: int): Step<Comment>
  {
    var c := Comment(st.nextCommentId, postId, author, text, now);
    var st' := st.(comments := st.comments + [c], nextCommentId := st.nextCommentId + 1);
    match FindPost(st.posts, postId)
    case None => Step(st', c)
    case Some(k) => Step(st'.(posts := st.posts[k := st.posts[k].(comments := st.posts[k].comments + [c])]), c)
  }

  /** The local file a delete removes for this image url: the url with every `/static/`
      taken out, when the url is set, non-empty and starts with `/static/`. */
  function StoredFilename(url: Option<string>): Option<string>
  {
    if url.Some? && url.value != "" && Strings.StartsWith(url.value, StaticPrefix) then
      Some(Strings.ReplaceAll(url.value, StaticPrefix, ""))
    else
      None
  }

  /** `DELETE /posts/{post_id}` */
  function Deleted(st: Store, id: int): Step<DeleteOutcome>
  {
    match FindPost(st.posts, id)
    case None => Step(st, DeleteOutcome(DeleteReply(false, Some(PostNotFound)), None))
    case Some(k) =>
      Step(st.(posts := WithoutPost(st.posts, id), comments := WithoutCommentsOn(st.comments, id)),
           DeleteOutcome(DeleteReply(true, None), StoredFilename(st.posts[k].imageUrl)))
  }

  // ---------------------------------------------------------------------------------------
  // Properties of the transitions

  lemma InitialInv()
    ensures Inv(Initial)
  {
  }

  /** A created post gets the counter's id, the counter moves on by one, the post goes at the
      end with no likes and no comments, and its image url is `/static/` and the file name
      exactly when a file was sent. */
  lemma CreatedSpec(st: Store, author: string, title: string, content: string, image: Option<string>, now: int)
    ensures var s := Created(st, author, title, content, image, now);
      && s.reply.id == st.nextPostId
      && s.reply.author == author && s.reply.title == title
      && s.reply.content == content && s.reply.createdAt == now
      && s.store.nextPostId == st.nextPostId + 1
      && s.store.posts == st.posts + [s.reply]
      && s.reply.likes == 0 && s.reply.comments == []
      && (image.None? <==> s.reply.imageUrl.None?)
      && (image.Some? ==> s.reply.imageUrl == Some("/static/" + image.value))
      && s.store.comments == st.comments && s.store.nextCommentId == st.nextCommentId
  {
  }

  lemma CreatedPreservesInv(st: Store, author: string, title: string, content: string, image: Option<string>, now: int)
    requires Inv(st)
    ensures Inv(Created(st, author, title, content, image, now).store)
  {
    var s := Created(st, author, title, content, image, now);
    assert forall i :: 0 <= i < |st.posts| ==> s.store.posts[i] == st.posts[i];
  }

  /** Every like counts, with no per-client check: a successful like adds exactly one to
      the post and changes no other post; an unknown id raises and changes nothing. */
  lemma LikedSpec(st: Store, id: int)
    ensures !HasPost(st.posts, id) ==> Liked(st, id) == Step(st, Err(Uncaught(PostNotFound)))
    ensures HasPost(st.posts, id) ==>
      var s := Liked(st, id);
      && s.reply == Ok(Lookup(st, id).value.(likes := Lookup(st, id).value.likes + 1))
      && |s.store.posts| == |st.posts|
      && (forall i :: 0 <= i < |st.posts| && i != FindPost(st.posts, id).value ==> s.store.posts[i] == st.posts[i])
      && s.store.posts == st.posts[FindPost(st.posts, id).value := s.reply.value]
      && s.store.comments == st.comments
      && s.store.nextPostId == st.nextPostId
      && s.store.nextCommentId == st.nextCommentId
  {
  }

  /** Liking twice adds two likes. */
  lemma LikedTwice(st: Store, id: int)
    requires HasPost(st.posts, id)
    ensures Liked(Liked(st, id).store, id).reply.Ok?
    ensures Liked(Liked(st, id).store, id).reply.value.likes == Lookup(st, id).value.likes + 2
  {
    var k := FindPost(st.posts, id).value;
    var s := Liked(st, id);
    assert forall m :: 0 <= m < |st.posts| ==> s.store.posts[m].id == st.posts[m].id;
    assert FindPost(s.store.posts, id) == Some(k);
  }

  lemma LikedPreservesInv(st: Store, id: int)
    requires Inv(st)
    ensures Inv(Liked(st, id).store)
  {
    var s := Liked(st, id);
    if FindPost(st.posts, id).None? {
      assert s.store == st;
    } else {
      var k := FindPost(st.posts, id).value;
      assert forall i :: 0 <= i < |st.posts| ==>
        s.store.posts[i].id == st.posts[i].id && s.store.posts[i].comments == st.posts[i].comments;
    }
  }

  /** A comment is always stored and always advances the counter, whether or not any post
      has its post id; the first post with that id, if there is one, is the only post that
      changes, and it gains the comment at the end. */
  lemma CommentedSpec(st: Store, postId: int, author: string, text: string, now: int)
    ensures var s := Commented(st, postId, author, text, now);
      && s.reply == Comment(st.nextCommentId, postId, author, text, now)
      && s.store.comments == st.comments + [s.reply]
      && s.store.nextCommentId == st.nextCommentId + 1
      && s.store.nextPostId == st.nextPostId
      && |s.store.posts| == |st.posts|
      && (!HasPost(st.posts, postId) ==> s.store.posts == st.posts)
      && (HasPost(st.posts, postId) ==>
            var k := FindPost(st.posts, postId).value;
            && s.store.posts[k] == st.posts[k].(comments := st.posts[k].comments + [s.reply])
            && forall i :: 0 <= i < |st.posts| && i != k ==> s.store.posts[i] == st.posts[i])
  {
  }

  lemma CommentedPreservesInv(st: Store, postId: int, author: string, text: string, now: int)
    requires Inv(st)
    ensures Inv(Commented(st, postId, author, text, now).store)
  {
    var s := Commented(st, postId, author, text, now);
    var c := s.reply;
    assert forall i :: 0 <= i < |st.comments| ==> s.store.comments[i] == st.comments[i];
    assert c in s.store.comments;
    if FindPost(st.posts, postId).Some? {
      var k := FindPost(st.posts, postId).value;
      assert forall i :: 0 <= i < |st.posts| ==> s.store.posts[i].id == st.posts[i].id;
      forall i, j | 0 <= i < |s.store.posts| && 0 <= j < |s.store.posts[i].comments|
        ensures s.store.posts[i].comments[j].postId == s.store.posts[i].id
        ensures s.store.posts[i].comments[j] in s.store.comments
      {
        if i == k && j == |st.posts[k].comments| {
          assert s.store.posts[i].comments[j] == c;
        } else {
          assert s.store.posts[i].comments[j] == st.posts[i].comments[j];
        }
      }
    }
  }

  /** Deleting an unknown id answers `ok: false` and changes nothing; otherwise the post and
      every comment naming it are gone, the other posts and comments stay in order, and the
      file removed is the one derived from the first matching post's image url. */
  lemma DeletedSpec(st: Store, id: int)
    ensures !HasPost(st.posts, id) ==>
      Deleted(st, id) == Step(st, DeleteOutcome(DeleteReply(false, Some(PostNotFound)), None))
    ensures HasPost(st.posts, id) ==>
      var s := Deleted(st, id);
      && s.reply.reply == DeleteReply(true, None)
      && s.reply.removedFile == StoredFilename(Lookup(st, id).value.imageUrl)
      && s.store.nextPostId == st.nextPostId && s.store.nextCommentId == st.nextCommentId
      && !HasPost(s.store.posts, id)
      && CommentsOn(s.store.comments, id) == []
      && s.store.posts == WithoutPost(st.posts, id)
      && (forall x :: x != id ==> CommentsOn(s.store.comments, x) == CommentsOn(st.comments, x))
  {
    if HasPost(st.posts, id) {
      CascadeRemovesAll(st.comments, id);
      forall x | x != id ensures CommentsOn(WithoutCommentsOn(st.comments, id), x) == CommentsOn(st.comments, x) {
        CommentsOnAfterCascade(st.comments, id, x);
      }
    }
  }

  lemma DeletedPreservesInv(st: Store, id: int)
    requires Inv(st)
    ensures Inv(Deleted(st, id).store)
  {
    var s := Deleted(st, id);
    if FindPost(st.posts, id).None? {
      assert s.store == st;
    } else {
      var posts', comments' := s.store.posts, s.store.comments;
      Seqs.FilterKeepsIncreasing(st.posts, (p: Post) => p.id != id, (p: Post) => p.id);
      Seqs.FilterKeepsIncreasing(st.comments, (c: Comment) => c.postId != id, (c: Comment) => c.id);
      forall i | 0 <= i < |posts'| ensures posts'[i].id < st.nextPostId {
        Seqs.FilterFrom(st.posts, (p: Post) => p.id != id, i);
      }
      forall i | 0 <= i < |comments'| ensures comments'[i].id < st.nextCommentId {
        Seqs.FilterFrom(st.comments, (c: Comment) => c.postId != id, i);
      }
      forall i, j | 0 <= i < |posts'| && 0 <= j < |posts'[i].comments|
        ensures posts'[i].comments[j].postId == posts'[i].id
        ensures posts'[i].comments[j] in comments'
      {
        Seqs.FilterFrom(st.posts, (p: Post) => p.id != id, i);
        var m :| 0 <= m < |st.posts| && st.posts[m] == posts'[i];
        var c := posts'[i].comments[j];
        var n :| 0 <= n < |st.comments| && st.comments[n] == c;
        Seqs.FilterKeeps(st.comments, (c: Comment) => c.postId != id, n);
      }
    }
  }

  /** Python's `replace` on a url that starts with the pattern takes that occurrence out
      and carries on with the rest. */
  lemma ReplaceAllPrefix(pat: string, s: string)
    requires pat != []
    ensures Strings.ReplaceAll(pat + s, pat, "") == Strings.ReplaceAll(s, pat, "")
  {
    assert Strings.StartsWith(pat + s, pat) by {
      assert (pat + s)[..|pat|] == pat;
    }
    assert (pat + s)[|pat|..] == s;
  }

  /** Round trip: for a file name with no `/static/` inside, the file a delete removes is
      the file the create stored. */
  lemma ImageFileRoundTrip(filename: string)
    requires !Strings.Includes(filename, StaticPrefix)
    ensures StoredFilename(ImageUrl(Some(filename))) == Some(filename)
  {
    assert Strings.StartsWith(StaticPrefix + filename, StaticPrefix) by {
      assert (StaticPrefix + filename)[..|StaticPrefix|] == StaticPrefix;
    }
    ReplaceAllPrefix(StaticPrefix, filename);
    Strings.ReplaceAllAbsent(filename, StaticPrefix, "");
  }

  /** A post without an uploaded file makes a delete remove nothing. */
  lemma NoImageNoRemoval()
    ensures StoredFilename(ImageUrl(None)) == None
  {
  }

  /** A comment sent for the id the next post will take, while no post has it, stays in the
      global list; the post then created with that id does not carry it, yet filters it as
      its comment, and deleting that post deletes the comment. */
  lemma OrphanCommentAdopted(st: Store, author: string, text: string, commentedAt: int,
                             postAuthor: string, title: string, content: string, image: Option<string>, postedAt: int)
    requires Inv(st)
    ensures var c := Commented(st, st.nextPostId, author, text, commentedAt);
      var s2 := Created(c.store, postAuthor, title, content, image, postedAt);
      && c.store.posts == st.posts
      && c.reply in c.store.comments
      && s2.reply.id == st.nextPostId
      && s2.reply.comments == []
      && s2.store.posts == st.posts + [s2.reply]
      && c.reply in CommentsOn(s2.store.comments, st.nextPostId)
      && c.reply !in Deleted(s2.store, st.nextPostId).store.comments
  {
    var x := st.nextPostId;
    assert !HasPost(st.posts, x);
    var c := Commented(st, x, author, text, commentedAt);
    assert c.store.comments == st.comments + [c.reply];
    Seqs.FilterKeeps(c.store.comments, (d: Comment) => d.postId == x, |st.comments|);
    var s2 := Created(c.store, postAuthor, title, content, image, postedAt);
    assert HasPost(s2.store.posts, x) by {
      assert s2.store.posts[|st.posts|].id == x;
    }
  }

  // ---------------------------------------------------------------------------------------
  // The server

  class CatFeedServer {
    var posts: seq<Post>
    var comments: seq<Comment>
    var postIdCounter: int
    var commentIdCounter: int

    function Snapshot(): Store
      reads this
    {
      Store(posts, comments, postIdCounter, commentIdCounter)
    }

    predicate Valid()
      reads this
    {
      Inv(Snapshot())
    }

    constructor ()
      ensures Snapshot() == Initial
      ensures Valid()
    {
      posts, comments := [], [];
      postIdCounter, commentIdCounter := 1, 1;
    }

    method ListPosts() returns (r: seq<Post>)
      ensures r == Listing(Snapshot())
    {
      r := SortNewestFirst(posts);
    }

    method GetPost(id: int) returns (r: Result<Post, Failure>)
      ensures r == Lookup(Snapshot(), id)
    {
      for i := 0 to |posts|
        invariant forall m :: 0 <= m < i ==> posts[m].id != id
      {
        if posts[i].id == id {
          return Ok(posts[i]);
        }
      }
      return Err(Uncaught(PostNotFound));
    }

    method CreatePost(author: string, title: string, content: string, image: Option<string>, now: int)
      returns (r: Post)
      requires Valid()
      modifies this
      ensures Step(Snapshot(), r) == Created(old(Snapshot()), author, title, content, image, now)
      ensures Valid()
    {
      CreatedPreservesInv(Snapshot(), author, title, content, image, now);
      var url := None;
      if image.Some? {
        url := Some(StaticPrefix + image.value);
      }
      r := Post(postIdCounter, author, title, content, url, 0, now, []);
      postIdCounter := postIdCounter + 1;
      posts := posts + [r];
    }

    method LikePost(id: int) returns (r: Result<Post, Failure>)
      requires Valid()
      modifies this
      ensures Step(Snapshot(), r) == Liked(old(Snapshot()), id)
      ensures Valid()
    {
      LikedPreservesInv(Snapshot(), id);
      for i := 0 to |posts|
        invariant forall m :: 0 <= m < i ==> posts[m].id != id
      {
        if posts[i].id == id {
          posts := posts[i := posts[i].(likes := posts[i].likes + 1)];
          return Ok(posts[i]);
        }
      }
      return Err(Uncaught(PostNotFound));
    }

    method AddComment(postId: int, author: string, text: string, now: int) returns (r: Comment)
      requires Valid()
      modifies this
      ensures Step(Snapshot(), r) == Commented(old(Snapshot()), postId, author, text, now)
      ensures Valid()
    {
      CommentedPreservesInv(Snapshot(), postId, author, text, now);
      r := Comment(commentIdCounter, postId, author, text, now);
      commentIdCounter := commentIdCounter + 1;
      comments := comments + [r];
      for i := 0 to |posts|
        invariant posts == old(posts)
        invariant forall m :: 0 <= m < i ==> posts[m].id != postId
      {
        if posts[i].id == postId {
          posts := posts[i := posts[i].(comments := posts[i].comments + [r])];
          return;
        }
      }
    }

    method DeletePost(id: int) returns (r: DeleteOutcome)
      requires Valid()
      modifies this
      ensures Step(Snapshot(), r) == Deleted(old(Snapshot()), id)
      ensures Valid()
    {
      DeletedPreservesInv(Snapshot(), id);
      var target: Option<Post> := None;
      for i := 0 to |posts|
        invariant forall m :: 0 <= m < i ==> posts[m].id != id
      {
        if posts[i].id == id {
          target := Some(posts[i]);
          assert FindPost(posts, id) == Some(i);
          break;
        }
      }
      if target.None? {
        return DeleteOutcome(DeleteReply(false, Some(PostNotFound)), None);
      }
      var removed := StoredFilename(target.value.imageUrl);
      posts := WithoutPost(posts, id);
      comments := WithoutCommentsOn(comments, id);
      return DeleteOutcome(DeleteReply(true, None), removed);
    }
  }
}
