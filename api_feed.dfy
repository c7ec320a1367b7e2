/** The social feed of the main backend: module-level lists of posts and comments, two id
    counters, and a map from post id to the client ids that liked it. The handlers are
    specified by pure transitions on a `Store` value; `FeedServer` performs them on its
    fields, and the lemmas prove what the transitions keep and promise. */
module ApiFeed {
  import opened Wrappers
  import Seqs
  import opened FeedModel

  /** Everything the handlers read and write. */
  datatype Store = Store(
    posts: seq<Post>,
    comments: seq<Comment>,
    nextPostId: int,
    nextCommentId: int,
    likeMap: map<int, set<string>>)

  /** The store after a handler, together with its reply. */
  datatype Step<R> = Step(store: Store, reply: R)

  /** What became of the optional image attached to a new post: none was sent, the object
      store gave back its public url, or the upload raised with this message. */
  datatype Upload = NoImage | Uploaded(publicUrl: string) | UploadFailed(reason: string)

  /** The state at start-up. */
  const Initial := Store([], [], 1, 1, map[])

  const MissingClientId := "missing X-Client-Id header"

  /** The clients that liked a post; a post with no entry has none. */
  function Likers(likeMap: map<int, set<string>>, id: int): set<string>
  {
    if id in likeMap then likeMap[id] else {}
  }

  /** Post ids strictly increase along the list (so they are unique) and stay below the counter. */
  predicate PostIdsBelow(posts: seq<Post>, next: int)
  {
    && (forall i, j :: 0 <= i < j < |posts| ==> posts[i].id < posts[j].id)
    && (forall i :: 0 <= i < |posts| ==> posts[i].id < next)
  }

  /** Comment ids strictly increase along the list and stay below the counter. */
  predicate CommentIdsBelow(comments: seq<Comment>, next: int)
  {
    && (forall i, j :: 0 <= i < j < |comments| ==> comments[i].id < comments[j].id)
    && (forall i :: 0 <= i < |comments| ==> comments[i].id < next)
  }

  /** No comment outlives its post. */
  predicate CommentsHavePosts(comments: seq<Comment>, posts: seq<Post>)
  {
    forall i :: 0 <= i < |comments| ==> HasPost(posts, comments[i].postId)
  }

  /** Each post's own comment list is the global list restricted to it, in order. */
  predicate CommentsAgree(posts: seq<Post>, comments: seq<Comment>)
  {
    forall i :: 0 <= i < |posts| ==> posts[i].comments == CommentsOn(comments, posts[i].id)
  }

  /** A post's like count is the number of distinct clients that liked it. */
  predicate LikesAgree(posts: seq<Post>, likeMap: map<int, set<string>>)
  {
    forall i :: 0 <= i < |posts| ==> posts[i].likes == |Likers(likeMap, posts[i].id)|
  }

  /** The like map only has entries for posts that exist. */
  predicate LikeKeysArePosts(likeMap: map<int, set<string>>, posts: seq<Post>)
  {
    forall id :: id in likeMap ==> HasPost(posts, id)
  }

  /** The invariant every handler keeps: counters ahead of every id handed out, ids strictly
      increasing (hence unique), no comment without its post, per-post comments agreeing
      with the global list, and like counts agreeing with the like map. */
  predicate Inv(st: Store)
  {
    && 1 <= st.nextPostId
    && 1 <= st.nextCommentId
    && PostIdsBelow(st.posts, st.nextPostId)
    && CommentIdsBelow(st.comments, st.nextCommentId)
    && CommentsHavePosts(st.comments, st.posts)
    && CommentsAgree(st.posts, st.comments)
    && LikesAgree(st.posts, st.likeMap)
    && LikeKeysArePosts(st.likeMap, st.posts)
  }

  /** `GET /posts` */
  function Listing(st: Store): seq<Post>
  {
    NewestFirst(st.posts)
  }

  /** `GET /posts/{post_id}`: the first post with the id, or 404. */
  function Lookup(st: Store, id: int): (r: Result<Post, Failure>)
    ensures r.Ok? <==> HasPost(st.posts, id)
    ensures r.Ok? ==> r.value.id == id && r.value in st.posts
    ensures r.Err? ==> r.error == HttpError(404, PostNotFound)
  {
    match FindPost(st.posts, id)
    case Some(k) => Ok(st.posts[k])
    case None => Err(HttpError(404, PostNotFound))
  }

  /** `POST /posts` (the upload itself is an input). */
  function Created(st: Store, author: string, title: string, content: string, upload: Upload, now: int): Step<Result<Post, Failure>>
  {
    if upload.UploadFailed? then
      Step(st, Err(HttpError(500, "upload_image_failed: " + upload.reason)))
    else
      var url := if upload.Uploaded? then Some(upload.publicUrl) else None;
      var p := Post(st.nextPostId, author, title, content, url, 0, now, []);
      Step(st.(posts := st.posts + [p], nextPostId := st.nextPostId + 1), Ok(p))
  }

  /** `POST /posts/{post_id}/like` with the `X-Client-Id` header, absent or present. A repeat
      like leaves the map as it was: `setdefault` finds the client's non-empty set there. */
  function Liked(st: Store, id: int, client: Option<string>): Step<Result<Post, Failure>>
  {
    if client.None? || client.value == "" then
      Step(st, Err(HttpError(400, MissingClientId)))
    else
      match FindPost(st.posts, id)
      case None => Step(st, Err(HttpError(404, PostNotFound)))
      case Some(k) =>
        var liked := Likers(st.likeMap, id);
        if client.value in liked then Step(st, Ok(st.posts[k]))
        else
          var p := st.posts[k].(likes := st.posts[k].likes + 1);
          Step(st.(posts := st.posts[k := p], likeMap := st.likeMap[id := liked + {client.value}]), Ok(p))
  }

  /** `POST /comments` */
  function Commented(st: Store, postId: int, author: string, text: string, now: int): Step<Result<Comment, Failure>>
  {
    match FindPost(st.posts, postId)
    case None => Step(st, Err(HttpError(404, PostNotFound)))
    case Some(k) =>
      var c := Comment(st.nextCommentId, postId, author, text, now);
      var p := st.posts[k].(comments := st.posts[k].comments + [c]);
      Step(st.(posts := st.posts[k := p], comments := st.comments + [c], nextCommentId := st.nextCommentId + 1), Ok(c))
  }

  /** `DELETE /posts/{post_id}`: the post, its comments and its like entry all go. */
  function Deleted(st: Store, id: int): Step<DeleteReply>
  {
    if !HasPost(st.posts, id) then
      Step(st, DeleteReply(false, Some(PostNotFound)))
    else
      Step(st.(posts := WithoutPost(st.posts, id),
               comments := WithoutCommentsOn(st.comments, id),
               likeMap := st.likeMap - {id}),
           DeleteReply(true, None))
  }

  /** `GET /places`: the endpoint is a placeholder whose body returns `[]`, so the
      contract is only that the answer is empty. */
  function ListPlaces<T>(): (r: seq<T>)
    ensures |r| == 0
  {
    []
  }

  // ---------------------------------------------------------------------------------------
  // Properties of the transitions

  lemma InitialInv()
    ensures Inv(Initial)
  {
  }

  /** Appending a post with the next id keeps ids increasing, every reference to an old
      post valid, and (given the new post's own counts) the agreement with the lists. */
  lemma AppendPostKeeps(st: Store, p: Post)
    requires PostIdsBelow(st.posts, st.nextPostId) && p.id == st.nextPostId
    requires CommentsHavePosts(st.comments, st.posts) && LikeKeysArePosts(st.likeMap, st.posts)
    requires CommentsAgree(st.posts, st.comments) && LikesAgree(st.posts, st.likeMap)
    requires p.comments == CommentsOn(st.comments, p.id) && p.likes == |Likers(st.likeMap, p.id)|
    ensures PostIdsBelow(st.posts + [p], st.nextPostId + 1)
    ensures CommentsHavePosts(st.comments, st.posts + [p]) && LikeKeysArePosts(st.likeMap, st.posts + [p])
    ensures CommentsAgree(st.posts + [p], st.comments) && LikesAgree(st.posts + [p], st.likeMap)
  {
    var posts' := st.posts + [p];
    assert forall i :: 0 <= i < |st.posts| ==> posts'[i] == st.posts[i];
    forall x | HasPost(st.posts, x) ensures HasPost(posts', x) {
      var m :| 0 <= m < |st.posts| && st.posts[m].id == x;
      assert posts'[m].id == x;
    }
  }

  /** Replacing a post by one with the same id keeps the ids and every reference valid. */
  lemma UpdateKeepsRefs(posts: seq<Post>, k: nat, p: Post, next: int, comments: seq<Comment>, likeMap: map<int, set<string>>)
    requires k < |posts| && p.id == posts[k].id
    requires PostIdsBelow(posts, next) && CommentsHavePosts(comments, posts) && LikeKeysArePosts(likeMap, posts)
    ensures PostIdsBelow(posts[k := p], next)
    ensures CommentsHavePosts(comments, posts[k := p]) && LikeKeysArePosts(likeMap, posts[k := p])
  {
    var posts' := posts[k := p];
    assert forall i :: 0 <= i < |posts| ==> posts'[i].id == posts[i].id;
    forall x | HasPost(posts, x) ensures HasPost(posts', x) {
      var m :| 0 <= m < |posts| && posts[m].id == x;
      assert posts'[m].id == x;
    }
  }

  /** Replacing a post by one with the same id and the same comments keeps the comment agreement. */
  lemma UpdateKeepsCommentsAgree(posts: seq<Post>, k: nat, p: Post, comments: seq<Comment>)
    requires k < |posts| && p.id == posts[k].id && p.comments == posts[k].comments
    requires CommentsAgree(posts, comments)
    ensures CommentsAgree(posts[k := p], comments)
  {
    assert forall i :: 0 <= i < |posts| && i != k ==> posts[k := p][i] == posts[i];
  }

  /** Replacing a post by one with the same id and the same likes keeps the like agreement. */
  lemma UpdateKeepsLikesAgree(posts: seq<Post>, k: nat, p: Post, likeMap: map<int, set<string>>)
    requires k < |posts| && p.id == posts[k].id && p.likes == posts[k].likes
    requires LikesAgree(posts, likeMap)
    ensures LikesAgree(posts[k := p], likeMap)
  {
    assert forall i :: 0 <= i < |posts| && i != k ==> posts[k := p][i] == posts[i];
  }

  /** No stored comment and no like entry names the id the post counter hands out next. */
  lemma FreshIdUnused(st: Store)
    requires PostIdsBelow(st.posts, st.nextPostId)
    requires CommentsHavePosts(st.comments, st.posts)
    requires LikeKeysArePosts(st.likeMap, st.posts)
    ensures CommentsOn(st.comments, st.nextPostId) == []
    ensures st.nextPostId !in st.likeMap
  {
    forall i | 0 <= i < |st.comments| ensures st.comments[i].postId != st.nextPostId {
      assert HasPost(st.posts, st.comments[i].postId);
      var k :| 0 <= k < |st.posts| && st.posts[k].id == st.comments[i].postId;
    }
    Seqs.FilterKeepsNone(st.comments, (c: Comment) => c.postId == st.nextPostId);
  }

  lemma CreatedPreservesInv(st: Store, author: string, title: string, content: string, upload: Upload, now: int)
    requires Inv(st)
    ensures Inv(Created(st, author, title, content, upload, now).store)
  {
    var s := Created(st, author, title, content, upload, now);
    if upload.UploadFailed? {
      assert s.store == st;
    } else {
      FreshIdUnused(st);
      assert Likers(st.likeMap, st.nextPostId) == {};
      AppendPostKeeps(st, s.reply.value);
    }
  }

  /** A created post gets the counter's value as its id, the counter moves on by one, the
      post goes at the end with no likes and no comments, and nothing else changes; a failed
      upload answers 500 and changes nothing. */
  lemma CreatedSpec(st: Store, author: string, title: string, content: string, upload: Upload, now: int)
    ensures var s := Created(st, author, title, content, upload, now);
      if upload.UploadFailed? then s.store == st && s.reply.Err? && s.reply.error.status == 500
      else
        && s.reply.Ok?
        && s.reply.value.id == st.nextPostId
        && s.reply.value.author == author && s.reply.value.title == title
        && s.reply.value.content == content && s.reply.value.createdAt == now
        && s.reply.value.likes == 0 && s.reply.value.comments == []
        && s.reply.value.imageUrl == (if upload.Uploaded? then Some(upload.publicUrl) else None)
        && s.store.posts == st.posts + [s.reply.value]
        && s.store.nextPostId == st.nextPostId + 1
        && s.store.comments == st.comments && s.store.nextCommentId == st.nextCommentId
        && s.store.likeMap == st.likeMap
  {
  }

  /** Round trip: the post a create returns is what a lookup of its id then returns. */
  lemma CreatedThenLookup(st: Store, author: string, title: string, content: string, upload: Upload, now: int)
    requires Inv(st)
    requires !upload.UploadFailed?
    ensures var s := Created(st, author, title, content, upload, now);
      s.reply.Ok? && Lookup(s.store, s.reply.value.id) == s.reply
  {
    var s := Created(st, author, title, content, upload, now);
    CreatedPreservesInv(st, author, title, content, upload, now);
    FindPostUnique(s.store.posts, s.reply.value.id, |st.posts|);
  }

  /** The like counts after a first like by a client: one more for the liked post, the same
      for every other post, whose ids differ. */
  lemma LikeCountsAfterFirstLike(posts: seq<Post>, likeMap: map<int, set<string>>, k: nat, client: string, next: int)
    requires k < |posts|
    requires PostIdsBelow(posts, next)
    requires LikesAgree(posts, likeMap)
    requires client !in Likers(likeMap, posts[k].id)
    ensures var id := posts[k].id;
      LikesAgree(posts[k := posts[k].(likes := posts[k].likes + 1)], likeMap[id := Likers(likeMap, id) + {client}])
  {
    var id := posts[k].id;
    var posts' := posts[k := posts[k].(likes := posts[k].likes + 1)];
    var likeMap' := likeMap[id := Likers(likeMap, id) + {client}];
    assert |Likers(likeMap, id) + {client}| == |Likers(likeMap, id)| + 1;
    forall i | 0 <= i < |posts'| ensures posts'[i].likes == |Likers(likeMap', posts'[i].id)| {
      if i != k {
        assert posts[i].id != id;
        assert Likers(likeMap', posts[i].id) == Likers(likeMap, posts[i].id);
      }
    }
  }

  lemma LikedPreservesInv(st: Store, id: int, client: Option<string>)
    requires Inv(st)
    ensures Inv(Liked(st, id, client).store)
  {
    var s := Liked(st, id, client);
    if client.None? || client.value == "" || FindPost(st.posts, id).None? {
      assert s.store == st;
    } else {
      var k := FindPost(st.posts, id).value;
      if client.value in Likers(st.likeMap, id) {
        assert s.store == st;
      } else {
        var p := st.posts[k].(likes := st.posts[k].likes + 1);
        var likeMap' := st.likeMap[id := Likers(st.likeMap, id) + {client.value}];
        assert s.store == st.(posts := st.posts[k := p], likeMap := likeMap');
        UpdateKeepsRefs(st.posts, k, p, st.nextPostId, st.comments, st.likeMap);
        UpdateKeepsCommentsAgree(st.posts, k, p, st.comments);
        LikeCountsAfterFirstLike(st.posts, st.likeMap, k, client.value, st.nextPostId);
        assert LikeKeysArePosts(likeMap', st.posts[k := p]) by {
          assert st.posts[k := p][k].id == id;
        }
      }
    }
  }

  /** A like without a usable client id answers 400, a like of a missing post answers 404,
      and neither changes the store. */
  lemma LikedRejects(st: Store, id: int, client: Option<string>)
    ensures client.None? || client == Some("") ==>
      Liked(st, id, client) == Step(st, Err(HttpError(400, MissingClientId)))
    ensures client.Some? && client.value != "" && !HasPost(st.posts, id) ==>
      Liked(st, id, client) == Step(st, Err(HttpError(404, PostNotFound)))
  {
  }

  /** A successful like leaves the client among the post's likers and adds one like exactly
      when the client had not liked it before, so the count is the number of likers. */
  lemma LikedCounts(st: Store, id: int, client: Option<string>)
    requires Inv(st)
    requires client.Some? && client.value != "" && HasPost(st.posts, id)
    ensures var s := Liked(st, id, client);
      && s.reply.Ok? && s.reply.value.id == id
      && Likers(s.store.likeMap, id) == Likers(st.likeMap, id) + {client.value}
      && s.reply.value.likes == |Likers(s.store.likeMap, id)|
      && s.reply.value.likes == Lookup(st, id).value.likes + (if client.value in Likers(st.likeMap, id) then 0 else 1)
    ensures var s := Liked(st, id, client);
      && s.reply.Ok?
      && s.reply.value == Lookup(st, id).value.(likes := s.reply.value.likes)
      && s.store.posts == st.posts[FindPost(st.posts, id).value := s.reply.value]
      && s.store.comments == st.comments
      && s.store.nextPostId == st.nextPostId
      && s.store.nextCommentId == st.nextCommentId
      && (forall j :: j != id ==> Likers(s.store.likeMap, j) == Likers(st.likeMap, j))
  {
    var k := FindPost(st.posts, id).value;
    if client.value in Likers(st.likeMap, id) {
      assert Likers(st.likeMap, id) + {client.value} == Likers(st.likeMap, id);
    } else {
      assert |Likers(st.likeMap, id) + {client.value}| == |Likers(st.likeMap, id)| + 1;
    }
  }

  /** Liking twice from the same client is liking once: the second call changes nothing
      and returns the same post. */
  lemma LikedIdempotent(st: Store, id: int, client: Option<string>)
    requires Liked(st, id, client).reply.Ok?
    ensures var s := Liked(st, id, client);
      Liked(s.store, id, client) == Step(s.store, s.reply)
  {
    var s := Liked(st, id, client);
    var k := FindPost(st.posts, id).value;
    assert forall m :: 0 <= m < |st.posts| ==> s.store.posts[m].id == st.posts[m].id;
    assert FindPost(s.store.posts, id) == Some(k);
  }

  /** Appending a comment on an existing post with the next comment id keeps the comment
      ids increasing and every comment attached to a post. */
  lemma AppendCommentKeeps(comments: seq<Comment>, c: Comment, next: int, posts: seq<Post>)
    requires CommentIdsBelow(comments, next) && c.id == next
    requires CommentsHavePosts(comments, posts) && HasPost(posts, c.postId)
    ensures CommentIdsBelow(comments + [c], next + 1)
    ensures CommentsHavePosts(comments + [c], posts)
  {
    assert forall i :: 0 <= i < |comments| ==> (comments + [c])[i] == comments[i];
  }

  /** Appending a comment to the global list and to the list of the one post it names keeps
      every post's list equal to its filter of the global list. */
  lemma AppendCommentAgree(posts: seq<Post>, k: nat, c: Comment, comments: seq<Comment>, next: int)
    requires k < |posts| && posts[k].id == c.postId
    requires PostIdsBelow(posts, next) && CommentsAgree(posts, comments)
    ensures CommentsAgree(posts[k := posts[k].(comments := posts[k].comments + [c])], comments + [c])
  {
    var posts' := posts[k := posts[k].(comments := posts[k].comments + [c])];
    forall i | 0 <= i < |posts'| ensures posts'[i].comments == CommentsOn(comments + [c], posts'[i].id) {
      CommentsOnAppend(comments, c, posts[i].id);
      if i != k {
        assert posts[i].id != c.postId;
      }
    }
  }

  lemma CommentedPreservesInv(st: Store, postId: int, author: string, text: string, now: int)
    requires Inv(st)
    ensures Inv(Commented(st, postId, author, text, now).store)
  {
    if FindPost(st.posts, postId).None? {
      assert Commented(st, postId, author, text, now).store == st;
    } else {
      var k := FindPost(st.posts, postId).value;
      var c := Comment(st.nextCommentId, postId, author, text, now);
      var p := st.posts[k].(comments := st.posts[k].comments + [c]);
      UpdateKeepsRefs(st.posts, k, p, st.nextPostId, st.comments, st.likeMap);
      assert HasPost(st.posts[k := p], postId) by {
        assert st.posts[k := p][k].id == postId;
      }
      AppendCommentKeeps(st.comments, c, st.nextCommentId, st.posts[k := p]);
      AppendCommentAgree(st.posts, k, c, st.comments, st.nextPostId);
      UpdateKeepsLikesAgree(st.posts, k, p, st.likeMap);
    }
  }

  /** A comment on a missing post answers 404 and changes neither list nor counter. */
  lemma CommentedRejects(st: Store, postId: int, author: string, text: string, now: int)
    requires !HasPost(st.posts, postId)
    ensures Commented(st, postId, author, text, now) == Step(st, Err(HttpError(404, PostNotFound)))
  {
  }

  /** A comment on an existing post gets the counter's id, is appended to the global list
      and to that post's list, which then equals the global list filtered by the post; no
      other post changes. */
  lemma CommentedSpec(st: Store, postId: int, author: string, text: string, now: int)
    requires Inv(st)
    requires HasPost(st.posts, postId)
    ensures var s := Commented(st, postId, author, text, now);
      && s.reply.Ok?
      && s.reply.value == Comment(st.nextCommentId, postId, author, text, now)
      && s.store.comments == st.comments + [s.reply.value]
      && s.store.nextCommentId == st.nextCommentId + 1
      && s.store.nextPostId == st.nextPostId
      && s.store.likeMap == st.likeMap
      && |s.store.posts| == |st.posts|
      && (forall i :: 0 <= i < |st.posts| && st.posts[i].id != postId ==> s.store.posts[i] == st.posts[i])
      && (forall i :: 0 <= i < |st.posts| && st.posts[i].id == postId ==>
            s.store.posts[i] == st.posts[i].(comments := st.posts[i].comments + [s.reply.value]))
      && (forall i :: 0 <= i < |st.posts| && st.posts[i].id == postId ==>
            s.store.posts[i].comments == CommentsOn(s.store.comments, postId))
  {
    var k := FindPost(st.posts, postId).value;
    var s := Commented(st, postId, author, text, now);
    forall i | 0 <= i < |st.posts| && st.posts[i].id != postId ensures s.store.posts[i] == st.posts[i] {
      assert i != k;
    }
    forall i | 0 <= i < |st.posts| && st.posts[i].id == postId
      ensures s.store.posts[i].comments == CommentsOn(s.store.comments, postId)
    {
      assert i == k;
      CommentsOnAppend(st.comments, s.reply.value, postId);
    }
  }

  /** The posts that survive a delete are old posts with another id, ids still increasing. */
  lemma DeletedKeepsPosts(st: Store, id: int)
    requires PostIdsBelow(st.posts, st.nextPostId)
    ensures PostIdsBelow(WithoutPost(st.posts, id), st.nextPostId)
    ensures forall x :: x != id && HasPost(st.posts, x) ==> HasPost(WithoutPost(st.posts, id), x)
  {
    var posts' := WithoutPost(st.posts, id);
    Seqs.FilterKeepsIncreasing(st.posts, (p: Post) => p.id != id, (p: Post) => p.id);
    forall i | 0 <= i < |posts'| ensures posts'[i].id < st.nextPostId {
      Seqs.FilterFrom(st.posts, (p: Post) => p.id != id, i);
    }
    forall x | x != id && HasPost(st.posts, x) ensures HasPost(posts', x) {
      var m :| 0 <= m < |st.posts| && st.posts[m].id == x;
      Seqs.FilterKeeps(st.posts, (p: Post) => p.id != id, m);
    }
  }

  /** The cascade keeps the surviving comments' ids increasing and attached to surviving posts. */
  lemma DeletedKeepsComments(st: Store, id: int)
    requires CommentIdsBelow(st.comments, st.nextCommentId)
    requires CommentsHavePosts(st.comments, st.posts)
    requires forall x :: x != id && HasPost(st.posts, x) ==> HasPost(WithoutPost(st.posts, id), x)
    ensures CommentIdsBelow(WithoutCommentsOn(st.comments, id), st.nextCommentId)
    ensures CommentsHavePosts(WithoutCommentsOn(st.comments, id), WithoutPost(st.posts, id))
  {
    var comments' := WithoutCommentsOn(st.comments, id);
    Seqs.FilterKeepsIncreasing(st.comments, (c: Comment) => c.postId != id, (c: Comment) => c.id);
    forall i | 0 <= i < |comments'|
      ensures comments'[i].id < st.nextCommentId
      ensures HasPost(WithoutPost(st.posts, id), comments'[i].postId)
    {
      Seqs.FilterFrom(st.comments, (c: Comment) => c.postId != id, i);
      var m :| 0 <= m < |st.comments| && st.comments[m] == comments'[i];
    }
  }

  /** The surviving posts still agree with the surviving comments and the reduced like map. */
  lemma DeletedKeepsAgreement(st: Store, id: int)
    requires CommentsAgree(st.posts, st.comments) && LikesAgree(st.posts, st.likeMap)
    ensures CommentsAgree(WithoutPost(st.posts, id), WithoutCommentsOn(st.comments, id))
    ensures LikesAgree(WithoutPost(st.posts, id), st.likeMap - {id})
  {
    var posts' := WithoutPost(st.posts, id);
    forall i | 0 <= i < |posts'|
      ensures posts'[i].comments == CommentsOn(WithoutCommentsOn(st.comments, id), posts'[i].id)
      ensures posts'[i].likes == |Likers(st.likeMap - {id}, posts'[i].id)|
    {
      Seqs.FilterFrom(st.posts, (p: Post) => p.id != id, i);
      var m :| 0 <= m < |st.posts| && st.posts[m] == posts'[i];
      CommentsOnAfterCascade(st.comments, id, posts'[i].id);
    }
  }

  lemma DeletedPreservesInv(st: Store, id: int)
    requires Inv(st)
    ensures Inv(Deleted(st, id).store)
  {
    if !HasPost(st.posts, id) {
      assert Deleted(st, id).store == st;
    } else {
      DeletedKeepsPosts(st, id);
      DeletedKeepsComments(st, id);
      DeletedKeepsAgreement(st, id);
    }
  }

  /** Deleting an unknown id answers `ok: false` and changes nothing; deleting a post removes
      it, every comment on it and its like entry, keeps the other posts in order, and keeps
      every other post's comments. */
  lemma DeletedSpec(st: Store, id: int)
    ensures !HasPost(st.posts, id) ==> Deleted(st, id) == Step(st, DeleteReply(false, Some(PostNotFound)))
    ensures HasPost(st.posts, id) ==>
      var s := Deleted(st, id);
      && s.reply == DeleteReply(true, None)
      && !HasPost(s.store.posts, id)
      && CommentsOn(s.store.comments, id) == []
      && id !in s.store.likeMap
      && (forall j :: j != id ==> Likers(s.store.likeMap, j) == Likers(st.likeMap, j))
      && s.store.nextPostId == st.nextPostId && s.store.nextCommentId == st.nextCommentId
      && s.store.posts == WithoutPost(st.posts, id)
      && (forall i :: 0 <= i < |st.posts| && st.posts[i].id != id ==> st.posts[i] in s.store.posts)
      && (forall x :: x != id ==> CommentsOn(s.store.comments, x) == CommentsOn(st.comments, x))
  {
    if HasPost(st.posts, id) {
      CascadeRemovesAll(st.comments, id);
      forall i | 0 <= i < |st.posts| && st.posts[i].id != id ensures st.posts[i] in WithoutPost(st.posts, id) {
        Seqs.FilterKeeps(st.posts, (p: Post) => p.id != id, i);
      }
      forall x | x != id ensures CommentsOn(WithoutCommentsOn(st.comments, id), x) == CommentsOn(st.comments, x) {
        CommentsOnAfterCascade(st.comments, id, x);
      }
    }
  }

  /** The listing is a permutation of the posts in descending creation order. */
  lemma ListingSpec(st: Store)
    ensures multiset(Listing(st)) == multiset(st.posts)
    ensures forall i, j :: 0 <= i < j < |st.posts| ==> Listing(st)[i].createdAt >= Listing(st)[j].createdAt
  {
    NewestFirstSpec(st.posts, 0);
  }

  // ---------------------------------------------------------------------------------------
  // The server: the module-level variables as fields, one method per handler.

  class FeedServer {
    var posts: seq<Post>
    var comments: seq<Comment>
    var postIdCounter: int
    var commentIdCounter: int
    var likeMap: map<int, set<string>>

    function Snapshot(): Store
      reads this
    {
      Store(posts, comments, postIdCounter, commentIdCounter, likeMap)
    }

    predicate Valid()
      reads this
    {
      Inv(Snapshot())
    }

    constructor ()
      ensures Snapshot() == Initial
      ensures Valid()
    {
      posts, comments := [], [];
      postIdCounter, commentIdCounter := 1, 1;
      likeMap := map[];
    }

    /** `next((p for p in posts if p.id == post_id), None)`, as an index. */
    method FindIndex(id: int) returns (r: Option<nat>)
      ensures r == FindPost(posts, id)
    {
      for i := 0 to |posts|
        invariant forall m :: 0 <= m < i ==> posts[m].id != id
      {
        if posts[i].id == id {
          return Some(i);
        }
      }
      return None;
    }

    method ListPosts() returns (r: seq<Post>)
      ensures r == Listing(Snapshot())
    {
      r := SortNewestFirst(posts);
    }

    method GetPost(id: int) returns (r: Result<Post, Failure>)
      ensures r == Lookup(Snapshot(), id)
    {
      for i := 0 to |posts|
        invariant forall m :: 0 <= m < i ==> posts[m].id != id
      {
        if posts[i].id == id {
          return Ok(posts[i]);
        }
      }
      return Err(HttpError(404, PostNotFound));
    }

    method CreatePost(author: string, title: string, content: string, upload: Upload, now: int)
      returns (r: Result<Post, Failure>)
      requires Valid()
      modifies this
      ensures Step(Snapshot(), r) == Created(old(Snapshot()), author, title, content, upload, now)
      ensures Valid()
    {
      CreatedPreservesInv(Snapshot(), author, title, content, upload, now);
      if upload.UploadFailed? {
        return Err(HttpError(500, "upload_image_failed: " + upload.reason));
      }
      var url := if upload.Uploaded? then Some(upload.publicUrl) else None;
      var p := Post(postIdCounter, author, title, content, url, 0, now, []);
      postIdCounter := postIdCounter + 1;
      posts := posts + [p];
      return Ok(p);
    }

    method LikePost(id: int, client: Option<string>) returns (r: Result<Post, Failure>)
      requires Valid()
      modifies this
      ensures Step(Snapshot(), r) == Liked(old(Snapshot()), id, client)
      ensures Valid()
    {
      ghost var st := Snapshot();
      if client.None? || client.value == "" {
        return Err(HttpError(400, MissingClientId));
      }
      var k := FindIndex(id);
      if k.None? {
        return Err(HttpError(404, PostNotFound));
      }
      var liked := if id in likeMap then likeMap[id] else {};
      assert liked == Likers(likeMap, id);
      if client.value in liked {
        return Ok(posts[k.value]);
      }
      likeMap := likeMap[id := liked + {client.value}];
      var p := posts[k.value].(likes := posts[k.value].likes + 1);
      posts := posts[k.value := p];
      r := Ok(p);
      assert Snapshot() == st.(posts := st.posts[k.value := p], likeMap := st.likeMap[id := liked + {client.value}]);
      LikedPreservesInv(st, id, client);
    }

    method AddComment(postId: int, author: string, text: string, now: int) returns (r: Result<Comment, Failure>)
      requires Valid()
      modifies this
      ensures Step(Snapshot(), r) == Commented(old(Snapshot()), postId, author, text, now)
      ensures Valid()
    {
      CommentedPreservesInv(Snapshot(), postId, author, text, now);
      var k := FindIndex(postId);
      if k.None? {
        return Err(HttpError(404, PostNotFound));
      }
      var c := Comment(commentIdCounter, postId, author, text, now);
      commentIdCounter := commentIdCounter + 1;
      comments := comments + [c];
      posts := posts[k.value := posts[k.value].(comments := posts[k.value].comments + [c])];
      return Ok(c);
    }

    method DeletePost(id: int) returns (r: DeleteReply)
      requires Valid()
      modifies this
      ensures Step(Snapshot(), r) == Deleted(old(Snapshot()), id)
      ensures Valid()
    {
      DeletedPreservesInv(Snapshot(), id);
      var k := FindIndex(id);
      if k.None? {
        return DeleteReply(false, Some(PostNotFound));
      }
      posts := WithoutPost(posts, id);
      comments := WithoutCommentsOn(comments, id);
      likeMap := likeMap - {id};
      return DeleteReply(true, None);
    }
  }
}
