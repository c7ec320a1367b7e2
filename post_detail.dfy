/** The single-post page: like, comment and delete behind a login check, the signed-in
    user's own records under per-user keys, and the comments shown newest first. */
module PostDetail {
  import opened Wrappers
  import opened Strings
  import Seqs
  import opened LocalStore
  import opened Accounts
  import opened Posting
  import FeedModel
  import UserStorage

  const FeedRoute := "/feed"

  /** `kComments(uid)` */
  function CommentsKeyOf(uid: string): string
  {
    "myComments:" + uid
  }

  /** `kPosts(uid)` */
  function PostsKeyOf(uid: string): string
  {
    "myPosts:" + uid
  }

  /** The page's keys are the shared helpers' keys for a non-empty uid, and never one of
      the legacy shared keys. */
  lemma KeysAgree(uid: string)
    ensures uid != "" ==> PostsKeyOf(uid) == UserStorage.PostsKey(Some(uid))
    ensures uid != "" ==> CommentsKeyOf(uid) == UserStorage.CommentsKey(Some(uid))
    ensures PostsKeyOf(uid) != LegacyPostsKey && PostsKeyOf(uid) != LegacyCommentsKey
    ensures CommentsKeyOf(uid) != LegacyPostsKey && CommentsKeyOf(uid) != LegacyCommentsKey
  {
    assert PostsKeyOf(uid)[7] == ':' && CommentsKeyOf(uid)[2] == 'C';
  }

  /** `post.comments?.length ?? 0` */
  function CommentCount(comments: Option<seq<FeedModel.Comment>>): nat
  {
    if comments.Some? then |comments.value| else 0
  }

  /** `post.comments?.slice().reverse()`: a reversed copy (nothing when absent). */
  function ShownComments(comments: Option<seq<FeedModel.Comment>>): seq<FeedModel.Comment>
  {
    if comments.Some? then Seqs.Reverse(comments.value) else []
  }

  /** The list shows every comment once, the newest (last added) first, and the count
      matches it. */
  lemma ShownCommentsSpec(comments: Option<seq<FeedModel.Comment>>)
    ensures |ShownComments(comments)| == CommentCount(comments)
    ensures comments.Some? ==> forall i :: 0 <= i < |comments.value| ==>
              ShownComments(comments)[i] == comments.value[|comments.value| - 1 - i]
    ensures comments.Some? ==> Seqs.Reverse(ShownComments(comments)) == comments.value
  {
    if comments.Some? {
      var r := Seqs.Reverse(comments.value);
      assert Seqs.Reverse(r) == comments.value;
    }
  }

  datatype SubmitStep = SubmitStep(cells: Cells, text: string, action: Action)

  /** `submit` up to the request: login check, blank check, legacy keys cleared, comment
      sent with the trimmed text, input cleared. */
  function Submitted(cells: Cells, text: string, user: Option<AuthUser>, postId: int): SubmitStep
  {
    if user.None? then SubmitStep(cells, text, ToLogin)
    else if Trim(text) == "" then SubmitStep(cells, text, NoAction)
    else SubmitStep(LegacyCleared(cells), "", CommentRequest(postId, Trim(text)))
  }

  /** Without a user only the login page opens; blank text sends nothing; otherwise the
      legacy keys are gone before the trimmed comment is sent, and the box is emptied. */
  lemma SubmittedSpec(cells: Cells, text: string, user: Option<AuthUser>, postId: int)
    ensures user.None? ==> Submitted(cells, text, user, postId) == SubmitStep(cells, text, ToLogin)
    ensures user.Some? && Trim(text) == "" ==>
              Submitted(cells, text, user, postId).action == NoAction && Submitted(cells, text, user, postId).cells == cells
    ensures Submitted(cells, text, user, postId).action.CommentRequest? ==>
              && user.Some? && Trim(text) != ""
              && Submitted(cells, text, user, postId).action.text == Trim(text)
              && Submitted(cells, text, user, postId).text == ""
              && LegacyPostsKey !in Submitted(cells, text, user, postId).cells
              && LegacyCommentsKey !in Submitted(cells, text, user, postId).cells
  {
  }

  datatype DeleteStep = DeleteStep(cells: Cells, action: Action)

  /** `onDelete` up to the request; `confirmed` is the answer to the confirmation dialog. */
  function DeleteAsked(cells: Cells, user: Option<AuthUser>, confirmed: bool, postId: int): DeleteStep
  {
    if user.None? then DeleteStep(cells, ToLogin)
    else if !confirmed then DeleteStep(cells, NoAction)
    else DeleteStep(LegacyCleared(cells), DeleteRequest(postId))
  }

  /** Without a user only the login page opens, a declined dialog does nothing, and a
      delete request always goes out with the legacy keys cleared. */
  lemma DeleteAskedSpec(cells: Cells, user: Option<AuthUser>, confirmed: bool, postId: int)
    ensures user.None? ==> DeleteAsked(cells, user, confirmed, postId) == DeleteStep(cells, ToLogin)
    ensures DeleteAsked(cells, user, confirmed, postId).action.DeleteRequest? <==> user.Some? && confirmed
    ensures DeleteAsked(cells, user, confirmed, postId).action != DeleteRequest(postId) ==>
              DeleteAsked(cells, user, confirmed, postId).cells == cells
    ensures DeleteAsked(cells, user, confirmed, postId).action.DeleteRequest? ==>
              LegacyPostsKey !in DeleteAsked(cells, user, confirmed, postId).cells
              && LegacyCommentsKey !in DeleteAsked(cells, user, confirmed, postId).cells
  {
  }

  /** The post page's component state (the comment box). */
  class PostDetailPage {
    var text: string

    constructor()
      ensures text == ""
    {
      text := "";
    }

    method TypeComment(t: string)
      modifies this
      ensures text == t
    {
      text := t;
    }

    /** `submit` */
    method Submit(store: Storage, user: Option<AuthUser>, postId: int) returns (action: Action)
      modifies this, store
      ensures SubmitStep(store.cells, text, action) == Submitted(old(store.cells), old(text), user, postId)
    {
      if user.None? {
        return ToLogin;
      }
      var t := Trim(text);
      if t == "" {
        return NoAction;
      }
      store.Remove(LegacyPostsKey);
      store.Remove(LegacyCommentsKey);
      action := CommentRequest(postId, t);
      text := "";
    }

    /** The comment request's success callback: one record in front of `myComments:<uid>`;
        `id` and `createdAt` are the callback's timestamps. */
    method CommentSucceeded(store: Storage, user: AuthUser, postId: int, postTitle: Option<string>,
                            t: string, id: int, createdAt: int)
      modifies store
      ensures store.cells == Prepended(old(store.cells), CommentsKeyOf(user.uid),
                                       CommentRecordFor(user, postId, postTitle, t, id, createdAt))
    {
      var key := CommentsKeyOf(user.uid);
      var list := ParsedOrEmptyText(store.cells, key);
      if list.Some? {
        store.SetList(key, [CommentRecordFor(user, postId, postTitle, t, id, createdAt)] + list.value);
      }
    }

    /** `onDelete` */
    method OnDelete(store: Storage, user: Option<AuthUser>, confirmed: bool, postId: int) returns (action: Action)
      modifies store
      ensures DeleteStep(store.cells, action) == DeleteAsked(old(store.cells), user, confirmed, postId)
    {
      if user.None? {
        return ToLogin;
      }
      if !confirmed {
        return NoAction;
      }
      store.Remove(LegacyPostsKey);
      store.Remove(LegacyCommentsKey);
      action := DeleteRequest(postId);
    }

    /** The delete request's success callback: the post leaves `myPosts:<uid>` and the page
        goes back to the feed. */
    method DeleteSucceeded(store: Storage, user: AuthUser, postId: int) returns (route: string)
      modifies store
      ensures store.cells == RemovedPost(old(store.cells), PostsKeyOf(user.uid), postId)
      ensures route == FeedRoute
    {
      var key := PostsKeyOf(user.uid);
      var list := ParsedOrEmptyText(store.cells, key);
      if list.Some? {
        store.SetList(key, WithoutId(list.value, postId));
      }
      route := FeedRoute;
    }
  }
}
