/** A post in the feed list: the same like, comment and delete as the post page, except
    that the user's own records are kept under the shared (legacy) keys `myComments` and
    `myPosts`, which the post page and the post form clear before their own requests. */
module PostCard {
  import opened Wrappers
  import opened Strings
  import opened LocalStore
  import opened Accounts
  import opened Posting
  import UserStorage
  import PostDetail

  datatype SubmitStep = SubmitStep(text: string, action: Action)

  /** `submit` up to the request: no storage is touched before it. */
  function Submitted(text: string, user: Option<AuthUser>, postId: int): SubmitStep
  {
    if user.None? then SubmitStep(text, ToLogin)
    else if Trim(text) == "" then SubmitStep(text, NoAction)
    else SubmitStep("", CommentRequest(postId, Trim(text)))
  }

  /** Without a user only the login page opens, blank text sends nothing, otherwise the
      trimmed text is sent and the box cleared. */
  lemma SubmittedSpec(text: string, user: Option<AuthUser>, postId: int)
    ensures Submitted(text, user, postId).action == ToLogin <==> user.None?
    ensures Submitted(text, user, postId).action.CommentRequest? <==> user.Some? && Trim(text) != ""
    ensures Submitted(text, user, postId).action.CommentRequest? ==>
              Submitted(text, user, postId).action.text == Trim(text) && Submitted(text, user, postId).text == ""
    ensures !Submitted(text, user, postId).action.CommentRequest? ==> Submitted(text, user, postId).text == text
  {
  }

  /** `onDelete` up to the request. */
  function DeleteAsked(user: Option<AuthUser>, confirmed: bool, postId: int): (a: Action)
    ensures a == ToLogin <==> user.None?
    ensures a.DeleteRequest? <==> user.Some? && confirmed
  {
    if user.None? then ToLogin else if !confirmed then NoAction else DeleteRequest(postId)
  }

  /** The key the card's records go under is none of the per-user keys, so the card's
      deletion never reaches a record the post form stored, and the next comment or
      delete on the post page, or the next post from the form, clears it. */
  lemma SharedKeysQuirk(cells: Cells, uid: Option<string>, user: AuthUser, postId: int, record: Entry)
    ensures LegacyPostsKey != UserStorage.PostsKey(uid) && LegacyCommentsKey != UserStorage.CommentsKey(uid)
    ensures LegacyPostsKey != PostDetail.PostsKeyOf(user.uid)
    ensures var k := PostDetail.PostsKeyOf(user.uid);
            (k in RemovedPost(cells, LegacyPostsKey, postId) <==> k in cells)
            && (k in cells ==> RemovedPost(cells, LegacyPostsKey, postId)[k] == cells[k])
    ensures LegacyCommentsKey !in LegacyCleared(Prepended(cells, LegacyCommentsKey, record))
  {
    assert |LegacyPostsKey| < |UserStorage.PostsKey(uid)|;
    assert |LegacyCommentsKey| < |UserStorage.CommentsKey(uid)|;
    PostDetail.KeysAgree(user.uid);
    RemovedPostSpec(cells, LegacyPostsKey, postId, PostDetail.PostsKeyOf(user.uid));
  }

  /** The card's component state (the comment box). */
  class PostCardView {
    var text: string

    constructor()
      ensures text == ""
    {
      text := "";
    }

    method TypeComment(t: string)
      modifies this
      ensures text == t
    {
      text := t;
    }

    /** `submit` */
    method Submit(user: Option<AuthUser>, postId: int) returns (action: Action)
      modifies this
      ensures SubmitStep(text, action) == Submitted(old(text), user, postId)
    {
      if user.None? {
        return ToLogin;
      }
      var t := Trim(text);
      if t == "" {
        return NoAction;
      }
      action := CommentRequest(postId, t);
      text := "";
    }

    /** The comment request's success callback: one record in front of `myComments`. */
    method CommentSucceeded(store: Storage, user: AuthUser, postId: int, postTitle: Option<string>,
                            t: string, id: int, createdAt: int)
      modifies store
      ensures store.cells == Prepended(old(store.cells), LegacyCommentsKey,
                                       CommentRecordFor(user, postId, postTitle, t, id, createdAt))
    {
      var list := ParsedOrEmptyText(store.cells, LegacyCommentsKey);
      if list.Some? {
        store.SetList(LegacyCommentsKey, [CommentRecordFor(user, postId, postTitle, t, id, createdAt)] + list.value);
      }
    }

    /** The delete request's success callback: the post leaves `myPosts`. */
    method DeleteSucceeded(store: Storage, postId: int)
      modifies store
      ensures store.cells == RemovedPost(old(store.cells), LegacyPostsKey, postId)
    {
      var list := ParsedOrEmptyText(store.cells, LegacyPostsKey);
      if list.Some? {
        store.SetList(LegacyPostsKey, WithoutId(list.value, postId));
      }
    }
  }
}
