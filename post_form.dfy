/** The new-post form: login check, legacy keys cleared, the multipart body, and on
    success a record in front of the user's `myPosts:<uid>` list and a reset form. */
module PostForm {
  import opened Wrappers
  import opened LocalStore
  import opened Accounts
  import opened Posting
  import PostDetail

  /** What the create request answers with, as far as the callback reads it (`data?.x`). */
  datatype Created = Created(id: Option<int>, title: Option<string>, createdAt: Option<int>)

  /** The body: title and content always, the image only when one is chosen. */
  function Payload(title: string, content: string, image: Option<string>): (fields: seq<FormField>)
    ensures |fields| >= 2 && fields[0] == TextField("title", title) && fields[1] == TextField("content", content)
    ensures |fields| == 3 <==> image.Some?
    ensures image.Some? ==> fields[2] == FileField("image", image.value)
    ensures |fields| <= 3
  {
    [TextField("title", title), TextField("content", content)]
      + (if image.Some? then [FileField("image", image.value)] else [])
  }

  /** The record the success callback stores: the server's id, title and time when it sent
      them (`??` falls back only on `null`/`undefined`), else the callback's timestamp and
      the submitted title. */
  function PostRecordFor(user: AuthUser, data: Option<Created>, sentTitle: string, now: int, nowStamp: int): (e: Entry)
    ensures e.PostRecord?
    ensures e.id == (if data.Some? && data.value.id.Some? then data.value.id.value else now)
    ensures e.title == (if data.Some? && data.value.title.Some? then data.value.title.value else sentTitle)
    ensures e.author == AuthorName(user) && e.avatar == AvatarOf(user)
  {
    PostRecord(
      if data.Some? && data.value.id.Some? then data.value.id.value else now,
      if data.Some? && data.value.title.Some? then data.value.title.value else sentTitle,
      if data.Some? && data.value.createdAt.Some? then data.value.createdAt.value else nowStamp,
      AuthorName(user),
      AvatarOf(user))
  }

  /** The form's component state. */
  class PostFormView {
    var title: string
    var content: string
    var image: Option<string>

    constructor()
      ensures title == "" && content == "" && image.None?
    {
      title := "";
      content := "";
      image := None;
    }

    method Edit(newTitle: string, newContent: string, newImage: Option<string>)
      modifies this
      ensures title == newTitle && content == newContent && image == newImage
    {
      title := newTitle;
      content := newContent;
      image := newImage;
    }

    /** `submit` up to the request. */
    method Submit(store: Storage, user: Option<AuthUser>) returns (action: Action)
      modifies store
      ensures user.None? ==> action == ToLogin && store.cells == old(store.cells)
      ensures user.Some? ==> action == PostRequest(Payload(title, content, image))
                             && store.cells == LegacyCleared(old(store.cells))
    {
      if user.None? {
        return ToLogin;
      }
      store.Remove(LegacyPostsKey);
      store.Remove(LegacyCommentsKey);
      var fields := [TextField("title", title), TextField("content", content)];
      if image.Some? {
        fields := fields + [FileField("image", image.value)];
      }
      action := PostRequest(fields);
    }

    /** The success callback: the record goes in front of `myPosts:<uid>` (a value that
        does not parse is left alone with only a warning), then the form is reset. Failure
        only logs, so the fields stay as they were. */
    method CreateSucceeded(store: Storage, user: AuthUser, data: Option<Created>, sentTitle: string,
                           now: int, nowStamp: int)
      modifies this, store
      ensures store.cells == Prepended(old(store.cells), PostDetail.PostsKeyOf(user.uid),
                                       PostRecordFor(user, data, sentTitle, now, nowStamp))
      ensures title == "" && content == "" && image.None?
    {
      var key := PostDetail.PostsKeyOf(user.uid);
      var list := ParsedOrEmptyText(store.cells, key);
      if list.Some? {
        store.SetList(key, [PostRecordFor(user, data, sentTitle, now, nowStamp)] + list.value);
      }
      title := "";
      content := "";
      image := None;
    }
  }

  /** A post the form stored can be taken back by the post page: its delete callback
      removes the record from the same per-user key. */
  lemma FormRecordDeletedByPage(cells: Cells, user: AuthUser, data: Option<Created>, sentTitle: string,
                                now: int, nowStamp: int)
    requires ParsedOrEmptyText(cells, PostDetail.PostsKeyOf(user.uid)).Some?
    ensures var key := PostDetail.PostsKeyOf(user.uid);
            var rec := PostRecordFor(user, data, sentTitle, now, nowStamp);
            var after := RemovedPost(Prepended(cells, key, rec), key, IdOf(rec).value);
            !HasId(ParsedOrEmptyText(after, key).value, IdOf(rec).value)
  {
    var key := PostDetail.PostsKeyOf(user.uid);
    var rec := PostRecordFor(user, data, sentTitle, now, nowStamp);
    PrependedSpec(cells, key, rec, key);
    RemovedPostSpec(Prepended(cells, key, rec), key, IdOf(rec).value, key);
  }
}
