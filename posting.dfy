/** What the post page, the post card and the post form share: the requests a handler
    issues, the removal of the legacy shared keys, and the "my posts" / "my comments"
    records they keep in storage after a request succeeds. */
module Posting {
  import opened Wrappers
  import opened Strings
  import Seqs
  import opened LocalStore
  import opened Accounts

  const LoginRoute := "/login"
  const LegacyPostsKey := "myPosts"
  const LegacyCommentsKey := "myComments"
  const UntitledPost := "無標題文章"

  /** A field of the multipart body of a new post. */
  datatype FormField = TextField(name: string, value: string) | FileField(name: string, file: string)

  /** What a handler does: navigate to the login page, nothing, or send a request. */
  datatype Action =
    | ToLogin
    | NoAction
    | LikeRequest(postId: int)
    | CommentRequest(postId: int, text: string)
    | DeleteRequest(postId: int)
    | PostRequest(fields: seq<FormField>)

  /** The like button: `if (!user) return navigate("/login"); like.mutate(post.id)`. */
  function OnToggleLike(user: Option<AuthUser>, postId: int): (a: Action)
    ensures a == ToLogin <==> user.None?
    ensures user.Some? ==> a == LikeRequest(postId)
  {
    if user.None? then ToLogin else LikeRequest(postId)
  }

  /** `clearLegacyKeys()` */
  function LegacyCleared(cells: Cells): Cells
  {
    cells - {LegacyPostsKey, LegacyCommentsKey}
  }

  /** Clearing removes exactly the two shared keys. */
  lemma LegacyClearedSpec(cells: Cells, k: string)
    ensures LegacyPostsKey !in LegacyCleared(cells) && LegacyCommentsKey !in LegacyCleared(cells)
    ensures k != LegacyPostsKey && k != LegacyCommentsKey ==>
              (k in LegacyCleared(cells) <==> k in cells) && (k in cells ==> LegacyCleared(cells)[k] == cells[k])
    ensures LegacyCleared(LegacyCleared(cells)) == LegacyCleared(cells)
  {
  }

  /** The record of a comment the user wrote. */
  function CommentRecordFor(user: AuthUser, postId: int, postTitle: Option<string>, text: string,
                            id: int, createdAt: int): (e: Entry)
    ensures e.CommentRecord? && e.id == id && e.postId == postId && e.text == text
    ensures e.postTitle == Or(postTitle, UntitledPost) && e.postTitle != ""
    ensures e.author == AuthorName(user) && e.avatar == AvatarOf(user)
  {
    CommentRecord(id, postId, Or(postTitle, UntitledPost), text, createdAt, AuthorName(user), AvatarOf(user))
  }

  /** `list = JSON.parse(localStorage.getItem(key) || "[]"); list.unshift(record);
      localStorage.setItem(key, ...)` inside a `try` whose `catch` only logs. */
  function Prepended(cells: Cells, key: string, record: Entry): Cells
  {
    match ParsedOrEmptyText(cells, key)
    case None => cells
    case Some(list) => cells[key := List([record] + list)]
  }

  /** `list.filter(p => p.id !== postId)` written back under the same `try`. */
  function RemovedPost(cells: Cells, key: string, postId: int): Cells
  {
    match ParsedOrEmptyText(cells, key)
    case None => cells
    case Some(list) => cells[key := List(WithoutId(list, postId))]
  }

  /** A key that reads as a list gains exactly the record in front with the older records
      after it in order; a key that does not parse is left alone; no other key changes. */
  lemma PrependedSpec(cells: Cells, key: string, record: Entry, other: string)
    ensures ParsedOrEmptyText(cells, key).Some? ==>
              && key in Prepended(cells, key, record)
              && Prepended(cells, key, record)[key] == List([record] + ParsedOrEmptyText(cells, key).value)
              && ParsedOrEmptyText(Prepended(cells, key, record), key).value[1..] == ParsedOrEmptyText(cells, key).value
    ensures ParsedOrEmptyText(cells, key).None? ==> Prepended(cells, key, record) == cells
    ensures other != key ==> (other in Prepended(cells, key, record) <==> other in cells)
    ensures other != key && other in cells ==> Prepended(cells, key, record)[other] == cells[other]
  {
  }

  /** After the removal no record under the key carries the post id, the others are kept
      in order, removing again changes nothing, and no other key changes. */
  lemma RemovedPostSpec(cells: Cells, key: string, postId: int, other: string)
    ensures ParsedOrEmptyText(cells, key).Some? ==>
              && key in RemovedPost(cells, key, postId)
              && RemovedPost(cells, key, postId)[key] == List(WithoutId(ParsedOrEmptyText(cells, key).value, postId))
              && !HasId(WithoutId(ParsedOrEmptyText(cells, key).value, postId), postId)
              && Seqs.OrderedWithin(WithoutId(ParsedOrEmptyText(cells, key).value, postId), ParsedOrEmptyText(cells, key).value)
    ensures RemovedPost(RemovedPost(cells, key, postId), key, postId) == RemovedPost(cells, key, postId)
    ensures other != key ==> (other in RemovedPost(cells, key, postId) <==> other in cells)
    ensures other != key && other in cells ==> RemovedPost(cells, key, postId)[other] == cells[other]
  {
    if ParsedOrEmptyText(cells, key).Some? {
      var list := ParsedOrEmptyText(cells, key).value;
      WithoutIdSpec(list, postId);
      WithoutIdOrder(list, postId);
      WithoutIdIdempotent(list, postId);
    }
  }
}
