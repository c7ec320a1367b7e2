/** The signed-in user as the pages read it from the authentication library, and the
    JavaScript `||` fallbacks they apply to its optional fields. */
module Accounts {
  import opened Wrappers

  /** A signed-in user: an id and three optional profile fields (`null` is `None`). */
  datatype AuthUser = AuthUser(uid: string, displayName: Option<string>, email: Option<string>, photoUrl: Option<string>)

  /** An optional text is truthy when present and not empty. */
  predicate Truthy(s: Option<string>)
  {
    s.Some? && s.value != ""
  }

  /** `s || fallback` for an optional text: the result is empty only when both sides are. */
  function Or(s: Option<string>, fallback: string): (r: string)
    ensures Truthy(s) ==> r == s.value
    ensures !Truthy(s) ==> r == fallback
    ensures r == "" <==> !Truthy(s) && fallback == ""
  {
    if Truthy(s) then s.value else fallback
  }

  /** `a || b` where both sides may be `null`: the value of an inner `||` in a chain. */
  function OrElse(a: Option<string>, b: Option<string>): Option<string>
  {
    if Truthy(a) then a else b
  }

  /** JavaScript groups `a || b || c` as `(a || b) || c`; that is the first truthy one of
      `a` and `b`, else `c`, which is how `AuthorName` nests the fallbacks. */
  lemma OrChainGrouping(a: Option<string>, b: Option<string>, c: string)
    ensures Or(OrElse(a, b), c) == Or(a, Or(b, c))
    ensures Truthy(a) ==> Or(OrElse(a, b), c) == a.value
    ensures !Truthy(a) && Truthy(b) ==> Or(OrElse(a, b), c) == b.value
    ensures !Truthy(a) && !Truthy(b) ==> Or(OrElse(a, b), c) == c
  {
  }

  const Anonymous := "匿名"

  /** `user.displayName || user.email || "匿名"`: the author name stored with a record. */
  function AuthorName(u: AuthUser): (r: string)
    ensures Truthy(u.displayName) ==> r == u.displayName.value
    ensures !Truthy(u.displayName) && Truthy(u.email) ==> r == u.email.value
    ensures !Truthy(u.displayName) && !Truthy(u.email) ==> r == Anonymous
    ensures r != ""
  {
    Or(u.displayName, Or(u.email, Anonymous))
  }

  /** `user.photoURL || ""`: a missing photo is stored as the empty text, never as `null`. */
  function AvatarOf(u: AuthUser): (r: string)
    ensures r == "" <==> !Truthy(u.photoUrl)
    ensures r != "" ==> u.photoUrl == Some(r)
  {
    Or(u.photoUrl, "")
  }
}
