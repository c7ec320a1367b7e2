/** The page frame's header: the shown user name and avatar, and the navigation link
    class. */
module Layout {
  import opened Wrappers
  import opened Strings
  import opened Accounts

  const Guest := "訪客"
  const DefaultAvatar := "https://placehold.co/32x32/EEE/AAA?text=U"
  const ActiveLinkClass := "font-semibold bg-[#D6B788] text-white border-b-2 border-[#836054]"

  /** `user?.displayName || (user?.email ? user.email.split("@")[0] : "訪客")` */
  function DisplayName(user: Option<AuthUser>): string
  {
    if user.Some? && Truthy(user.value.displayName) then user.value.displayName.value
    else if user.Some? && Truthy(user.value.email) then BeforeFirst(user.value.email.value, '@')
    else Guest
  }

  /** The name is the display name when there is one; else the part of the e-mail before
      its first `@` (a prefix without `@`, empty for an address starting with `@`); else,
      also without a user, the guest label. */
  lemma DisplayNameSpec(user: Option<AuthUser>)
    ensures user.Some? && Truthy(user.value.displayName) ==> DisplayName(user) == user.value.displayName.value
    ensures user.Some? && !Truthy(user.value.displayName) && Truthy(user.value.email) ==>
              var email := user.value.email.value;
              && StartsWith(email, DisplayName(user))
              && '@' !in DisplayName(user)
              && (|DisplayName(user)| == |email| || email[|DisplayName(user)|] == '@')
    ensures user.None? || (!Truthy(user.value.displayName) && !Truthy(user.value.email)) ==>
              DisplayName(user) == Guest
  {
  }

  /** The name of a user whose e-mail has an `@` is exactly what precedes the first one. */
  lemma {:induction false} DisplayNameOfAddress(local: string, domain: string)
    requires '@' !in local
    ensures DisplayName(Some(AuthUser("", None, Some(local + "@" + domain), None))) == local
  {
    BeforeFirstConcat(local, domain);
  }

  lemma {:induction false} BeforeFirstConcat(local: string, domain: string)
    requires '@' !in local
    ensures BeforeFirst(local + "@" + domain, '@') == local
  {
    if local != [] {
      assert (local + "@" + domain)[1..] == local[1..] + "@" + domain;
      BeforeFirstConcat(local[1..], domain);
    }
  }

  /** `user?.photoURL || defaultAvatar`: never empty. */
  function AvatarSrc(user: Option<AuthUser>): (r: string)
    ensures user.Some? && Truthy(user.value.photoUrl) ==> r == user.value.photoUrl.value
    ensures !(user.Some? && Truthy(user.value.photoUrl)) ==> r == DefaultAvatar
    ensures r != ""
  {
    if user.Some? then Or(user.value.photoUrl, DefaultAvatar) else DefaultAvatar
  }

  /** `active({ isActive })`: the class a navigation link gets. */
  function Active(isActive: bool): (r: string)
    ensures r != "" <==> isActive
  {
    if isActive then ActiveLinkClass else ""
  }
}
