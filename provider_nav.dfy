/**
 * The provider navigation bar (src/components/layout/ProviderNav.tsx): the
 * initials in the avatar, the name beside it and which navigation item is
 * highlighted for the current path.
 */
module ProviderNav {
  import opened Wrappers
  import opened JsText

  /** `NavItem` without its icon; `name` is the source's `label`. */
  datatype NavItem = NavItem(name: string, href: string)

  /** `navItems`. */
  const NavItems: seq<NavItem> := [
    NavItem("Dashboard", "/dashboard"),
    NavItem("Modules", "/modules"),
    NavItem("Invitations", "/invitations"),
    NavItem("Settings", "/settings")
  ]

  /** `.map((n) => n[0]).join("")`: the first character of every piece; an
      empty piece gives `undefined`, which `join` writes as nothing. */
  function FirstChars(pieces: seq<string>): string
    decreases |pieces|
  {
    if pieces == [] then []
    else (if pieces[0] == [] then [] else [pieces[0][0]]) + FirstChars(pieces[1..])
  }

  /** `s.slice(0, n)`. */
  function Take(s: string, n: nat): (r: string)
    ensures |r| <= n && r <= s
    ensures |s| <= n ==> r == s
  {
    if |s| <= n then s else s[..n]
  }

  /** `getInitials`, given `profile?.full_name` and `user?.email`. */
  function Initials(fullName: Option<string>, email: Option<string>): string {
    if Truthy(fullName) then Take(ToUpper(FirstChars(Split(fullName.value, ' '))), 2)
    else if Truthy(email) then ToUpper(Take(email.value, 2))
    else "U"
  }

  /** A reference definition of the first letter of every word of `s`: a
      character other than a space that starts `s` (when `afterSpace`) or
      follows a space. */
  function WordStarts(s: string, afterSpace: bool): string
    decreases |s|
  {
    if s == [] then []
    else (if s[0] != ' ' && afterSpace then [s[0]] else []) + WordStarts(s[1..], s[0] == ' ')
  }

  /** Splitting on spaces and keeping the first character of every piece
      picks out exactly the word starts; the pieces after the first pick
      out the word starts after the first character. */
  lemma {:induction false} FirstCharsAreWordStarts(s: string)
    ensures FirstChars(Split(s, ' ')) == WordStarts(s, true)
    ensures FirstChars(Split(s, ' ')[1..]) == WordStarts(s, false)
    decreases |s|
  {
    if s != [] {
      var rest := Split(s[1..], ' ');
      FirstCharsAreWordStarts(s[1..]);
      if s[0] == ' ' {
        assert Split(s, ' ') == [[]] + rest;
        assert ([[]] + rest)[1..] == rest;
      } else {
        var pieces := [[s[0]] + rest[0]] + rest[1..];
        assert Split(s, ' ') == pieces;
        assert pieces[1..] == rest[1..];
        assert FirstChars(pieces) == [s[0]] + FirstChars(rest[1..]);
      }
    }
  }

  /** A name has no word starts exactly when it is made of spaces only. */
  lemma {:induction false} WordStartsEmpty(s: string)
    ensures WordStarts(s, true) == [] <==> forall i :: 0 <= i < |s| ==> s[i] == ' '
    decreases |s|
  {
    if s != [] {
      if s[0] == ' ' {
        WordStartsEmpty(s[1..]);
        assert WordStarts(s, true) == WordStarts(s[1..], true);
        assert forall i :: 1 <= i < |s| ==> s[i] == s[1..][i - 1];
      } else {
        assert WordStarts(s, true)[0] == s[0];
      }
    }
  }

  /** A run of characters other than spaces inside a word starts nothing. */
  lemma {:induction false} InsideWord(w: string, t: string)
    requires forall i :: 0 <= i < |w| ==> w[i] != ' '
    ensures WordStarts(w + t, false) == WordStarts(t, false)
    decreases |w|
  {
    if w != [] {
      assert (w + t)[0] == w[0] && (w + t)[1..] == w[1..] + t;
      assert forall i :: 0 <= i < |w[1..]| ==> w[1..][i] == w[i + 1];
      InsideWord(w[1..], t);
      assert WordStarts(w + t, false) == WordStarts(w[1..] + t, false);
    } else {
      assert w + t == t;
    }
  }

  /** The initials are at most two characters. With a full name they are the
      upper-cased first letters of its first two words, and they are empty
      exactly when the full name is made of spaces only; without a full name
      they are the first two characters of the email, upper-cased; with
      neither they are "U". */
  lemma InitialsSpec(fullName: Option<string>, email: Option<string>)
    ensures |Initials(fullName, email)| <= 2
    ensures Truthy(fullName) ==>
      Initials(fullName, email) == Take(ToUpper(WordStarts(fullName.value, true)), 2)
    ensures Initials(fullName, email) == [] <==>
      Truthy(fullName) && forall i :: 0 <= i < |fullName.value| ==> fullName.value[i] == ' '
    ensures !Truthy(fullName) && Truthy(email) ==>
      Initials(fullName, email) == ToUpper(Take(email.value, 2))
      && |Initials(fullName, email)| == (if |email.value| < 2 then |email.value| else 2)
    ensures !Truthy(fullName) && !Truthy(email) ==> Initials(fullName, email) == "U"
  {
    if Truthy(fullName) {
      FirstCharsAreWordStarts(fullName.value);
      WordStartsEmpty(fullName.value);
    }
  }

  /** A two-word name whose words hold no spaces gives the upper-cased first
      letters of the two words, whatever follows them. */
  lemma InitialsOfTwoWords(first: string, last: string, more: string, email: Option<string>)
    requires first != [] && last != []
    requires forall i :: 0 <= i < |first| ==> first[i] != ' '
    requires forall i :: 0 <= i < |last| ==> last[i] != ' '
    ensures Initials(Some(first + " " + last + more), email) == [UpperChar(first[0]), UpperChar(last[0])]
  {
    var name := first + " " + last + more;
    InitialsSpec(Some(name), email);
    assert name[1..] == first[1..] + (" " + last + more);
    InsideWord(first[1..], " " + last + more);
    assert (" " + last + more)[1..] == last + more;
    var starts := WordStarts(name, true);
    assert starts == [first[0], last[0]] + WordStarts((last + more)[1..], false);
    assert ToUpper(starts)[..2] == [UpperChar(first[0]), UpperChar(last[0])];
  }

  /** `displayName`: the full name, else the part of the email before the
      first "@", else "User". */
  function DisplayName(fullName: Option<string>, email: Option<string>): string {
    if Truthy(fullName) then fullName.value
    else if email.Some? && Split(email.value, '@')[0] != "" then Split(email.value, '@')[0]
    else "User"
  }

  /** The name shown is never empty. A full name wins; without one, an email
      whose first "@" is at position `i` shows its first `i` characters, or
      "User" when it starts with "@"; an email without "@" shows whole. */
  lemma DisplayNameSpec(fullName: Option<string>, email: Option<string>, i: nat)
    requires email.Some? ==> i <= |email.value| && (i == |email.value| || email.value[i] == '@')
    requires email.Some? ==> forall k :: 0 <= k < i ==> email.value[k] != '@'
    ensures DisplayName(fullName, email) != ""
    ensures Truthy(fullName) ==> DisplayName(fullName, email) == fullName.value
    ensures !Truthy(fullName) && email.Some? && i > 0 ==> DisplayName(fullName, email) == email.value[..i]
    ensures !Truthy(fullName) && (email.None? || i == 0) ==> DisplayName(fullName, email) == "User"
  {
    if email.Some? {
      SplitHead(email.value, '@', i);
    }
  }

  /** `location.pathname === item.href`. */
  predicate IsActive(pathname: string, item: NavItem) {
    pathname == item.href
  }

  /** The four paths are distinct, so at most one item is highlighted, and
      one is exactly when the path is one of them; any other path, such as
      "/modules/new" or "/dashboard/", highlights none. */
  lemma OneActiveItem(pathname: string)
    ensures forall i, j :: 0 <= i < j < |NavItems| ==>
      !(IsActive(pathname, NavItems[i]) && IsActive(pathname, NavItems[j]))
    ensures (exists i :: 0 <= i < |NavItems| && IsActive(pathname, NavItems[i])) <==>
      pathname in ["/dashboard", "/modules", "/invitations", "/settings"]
  {
    assert NavItems[0].href == "/dashboard" && NavItems[1].href == "/modules";
    assert NavItems[2].href == "/invitations" && NavItems[3].href == "/settings";
  }
}
