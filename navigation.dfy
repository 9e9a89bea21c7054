/** The navigation bar's name and avatar fallback: the display name of the
    signed-in user and the one or two letters shown when there is no avatar. */
module Navigation {
  import opened Common
  import opened Identity

  /** `s.split(sep)` for a one-character separator: the pieces between
      separators, empty pieces included; the empty string gives one piece. */
  function Split(s: string, sep: char): (pieces: seq<string>)
    ensures |pieces| >= 1
    decreases |s|
  {
    if s == [] then [""]
    else
      var rest := Split(s[1..], sep);
      if s[0] == sep then [""] + rest
      else [[s[0]] + rest[0]] + rest[1..]
  }

  /** `word.charAt(0)` */
  function CharAt0(w: string): (r: string)
    ensures |r| <= 1
  {
    if w == [] then "" else [w[0]]
  }

  /** `.map(word => word.charAt(0)).join('')` */
  function JoinFirstChars(words: seq<string>): string {
    if words == [] then "" else CharAt0(words[0]) + JoinFirstChars(words[1..])
  }

  /** Independent description of the same letters: every non-space character
      that opens the name or follows a space, in order. */
  function WordStarts(s: string, afterSpace: bool): string
    decreases |s|
  {
    if s == [] then ""
    else (if afterSpace && s[0] != ' ' then [s[0]] else "") + WordStarts(s[1..], s[0] == ' ')
  }

  /** `getUserInitials(name, email)` */
  function GetUserInitials(name: string, email: string): (r: string)
    ensures |r| <= 2
  {
    if name != "" && name != "User" then Take(ToUpper(JoinFirstChars(Split(name, ' '))), 2)
    else ToUpper(CharAt0(email))
  }

  /** `user?.user_metadata?.full_name || user?.email?.split('@')[0] || 'User'` */
  function UserName(user: Option<User>): string {
    if user.Some? && user.value.fullName.Some? && user.value.fullName.value != "" then user.value.fullName.value
    else if user.Some? && user.value.email.Some? && Split(user.value.email.value, '@')[0] != "" then
      Split(user.value.email.value, '@')[0]
    else "User"
  }

  /** `user ? getUserInitials(userName, user.email || '') : 'U'` */
  function UserInitials(user: Option<User>): string {
    if user.None? then "U" else GetUserInitials(UserName(user), user.value.email.GetOr(""))
  }

  // ---------------------------------------------------------------------------
  // Properties

  /** Splitting on spaces and taking each piece's first character yields
      exactly the word-starting characters: pieces left empty by repeated,
      leading or trailing spaces contribute nothing. */
  lemma {:induction false} SplitFirstChars(s: string)
    ensures JoinFirstChars(Split(s, ' ')) == WordStarts(s, true)
    ensures JoinFirstChars(Split(s, ' ')[1..]) == WordStarts(s, false)
    decreases |s|
  {
    if s != [] {
      SplitFirstChars(s[1..]);
      var rest := Split(s[1..], ' ');
      if s[0] == ' ' {
        assert Split(s, ' ') == [""] + rest;
        assert Split(s, ' ')[1..] == rest;
      } else {
        assert Split(s, ' ') == [[s[0]] + rest[0]] + rest[1..];
        assert Split(s, ' ')[1..] == rest[1..];
      }
    }
  }

  /** Every word-starting character is a non-space character of the name. */
  lemma {:induction false} WordStartsAreNonSpace(s: string, afterSpace: bool)
    ensures |WordStarts(s, afterSpace)| <= |s|
    ensures forall c :: c in WordStarts(s, afterSpace) ==> c in s && c != ' '
    decreases |s|
  {
    if s != [] {
      WordStartsAreNonSpace(s[1..], s[0] == ' ');
    }
  }

  /** A real name gives at most two initials: the upper-cased first
      characters of its first two words. */
  lemma InitialsFromName(name: string, email: string)
    requires name != "" && name != "User"
    ensures GetUserInitials(name, email) == Take(ToUpper(WordStarts(name, true)), 2)
    ensures forall c :: c in GetUserInitials(name, email) ==> exists d :: d in name && d != ' ' && c == UpperChar(d)
  {
    SplitFirstChars(name);
    WordStartsAreNonSpace(name, true);
    var w := WordStarts(name, true);
    var r := GetUserInitials(name, email);
    forall c | c in r ensures exists d :: d in name && d != ' ' && c == UpperChar(d) {
      var i :| 0 <= i < |r| && r[i] == c;
      assert r[i] == ToUpper(w)[i] == UpperChar(w[i]);
      assert w[i] in w;
    }
  }

  /** Without a usable name the e-mail's first letter, upper-cased, is used. */
  lemma InitialsFromEmail(name: string, email: string)
    requires name == "" || name == "User"
    ensures email == "" ==> GetUserInitials(name, email) == ""
    ensures email != "" ==> GetUserInitials(name, email) == [UpperChar(email[0])]
  {
  }

  /** Example: a doubled space is skipped. */
  lemma InitialsSkipEmptyWords()
    ensures GetUserInitials("a  b", "") == "AB"
  {
    var n := "a  b";
    SplitFirstChars(n);
    assert n[1..] == "  b" && n[1..][1..] == " b" && n[1..][1..][1..] == "b";
    assert WordStarts("b", true) == "b";
    assert WordStarts(" b", true) == "b";
    assert WordStarts("  b", false) == "b";
    assert WordStarts(n, true) == "ab";
    assert n != "User";
    assert ToUpper("ab") == "AB";
  }

  /** Example: only the first two initials are kept. */
  lemma InitialsKeepTwo()
    ensures GetUserInitials("a b c", "") == "AB"
  {
    var n := "a b c";
    SplitFirstChars(n);
    assert n[1..] == " b c" && n[1..][1..] == "b c" && n[1..][1..][1..] == " c" && n[1..][1..][1..][1..] == "c";
    assert WordStarts("c", true) == "c";
    assert WordStarts(" c", false) == "c";
    assert WordStarts("b c", true) == "bc";
    assert WordStarts(" b c", false) == "bc";
    assert WordStarts(n, true) == "abc";
    assert n != "User";
    assert ToUpper("abc") == "ABC";
  }

  /** The first piece of a split is the text up to the first separator. */
  lemma {:induction false} SplitFirstPiece(s: string, sep: char)
    ensures StartsWith(s, Split(s, sep)[0])
    ensures sep !in Split(s, sep)[0]
    ensures |Split(s, sep)[0]| < |s| ==> s[|Split(s, sep)[0]|] == sep
    decreases |s|
  {
    if s != [] {
      SplitFirstPiece(s[1..], sep);
    }
  }

  /** The display name is never empty and falls back in order: the full name,
      then the e-mail up to its first '@', then "User". */
  lemma UserNameChain(user: Option<User>)
    ensures UserName(user) != ""
    ensures user.Some? && user.value.fullName.Some? && user.value.fullName.value != "" ==>
      UserName(user) == user.value.fullName.value
    ensures (user.Some? && (user.value.fullName.None? || user.value.fullName.value == "") &&
             user.value.email.Some? && Split(user.value.email.value, '@')[0] != "") ==>
      UserName(user) == Split(user.value.email.value, '@')[0] &&
      StartsWith(user.value.email.value, UserName(user)) && '@' !in UserName(user)
    ensures user.None? ==> UserName(user) == "User"
    ensures user.Some? && (user.value.fullName.None? || user.value.fullName.value == "") &&
            (user.value.email.None? || Split(user.value.email.value, '@')[0] == "") ==>
      UserName(user) == "User"
  {
    if user.Some? && user.value.email.Some? {
      SplitFirstPiece(user.value.email.value, '@');
    }
  }

  /** Without a user the avatar shows "U"; when the display name fell back to
      "User", the initials come from the e-mail. */
  lemma UserInitialsFallbacks(user: Option<User>)
    ensures user.None? ==> UserInitials(user) == "U"
    ensures user.Some? && UserName(user) == "User" ==>
      UserInitials(user) == ToUpper(CharAt0(user.value.email.GetOr("")))
    ensures |UserInitials(user)| <= 2
  {
  }

  /** A signed-in user with neither a full name nor an e-mail is called
      "User", and the avatar fallback is then empty rather than "U". */
  lemma NamelessUserHasNoInitials(id: string)
    ensures UserName(Some(User(id, None, None))) == "User"
    ensures UserInitials(Some(User(id, None, None))) == ""
  {
  }

  /** A user known only by e-mail is named after its local part, whose first
      letter, upper-cased, becomes the initial. */
  lemma EmailOnlyUser(id: string)
    ensures UserName(Some(User(id, Some("al@x"), None))) == "al"
    ensures UserInitials(Some(User(id, Some("al@x"), None))) == "A"
  {
    var e := "al@x";
    assert Split(e, '@')[0] == "al" by {
      assert e[1..] == "l@x" && e[1..][1..] == "@x" && e[1..][1..][1..] == "x" && e[1..][1..][1..][1..] == "";
      assert "x"[1..] == "" && "@x"[1..] == "x" && "l@x"[1..] == "@x";
      assert ['x'] + "" == "x" && ['l'] + "" == "l" && [""][1..] == [];
      assert Split("x", '@') == [['x'] + ""] + [""][1..] == ["x"] + [];
      assert Split("@x", '@') == ["", "x"];
      assert Split("l@x", '@') == [['l'] + ""] + ["x"] == ["l"] + ["x"];
    }
    SplitFirstChars("al");
    assert WordStarts("al", true) == "a" by {
      assert WordStarts("l", false) == "";
    }
    assert "User" != "al";
  }
}
