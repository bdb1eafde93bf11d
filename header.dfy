/** The site header's helpers: the avatar initials, the name shown for the
    signed-in user, and which navigation link is highlighted. */
module Header {
  import opened Common
  import opened Text

  /** `words.map(word => word[0]).join('')`: the first character of every
      word; an empty word gives `undefined`, which `join` writes as nothing. */
  function FirstChars(words: seq<string>): string
  {
    if words == [] then ""
    else (if words[0] == "" then "" else [words[0][0]]) + FirstChars(words[1..])
  }

  /** The characters that begin a word: not a space, and first in `s` or
      after a space (`afterSpace` says whether the text before `s` ended in
      one, or there was none). */
  function WordStarts(s: string, afterSpace: bool): string
  {
    if s == [] then ""
    else (if s[0] != ' ' && afterSpace then [s[0]] else "") + WordStarts(s[1..], s[0] == ' ')
  }

  /** Splitting on spaces and taking the first character of each piece picks
      exactly the characters that begin a word, in order. */
  lemma {:induction false} FirstCharsOfSplit(s: string)
    ensures FirstChars(Split(s, ' ')) == WordStarts(s, true)
    ensures FirstChars(Split(s, ' ')[1..]) == WordStarts(s, false)
  {
    if s != [] {
      FirstCharsOfSplit(s[1..]);
      var rest := Split(s[1..], ' ');
      if s[0] == ' ' {
        assert Split(s, ' ') == [""] + rest;
        assert (([""] + rest)[1..]) == rest;
      } else {
        var pieces := Split(s, ' ');
        assert pieces == [[s[0]] + rest[0]] + rest[1..];
        assert pieces[1..] == rest[1..];
        assert FirstChars(pieces) == [s[0]] + FirstChars(rest[1..]);
      }
    }
  }

  /** getInitials */
  function Initials(name: Option<string>): (r: string)
    ensures |r| <= 2
  {
    if !Truthy(name) then "U"
    else Prefix(Upper(FirstChars(Split(name.value, ' '))), 2)
  }

  /** The initials are the first two word-initial characters, upper-cased;
      no name gives "U". */
  lemma InitialsAreWordStarts(name: Option<string>)
    ensures !Truthy(name) ==> Initials(name) == "U"
    ensures Truthy(name) ==> Initials(name) == Prefix(Upper(WordStarts(name.value, true)), 2)
  {
    if Truthy(name) {
      FirstCharsOfSplit(name.value);
    }
  }

  /** A name of spaces only has no words, so the avatar shows nothing. */
  lemma {:induction false} BlankNameHasNoInitials(name: string)
    requires name != "" && forall i :: 0 <= i < |name| ==> name[i] == ' '
    ensures Initials(Some(name)) == ""
  {
    FirstCharsOfSplit(name);
    NoWordStarts(name, true);
  }

  lemma {:induction false} NoWordStarts(s: string, afterSpace: bool)
    requires forall i :: 0 <= i < |s| ==> s[i] == ' '
    ensures WordStarts(s, afterSpace) == ""
  {
    if s != [] {
      NoWordStarts(s[1..], true);
    }
  }

  /** Two words give their two initials, upper-cased: "jo wes" shows "JW". */
  lemma InitialsExample()
    ensures Initials(Some("jo wes")) == "JW"
  {
    var s := "jo wes";
    FirstCharsOfSplit(s);
    assert WordStarts(s[3..], true) == "w" by {
      assert WordStarts(s[4..], false) == "";
    }
    assert WordStarts(s, true) == "jw";
    assert Upper("jw") == "JW";
  }

  /** getUserDisplayName. `fullName` and `email` are absent when nobody is
      signed in or the account lacks them. */
  function DisplayName(fullName: Option<string>, email: Option<string>): string
  {
    if Truthy(fullName) then fullName.value
    else if Truthy(email) then Split(email.value, '@')[0]
    else "User"
  }

  /** The display name is the full name when there is one, otherwise the
      part of the email address before the first "@" (which may be empty),
      otherwise "User". */
  lemma DisplayNameChoice(fullName: Option<string>, email: Option<string>)
    ensures Truthy(fullName) ==> DisplayName(fullName, email) == fullName.value
    ensures !Truthy(fullName) && Truthy(email) ==>
      var r := DisplayName(fullName, email);
      && StartsWith(email.value, r)
      && (forall i :: 0 <= i < |r| ==> r[i] != '@')
      && (|r| == |email.value| || email.value[|r|] == '@')
    ensures !Truthy(fullName) && !Truthy(email) ==> DisplayName(fullName, email) == "User"
  {
    if !Truthy(fullName) && Truthy(email) {
      SplitHead(email.value, '@');
    }
  }

  /** isActive: the current path equals the link's path exactly. */
  predicate IsActive(pathname: string, path: string)
  {
    pathname == path
  }

  /** No other path highlights a link: not a sub-path, nor the path with a
      trailing slash. */
  lemma IsActiveExact(path: string, suffix: string)
    ensures IsActive(path, path)
    ensures suffix != "" ==> !IsActive(path + suffix, path)
  {
    if suffix != "" {
      assert |path + suffix| != |path|;
    }
  }
}
