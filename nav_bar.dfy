/** The navigation bar's user menu: the name shown for the signed-in user,
    the e-mail line under it and the initials in the avatar fallback. */
module NavBar {
  import opened Types
  import opened Text

  /** The profile metadata the auth service may attach to a user. */
  datatype UserMetadata = UserMetadata(user_name: Option<string>, avatar_url: Option<string>)

  datatype User = User(email: Option<string>, user_metadata: Option<UserMetadata>)

  const DefaultName: string := "Usuario"

  /** `s[0]` in the initials expression: the first character, or nothing
      (the `undefined` that `join` renders as empty) for an empty word. */
  function FirstChar(w: string): (r: string)
    ensures |r| <= 1
    ensures w != [] ==> r == [w[0]]
  {
    if w == [] then [] else [w[0]]
  }

  /** The first characters of the words, in order; empty words contribute
      nothing. */
  function Firsts(words: seq<string>): (r: string)
    ensures |r| <= |words|
    ensures forall k :: 0 <= k < |words| && words[k] != [] ==> words[k][0] in r
  {
    if words == [] then [] else FirstChar(words[0]) + Firsts(words[1..])
  }

  /** `getInitials(name)`: the first character of each space-separated word,
      upper-cased, cut to two characters. */
  function GetInitials(name: string): (r: string)
    ensures |r| <= 2
    ensures forall i :: 0 <= i < |r| ==> !IsAsciiLower(r[i])
  {
    Prefix(ToUpper(Firsts(Split(name, ' '))), 2)
  }

  /** Initials are empty exactly when the name holds nothing but spaces. */
  lemma InitialsEmptyIffOnlySpaces(name: string)
    ensures GetInitials(name) == [] <==> forall i :: 0 <= i < |name| ==> name[i] == ' '
  {
    FirstsEmptyIffOnlySpaces(name);
  }

  lemma {:induction false} FirstsEmptyIffOnlySpaces(s: string)
    ensures Firsts(Split(s, ' ')) == [] <==> forall i :: 0 <= i < |s| ==> s[i] == ' '
  {
    if s != [] {
      FirstsEmptyIffOnlySpaces(s[1..]);
      var rest := Split(s[1..], ' ');
      if s[0] == ' ' {
        assert Split(s, ' ') == [[]] + rest;
        assert Split(s, ' ')[1..] == rest;
        assert forall i :: 1 <= i < |s| ==> s[i] == s[1..][i - 1];
      } else {
        assert Split(s, ' ')[0] == [s[0]] + rest[0];
      }
    }
  }

  /** The first initial is the upper-cased first character when the name
      does not start with a space. */
  lemma FirstInitial(name: string)
    requires name != [] && name[0] != ' '
    ensures GetInitials(name) != [] && GetInitials(name)[0] == UpperChar(name[0])
  {
    var words := Split(name, ' ');
    assert words[0] == [name[0]] + Split(name[1..], ' ')[0];
  }

  /** A single word yields exactly its upper-cased first character. */
  lemma SingleWordInitial(name: string)
    requires name != [] && ' ' !in name
    ensures GetInitials(name) == [UpperChar(name[0])]
  {
    SplitWord(name, [], ' ');
  }

  /** Two words joined by one space yield both upper-cased first
      characters. */
  lemma TwoWordInitials(first: string, second: string)
    requires first != [] && second != [] && ' ' !in first && ' ' !in second
    ensures GetInitials(first + " " + second) == [UpperChar(first[0]), UpperChar(second[0])]
  {
    SplitJoin([first, second], ' ');
    assert Join([first, second], ' ') == first + " " + second;
    assert Firsts([first, second]) == [first[0]] + ([second[0]] + []);
  }

  /** The first characters of two runs of words are those of the first run
      followed by those of the second. */
  lemma {:induction false} FirstsAppend(a: seq<string>, b: seq<string>)
    ensures Firsts(a + b) == Firsts(a) + Firsts(b)
  {
    if a != [] {
      FirstsAppend(a[1..], b);
      assert (a + b)[0] == a[0] && (a + b)[1..] == a[1..] + b;
      calc {
        Firsts(a + b);
        FirstChar(a[0]) + Firsts(a[1..] + b);
        FirstChar(a[0]) + (Firsts(a[1..]) + Firsts(b));
        (FirstChar(a[0]) + Firsts(a[1..])) + Firsts(b);
      }
    } else {
      assert a + b == b;
    }
  }

  /** For words that are all non-empty, the result is exactly their first
      characters, one per word, in order. */
  lemma {:induction false} FirstsOfWords(ws: seq<string>)
    requires forall i :: 0 <= i < |ws| ==> ws[i] != []
    ensures Firsts(ws) == seq(|ws|, i requires 0 <= i < |ws| => ws[i][0])
  {
    if ws != [] {
      FirstsOfWords(ws[1..]);
    }
  }

  /** A space-free word followed by a space contributes its first character
      ahead of the initials of what follows. */
  lemma WordThenRest(w: string, rest: string)
    requires w != [] && ' ' !in w
    ensures Firsts(Split(w + " " + rest, ' ')) == [w[0]] + Firsts(Split(rest, ' '))
  {
    SplitWord(w, rest, ' ');
    FirstsAppend([w], Split(rest, ' '));
  }

  /** A leading space makes an empty first word, which contributes nothing. */
  lemma LeadingSpaceInitials(s: string)
    ensures GetInitials(" " + s) == GetInitials(s)
  {
    SplitSep(s, ' ');
    FirstsAppend([[]], Split(s, ' '));
  }

  /** A doubled space between words makes an empty word, which contributes
      nothing. */
  lemma RepeatedSpaceInitials(w: string, rest: string)
    requires ' ' !in w
    ensures GetInitials(w + "  " + rest) == GetInitials(w + " " + rest)
  {
    RepeatedSpaceFirsts(w, rest);
  }

  lemma RepeatedSpaceFirsts(w: string, rest: string)
    requires ' ' !in w
    ensures Firsts(Split(w + "  " + rest, ' ')) == Firsts(Split(w + " " + rest, ' '))
  {
    var x := Split(rest, ' ');
    assert w + "  " + rest == w + [' '] + (" " + rest);
    assert w + " " + rest == w + [' '] + rest;
    SplitWord(w, " " + rest, ' ');
    SplitWord(w, rest, ' ');
    SplitSep(rest, ' ');
    FirstsAppend([w], [[]] + x);
    FirstsAppend([[]], x);
    FirstsAppend([w], x);
  }

  /** The first characters of a name of non-empty words separated by single
      spaces are those of its words, one each, in order. */
  lemma WordsFirsts(ws: seq<string>)
    requires |ws| >= 1
    requires forall i :: 0 <= i < |ws| ==> ws[i] != [] && ' ' !in ws[i]
    ensures Firsts(Split(Join(ws, ' '), ' ')) == seq(|ws|, i requires 0 <= i < |ws| => ws[i][0])
  {
    SplitJoin(ws, ' ');
    FirstsOfWords(ws);
  }

  /** Such a name's initials are the upper-cased first characters of its
      words, cut to two. */
  lemma WordsInitials(ws: seq<string>)
    requires |ws| >= 1
    requires forall i :: 0 <= i < |ws| ==> ws[i] != [] && ' ' !in ws[i]
    ensures GetInitials(Join(ws, ' ')) ==
      Prefix(ToUpper(seq(|ws|, i requires 0 <= i < |ws| => ws[i][0])), 2)
  {
    WordsFirsts(ws);
  }

  /** So the first two words decide the initials however many follow, and a
      single word gives one character. */
  lemma FirstTwoWordsInitials(ws: seq<string>)
    requires |ws| >= 1
    requires forall i :: 0 <= i < |ws| ==> ws[i] != [] && ' ' !in ws[i]
    ensures |ws| == 1 ==> GetInitials(Join(ws, ' ')) == [UpperChar(ws[0][0])]
    ensures |ws| >= 2 ==>
      GetInitials(Join(ws, ' ')) == [UpperChar(ws[0][0]), UpperChar(ws[1][0])]
  {
    var f := seq(|ws|, i requires 0 <= i < |ws| => ws[i][0]);
    WordsInitials(ws);
    assert GetInitials(Join(ws, ' ')) == Prefix(ToUpper(f), 2);
    UpperPrefix(f);
  }

  /** The upper-cased first one or two characters. */
  lemma UpperPrefix(f: string)
    ensures |f| == 1 ==> Prefix(ToUpper(f), 2) == [UpperChar(f[0])]
    ensures |f| >= 2 ==> Prefix(ToUpper(f), 2) == [UpperChar(f[0]), UpperChar(f[1])]
  {
    var u := ToUpper(f);
    if |f| >= 2 {
      assert Prefix(u, 2) == [u[0], u[1]];
    } else if |f| == 1 {
      assert Prefix(u, 2) == [u[0]];
    }
  }

  /** An independent description of the initials before upper-casing: the
      characters other than a space that start the name (when `atStart`)
      or follow a space. */
  function Heads(s: string, atStart: bool): (r: string)
    ensures |r| <= |s| && ' ' !in r
  {
    if s == [] then []
    else (if atStart && s[0] != ' ' then [s[0]] else []) + Heads(s[1..], s[0] == ' ')
  }

  /** The first characters of the split words are exactly those heads, for
      every name; the words after the first give the heads that follow a
      space. */
  lemma {:induction false} FirstsIsHeads(s: string)
    ensures Firsts(Split(s, ' ')) == Heads(s, true)
    ensures Firsts(Split(s, ' ')[1..]) == Heads(s, false)
  {
    if s != [] {
      var t := s[1..];
      FirstsIsHeads(t);
      assert s == [s[0]] + t;
      var rest := Split(t, ' ');
      if s[0] == ' ' {
        SplitSep(t, ' ');
        FirstsAppend([[]], rest);
        assert Split(s, ' ')[1..] == rest;
      } else {
        SplitCons(s[0], t, ' ');
        FirstsAppend([[s[0]] + rest[0]], rest[1..]);
        assert Split(s, ' ')[1..] == rest[1..];
      }
    }
  }

  /** So for every name the initials are its heads upper-cased and cut to
      two. */
  lemma InitialsAreHeads(name: string)
    ensures GetInitials(name) == Prefix(ToUpper(Heads(name, true)), 2)
  {
    FirstsIsHeads(name);
  }

  /** `str.split('@')[0]`: the part of the address before its first `@`, the
      whole address if there is none. */
  function LocalPart(email: string): (r: string)
    ensures '@' !in r && r <= email
    ensures '@' in email ==> email[|r|] == '@'
    ensures '@' !in email ==> r == email
  {
    if email == [] || email[0] == '@' then [] else [email[0]] + LocalPart(email[1..])
  }

  /** The split really does give the local part as its first piece. */
  lemma {:induction false} LocalPartIsFirstPiece(email: string)
    ensures Split(email, '@')[0] == LocalPart(email)
  {
    if email != [] && email[0] != '@' {
      LocalPartIsFirstPiece(email[1..]);
    }
  }

  /** `user?.user_metadata?.user_name || user?.email?.split('@')[0] ||
      'Usuario'`: the first non-empty of the three. */
  function UserName(user: Option<User>): (r: string)
    ensures r != []
    ensures UserNameField(user) != [] ==> r == UserNameField(user)
    ensures UserNameField(user) == [] && LocalPart(EmailField(user)) != [] ==>
      r == LocalPart(EmailField(user))
    ensures UserNameField(user) == [] && LocalPart(EmailField(user)) == [] ==> r == DefaultName
  {
    if UserNameField(user) != [] then UserNameField(user)
    else if LocalPart(EmailField(user)) != [] then LocalPart(EmailField(user))
    else DefaultName
  }

  /** The user's display name, empty when any step of the optional chain is
      missing (both read as falsy). */
  function UserNameField(user: Option<User>): (r: string)
    ensures r != [] ==>
      user.Some? && user.value.user_metadata.Some? && user.value.user_metadata.value.user_name == Some(r)
    ensures user.None? || user.value.user_metadata.None? ==> r == []
  {
    if user.Some? && user.value.user_metadata.Some? && user.value.user_metadata.value.user_name.Some?
    then user.value.user_metadata.value.user_name.value
    else []
  }

  /** `user?.email || ''`: the address, or empty when there is none. */
  function EmailField(user: Option<User>): (r: string)
    ensures user.Some? && user.value.email.Some? ==> r == user.value.email.value
    ensures user.None? || user.value.email.None? ==> r == []
  {
    if user.Some? && user.value.email.Some? then user.value.email.value else []
  }

  /** The fallback name's initials are "U". */
  lemma FallbackInitials()
    ensures GetInitials(DefaultName) == "U"
  {
    SingleWordInitial(DefaultName);
  }

  /** A name taken from the address is never empty and contains no `@`. */
  lemma NameFromEmail(user: Option<User>)
    requires UserNameField(user) == [] && LocalPart(EmailField(user)) != []
    ensures UserName(user) != [] && '@' !in UserName(user)
  {
  }
}
