/** `components/Avatar.tsx`: a user's picture, or the initials of the username when there is
    no picture. Case mapping is ASCII, as everywhere in this model. */
module Avatar {
  import opened Common
  import opened Tables
  import opened UiTypes

  /** `word.charAt(0)?.toUpperCase()`: the upper-cased first character, `''` for an empty word. */
  function FirstUpper(word: string): (r: string)
    ensures word == "" <==> r == ""
    ensures word != "" ==> r == [UpperChar(word[0])]
  {
    if word == "" then "" else [UpperChar(word[0])]
  }

  /** `filter(Boolean)` on strings: the non-empty ones, in order. */
  function NonEmpty(pieces: seq<string>): (r: seq<string>)
    ensures forall k :: 0 <= k < |r| ==> r[k] != ""
  {
    Where(pieces, (s: string) => s != "")
  }

  /** `name.split(' ').map(firstUpper).filter(Boolean).slice(0, 2).join('')`. */
  function Initials(name: string): string {
    Concat(Take(NonEmpty(Map(Split(name, ' '), FirstUpper)), 2))
  }

  /** The letters the initials are taken from: one upper-cased character per non-empty word,
      in order. */
  function InitialLetters(name: string): (r: seq<string>)
    ensures forall k :: 0 <= k < |r| ==> |r[k]| == 1
  {
    NonEmpty(Map(Split(name, ' '), FirstUpper))
  }

  /** At most two characters, each the upper-cased first character of a word, in word order. */
  lemma InitialsShape(name: string)
    ensures var letters := InitialLetters(name);
      && |Initials(name)| == (if |letters| < 2 then |letters| else 2)
      && (forall k :: 0 <= k < |Initials(name)| ==> Initials(name)[k] == letters[k][0])
      && (forall k :: 0 <= k < |Initials(name)| ==> UpperChar(Initials(name)[k]) == Initials(name)[k])
  {
    var letters := InitialLetters(name);
    var taken := Take(letters, 2);
    ConcatSingles(taken);
    forall k | 0 <= k < |taken| ensures UpperChar(taken[k][0]) == taken[k][0] {
      assert letters[k] in NonEmpty(Map(Split(name, ' '), FirstUpper));
      var pieces := Map(Split(name, ' '), FirstUpper);
      var j :| 0 <= j < |pieces| && pieces[j] == letters[k];
    }
  }

  /** A name with no letters gives no initials. */
  lemma EmptyNameNoInitials()
    ensures Initials("") == ""
  {
    assert Split("", ' ') == [""];
    assert Map([""], FirstUpper) == [""];
  }

  /** Two words give the first letter of each. */
  lemma TwoWordInitials(first: string, last: string)
    requires first != "" && last != "" && ' ' !in first && ' ' !in last
    ensures Initials(first + " " + last) == [UpperChar(first[0]), UpperChar(last[0])]
  {
    SplitAppend(first, ' ', last);
    SplitWord(first);
    SplitWord(last);
    assert first + " " + last == first + [' '] + last;
    var letters := [[UpperChar(first[0])], [UpperChar(last[0])]];
    assert Map(Split(first + " " + last, ' '), FirstUpper) == letters;
    WhereAll(letters, (s: string) => s != "");
    assert Take(NonEmpty(letters), 2) == letters;
    ConcatSingles(letters);
  }

  /** A string without the separator is one piece. */
  lemma {:induction false} SplitWord(w: string)
    requires ' ' !in w
    ensures Split(w, ' ') == [w]
  {
    if w != [] {
      assert ' ' !in w[1..] by {
        forall k | 0 <= k < |w[1..]| ensures w[1..][k] != ' ' { assert w[1..][k] == w[k + 1]; }
      }
      SplitWord(w[1..]);
      assert [w[0]] + w[1..] == w;
    }
  }

  /** Leading spaces add nothing to the initials: the empty word they produce is filtered out. */
  lemma LeadingSpaceIgnored(name: string)
    ensures Initials(" " + name) == Initials(name)
  {
    assert (" " + name)[1..] == name;
    var pieces := Split(name, ' ');
    assert Split(" " + name, ' ') == [""] + pieces;
    MapAppend([""], pieces, FirstUpper);
    WhereAppend(Map([""], FirstUpper), Map(pieces, FirstUpper), (s: string) => s != "");
  }

  /** Repeated spaces between words add nothing either. */
  lemma RepeatedSpaceIgnored(before: string, after: string)
    ensures Initials(before + "  " + after) == Initials(before + " " + after)
  {
    assert before + "  " + after == before + [' '] + (" " + after);
    assert before + " " + after == before + [' '] + after;
    SplitAppend(before, ' ', " " + after);
    SplitAppend(before, ' ', after);
    var a := Split(before, ' ');
    var b := Split(after, ' ');
    assert (" " + after)[1..] == after;
    assert Split(" " + after, ' ') == [""] + b;
    var p := (s: string) => s != "";
    MapAppend(a, [""] + b, FirstUpper);
    MapAppend([""], b, FirstUpper);
    MapAppend(a, b, FirstUpper);
    WhereAppend(Map(a, FirstUpper), Map([""] + b, FirstUpper), p);
    WhereAppend(Map([""], FirstUpper), Map(b, FirstUpper), p);
    WhereAppend(Map(a, FirstUpper), Map(b, FirstUpper), p);
  }

  /** `word[0]` joined as a string: `''` for an empty word (`undefined` joins as nothing). */
  function FirstChar(word: string): string {
    if word == "" then "" else [word[0]]
  }

  /** Dropping empty pieces does not change a concatenation. */
  lemma {:induction false} ConcatSkipsEmpty(pieces: seq<string>)
    ensures Concat(NonEmpty(pieces)) == Concat(pieces)
  {
    if pieces != [] {
      var tail := pieces[1..];
      ConcatSkipsEmpty(tail);
      assert Concat(pieces) == pieces[0] + Concat(tail);
      var rest := NonEmpty(tail);
      if pieces[0] != "" {
        var kept := [pieces[0]] + rest;
        assert NonEmpty(pieces) == kept;
        assert kept[0] == pieces[0] && kept[1..] == rest;
        assert Concat(kept) == pieces[0] + Concat(rest);
      } else {
        assert NonEmpty(pieces) == rest;
        assert pieces[0] + Concat(tail) == Concat(tail);
      }
    }
  }

  /** The other spelling of initials in this client, `name.split(' ').map(n => n[0]).join('')`
      followed by upper-casing and keeping two characters (in either order), gives the same
      string as `Initials`. */
  lemma JoinedInitialsAgree(name: string)
    ensures Take(ToUpper(Concat(Map(Split(name, ' '), FirstChar))), 2) == Initials(name)
    ensures ToUpper(Take(Concat(Map(Split(name, ' '), FirstChar)), 2)) == Initials(name)
  {
    var pieces := Split(name, ' ');
    var joined := Concat(Map(pieces, FirstChar));
    ToUpperConcat(Map(pieces, FirstChar));
    forall k | 0 <= k < |pieces| ensures ToUpper(FirstChar(pieces[k])) == FirstUpper(pieces[k]) {
      if pieces[k] != "" {
        assert ToUpper(FirstChar(pieces[k]))[0] == UpperChar(pieces[k][0]);
      }
    }
    assert Map(Map(pieces, FirstChar), ToUpper) == Map(pieces, FirstUpper);
    var letters := InitialLetters(name);
    ConcatSkipsEmpty(Map(pieces, FirstUpper));
    assert ToUpper(joined) == Concat(letters);
    ConcatSingles(letters);
    ConcatSingles(Take(letters, 2));
    assert Take(ToUpper(joined), 2) == Initials(name);
    assert ToUpper(Take(joined, 2)) == Take(ToUpper(joined), 2);
  }

  /** The `size` prop; `'md'` when not given. */
  datatype Size = Sm | Md | Lg

  const DefaultSize := Md

  function SizeClass(size: Size): string {
    match size
    case Sm => "w-8 h-8 text-xs"
    case Md => "w-10 h-10 text-sm"
    case Lg => "w-12 h-12 text-base"
  }

  /** What the component shows. */
  datatype AvatarView = AvatarView(title: string, image: Option<string>, initials: string, sizeClass: string)

  /** The picture when `user.avatar` is truthy, the initials otherwise; the title is the
      username and the size class follows the (defaulted) size. */
  function Render(user: UiUser, size: Option<Size>): (v: AvatarView)
    ensures v.title == user.username
    ensures v.image.Some? <==> Truthy(user.avatar)
    ensures v.image.Some? ==> v.image == user.avatar && v.initials == ""
    ensures v.image.None? ==> v.initials == Initials(user.username)
    ensures size.None? ==> v.sizeClass == SizeClass(Md)
    ensures size.Some? ==> v.sizeClass == SizeClass(size.value)
  {
    var s := if size.Some? then size.value else DefaultSize;
    if Truthy(user.avatar) then AvatarView(user.username, user.avatar, "", SizeClass(s))
    else AvatarView(user.username, None, Initials(user.username), SizeClass(s))
  }

  /** The three sizes render differently. */
  lemma SizeClassesDistinct(a: Size, b: Size)
    requires a != b
    ensures SizeClass(a) != SizeClass(b)
  {
    assert SizeClass(Sm)[2] != SizeClass(Md)[2];
    assert SizeClass(Sm)[2] != SizeClass(Lg)[2];
    assert SizeClass(Md)[3] != SizeClass(Lg)[3];
  }
}
