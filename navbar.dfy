/** The two pure helpers of components/navbar.tsx: the avatar initials
    computed from the signed-in user's name with JavaScript's `split(" ")`,
    and the class name that marks the link of the current page. Upper-casing
    is modelled for ASCII letters only. */
module Navbar {
  import opened Common

  /** The position of the first space. */
  function FirstSpace(s: string): (i: nat)
    requires ' ' in s
    ensures i < |s| && s[i] == ' ' && ' ' !in s[..i]
  {
    if s[0] == ' ' then 0
    else
      var i := 1 + FirstSpace(s[1..]);
      assert s[..i] == [s[0]] + s[1..][..i - 1];
      i
  }

  /** The position of the last space. */
  function LastSpace(s: string): (i: nat)
    requires ' ' in s
    ensures i < |s| && s[i] == ' ' && ' ' !in s[i + 1..]
  {
    if s[|s| - 1] == ' ' then |s| - 1
    else
      var init := s[..|s| - 1];
      assert ' ' in init;
      var i := LastSpace(init);
      assert s[i + 1..] == init[i + 1..] + [s[|s| - 1]];
      i
  }

  /** `s.split(" ")`: the texts between the spaces; n spaces give n + 1 parts.
      Defined character by character: a space opens a new part, any other
      character joins the part being read. */
  function Split(s: string): (parts: seq<string>)
    ensures 1 <= |parts|
  {
    if s == [] then [""]
    else
      var rest := Split(s[1..]);
      if s[0] == ' ' then [""] + rest else [[s[0]] + rest[0]] + rest[1..]
  }

  /** No part contains a space. */
  lemma {:induction false} SplitNoSpace(s: string)
    ensures forall k :: 0 <= k < |Split(s)| ==> ' ' !in Split(s)[k]
  {
    if s != [] {
      SplitNoSpace(s[1..]);
    }
  }

  /** `parts.join(" ")`. */
  function Join(parts: seq<string>): string
    requires 1 <= |parts|
  {
    if |parts| == 1 then parts[0] else parts[0] + " " + Join(parts[1..])
  }

  /** Joining the parts with spaces gives back the name. */
  lemma {:induction false} JoinSplit(s: string)
    ensures Join(Split(s)) == s
  {
    if s != [] {
      var rest := Split(s[1..]);
      JoinSplit(s[1..]);
      if s[0] == ' ' {
        assert Split(s)[1..] == rest;
      } else if |rest| == 1 {
        assert Join(Split(s)) == [s[0]] + rest[0];
      } else {
        assert Split(s)[1..] == rest[1..];
        assert Join(Split(s)) == [s[0]] + (rest[0] + " " + Join(rest[1..]));
      }
      assert s == [s[0]] + s[1..];
    }
  }

  /** A name splits into one part exactly when it has no space. */
  lemma {:induction false} SplitSingle(s: string)
    ensures |Split(s)| == 1 <==> ' ' !in s
  {
    if s != [] {
      SplitSingle(s[1..]);
      assert s == [s[0]] + s[1..];
    }
  }

  /** With a space, the first part is the text before the first space. */
  lemma {:induction false} SplitFirst(s: string)
    requires ' ' in s
    ensures Split(s)[0] == s[..FirstSpace(s)]
  {
    if s[0] != ' ' {
      assert s == [s[0]] + s[1..];
      SplitFirst(s[1..]);
      assert s[..FirstSpace(s)] == [s[0]] + s[1..][..FirstSpace(s[1..])];
    }
  }

  /** With a space, the last part is the text after the last space. */
  lemma {:induction false} SplitLast(s: string)
    requires ' ' in s
    ensures Split(s)[|Split(s)| - 1] == s[LastSpace(s) + 1..]
  {
    var tail := s[1..];
    SplitSingle(tail);
    SplitLastStep(s);
    if ' ' in tail {
      SplitLast(tail);
      LastSpaceAfterFirst(s);
    } else {
      SplitLastOnlyFirst(s);
    }
  }

  /** When the first space is the only one, the last part is everything after it. */
  lemma SplitLastOnlyFirst(s: string)
    requires s != [] && s[0] == ' ' && ' ' !in s[1..]
    ensures Split(s)[|Split(s)| - 1] == s[LastSpace(s) + 1..]
  {
    SplitSingle(s[1..]);
    JoinSplit(s[1..]);
    SplitLastStep(s);
    LastSpaceUnique(s, 0);
  }

  /** The text after the last space, seen from the text after the first character. */
  lemma LastSpaceAfterFirst(s: string)
    requires s != [] && ' ' in s[1..]
    ensures s[LastSpace(s) + 1..] == s[1..][LastSpace(s[1..]) + 1..]
  {
    LastSpaceShift(s, 0);
  }

  /** The last part is read from the text after the first character, unless
      that character extends a single remaining part. */
  lemma SplitLastStep(s: string)
    requires s != [] && (s[0] == ' ' || 2 <= |Split(s[1..])|)
    ensures Split(s)[|Split(s)| - 1] == Split(s[1..])[|Split(s[1..])| - 1]
  {
    var rest := Split(s[1..]);
    var parts := Split(s);
    if s[0] == ' ' {
      assert parts == [""] + rest;
    } else {
      assert parts == [[s[0]] + rest[0]] + rest[1..];
    }
  }

  /** The last space after a space at `i` is found in the text after `i`. */
  lemma LastSpaceShift(s: string, i: nat)
    requires i < |s| && ' ' in s[i + 1..]
    ensures LastSpace(s) == i + 1 + LastSpace(s[i + 1..])
  {
    var rest := s[i + 1..];
    var j := LastSpace(rest);
    assert s[i + 1 + j] == ' ' && s[i + 1 + j + 1..] == rest[j + 1..];
    LastSpaceUnique(s, i + 1 + j);
  }

  /** A space with no space after it is the last space. */
  lemma LastSpaceUnique(s: string, k: nat)
    requires k < |s| && s[k] == ' ' && ' ' !in s[k + 1..]
    ensures LastSpace(s) == k
  {
  }

  /** `s.charAt(0)`: the first character, or "" for the empty text. */
  function CharAt0(s: string): (r: string)
    ensures |r| <= 1
    ensures s != [] ==> r == [s[0]]
    ensures s == [] ==> r == []
  {
    if s == [] then [] else [s[0]]
  }

  /** ASCII `toUpperCase` of one character. */
  function UpperChar(c: char): (u: char)
    ensures 'a' <= c <= 'z' ==> 'A' <= u <= 'Z' && u as int == c as int - 32
    ensures !('a' <= c <= 'z') ==> u == c
  {
    if 'a' <= c <= 'z' then (c as int - 32) as char else c
  }

  /** `toUpperCase` on a text, character by character. */
  function Upper(s: string): (r: string)
    ensures |r| == |s|
    ensures forall k :: 0 <= k < |s| ==> r[k] == UpperChar(s[k])
  {
    if s == [] then [] else [UpperChar(s[0])] + Upper(s[1..])
  }

  /** `getUserInitials()` for the signed-in user's `name` (`None` when there is
      no user or no name). */
  function Initials(name: Option<string>): (r: string)
    ensures |r| <= 2
    ensures name.None? || name == Some("") ==> r == "U"
  {
    if name.None? || name.value == "" then "U" else InitialsOfParts(Split(name.value))
  }

  /** The initials of a non-empty name from its parts: the first part's first
      character, followed by the last part's when there are several parts. */
  function InitialsOfParts(parts: seq<string>): (r: string)
    requires 1 <= |parts|
    ensures |r| <= 2
  {
    if |parts| == 1 then Upper(CharAt0(parts[0]))
    else Upper(CharAt0(parts[0]) + CharAt0(parts[|parts| - 1]))
  }

  /** A name without a space gives its first character, upper-cased. */
  lemma InitialsOneWord(name: string)
    requires name != "" && ' ' !in name
    ensures Initials(Some(name)) == [UpperChar(name[0])]
  {
    SplitSingle(name);
    JoinSplit(name);
  }

  /** A name with a space gives the first character before the first space and
      the first character after the last space, both upper-cased; either is
      missing when that text is empty. */
  lemma InitialsSeveralWords(name: string)
    requires ' ' in name
    ensures Initials(Some(name)) ==
      Upper(CharAt0(name[..FirstSpace(name)]) + CharAt0(name[LastSpace(name) + 1..]))
  {
    SplitSingle(name);
    SplitFirst(name);
    SplitLast(name);
    InitialsFromEnds(name, name[..FirstSpace(name)], name[LastSpace(name) + 1..]);
  }

  /** A name of several parts takes its initials from the first and the last part. */
  lemma InitialsFromEnds(name: string, first: string, last: string)
    requires name != "" && 2 <= |Split(name)|
    requires Split(name)[0] == first && Split(name)[|Split(name)| - 1] == last
    ensures Initials(Some(name)) == Upper(CharAt0(first) + CharAt0(last))
  {
  }

  /** A name made only of spaces gives no initials at all. */
  lemma InitialsOnlySpaces(name: string)
    requires name != "" && forall k :: 0 <= k < |name| ==> name[k] == ' '
    ensures Initials(Some(name)) == ""
  {
    assert name[0] == ' ';
    InitialsSeveralWords(name);
    assert FirstSpace(name) == 0;
    LastSpaceUnique(name, |name| - 1);
  }

  /** `isActive(path)`: the bold class for the current page's link only. */
  function IsActive(pathname: string, path: string): (cls: string)
    ensures cls == "font-bold" <==> pathname == path
    ensures cls == "" <==> pathname != path
  {
    if pathname == path then "font-bold" else ""
  }
}
