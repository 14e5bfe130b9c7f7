/** The characters the user sees and types: the colour labels, which are also the keys
    that turn the faces, and the checks on the command-line arguments. A C string is
    modelled as the `string` of its characters before the terminating NUL, so it never
    contains '\0'. */
module Labels {
  import opened Geometry
  import opened Points

  /** The default labels of the six colours. */
  const DEFAULT_COLOR_CHARS: string := "123456"
  /** The character shown for a face without a sticker. */
  const EMPTY_CHAR: char := ' '
  const MINUS: char := '-'
  const APOS: char := '\''

  /** A C string: no NUL before its end. */
  predicate IsCString(s: string) {
    '\0' !in s
  }

  /** The offset that strchr(s, c) - s gives: the first index of c in s, the index of the
      terminator when c is NUL, and -1 where strchr returns NULL. */
  function Strchr(s: string, c: char): (r: int)
    requires IsCString(s)
    ensures c == '\0' ==> r == |s|
    ensures c != '\0' ==> (r == -1 <==> c !in s)
    ensures c != '\0' && r != -1 ==> 0 <= r < |s| && s[r] == c && c !in s[..r]
  {
    if |s| == 0 then (if c == '\0' then 0 else -1)
    else if s[0] == c then 0
    else
      var k := Strchr(s[1..], c);
      assert s[1..][..if k == -1 then 0 else k] == s[1..1 + if k == -1 then 0 else k];
      if k == -1 then -1 else k + 1
  }

  /** A character that isgraph accepts in the C locale: printable and not a space. */
  predicate IsGraph(c: char) {
    33 <= c as int <= 126
  }

  /** The colour labels the program accepts: six printable characters, none of them a
      minus or an apostrophe, all different. */
  predicate ColorCharsOk(s: string) {
    |s| == NFACES
    && (forall i :: 0 <= i < |s| ==> IsGraph(s[i]) && s[i] != APOS && s[i] != MINUS)
    && (forall i, j :: 0 <= i < j < |s| ==> s[i] != s[j])
  }

  /** The label shown for a colour, and a space for no colour. */
  function ColorToChar(chars: string, face: int): (c: char)
    requires face == EMPTY_COLOR || 0 <= face < |chars|
    ensures face == EMPTY_COLOR ==> c == EMPTY_CHAR
    ensures face != EMPTY_COLOR ==> c == chars[face]
  {
    if face != EMPTY_COLOR then chars[face] else EMPTY_CHAR
  }

  /** char_to_color as written: the offset strchr finds, so that the NUL character, which
      strchr finds at the terminator, maps to |chars|, one past the last colour. */
  function CharToColorAsWritten(chars: string, c: char): (r: int)
    requires IsCString(chars)
    ensures c == '\0' ==> r == |chars|
    ensures c != '\0' ==> r == CharToColor(chars, c)
  {
    var p := Strchr(chars, c);
    if p != -1 then p else EMPTY_COLOR
  }

  /** The NUL character, which reading a zero byte yields, names the colour 6 under the
      default labels: a face that does not exist. */
  lemma NulNamesNoFace()
    ensures CharToColorAsWritten(DEFAULT_COLOR_CHARS, '\0') == 6
    ensures !IsFace(CharToColorAsWritten(DEFAULT_COLOR_CHARS, '\0'))
  {
  }

  /** The colour a label names: the first index of c among the labels, or EMPTY_COLOR
      when c is no label, the NUL character included. */
  function CharToColor(chars: string, c: char): (r: int)
    requires IsCString(chars)
    ensures r == EMPTY_COLOR <==> c !in chars
    ensures r != EMPTY_COLOR ==> 0 <= r < |chars| && chars[r] == c && c !in chars[..r]
  {
    if c == '\0' then EMPTY_COLOR else Strchr(chars, c)
  }

  /** With distinct labels, naming a colour's label gives the colour back. */
  lemma CharToColorToChar(chars: string, face: int)
    requires ColorCharsOk(chars) && 0 <= face < NFACES
    ensures CharToColor(chars, ColorToChar(chars, face)) == face
  {
    var c := chars[face];
    var r := CharToColor(chars, c);
    assert c != '\0';
  }

  /** Every label shows again as the label of the colour it names. */
  lemma ColorToCharToColor(chars: string, c: char)
    requires IsCString(chars) && c in chars
    ensures ColorToChar(chars, CharToColor(chars, c)) == c
  {
  }

  /** With valid labels, the colours named by labels are exactly the six faces; every
      other character, the NUL character included, names none. */
  lemma CharToColorRange(chars: string, c: char)
    requires ColorCharsOk(chars)
    ensures CharToColor(chars, c) == EMPTY_COLOR || IsFace(CharToColor(chars, c))
  {
  }

  /** Whether arg is a cube point: twenty letters from 'A' to 'X'. */
  method ValidCubePointChars(arg: string) returns (ok: bool)
    requires IsCString(arg)
    ensures ok <==> |arg| == NMINICUBES && forall i :: 0 <= i < |arg| ==> IsOrientLetter(arg[i])
  {
    var i := 0;
    while i < |arg|
      invariant 0 <= i <= |arg|
      invariant forall j :: 0 <= j < i ==> IsOrientLetter(arg[j])
    {
      var c := arg[i];
      if c < 'A' || c as int > 'A' as int + 24 - 1 {
        return false;
      }
      i := i + 1;
    }
    if i != NMINICUBES {
      return false;
    }
    return true;
  }

  /** Whether arg can label the colours: six printable characters, none a minus or an
      apostrophe, none repeated. */
  method ValidColorChars(arg: string) returns (ok: bool)
    requires IsCString(arg)
    ensures ok <==> ColorCharsOk(arg)
  {
    var i := 0;
    while i < |arg|
      invariant 0 <= i <= |arg|
      invariant forall j :: 0 <= j < i ==> IsGraph(arg[j]) && arg[j] != APOS && arg[j] != MINUS
      invariant forall j, k :: 0 <= j < k < i ==> arg[j] != arg[k]
    {
      var c := arg[i];
      if !IsGraph(c) || c == APOS || c == MINUS || Strchr(arg, c) < i {
        if Strchr(arg, c) < i {
          var j := Strchr(arg, c);
          assert arg[j] == arg[i] && j < i;
        }
        return false;
      }
      assert arg[i] !in arg[..i];
      i := i + 1;
    }
    if i != NFACES {
      return false;
    }
    return true;
  }

  /** The default labels are valid. */
  lemma DefaultColorCharsOk()
    ensures ColorCharsOk(DEFAULT_COLOR_CHARS)
  {
  }
}
