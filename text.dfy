/**
 * Blank titles. The add and update handlers refuse a draft whose title is
 * empty after `String.prototype.trim`. Here trim is written out as two
 * recursive passes that drop white space at the start and at the end, and
 * the refusal is related to the plain predicate "every character is white
 * space".
 */
module Text {

  /**
   * The characters trim removes: the WhiteSpace and LineTerminator code
   * points of ECMAScript (section 12.2 and 12.3 of ECMA-262), the space
   * separators of the Unicode category Zs included. Within ASCII these are
   * exactly the six C-locale white-space characters, and no letter or digit
   * is ever one of them.
   */
  function IsWhitespace(c: char): (b: bool)
    ensures c < '\U{0080}' ==> (b <==> c in {'\t', '\n', '\U{000B}', '\U{000C}', '\r', ' '})
    ensures b ==> !('0' <= c <= '9') && !('A' <= c <= 'Z') && !('a' <= c <= 'z')
  {
    c == '\t' || c == '\n' || c == '\U{000B}' || c == '\U{000C}' || c == '\r' || c == ' '
    || c == '\U{00A0}' || c == '\U{1680}' || ('\U{2000}' <= c <= '\U{200A}')
    || c == '\U{2028}' || c == '\U{2029}' || c == '\U{202F}' || c == '\U{205F}'
    || c == '\U{3000}' || c == '\U{FEFF}'
  }

  /** Every character of `s` is white space (the empty string included). */
  predicate IsBlank(s: string)
  {
    forall i :: 0 <= i < |s| ==> IsWhitespace(s[i])
  }

  /** `s` without its leading white space: a suffix of `s`, cut after a blank prefix. */
  function TrimStart(s: string): (r: string)
    ensures |r| <= |s| && r == s[|s| - |r|..]
    ensures IsBlank(s[..|s| - |r|])
    ensures r != [] ==> !IsWhitespace(r[0])
  {
    if s != [] && IsWhitespace(s[0]) then TrimStart(s[1..]) else s
  }

  /** `s` without its trailing white space: a prefix of `s`, followed by a blank suffix. */
  function TrimEnd(s: string): (r: string)
    ensures |r| <= |s| && r == s[..|r|]
    ensures IsBlank(s[|r|..])
    ensures r != [] ==> !IsWhitespace(r[|r| - 1])
  {
    if s != [] && IsWhitespace(s[|s| - 1]) then TrimEnd(s[..|s| - 1]) else s
  }

  /** `String.prototype.trim`: white space removed from both ends. */
  function Trim(s: string): (r: string)
    ensures r != [] ==> !IsWhitespace(r[0]) && !IsWhitespace(r[|r| - 1])
  {
    TrimEnd(TrimStart(s))
  }

  /** A title trims to the empty string exactly when it is blank. */
  lemma TrimEmptyIffBlank(s: string)
    ensures Trim(s) == [] <==> IsBlank(s)
  {
    var t := TrimStart(s);
    if Trim(s) == [] {
      // TrimEnd(t) is empty, so all of t is white space; a non-empty t would
      // start with a character that is not.
      assert t[0..] == t;
      assert t == [];
      assert s[..|s|] == s;
    }
  }

  /** The handlers' guard `!title.trim()`: the title trims to the empty string. */
  method TitleIsBlank(title: string) returns (blank: bool)
    ensures blank <==> IsBlank(title)
  {
    TrimEmptyIffBlank(title);
    blank := Trim(title) == [];
  }
}
