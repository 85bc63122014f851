/** Character classification shared by the two lexers. */
module Chars {

  /** .NET's `char.IsWhiteSpace`: the Unicode White_Space characters other than the Cf ones. */
  predicate IsWhiteSpace(c: char)
  {
    || ('\t' <= c <= '\r')
    || c == ' ' || c == '\U{0085}' || c == '\U{00A0}' || c == '\U{1680}'
    || ('\U{2000}' <= c <= '\U{200A}')
    || c == '\U{2028}' || c == '\U{2029}' || c == '\U{202F}' || c == '\U{205F}' || c == '\U{3000}'
  }

  /** The character a lexer cursor sees at position i: NUL at or past the end of the text. */
  function CharAt(s: string, i: nat): char
  {
    if i < |s| then s[i] else '\0'
  }

  /**
   * The first position at or after i whose character is not blank: where a SkipWhitespace
   * loop started at i stops. NUL is not blank, so the end of the text stops it too.
   */
  function SkipFrom(s: string, i: nat): (j: nat)
    ensures i <= j && (i <= |s| ==> j <= |s|) && (i < j ==> j <= |s|)
    ensures !IsWhiteSpace(CharAt(s, j))
    ensures forall k :: i <= k < j ==> IsWhiteSpace(s[k])
    decreases |s| - i
  {
    if IsWhiteSpace(CharAt(s, i)) then SkipFrom(s, i + 1) else i
  }

  /** The exception both lexers throw on a character they do not recognise. */
  datatype LexError = UnknownCharacter(c: char) {
    function Message(): string
    {
      "Unknown character: " + [c]
    }
  }
}
