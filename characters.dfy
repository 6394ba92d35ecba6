/** Character classes used by the scanners (kevi/characters.py) and by Python's `int()`/`float()`. */
module Characters {

  /**
   * The scanner's default skip set, element for element. Besides six one-character
   * strings it holds two three-character strings, NUL followed by "85" and NUL
   * followed by "a0": that is how the octal escapes in the source's literals read.
   */
  const DefaultSkip: set<string> := {"\t", "\n", "\U{B}", "\U{C}", "\r", " ", "\U{0}85", "\U{0}a0"}

  /** The scanner skips `c` when the one-character string made of it is in the set. */
  predicate Skips(skip: set<string>, c: char) {
    [c] in skip
  }

  /** The characters the default skip set actually skips. */
  const SkippedByDefault: set<char> := {'\t', '\n', '\U{B}', '\U{C}', '\r', ' '}

  lemma DefaultSkipIsWhitespace(c: char)
    ensures Skips(DefaultSkip, c) <==> c in SkippedByDefault
  {
  }

  predicate IsAsciiLetter(c: char) {
    'a' <= c <= 'z' || 'A' <= c <= 'Z'
  }

  predicate IsAsciiDigit(c: char) {
    '0' <= c <= '9'
  }

  predicate IsAsciiAlnum(c: char) {
    IsAsciiLetter(c) || IsAsciiDigit(c)
  }

  /** Characters of an identifier after `#`, `$` or `@`. */
  predicate IsIdentifierCharacter(c: char) {
    IsAsciiAlnum(c) || c == '_' || c == '$'
  }

  /** Characters of a property key in a model declaration. */
  predicate IsPropertyKeyCharacter(c: char) {
    IsAsciiAlnum(c) || c == '_' || c == '-'
  }

  /** The characters Python's `str.strip()` (and so `int()`/`float()`) treats as whitespace. */
  const PyWhitespace: set<char> := {
    '\t', '\n', '\U{B}', '\U{C}', '\r', '\U{1C}', '\U{1D}', '\U{1E}', '\U{1F}', ' ',
    '\U{85}', '\U{A0}', '\U{1680}', '\U{2000}', '\U{2001}', '\U{2002}', '\U{2003}',
    '\U{2004}', '\U{2005}', '\U{2006}', '\U{2007}', '\U{2008}', '\U{2009}', '\U{200A}',
    '\U{2028}', '\U{2029}', '\U{202F}', '\U{205F}', '\U{3000}'
  }
}
