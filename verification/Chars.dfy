/** The character classes the shell's scanners ask about. */
module Chars {
  predicate IsWhitespace(c: char) {
    var u := c as int;
    || 0x9 <= u <= 0xD || u == 0x20 || u == 0x85 || u == 0xA0 || u == 0x1680 || 0x2000 <= u <= 0x200A
    || u == 0x2028 || u == 0x2029 || u == 0x202F || u == 0x205F || u == 0x3000
  }

  predicate IsAlphabetic(c: char) {
    'a' <= c <= 'z' || 'A' <= c <= 'Z'
  }

  /** A letter, a digit or an underscore. */
  predicate IsWordChar(c: char) {
    IsAlphabetic(c) || '0' <= c <= '9' || c == '_'
  }
}
