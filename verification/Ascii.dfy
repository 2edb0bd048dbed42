/** Character classes of the C locale. */
module Ascii {

  /** isspace. */
  predicate Space(c: char) {
    c == ' ' || '\t' as int <= c as int <= '\r' as int
  }

  /** isalnum. */
  predicate Alnum(c: char) {
    'A' <= c <= 'Z' || 'a' <= c <= 'z' || '0' <= c <= '9'
  }

  /** toupper and tolower. */
  function UpperChar(c: char): char {
    if 'a' <= c <= 'z' then (c as int - 32) as char else c
  }

  function LowerChar(c: char): char {
    if 'A' <= c <= 'Z' then (c as int + 32) as char else c
  }
}
