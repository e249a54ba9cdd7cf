/** Small things that several components share. */
module Basics {

  function Min(a: int, b: int): int { if a < b then a else b }

  function Max(a: int, b: int): int { if a < b then b else a }

  /** `isspace` in the C locale. */
  predicate IsSpace(c: char) { c in " \t\n\r" || c == 11 as char || c == 12 as char }
}
