/** Patterns in sequences. */
module Sequences {
  predicate MatchAt<T(==)>(s: seq<T>, pattern: seq<T>, i: nat) {
    i + |pattern| <= |s| && s[i..i + |pattern|] == pattern
  }
}
