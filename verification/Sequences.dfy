/** Prefixes of sequences. */
module Sequences {
  predicate StartsWith<T(==)>(s: seq<T>, prefix: seq<T>) { |prefix| <= |s| && s[..|prefix|] == prefix }
}
