/** Prefix tests on strings and byte strings, as Go's `strings.HasPrefix` and `bytes.HasPrefix`. */
module Strings {
  predicate HasPrefix<T(==)>(s: seq<T>, prefix: seq<T>) {
    |prefix| <= |s| && s[..|prefix|] == prefix
  }

  lemma HasPrefixAppend<T>(prefix: seq<T>, rest: seq<T>)
    ensures HasPrefix(prefix + rest, prefix)
  {
    assert (prefix + rest)[..|prefix|] == prefix;
  }
}
