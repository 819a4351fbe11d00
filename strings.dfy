/** Text predicates shared by the fence stripper, the highlighter and the prompt builder. */
module Strings {
  /** `p` is a prefix of `s`. */
  predicate StartsWith(s: string, p: string)
  {
    |p| <= |s| && s[..|p|] == p
  }
}
