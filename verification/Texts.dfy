/** What several modules ask of a text: how it begins, where its lines end, and what counts as a space. */
module Texts {
  predicate StartsWith(text: string, prefix: string) { prefix <= text }

  /** What `\s` of a JavaScript pattern matches, by code point. */
  predicate SpaceCode(code: int) {
    9 <= code <= 13 || code == 32 || code == 0xa0 || code == 0x1680 || 0x2000 <= code <= 0x200a || code == 0x2028 ||
    code == 0x2029 || code == 0x202f || code == 0x205f || code == 0x3000 || code == 0xfeff
  }

  /** The first newline from `at` on, or the end of the text when there is none. */
  function NewlineFrom(text: string, at: nat): (end: nat)
    requires at <= |text|
    ensures at <= end <= |text|
    ensures forall k :: at <= k < end ==> text[k] != '\n'
    ensures end < |text| ==> text[end] == '\n'
    decreases |text| - at
  {
    if at == |text| || text[at] == '\n' then at else NewlineFrom(text, at + 1)
  }
}
