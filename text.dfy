// String helpers shared by the router and the argument parsers: the two
// pieces of Go's `strings` package that the command code relies on.
module Text {

  /** Go's strings.HasPrefix: `s` begins with `p` (case-sensitive, exact). */
  predicate HasPrefix(s: string, p: string)
  {
    |p| <= |s| && s[..|p|] == p
  }

  /** Go's unicode.IsSpace, the separator test strings.Fields uses:
      the ASCII blanks \t \n \v \f \r and space, plus U+0085, U+00A0 and
      the Unicode space separators U+1680, U+2000..U+200A, U+2028, U+2029,
      U+202F, U+205F and U+3000. */
  predicate IsSpace(c: char)
  {
    var x := c as int;
    (9 <= x <= 13) || x == 32 || x == 0x85 || x == 0xA0 || x == 0x1680
    || (0x2000 <= x <= 0x200A) || x == 0x2028 || x == 0x2029
    || x == 0x202F || x == 0x205F || x == 0x3000
  }

  lemma {:induction false} HasPrefixConcat(p: string, rest: string)
    ensures HasPrefix(p + rest, p) && (p + rest)[|p|..] == rest
  {
    assert (p + rest)[..|p|] == p;
  }
}
