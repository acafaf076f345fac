/** Python text operations shared by the parsers. */
module Texts {
  import opened Common

  /** A space or a tab. */
  predicate IsBlank(c: char) {
    c == ' ' || c == '\t'
  }

  /** What Python's `strip` removes, and what `\\s` matches. */
  predicate IsSpace(c: char) {
    var n := c as int;
    || 0x09 <= n <= 0x0d || 0x1c <= n <= 0x20 || n == 0x85 || n == 0xa0 || n == 0x1680
    || 0x2000 <= n <= 0x200a || n == 0x2028 || n == 0x2029 || n == 0x202f || n == 0x205f || n == 0x3000
  }

  function StripLeft(s: string): (r: string)
    ensures r != "" ==> !IsSpace(r[0])
  {
    if s != "" && IsSpace(s[0]) then StripLeft(s[1..]) else s
  }

  function StripRight(s: string): (r: string)
    ensures r != "" ==> !IsSpace(Last(r))
    ensures r <= s
  {
    if s != "" && IsSpace(Last(s)) then StripRight(Init(s)) else s
  }

  function Strip(s: string): string {
    StripRight(StripLeft(s))
  }

  function SkipBlanks(s: string): (r: string)
    ensures |r| <= |s| && (r != "" ==> !IsBlank(r[0]))
  {
    if s != "" && IsBlank(s[0]) then SkipBlanks(s[1..]) else s
  }

  /** Text without outer whitespace is left alone. */
  lemma StripTight(s: string)
    requires s != "" && !IsSpace(s[0]) && !IsSpace(Last(s))
    ensures Strip(s) == s && StripLeft(s) == s
  {
  }
}
