/** Character classes and case mapping on ASCII, as used by the slug and the
    phone normalisation of generate-assets.js.

    The JavaScript `toLowerCase` maps every Unicode upper-case letter; this
    model maps only 'A'..'Z' and leaves every other character unchanged, so
    lower-casing never changes the length of a string. */
module Ascii {

  /** The class matched by `\d` in a JavaScript regular expression without
      the `u` flag: exactly the ten characters '0'..'9'. */
  predicate IsDigit(c: char) {
    '0' <= c <= '9'
  }

  predicate IsUpper(c: char) {
    'A' <= c <= 'Z'
  }

  predicate AllDigits(s: string) {
    forall i :: 0 <= i < |s| ==> IsDigit(s[i])
  }

  predicate NoUpper(s: string) {
    forall i :: 0 <= i < |s| ==> !IsUpper(s[i])
  }

  /** Lower-cases one character: an ASCII capital becomes its small letter. */
  function LowerChar(c: char): (r: char)
    ensures !IsUpper(r)
    ensures IsUpper(c) ==> 'a' <= r <= 'z'
    ensures !IsUpper(c) ==> r == c
  {
    if IsUpper(c) then (c as int - 'A' as int + 'a' as int) as char else c
  }

  /** Lower-cases a string one character at a time. */
  function Lower(s: string): (r: string)
    ensures |r| == |s|
    ensures forall i :: 0 <= i < |s| ==> r[i] == LowerChar(s[i])
    ensures NoUpper(r)
  {
    if s == [] then [] else [LowerChar(s[0])] + Lower(s[1..])
  }

  /** Only '\n' lower-cases to '\n', and a digit or punctuation mark is its
      own lower case. */
  lemma LowerCharFixes(c: char)
    ensures LowerChar(c) == '\n' <==> c == '\n'
    ensures LowerChar(c) == '-' <==> c == '-'
  {
  }

  /** Lower-casing is idempotent. */
  lemma LowerIdempotent(s: string)
    ensures Lower(Lower(s)) == Lower(s)
  {
  }

  /** A string without capitals is its own lower case. */
  lemma LowerOfNoUpper(s: string)
    requires NoUpper(s)
    ensures Lower(s) == s
  {
  }

  /** Lower-casing distributes over concatenation. */
  lemma LowerConcat(a: string, b: string)
    ensures Lower(a + b) == Lower(a) + Lower(b)
  {
  }
}
