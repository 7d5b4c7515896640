/**
 * The meaning of an anchored one-character-class pattern `^[...]+$`, optionally with the `i` flag,
 * following ECMAScript's regular-expression semantics (ECMA-262, section 22.2.2) for a pattern
 * without the `u` flag. Only the part of Canonicalize (ECMA-262, section 22.2.2.7.3) that touches
 * ASCII is written out: for a character at or above U+0080 Canonicalize never yields an ASCII
 * character, so keeping such characters unchanged does not alter which strings a class of
 * ASCII ranges matches.
 */
module RegExp {

  /** One range `lo-hi` of a character class; a single character `c` is the range `c-c`. */
  datatype ClassRange = ClassRange(lo: char, hi: char)

  /** `^[ranges]+$`, with `ignoreCase` standing for the `i` flag. */
  datatype Pattern = AnchoredPlus(ranges: seq<ClassRange>, ignoreCase: bool)

  /** Canonicalize for the ASCII letters: a lower-case letter stands for its upper-case form. */
  function Canonicalize(c: char): char {
    if 'a' <= c <= 'z' then (c as int - 32) as char else c
  }

  /** A character matches a range when some member of the range has the same canonical form. */
  ghost predicate RangeMatches(r: ClassRange, ignoreCase: bool, c: char) {
    if ignoreCase then exists d: char :: r.lo <= d <= r.hi && Canonicalize(d) == Canonicalize(c)
    else r.lo <= c <= r.hi
  }

  ghost predicate ClassMatches(ranges: seq<ClassRange>, ignoreCase: bool, c: char) {
    exists k :: 0 <= k < |ranges| && RangeMatches(ranges[k], ignoreCase, c)
  }

  /** The whole of `s` is one or more characters, each matched by the class. */
  ghost predicate Matches(p: Pattern, s: string)
    decreases |s|
  {
    |s| >= 1 && ClassMatches(p.ranges, p.ignoreCase, s[0]) && (|s| == 1 || Matches(p, s[1..]))
  }
}
