/**
 * The ASCII part of the character classes of Python's `str` methods and `re` module. Letters
 * and blanks beyond ASCII belong to no class here, as under the `re.ASCII` flag.
 */
module Ascii {
  function Lower(c: char): char {
    if 'A' <= c <= 'Z' then (c as int + 32) as char else c
  }

  function Upper(c: char): char {
    if 'a' <= c <= 'z' then (c as int - 32) as char else c
  }

  function LowerAll(s: string): (r: string)
    ensures |r| == |s| && forall i :: 0 <= i < |s| ==> r[i] == Lower(s[i])
  {
    seq(|s|, i requires 0 <= i < |s| => Lower(s[i]))
  }

  function UpperAll(s: string): (r: string)
    ensures |r| == |s| && forall i :: 0 <= i < |s| ==> r[i] == Upper(s[i])
  {
    seq(|s|, i requires 0 <= i < |s| => Upper(s[i]))
  }

  /** `str.isspace` and `\s`: tab to carriage return, the four separators, and the blank. */
  predicate IsSpace(c: char) {
    9 <= c as int <= 13 || 28 <= c as int <= 32
  }

  /** `\w`: letters, digits and the underscore. */
  predicate IsWordChar(c: char) {
    'a' <= c <= 'z' || 'A' <= c <= 'Z' || '0' <= c <= '9' || c == '_'
  }

  // ---------------------------------------------------------------------------------------
  // Stripping a class of characters from the ends
  // ---------------------------------------------------------------------------------------

  type Class = char -> bool

  /** The text without its longest prefix of characters of the class. */
  function DropLeading(s: string, inClass: Class): (r: string)
    ensures |r| <= |s|
  {
    if s != [] && inClass(s[0]) then DropLeading(s[1..], inClass) else s
  }

  function DropTrailing(s: string, inClass: Class): string {
    if s != [] && inClass(s[|s| - 1]) then DropTrailing(s[..|s| - 1], inClass) else s
  }

  /** `str.strip`. */
  function Strip(s: string, inClass: Class): string {
    DropTrailing(DropLeading(s, inClass), inClass)
  }

  predicate AllIn(s: string, inClass: Class) {
    forall i :: 0 <= i < |s| ==> inClass(s[i])
  }

  lemma {:induction false} DropLeadingIs(a: string, r: string, inClass: Class)
    requires AllIn(a, inClass) && (r != [] ==> !inClass(r[0]))
    ensures DropLeading(a + r, inClass) == r
  {
    if a == [] {
      assert a + r == r;
    } else {
      assert (a + r)[1..] == a[1..] + r;
      DropLeadingIs(a[1..], r, inClass);
    }
  }

  lemma {:induction false} DropTrailingIs(r: string, b: string, inClass: Class)
    requires AllIn(b, inClass) && (r != [] ==> !inClass(r[|r| - 1]))
    ensures DropTrailing(r + b, inClass) == r
  {
    if b == [] {
      assert r + b == r;
    } else {
      assert (r + b)[..|r + b| - 1] == r + b[..|b| - 1];
      DropTrailingIs(r, b[..|b| - 1], inClass);
    }
  }

  lemma StripIs(a: string, m: string, b: string, inClass: Class)
    requires AllIn(a, inClass) && AllIn(b, inClass)
    requires m != [] ==> !inClass(m[0]) && !inClass(m[|m| - 1])
    requires m == [] ==> b == []
    ensures Strip(a + m + b, inClass) == m
  {
    assert a + m + b == a + (m + b);
    DropLeadingIs(a, m + b, inClass);
    DropTrailingIs(m, b, inClass);
  }

  lemma {:induction false} DropLeadingSplits(s: string, inClass: Class) returns (a: string)
    ensures s == a + DropLeading(s, inClass) && AllIn(a, inClass)
    ensures DropLeading(s, inClass) != [] ==> !inClass(DropLeading(s, inClass)[0])
  {
    if s != [] && inClass(s[0]) {
      a := DropLeadingSplits(s[1..], inClass);
      a := [s[0]] + a;
    } else {
      a := [];
    }
  }

  lemma {:induction false} DropTrailingSplits(s: string, inClass: Class) returns (b: string)
    ensures s == DropTrailing(s, inClass) + b && AllIn(b, inClass)
  {
    if s != [] && inClass(s[|s| - 1]) {
      b := DropTrailingSplits(s[..|s| - 1], inClass);
      b := b + [s[|s| - 1]];
    } else {
      b := [];
    }
  }

  lemma Regroup(a: string, b: string, c: string)
    ensures a + (b + c) == a + b + c
  {
  }

  lemma StripSplits(s: string, inClass: Class) returns (a: string, b: string)
    ensures s == a + Strip(s, inClass) + b && AllIn(a, inClass) && AllIn(b, inClass)
  {
    a := DropLeadingSplits(s, inClass);
    b := DropTrailingSplits(DropLeading(s, inClass), inClass);
    Regroup(a, Strip(s, inClass), b);
  }
}
