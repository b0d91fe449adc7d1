/**
  The case-insensitive string comparison that the parser factory relies on
  (Java's `String.compareToIgnoreCase`).

  Java walks both strings up to the shorter length; at the first position
  where the characters differ even after upper-casing and then lower-casing
  both, it returns the difference of the lower-cased characters; otherwise it
  returns the difference of the lengths. The factory only ever asks whether
  the result is zero, which `CompareToIgnoreCaseZeroIff` characterises.

  The character case mappings cover the ASCII letters and the four non-ASCII
  characters Java maps onto ASCII letters: dotless i (U+0131) and long s
  (U+017F) upper-case to 'I' and 'S'; capital I with dot (U+0130) and the
  Kelvin sign (U+212A) lower-case to 'i' and 'k'.
 */
module CaseFold {

  /** `Character.toUpperCase`: ASCII letters, dotless i and long s; every other character is kept. */
  function ToUpper(c: char): char
  {
    if 'a' <= c <= 'z' then (c as int - 32) as char
    else if c == '\U{0131}' then 'I'
    else if c == '\U{017F}' then 'S'
    else c
  }

  /** `Character.toLowerCase`: ASCII letters, capital I with dot and the Kelvin sign; every other character is kept. */
  function ToLower(c: char): char
  {
    if 'A' <= c <= 'Z' then (c as int + 32) as char
    else if c == '\U{0130}' then 'i'
    else if c == '\U{212A}' then 'k'
    else c
  }

  /** The key two characters are compared on: lower case of upper case, as Java's comparator does. */
  function Fold(c: char): char
  {
    ToLower(ToUpper(c))
  }

  /** The folded form of a string, character by character. */
  function FoldCase(s: string): (r: string)
  {
    seq(|s|, i requires 0 <= i < |s| => Fold(s[i]))
  }

  /** The folded form of a string is determined character by character. */
  lemma FoldCaseIs(s: string, t: string)
    requires |s| == |t|
    requires forall i :: 0 <= i < |s| ==> Fold(s[i]) == t[i]
    ensures FoldCase(s) == t
  {
  }

  /**
    `a.compareToIgnoreCase(b)`: negative, zero or positive as `a` comes before,
    equals or comes after `b` ignoring case.
   */
  function CompareToIgnoreCase(a: string, b: string): int
    decreases |a|
  {
    if a == [] || b == [] then |a| - |b|
    else
      var c1, c2 := a[0], b[0];
      if c1 != c2 && ToUpper(c1) != ToUpper(c2)
         && ToLower(ToUpper(c1)) != ToLower(ToUpper(c2))
      then ToLower(ToUpper(c1)) as int - ToLower(ToUpper(c2)) as int
      else CompareToIgnoreCase(a[1..], b[1..])
  }

  /** Two strings compare equal ignoring case exactly when their folded forms are equal. */
  lemma {:induction false} CompareToIgnoreCaseZeroIff(a: string, b: string)
    ensures CompareToIgnoreCase(a, b) == 0 <==> FoldCase(a) == FoldCase(b)
    decreases |a|
  {
    if a == [] || b == [] {
      if FoldCase(a) == FoldCase(b) {
        assert |a| == |b|;
      }
    } else {
      var c1, c2 := a[0], b[0];
      assert FoldCase(a) == [Fold(c1)] + FoldCase(a[1..]);
      assert FoldCase(b) == [Fold(c2)] + FoldCase(b[1..]);
      if c1 != c2 && ToUpper(c1) != ToUpper(c2) && ToLower(ToUpper(c1)) != ToLower(ToUpper(c2)) {
        assert FoldCase(a)[0] != FoldCase(b)[0];
      } else {
        assert Fold(c1) == Fold(c2);
        CompareToIgnoreCaseZeroIff(a[1..], b[1..]);
        if FoldCase(a) == FoldCase(b) {
          assert FoldCase(a[1..]) == FoldCase(a)[1..];
          assert FoldCase(b[1..]) == FoldCase(b)[1..];
        }
      }
    }
  }

  /** Comparing ignoring case is symmetric in whether it reports equality. */
  lemma CompareToIgnoreCaseSymmetric(a: string, b: string)
    ensures CompareToIgnoreCase(a, b) == 0 <==> CompareToIgnoreCase(b, a) == 0
  {
    CompareToIgnoreCaseZeroIff(a, b);
    CompareToIgnoreCaseZeroIff(b, a);
  }
}
