/** Case-insensitive name comparison, as the name parsers of the renderer
    and the Java enum lookups use it, restricted to ASCII letters. */
module Strings {

  function LowerAscii(c: char): char
  {
    if 'A' <= c <= 'Z' then (c as int + 32) as char else c
  }

  /** Equality of two strings once ASCII letters are folded to lower case,
      compared character by character from the front. */
  predicate EqualsIgnoreCase(a: string, b: string)
  {
    |a| == |b| && (|a| == 0 || (LowerAscii(a[0]) == LowerAscii(b[0]) && EqualsIgnoreCase(a[1..], b[1..])))
  }

  /** Strings of different lengths, or whose first letters differ ignoring
      case, are not equal ignoring case. */
  lemma DifferentNames(a: string, b: string)
    requires |a| != |b| || (a != [] && b != [] && LowerAscii(a[0]) != LowerAscii(b[0]))
    ensures !EqualsIgnoreCase(a, b)
  {
  }

  /** A string with its ASCII letters folded to lower case, as the Java
      enum maps key their entries. */
  function ToLower(s: string): (r: string)
    ensures |r| == |s|
  {
    seq(|s|, i requires 0 <= i < |s| => LowerAscii(s[i]))
  }

  /** Two strings fold to the same lower-case string exactly when they are
      equal ignoring case, so a lookup by the folded key and a comparison
      ignoring case agree. */
  lemma {:induction false} ToLowerIff(a: string, b: string)
    ensures ToLower(a) == ToLower(b) <==> EqualsIgnoreCase(a, b)
  {
    if |a| == |b| && |a| > 0 {
      ToLowerIff(a[1..], b[1..]);
      var la, lb := ToLower(a), ToLower(b);
      assert la[0] == LowerAscii(a[0]) && la[1..] == ToLower(a[1..]);
      assert lb[0] == LowerAscii(b[0]) && lb[1..] == ToLower(b[1..]);
      if la == lb {
        assert la[1..] == lb[1..];
      }
    }
  }

  lemma {:induction false} EqualsIgnoreCaseSym(a: string, b: string)
    requires EqualsIgnoreCase(a, b)
    ensures EqualsIgnoreCase(b, a)
  {
    if |a| > 0 {
      EqualsIgnoreCaseSym(a[1..], b[1..]);
    }
  }

  lemma {:induction false} EqualsIgnoreCaseTrans(a: string, b: string, c: string)
    requires EqualsIgnoreCase(a, b) && EqualsIgnoreCase(b, c)
    ensures EqualsIgnoreCase(a, c)
  {
    if |a| > 0 {
      EqualsIgnoreCaseTrans(a[1..], b[1..], c[1..]);
    }
  }

  /** A string that matches two names ignoring case makes them match each
      other: the step every name parser's uniqueness rests on. */
  lemma SameNameIgnoringCase(s: string, x: string, y: string)
    requires EqualsIgnoreCase(s, x) && EqualsIgnoreCase(s, y)
    ensures EqualsIgnoreCase(x, y)
  {
    EqualsIgnoreCaseSym(s, x);
    EqualsIgnoreCaseTrans(x, s, y);
  }
}
