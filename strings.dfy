/**
 * Text facts the document store relies on: the binary order in which it sorts
 * string fields, and case-insensitive pattern matching.
 */
module Strings {

  /**
   * Lexicographic order on code points, i.e. the byte order of the UTF-8
   * encodings, which is how the store compares string values.
   */
  predicate LexLe(a: string, b: string)
    decreases |a|
  {
    |a| == 0 || (|b| > 0 && (a[0] < b[0] || (a[0] == b[0] && LexLe(a[1..], b[1..]))))
  }

  lemma {:induction false} LexLeTotal(a: string, b: string)
    ensures LexLe(a, b) || LexLe(b, a)
    decreases |a|
  {
    if |a| > 0 && |b| > 0 && a[0] == b[0] {
      LexLeTotal(a[1..], b[1..]);
    }
  }

  lemma {:induction false} LexLeTransitive(a: string, b: string, c: string)
    requires LexLe(a, b) && LexLe(b, c)
    ensures LexLe(a, c)
    decreases |a|
  {
    if |a| > 0 && a[0] == b[0] && b[0] == c[0] {
      LexLeTransitive(a[1..], b[1..], c[1..]);
    }
  }

  lemma {:induction false} LexLeAntisymmetric(a: string, b: string)
    requires LexLe(a, b) && LexLe(b, a)
    ensures a == b
    decreases |a|
  {
    if |a| > 0 {
      LexLeAntisymmetric(a[1..], b[1..]);
      assert a == [a[0]] + a[1..];
      assert b == [b[0]] + b[1..];
    }
  }

  /** Case folding of the ASCII letters. */
  function FoldChar(c: char): char {
    if 'A' <= c <= 'Z' then (c as int - 'A' as int + 'a' as int) as char else c
  }

  function Fold(s: string): string {
    seq(|s|, i requires 0 <= i < |s| => FoldChar(s[i]))
  }

  predicate OccursAt(text: string, part: string, i: int) {
    0 <= i && i + |part| <= |text| && text[i..i + |part|] == part
  }

  predicate Contains(text: string, part: string) {
    exists i | 0 <= i <= |text| - |part| :: OccursAt(text, part, i)
  }

  /**
   * A case-insensitive match of `pattern` anywhere in `text`: the store's
   * `$regex` with option "i", for a pattern that holds no metacharacters.
   */
  predicate PatternMatches(pattern: string, text: string) {
    Contains(Fold(text), Fold(pattern))
  }

  /** The empty pattern matches every text. */
  lemma EmptyPatternMatchesAll(text: string)
    ensures PatternMatches("", text)
  {
    assert OccursAt(Fold(text), Fold(""), 0);
  }

  lemma FoldIdempotent(s: string)
    ensures Fold(Fold(s)) == Fold(s)
  {
    assert forall i | 0 <= i < |s| :: FoldChar(FoldChar(s[i])) == FoldChar(s[i]);
  }

  /** Matching ignores the case of the pattern and of the text. */
  lemma PatternMatchIgnoresCase(pattern: string, text: string)
    ensures PatternMatches(Fold(pattern), text) == PatternMatches(pattern, text)
    ensures PatternMatches(pattern, Fold(text)) == PatternMatches(pattern, text)
  {
    FoldIdempotent(pattern);
    FoldIdempotent(text);
  }
}
