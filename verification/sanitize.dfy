/**
  The column-name sanitiser of the feature encoder: every character that is not a
  word character is replaced by an underscore, character by character, as
  `re.sub(r'[^\w]', '_', name)` does (app.py:71, 76, 81).

  Python's `\w` on `str` is Unicode-aware; this model restricts word characters to
  ASCII letters, ASCII digits and the underscore.
 */
module Sanitizer {

  /** ASCII approximation of the regular-expression class `\w`. */
  predicate IsWordChar(c: char) {
    || ('a' <= c <= 'z')
    || ('A' <= c <= 'Z')
    || ('0' <= c <= '9')
    || c == '_'
  }

  /** True iff every character of `s` is a word character. */
  predicate IsWordString(s: string) {
    forall i :: 0 <= i < |s| ==> IsWordChar(s[i])
  }

  /** The replacement applied to one character. */
  function CleanChar(c: char): char {
    if IsWordChar(c) then c else '_'
  }

  /** `re.sub(r'[^\w]', '_', s)`: same length, word characters kept in place,
      every other character turned into `_`. */
  function Sanitize(s: string): (r: string)
    ensures |r| == |s|
    ensures forall i :: 0 <= i < |s| && IsWordChar(s[i]) ==> r[i] == s[i]
    ensures forall i :: 0 <= i < |s| && !IsWordChar(s[i]) ==> r[i] == '_'
    ensures IsWordString(r)
  {
    if |s| == 0 then [] else [CleanChar(s[0])] + Sanitize(s[1..])
  }

  /** A string made only of word characters is left untouched. */
  lemma {:induction false} WordStringIsFixed(s: string)
    requires IsWordString(s)
    ensures Sanitize(s) == s
  {
    if |s| > 0 {
      WordStringIsFixed(s[1..]);
      assert s == [s[0]] + s[1..];
    }
  }

  /** Sanitising twice is the same as sanitising once. */
  lemma SanitizeIdempotent(s: string)
    ensures Sanitize(Sanitize(s)) == Sanitize(s)
  {
    WordStringIsFixed(Sanitize(s));
  }

  /** Sanitising works character by character, so it distributes over concatenation. */
  lemma {:induction false} SanitizeConcat(a: string, b: string)
    ensures Sanitize(a + b) == Sanitize(a) + Sanitize(b)
  {
    if |a| > 0 {
      assert (a + b)[1..] == a[1..] + b;
      SanitizeConcat(a[1..], b);
    } else {
      assert a + b == b;
    }
  }

  /** A word-character prefix survives sanitising unchanged: the prefixes `age_`,
      `insulin_` and `diabetesMed_` are kept in front of the sanitised raw text. */
  lemma WordPrefixKept(prefix: string, raw: string)
    requires IsWordString(prefix)
    ensures Sanitize(prefix + raw) == prefix + Sanitize(raw)
  {
    SanitizeConcat(prefix, raw);
    WordStringIsFixed(prefix);
  }

  /** Sanitising is not injective: two different raw texts can give the same name. */
  lemma SanitizeCanMerge()
    ensures "[40-50)" != "(40-50]"
    ensures Sanitize("[40-50)") == Sanitize("(40-50]") == "_40_50_"
  {
    var expected := "_40_50_";
    var a := Sanitize("[40-50)");
    var b := Sanitize("(40-50]");
    assert forall i :: 0 <= i < 7 ==> a[i] == expected[i];
    assert forall i :: 0 <= i < 7 ==> b[i] == expected[i];
  }
}
