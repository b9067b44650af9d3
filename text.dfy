/** The string tests that decide which candidate roots take part in the search. */
module Text {
  import opened Wrappers

  /**
   * `char.IsWhiteSpace`: the Unicode space, line and paragraph separators
   * together with U+0009..U+000D and U+0085.
   */
  predicate IsWhiteSpace(c: char) {
    var n := c as int;
    (0x09 <= n <= 0x0D) || n == 0x20 || n == 0x85 || n == 0xA0 || n == 0x1680
    || (0x2000 <= n <= 0x200A) || n == 0x2028 || n == 0x2029 || n == 0x202F
    || n == 0x205F || n == 0x3000
  }

  /** `string.IsNullOrWhiteSpace`: null, empty, or made only of white space. */
  predicate IsNullOrWhiteSpace(s: Option<string>) {
    match s
    case None => true
    case Some(t) => forall i :: 0 <= i < |t| ==> IsWhiteSpace(t[i])
  }

  /** A string that ends in a non-blank suffix is not blank, whatever comes before it. */
  lemma NonBlankSuffix(prefix: string, suffix: string)
    requires |suffix| > 0 && !IsWhiteSpace(suffix[0])
    ensures !IsNullOrWhiteSpace(Some(prefix + suffix))
  {
    assert (prefix + suffix)[|prefix|] == suffix[0];
  }
}
