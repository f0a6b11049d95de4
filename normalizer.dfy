/** The input handler that `onlyNumbers` attaches to document-number and
    postal-code fields (core/static/js/main.js:6-12): every non-digit is
    deleted and, when a truthy `length` was configured, the digits are cut
    to that many. */
module Normalizer {
  import opened Text

  /** The value the handler writes back. `limit` stands for the `length`
      argument: 0 stands for both JavaScript `null` (the default) and `0`,
      which are falsy and switch truncation off. */
  function Normalize(value: string, limit: nat): (r: string)
    ensures AllDigits(r)
    ensures |r| <= |DigitsOf(value)| && r == DigitsOf(value)[..|r|]
    ensures limit > 0 ==> |r| <= limit
    ensures limit == 0 ==> r == DigitsOf(value)
    ensures |r| < |DigitsOf(value)| ==> |r| == limit
  {
    var digits := DigitsOf(value);
    if limit > 0 && |digits| > limit then digits[..limit] else digits
  }

  /** Running the handler on its own output changes nothing. */
  lemma NormalizeIdempotent(value: string, limit: nat)
    ensures Normalize(Normalize(value, limit), limit) == Normalize(value, limit)
  {
    DigitsOfDigits(Normalize(value, limit));
  }

  /** The values the handler leaves alone are exactly the digit strings
      within the limit. */
  lemma NormalizeFixedPoints(value: string, limit: nat)
    ensures Normalize(value, limit) == value <==> AllDigits(value) && (limit == 0 || |value| <= limit)
  {
    if AllDigits(value) {
      DigitsOfDigits(value);
    }
  }
}
