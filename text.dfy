/** Strings and characters as the form helpers treat them: JavaScript's
    `\d` digit class, the global `replace(/[^…]/g, "")` that deletes every
    character outside a class, and the clamping `slice` of JavaScript
    strings. A string is a sequence of characters. */
module Text {

  datatype Option<+T> = None | Some(value: T)

  /** JavaScript's `\d`: an ASCII decimal digit. */
  predicate IsDigit(c: char) {
    '0' <= c <= '9'
  }

  predicate AllDigits(s: string) {
    forall i :: 0 <= i < |s| ==> IsDigit(s[i])
  }

  /** `s.startsWith(p)` */
  predicate StartsWith(s: string, p: string) {
    |p| <= |s| && s[..|p|] == p
  }

  /** `s.replace(/[^class]/g, "")`: the characters of `s` that `keep`
      accepts, in their original order. */
  function Filter(keep: char -> bool, s: string): (r: string)
    ensures |r| <= |s|
    ensures forall i :: 0 <= i < |r| ==> keep(r[i])
  {
    if s == [] then [] else (if keep(s[0]) then [s[0]] else []) + Filter(keep, s[1..])
  }

  /** Filtering distributes over concatenation: each character is kept or
      dropped on its own, so the order of what is kept is the input's. */
  lemma {:induction false} FilterAppend(keep: char -> bool, a: string, b: string)
    ensures Filter(keep, a + b) == Filter(keep, a) + Filter(keep, b)
  {
    if a == [] {
      assert a + b == b;
    } else {
      assert (a + b)[0] == a[0] && (a + b)[1..] == a[1..] + b;
      FilterAppend(keep, a[1..], b);
    }
  }

  lemma {:induction false} FilterKeepsAll(keep: char -> bool, s: string)
    requires forall i :: 0 <= i < |s| ==> keep(s[i])
    ensures Filter(keep, s) == s
  {
    if s != [] {
      FilterKeepsAll(keep, s[1..]);
    }
  }

  lemma {:induction false} FilterDropsAll(keep: char -> bool, s: string)
    requires forall i :: 0 <= i < |s| ==> !keep(s[i])
    ensures Filter(keep, s) == []
  {
    if s != [] {
      FilterDropsAll(keep, s[1..]);
    }
  }

  /** `s.replace(/\D/g, "")`: the digits of `s` in order. */
  function DigitsOf(s: string): (r: string)
    ensures AllDigits(r)
    ensures |r| <= |s|
  {
    Filter(IsDigit, s)
  }

  lemma DigitsOfDigits(s: string)
    requires AllDigits(s)
    ensures DigitsOf(s) == s
  {
    FilterKeepsAll(IsDigit, s);
  }

  /** The first `n` characters of `s`, or all of `s` when it is shorter. */
  function Take(s: string, n: nat): (r: string)
    ensures |r| == if |s| <= n then |s| else n
    ensures r == s[..|r|]
  {
    if |s| <= n then s else s[..n]
  }

  function Min(a: nat, b: nat): nat {
    if a <= b then a else b
  }

  /** JavaScript `s.slice(start, end)` for non-negative bounds: both bounds
      are clamped to the length, and the result is empty when the end does
      not lie after the start. */
  function Slice(s: string, start: nat, end: nat): string {
    var from, to := Min(start, |s|), Min(end, |s|);
    if from < to then s[from..to] else []
  }
}
