/** The e-mail check of the candidate sign-up form (core/static/js/main.js:
    182-188): the value is trimmed and must match
    `^[^\s@]+@[^\s@]+\.[^\s@]+$`. */
module EmailCheck {
  import opened Text

  /** JavaScript's `\s`, which is also the set `trim` removes: the ASCII
      blanks, the no-break and byte-order-mark spaces, and the Unicode
      space separators and line and paragraph separators. */
  predicate IsSpace(c: char) {
    || c == ' ' || c == '\t' || c == '\n' || c == '\r'
    || c == '\U{000B}' || c == '\U{000C}' || c == '\U{00A0}' || c == '\U{1680}'
    || ('\U{2000}' <= c <= '\U{200A}')
    || c == '\U{2028}' || c == '\U{2029}' || c == '\U{202F}' || c == '\U{205F}'
    || c == '\U{3000}' || c == '\U{FEFF}'
  }

  /** Leading white space removed. */
  function TrimStart(s: string): (r: string)
    ensures |r| <= |s| && r == s[|s| - |r|..]
    ensures r == [] || !IsSpace(r[0])
    ensures forall k :: 0 <= k < |s| - |r| ==> IsSpace(s[k])
  {
    if s != [] && IsSpace(s[0]) then TrimStart(s[1..]) else s
  }

  /** Trailing white space removed. */
  function TrimEnd(s: string): (r: string)
    ensures |r| <= |s| && r == s[..|r|]
    ensures r == [] || !IsSpace(r[|r| - 1])
    ensures forall k :: |r| <= k < |s| ==> IsSpace(s[k])
  {
    if s != [] && IsSpace(s[|s| - 1]) then TrimEnd(s[..|s| - 1]) else s
  }

  /** `s.trim()` */
  function Trim(s: string): (r: string)
    ensures |r| <= |s|
    ensures r == [] || (!IsSpace(r[0]) && !IsSpace(r[|r| - 1]))
    ensures (forall k :: 0 <= k < |s| ==> !IsSpace(s[k])) ==> r == s
  {
    TrimEnd(TrimStart(s))
  }

  /** A character of the class `[^\s@]`. */
  predicate Plain(c: char) {
    !IsSpace(c) && c != '@'
  }

  predicate AllPlain(s: string) {
    forall k :: 0 <= k < |s| ==> Plain(s[k])
  }

  /** The pattern, with the '@' at `at` and the '.' at `dot`: three
      non-empty plain parts around them. */
  predicate MatchesAt(s: string, at: int, dot: int) {
    && 0 < at && at + 1 < dot && dot + 1 < |s|
    && s[at] == '@' && s[dot] == '.'
    && AllPlain(s[..at]) && AllPlain(s[at + 1..dot]) && AllPlain(s[dot + 1..])
  }

  /** `/^[^\s@]+@[^\s@]+\.[^\s@]+$/.test(s)` */
  predicate MatchesPattern(s: string): (m: bool)
    ensures m ==> 5 <= |s| && Plain(s[0]) && Plain(s[|s| - 1])
  {
    exists at, dot | 0 <= at < dot < |s| :: MatchesAt(s, at, dot)
  }

  /** The '@' at `at` is the only one in `s`. */
  predicate OnlyAt(s: string, at: int) {
    0 <= at < |s| && s[at] == '@' && forall k :: 0 <= k < |s| && k != at ==> s[k] != '@'
  }

  predicate HasDotBetween(s: string, from: int, to: int) {
    exists k :: from < k < to && 0 <= k < |s| && s[k] == '.'
  }

  lemma PlainAround(s: string, at: int, dot: int)
    requires MatchesAt(s, at, dot)
    ensures forall k :: 0 <= k < |s| && k != at ==> Plain(s[k])
  {
    var a, b, c := s[..at], s[at + 1..dot], s[dot + 1..];
    assert s == a + [s[at]] + b + [s[dot]] + c;
    forall k | 0 <= k < |s| && k != at
      ensures Plain(s[k])
    {
      if k < at {
        assert s[k] == a[k];
      } else if at < k < dot {
        assert s[k] == b[k - at - 1];
      } else if dot < k {
        assert s[k] == c[k - dot - 1];
      }
    }
  }

  /** What the pattern says, stated without it: no white space anywhere,
      exactly one '@' and not at the start, and a '.' with at least one
      character on each side between the '@' and the end. */
  lemma MatchesPatternIff(s: string)
    ensures MatchesPattern(s) <==>
      && (forall k :: 0 <= k < |s| ==> !IsSpace(s[k]))
      && exists at :: OnlyAt(s, at) && 0 < at && HasDotBetween(s, at + 1, |s| - 1)
  {
    if MatchesPattern(s) {
      var at, dot :| 0 <= at < dot < |s| && MatchesAt(s, at, dot);
      PlainAround(s, at, dot);
      assert OnlyAt(s, at) && HasDotBetween(s, at + 1, |s| - 1);
    }
    if && (forall k :: 0 <= k < |s| ==> !IsSpace(s[k]))
       && exists at :: OnlyAt(s, at) && 0 < at && HasDotBetween(s, at + 1, |s| - 1)
    {
      var at :| OnlyAt(s, at) && 0 < at && HasDotBetween(s, at + 1, |s| - 1);
      var dot :| at + 1 < dot < |s| - 1 && s[dot] == '.';
      assert MatchesAt(s, at, dot);
    }
  }

  /** The submit handler's test on the trimmed value. */
  function EmailAccepted(value: string): (ok: bool)
    ensures ok ==> |Trim(value)| >= 5
  {
    MatchesPattern(Trim(value))
  }

  lemma AcceptedExample()
    ensures EmailAccepted("ana@mail.com")
  {
    var good := "ana@mail.com";
    assert !IsSpace(good[0]) && !IsSpace(good[|good| - 1]);
    assert Trim(good) == good;
    assert good[3] == '@' && good[8] == '.';
    assert good[..3] == "ana" && good[4..8] == "mail" && good[9..] == "com";
    assert AllPlain("ana") && AllPlain("mail") && AllPlain("com");
    assert MatchesAt(good, 3, 8);
  }

  /** Without a dot after the '@' the value is refused. */
  lemma RefusedExample()
    ensures !EmailAccepted("ana@mail")
  {
    var bad := "ana@mail";
    assert !IsSpace(bad[0]) && !IsSpace(bad[|bad| - 1]);
    assert Trim(bad) == bad;
    forall at, dot | 0 <= at < dot < |bad| ensures !MatchesAt(bad, at, dot) {
      if at == 3 {
        assert bad[dot] != '.';
      } else {
        assert bad[at] != '@';
      }
    }
  }
}
