/** The phone mask of `initTelefoneMask` (core/static/js/main.js:91-121):
    the value keeps the country calling code "+55", deleting keys are
    suppressed while the caret sits in it, and every input event rebuilds
    the display "+55 (DD) NNNNN-NNNN" from the digits typed so far. */
module PhoneMask {
  import opened Text

  /** The country calling code every phone value starts with. */
  const CountryCode: string := "+55"
  /** What the field is set to when it does not start with the code. */
  const ResetValue: string := "+55 "

  /** Sizes of the three digit groups of the template: the area code
      (DDD) and the two parts of the subscriber number. */
  const AreaSize: nat := 2
  const FirstSize: nat := 5
  const SecondSize: nat := 4
  /** The template holds at most this many digits after the code. */
  const Capacity: nat := AreaSize + FirstSize + SecondSize

  /** Longest display the template produces: "+55 (DD) NNNNN-NNNN". */
  const MaxDisplayLength: nat := 19

  /** The guard that opens both the initialiser (line 94) and the input
      handler (lines 103-105). */
  function Reset(value: string): (r: string)
    ensures StartsWith(r, CountryCode)
    ensures StartsWith(value, CountryCode) ==> r == value
    ensures !StartsWith(value, CountryCode) ==> r == ResetValue
  {
    if StartsWith(value, CountryCode) then value else ResetValue
  }

  predicate IsDigitOrPlus(c: char) {
    IsDigit(c) || c == '+'
  }

  /** `value.replace(/[^\d+]/g, "")`: the plus sign survives. */
  function Clean(value: string): (r: string)
    ensures |r| <= |value|
    ensures forall i :: 0 <= i < |r| ==> IsDigitOrPlus(r[i])
  {
    Filter(IsDigitOrPlus, value)
  }

  lemma CleanKeepsCountryCode(value: string)
    requires StartsWith(value, CountryCode)
    ensures Clean(value) == CountryCode + Clean(value[|CountryCode|..])
  {
    assert value == CountryCode + value[|CountryCode|..];
    FilterAppend(IsDigitOrPlus, CountryCode, value[|CountryCode|..]);
    FilterKeepsAll(IsDigitOrPlus, CountryCode);
  }

  /** The longest run of digits at the start of `s`. */
  function LeadingDigits(s: string): (r: string)
    ensures |r| <= |s| && r == s[..|r|]
    ensures AllDigits(r)
    ensures |r| < |s| ==> !IsDigit(s[|r|])
  {
    if s != [] && IsDigit(s[0]) then [s[0]] + LeadingDigits(s[1..]) else []
  }

  /** The digits the pattern `(\+55)(\d{0,2})(\d{0,5})(\d{0,4}).*` can
      capture: the pattern is tried first at index 0, where the cleaned
      value always holds the code, so its groups take the run of digits
      right after the code; a second '+' ends that run. */
  function DigitRun(value: string): (run: string)
    ensures AllDigits(run)
  {
    var clean := Clean(Reset(value));
    CleanKeepsCountryCode(Reset(value));
    LeadingDigits(clean[|CountryCode|..])
  }

  /** The capture groups `ddd`, `pt1` and `pt2`. */
  datatype Groups = Groups(area: string, first: string, second: string)

  /** Greedy matching of `(\d{0,2})(\d{0,5})(\d{0,4})` against a run of
      digits; the trailing `.*` swallows whatever is left. */
  function Split(run: string): (g: Groups)
    ensures g.area + g.first + g.second == Take(run, Capacity)
    ensures |g.area| <= AreaSize && |g.first| <= FirstSize && |g.second| <= SecondSize
    ensures g.first != [] ==> |g.area| == AreaSize
    ensures g.second != [] ==> |g.first| == FirstSize
    ensures AllDigits(run) ==> AllDigits(g.area) && AllDigits(g.first) && AllDigits(g.second)
  {
    var d := Take(run, Capacity);
    if |d| <= AreaSize then Groups(d, [], [])
    else if |d| <= AreaSize + FirstSize then Groups(d[..AreaSize], d[AreaSize..], [])
    else Groups(d[..AreaSize], d[AreaSize..AreaSize + FirstSize], d[AreaSize + FirstSize..])
  }

  /** A separator and a group, written only when the group is non-empty
      (an empty string is falsy). */
  function Piece(separator: string, group: string): string {
    if group != [] then separator + group else ""
  }

  /** The replacement callback (lines 111-118): empty groups add nothing,
      and the closing parenthesis appears only once the area code is
      complete. */
  function Render(g: Groups): (w: string)
    ensures StartsWith(w, CountryCode)
  {
    CountryCode + Piece(" (", g.area) + (if |g.area| == AreaSize then ")" else "")
    + Piece(" ", g.first) + Piece("-", g.second)
  }

  /** The value the input handler writes back (lines 102-120). */
  function OnInput(value: string): (r: string)
    ensures StartsWith(r, CountryCode)
    ensures |r| <= MaxDisplayLength
  {
    Render(Split(DigitRun(value)))
  }

  /** The digits the display keeps, in the order they were typed. */
  function KeptDigits(value: string): (d: string)
    ensures AllDigits(d) && |d| <= Capacity
  {
    Take(DigitRun(value), Capacity)
  }

  /** A class that keeps every digit and drops the template's punctuation. */
  ghost predicate SeparatesDigits(keep: char -> bool) {
    && (forall c :: IsDigit(c) ==> keep(c))
    && !keep(' ') && !keep('(') && !keep(')') && !keep('-')
  }

  lemma FilterPiece(keep: char -> bool, separator: string, group: string)
    requires forall i :: 0 <= i < |separator| ==> !keep(separator[i])
    requires forall i :: 0 <= i < |group| ==> keep(group[i])
    ensures Filter(keep, Piece(separator, group)) == group
  {
    FilterKeepsAll(keep, group);
    if group != [] {
      FilterDropsAll(keep, separator);
      FilterAppend(keep, separator, group);
    }
  }

  lemma FilterConcat(keep: char -> bool, x0: string, a: string, b: string, c: string, e: string)
    ensures Filter(keep, x0 + a + b + c + e)
         == Filter(keep, x0) + Filter(keep, a) + Filter(keep, b) + Filter(keep, c) + Filter(keep, e)
  {
    FilterAppend(keep, x0, a);
    FilterAppend(keep, x0 + a, b);
    FilterAppend(keep, x0 + a + b, c);
    FilterAppend(keep, x0 + a + b + c, e);
  }

  lemma FilterRender(keep: char -> bool, g: Groups)
    requires AllDigits(g.area) && AllDigits(g.first) && AllDigits(g.second)
    requires SeparatesDigits(keep)
    ensures Filter(keep, Render(g)) == Filter(keep, CountryCode) + g.area + g.first + g.second
  {
    var a, c, e := Piece(" (", g.area), Piece(" ", g.first), Piece("-", g.second);
    var b: string := if |g.area| == AreaSize then ")" else "";
    FilterPiece(keep, " (", g.area);
    FilterPiece(keep, " ", g.first);
    FilterPiece(keep, "-", g.second);
    FilterDropsAll(keep, b);
    assert Render(g) == CountryCode + a + b + c + e;
    FilterConcat(keep, CountryCode, a, b, c, e);
  }

  lemma CountryCodeDigits()
    ensures DigitsOf(CountryCode) == "55"
  {
    assert CountryCode == "+" + "55";
    FilterAppend(IsDigit, "+", "55");
    FilterDropsAll(IsDigit, "+");
    FilterKeepsAll(IsDigit, "55");
  }

  lemma CountryCodeClean()
    ensures Clean(CountryCode) == CountryCode
  {
    FilterKeepsAll(IsDigitOrPlus, CountryCode);
  }

  /** The digits of a rendering are "55" followed by its groups. */
  lemma RenderDigits(g: Groups)
    requires AllDigits(g.area) && AllDigits(g.first) && AllDigits(g.second)
    ensures DigitsOf(Render(g)) == "55" + (g.area + g.first + g.second)
  {
    assert SeparatesDigits(IsDigit);
    FilterRender(IsDigit, g);
    CountryCodeDigits();
  }

  /** Cleaning a rendering leaves the code followed by its groups. */
  lemma RenderClean(g: Groups)
    requires AllDigits(g.area) && AllDigits(g.first) && AllDigits(g.second)
    ensures Clean(Render(g)) == CountryCode + (g.area + g.first + g.second)
  {
    assert SeparatesDigits(IsDigitOrPlus);
    FilterRender(IsDigitOrPlus, g);
    CountryCodeClean();
  }

  /** The digits of a display are "55" followed by the kept digits. */
  lemma MaskedDigits(value: string)
    ensures DigitsOf(OnInput(value)) == "55" + KeptDigits(value)
  {
    var g := Split(DigitRun(value));
    RenderDigits(g);
  }

  /** A value that does not start with the code collapses to the bare code. */
  lemma ResetCollapses(value: string)
    requires !StartsWith(value, CountryCode)
    ensures OnInput(value) == CountryCode
  {
    CleanKeepsCountryCode(ResetValue);
    assert ResetValue[|CountryCode|..] == " ";
    FilterDropsAll(IsDigitOrPlus, " ");
  }

  /** The pattern finds in a display exactly the digits it shows. */
  lemma DisplayRun(g: Groups)
    requires AllDigits(g.area) && AllDigits(g.first) && AllDigits(g.second)
    ensures DigitRun(Render(g)) == g.area + g.first + g.second
  {
    var w := Render(g);
    var d := g.area + g.first + g.second;
    RenderClean(g);
    assert StartsWith(w, CountryCode);
    assert (CountryCode + d)[|CountryCode|..] == d;
    assert AllDigits(d);
  }

  lemma SplitSeesOnlyKept(a: string, b: string)
    requires Take(a, Capacity) == Take(b, Capacity)
    ensures Split(a) == Split(b)
  {
  }

  /** The mask is a fixed point on its own output: a second input event
      with nothing typed leaves the display as it is. */
  lemma MaskIdempotent(value: string)
    ensures OnInput(OnInput(value)) == OnInput(value)
  {
    var run := DigitRun(value);
    var g := Split(run);
    var d := g.area + g.first + g.second;
    assert OnInput(value) == Render(g);
    DisplayRun(g);
    SplitSeesOnlyKept(d, run);
  }

  /** A rendering with all three groups non-empty and a complete area code. */
  lemma RenderFull(g: Groups)
    requires |g.area| == AreaSize && g.first != [] && g.second != []
    ensures Render(g) == "+55 (" + g.area + ") " + g.first + "-" + g.second
  {
    var w := "+55 (" + g.area + ") " + g.first + "-" + g.second;
    assert Render(g) == CountryCode + (" (" + g.area) + ")" + (" " + g.first) + ("-" + g.second);
    assert |Render(g)| == |w|;
    forall i | 0 <= i < |w| ensures Render(g)[i] == w[i] {
    }
  }

  /** Eleven kept digits give the full layout "+55 (DD) NNNNN-NNNN". */
  lemma FullNumberLayout(value: string)
    requires |KeptDigits(value)| == Capacity
    ensures var d := KeptDigits(value);
      OnInput(value) == "+55 (" + d[..2] + ") " + d[2..7] + "-" + d[7..]
    ensures |OnInput(value)| == MaxDisplayLength
  {
    var d := KeptDigits(value);
    var g := Split(DigitRun(value));
    assert g == Groups(d[..2], d[2..7], d[7..]);
    RenderFull(g);
  }

  /** The keydown handler (lines 96-100): Backspace and Delete are
      suppressed while the caret stands at or before the end of the code. */
  predicate KeydownSuppressed(selectionStart: int, key: string): (suppressed: bool)
    ensures key == "Backspace" && 0 < selectionStart <= |CountryCode| ==> suppressed
    ensures key == "Delete" && 0 <= selectionStart < |CountryCode| ==> suppressed
    ensures key != "Backspace" && key != "Delete" ==> !suppressed
    ensures selectionStart > |CountryCode| ==> !suppressed
  {
    selectionStart <= |CountryCode| && (key == "Backspace" || key == "Delete")
  }

  /** The browser's own action for a deleting key with a collapsed caret,
      which the handler suppresses: Backspace removes the character before
      the caret, Delete the one after it. */
  function DefaultDeletion(value: string, caret: nat, key: string): (r: string)
    requires caret <= |value|
    ensures |r| == |value| || |r| == |value| - 1
  {
    if key == "Backspace" && caret > 0 then value[..caret - 1] + value[caret..]
    else if key == "Delete" && caret < |value| then value[..caret] + value[caret + 1..]
    else value
  }

  /** A deletion the handler lets through cannot touch the code. */
  lemma AllowedDeletionKeepsCode(value: string, caret: nat, key: string)
    requires StartsWith(value, CountryCode) && caret <= |value|
    requires !KeydownSuppressed(caret, key)
    ensures StartsWith(DefaultDeletion(value, caret, key), CountryCode)
  {
  }

  /** A rendering is the code, alone or followed by a blank. */
  lemma RenderShape(g: Groups)
    requires g.area == [] ==> g.first == [] && g.second == []
    ensures var w := Render(g);
      w[..|CountryCode|] == CountryCode && (|w| > |CountryCode| ==> w[|CountryCode|] == ' ')
  {
    var w := Render(g);
    var a, c, e := Piece(" (", g.area), Piece(" ", g.first), Piece("-", g.second);
    var b: string := if |g.area| == AreaSize then ")" else "";
    var rest := a + b + c + e;
    assert w == CountryCode + rest;
    if g.area == [] {
      assert rest == [];
    } else {
      assert rest[0] == a[0] == ' ';
    }
  }

  /** Every display is the code, alone or followed by a blank. */
  lemma DisplayShape(value: string)
    ensures var w := OnInput(value);
      w[..|CountryCode|] == CountryCode && (|w| > |CountryCode| ==> w[|CountryCode|] == ' ')
  {
    RenderShape(Split(DigitRun(value)));
  }

  /** Backspace with the caret inside the code would delete one of its
      characters from a display: the handler has to suppress it. */
  lemma BackspaceInCodeBreaksDisplay(value: string, caret: nat)
    requires 0 < caret <= |CountryCode|
    ensures !StartsWith(DefaultDeletion(OnInput(value), caret, "Backspace"), CountryCode)
    ensures KeydownSuppressed(caret, "Backspace")
  {
    var w := OnInput(value);
    DisplayShape(value);
    var r := DefaultDeletion(w, caret, "Backspace");
    assert r == w[..caret - 1] + w[caret..];
    if caret == 1 {
      assert r[0] == w[1] == '5';
    } else if |w| > |CountryCode| {
      assert r[2] == w[3] == ' ';
    } else {
      assert |r| < |CountryCode|;
    }
  }
}
