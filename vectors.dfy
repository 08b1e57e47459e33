/** Worked examples: what `validate_mpin` returns on particular PINs. */
module Vectors {
  import opened Wrappers
  import opened Text
  import opened Dates
  import opened Findings
  import opened Keypad
  import opened Structural
  import opened StructuralProperties
  import opened Demographic
  import opened DemographicProperties
  import opened Scoring
  import opened Validation
  import opened ValidationProperties

  lemma WellFormed1590()
    ensures WellFormed("1590")
  {
  }

  lemma WellFormed1234()
    ensures WellFormed("1234")
  {
  }

  lemma WellFormed1506()
    ensures WellFormed("1506")
  {
  }

  lemma WellFormed1990()
    ensures WellFormed("1990")
  {
  }

  lemma Pair1590()
    ensures RepeatedPair("1590") == None
  {
    RepeatedPairIsPeriodTwo("1590");
    assert "1590"[2] != "1590"[0];
  }

  lemma Sequence1590()
    ensures SequenceFindings("1590") == []
  {
    RepeatIffPeriod("1590", 1);
    RepeatIffPeriod("1590", 2);
    assert "1590"[1] != "1590"[0];
    assert "1590"[2] != "1590"[0];
  }

  /** A reasons list of one entry costs what that entry costs. */
  lemma OneEntryDeduction(c: Category, es: seq<Explanation>)
    ensures TotalDeduction([(c, es)]) == EntryDeduction((c, es))
  {
    assert [(c, es)][..0] == [];
  }

  /** One explanation costs its deduction. */
  lemma OneExplanationDeduction(c: Category, e: Explanation)
    ensures ExplanationsDeduction(c, [e]) == Deduction(c, e)
  {
    assert [e][..0] == [];
  }

  /** A line doubled is six digits long, too long to occur in a four-digit PIN. */
  lemma NoDoubledLineInFour(line: Line, p: string, pin: string)
    requires |p| == 3 && |pin| == 4
    ensures LineHits(line, p, pin) == if Contains(pin, p) || Contains(pin, Reverse(p)) then [KeypadLine(line, p, false)] else []
  {
    if Contains(pin, Repeat(p, 2)) { ContainsNotLonger(pin, Repeat(p, 2)); }
    if Contains(pin, Repeat(Reverse(p), 2)) { ContainsNotLonger(pin, Repeat(Reverse(p), 2)); }
  }

  /** A two-line table reports its lines in order. */
  lemma TwoLines(line: Line, ps: seq<string>, pin: string)
    requires |ps| == 2
    ensures LineFindings(line, ps, pin) == LineHits(line, ps[0], pin) + LineHits(line, ps[1], pin)
  {
    assert ps[..1][..0] == [];
    assert ps[..1][0] == ps[0];
    assert LineFindings(line, ps[..1], pin) == LineHits(line, ps[0], pin);
    assert LineFindings(line, ps, pin) == LineFindings(line, ps[..1], pin) + LineHits(line, ps[1], pin);
  }

  /** A three-line table reports its lines in order. */
  lemma ThreeLines(line: Line, ps: seq<string>, pin: string)
    requires |ps| == 3
    ensures LineFindings(line, ps, pin) == LineHits(line, ps[0], pin) + LineHits(line, ps[1], pin) + LineHits(line, ps[2], pin)
  {
    TwoLines(line, ps[..2], pin);
    assert ps[..2][0] == ps[0] && ps[..2][1] == ps[1];
    assert LineFindings(line, ps, pin) == LineFindings(line, ps[..2], pin) + LineHits(line, ps[2], pin);
  }

  /** A table none of whose lines has all its digits in the PIN reports nothing. */
  lemma {:induction false} LinesAllMissing(line: Line, ps: seq<string>, pin: string, ks: seq<nat>)
    requires |ks| == |ps| && forall j :: 0 <= j < |ps| ==> ks[j] < |ps[j]| && ps[j][ks[j]] !in pin
    ensures LineFindings(line, ps, pin) == []
  {
    if ps != [] {
      var n := |ps| - 1;
      LineHitsNeedEveryDigit(line, ps[n], pin, ks[n]);
      LinesAllMissing(line, ps[..n], pin, ks[..n]);
    }
  }

  /** A PIN with a digit off the corners is no corner pattern. */
  lemma NoCornersWith(pin: string, k: nat)
    requires k < |pin| && pin[k] !in CornerDigits
    ensures CornerFindings(pin) == []
  {
    var used := set c | c in pin;
    assert pin[k] in used;
  }

  /** The common-pattern findings of a PIN with no repeated pair: its repeats, then its keypad lines. */
  lemma CommonWithoutPair(pin: string, repeats: seq<Explanation>, lines: seq<Explanation>)
    requires RepeatedPair(pin) == None && SequenceFindings(pin) == repeats && KeypadFindings(pin) == lines
    ensures CommonFindings(pin) == repeats + lines
  {
  }

  /** The structural findings: the common-pattern ones, then the progressions. */
  lemma StructuralFromParts(pin: string, common: seq<Explanation>, progressions: seq<Explanation>)
    requires AllDigits(pin)
    requires CommonFindings(pin) == common && ProgressionFindings(pin) == progressions
    ensures StructuralFindings(pin) == common + progressions
  {
  }

  /** Without a progression the structural findings are the common-pattern ones. */
  lemma StructuralWithoutProgression(pin: string, common: seq<Explanation>)
    requires AllDigits(pin)
    requires CommonFindings(pin) == common && ProgressionFindings(pin) == []
    ensures StructuralFindings(pin) == common
  {
    StructuralFromParts(pin, common, []);
    assert common + [] == common;
  }

  /** The findings of a PIN with no repeated pair and no progression: its repeats, then its keypad lines. */
  lemma FindingsWithoutPairOrProgression(pin: string, repeats: seq<Explanation>, lines: seq<Explanation>)
    requires AllDigits(pin)
    requires RepeatedPair(pin) == None && SequenceFindings(pin) == repeats
    requires KeypadFindings(pin) == lines && ProgressionFindings(pin) == []
    ensures StructuralFindings(pin) == repeats + lines
  {
    CommonWithoutPair(pin, repeats, lines);
    StructuralWithoutProgression(pin, repeats + lines);
  }

  /** The keypad findings of any PIN, table by table, each table line by line. */
  lemma KeypadLineByLine(pin: string)
    ensures LineFindings(Horizontal, HorizontalLines, pin) ==
      LineHits(Horizontal, "123", pin) + LineHits(Horizontal, "456", pin) + LineHits(Horizontal, "789", pin)
    ensures LineFindings(Vertical, VerticalLines, pin) ==
      LineHits(Vertical, "147", pin) + LineHits(Vertical, "258", pin) + LineHits(Vertical, "369", pin)
    ensures LineFindings(Diagonal, DiagonalLines, pin) == LineHits(Diagonal, "159", pin) + LineHits(Diagonal, "357", pin)
  {
    assert HorizontalLines == ["123", "456", "789"];
    assert VerticalLines == ["147", "258", "369"];
    assert DiagonalLines == ["159", "357"];
    ThreeLines(Horizontal, HorizontalLines, pin);
    ThreeLines(Vertical, VerticalLines, pin);
    TwoLines(Diagonal, DiagonalLines, pin);
  }

  /** The keypad findings of a PIN off the corners are its line findings, table by table. */
  lemma KeypadWithoutCorners(pin: string, h: seq<Explanation>, v: seq<Explanation>, d: seq<Explanation>)
    requires LineFindings(Horizontal, HorizontalLines, pin) == h
    requires LineFindings(Vertical, VerticalLines, pin) == v
    requires LineFindings(Diagonal, DiagonalLines, pin) == d
    requires CornerFindings(pin) == []
    ensures KeypadFindings(pin) == h + v + d
  {
  }

  /** A four-digit PIN whose keypad findings come from one line, and which contains that line, reports it once. */
  lemma OneLineInFour(line: Line, p: string, pin: string)
    requires |p| == 3 && |pin| == 4 && Contains(pin, p)
    requires KeypadFindings(pin) == LineHits(line, p, pin)
    ensures KeypadFindings(pin) == [KeypadLine(line, p, false)]
  {
    NoDoubledLineInFour(line, p, pin);
  }

  /** The progression findings, detector by detector. */
  lemma ProgressionsFromParts(pin: string, a: seq<Explanation>, g: seq<Explanation>, r: seq<Explanation>, o: seq<Explanation>)
    requires AllDigits(pin)
    requires ArithmeticFindings(pin) == a && GeometricFindings(pin) == g
    requires RepetitionFindings(pin) == r && OrderFindings(pin) == o
    ensures ProgressionFindings(pin) == a + g + r + o
  {
  }

  /** The verdict on a non-empty reasons list whose costs add up to `d`. */
  lemma VerdictFromDeduction(r: Reasons, d: int)
    requires r != [] && TotalDeduction(r) == d
    ensures Verdict(r) ==
      if d >= 100 then Outcome(Weak, r, 0, Red)
      else if 100 - d >= StrongThreshold then Outcome(Strong, r, 100 - d, Green)
      else Outcome(Weak, r, 100 - d, Red)
  {
  }

  /** Without dates, a PIN with structural findings `fs` costing `d` gets the verdict of that one entry. */
  lemma OnlyCommonOutcome(pin: string, parse: Parser, fs: seq<Explanation>, d: int)
    requires WellFormed(pin) && StructuralFindings(pin) == fs && fs != []
    requires ExplanationsDeduction(CommonPattern, fs) == d
    ensures Validate(pin, None, None, None, parse) ==
      var r := [(CommonPattern, fs)];
      if d >= 100 then Outcome(Weak, r, 0, Red)
      else if 100 - d >= StrongThreshold then Outcome(Strong, r, 100 - d, Green)
      else Outcome(Weak, r, 100 - d, Red)
  {
    NoDatesOutcome(pin, parse);
    OneEntryDeduction(CommonPattern, fs);
    VerdictFromDeduction([(CommonPattern, fs)], d);
  }

  lemma Contains1590()
    ensures Contains("1590", "159")
  {
    assert "1590"[..3] == "159";
  }

  lemma Contains1234()
    ensures Contains("1234", "123")
  {
    assert "1234"[..3] == "123";
  }

  /** "1590": only the diagonal 1-5-9, found once. */
  lemma Keypad1590()
    ensures KeypadFindings("1590") == [KeypadLine(Diagonal, "159", false)]
  {
    KeypadOnlyMainDiagonal("1590");
    Contains1590();
    OneLineInFour(Diagonal, "159", "1590");
  }
  lemma Progressions1590()
    ensures ProgressionFindings("1590") == []
  {
    WellFormed1590();
    var pin := "1590";
    var ds := Values(pin);
    assert ds[3] - ds[2] != ds[1] - ds[0];
    GeometricExcludesZero(pin);
    RepeatedDigitIff(pin);
    assert pin[1] != pin[0];
    assert DigitValue(pin[2]) > DigitValue(pin[3]);
    assert DigitValue(pin[0]) < DigitValue(pin[1]);
  }

  /** "1590": only the 1-5-9 diagonal. */
  lemma Findings1590()
    ensures StructuralFindings("1590") == [KeypadLine(Diagonal, "159", false)]
  {
    WellFormed1590();
    Pair1590();
    Sequence1590();
    Keypad1590();
    Progressions1590();
  }

  /** "1590" scores 65 and is WEAK. */
  lemma Diagonal1590(parse: Parser)
    ensures Validate("1590", None, None, None, parse) == Outcome(Weak, [(CommonPattern, [KeypadLine(Diagonal, "159", false)])], 65, Red)
  {
    WellFormed1590();
    Findings1590();
    OneExplanationDeduction(CommonPattern, KeypadLine(Diagonal, "159", false));
    OnlyCommonOutcome("1590", parse, [KeypadLine(Diagonal, "159", false)], 35);
  }

  lemma Repeats1234()
    ensures RepeatedPair("1234") == None && SequenceFindings("1234") == []
  {
    RepeatedPairIsPeriodTwo("1234");
    RepeatIffPeriod("1234", 1);
    RepeatIffPeriod("1234", 2);
    assert "1234"[1] != "1234"[0];
    assert "1234"[2] != "1234"[0];
  }

  lemma Arithmetic1234()
    ensures ArithmeticFindings("1234") == [ArithmeticProgression(1)]
  {
    var ds := Values("1234");
    assert forall i :: 1 <= i < |ds| ==> ds[i] - ds[i - 1] == 1;
  }

  lemma Geometric1234()
    ensures GeometricFindings("1234") == []
  {
    var ds := Values("1234");
    assert ds[2] as real / ds[1] as real != ds[1] as real / ds[0] as real;
  }

  lemma Repetition1234()
    ensures RepetitionFindings("1234") == []
  {
    RepeatedDigitIff("1234");
    assert "1234"[1] != "1234"[0];
  }

  lemma Order1234()
    ensures OrderFindings("1234") == [AscendingOrder]
  {
    WellFormed1234();
    var pin := "1234";
    assert DigitValue(pin[0]) < DigitValue(pin[1]);
    assert IsAscending(pin);
  }

  lemma Progressions1234()
    ensures ProgressionFindings("1234") == [ArithmeticProgression(1), AscendingOrder]
  {
    WellFormed1234();
    Arithmetic1234();
    Geometric1234();
    Repetition1234();
    Order1234();
    ProgressionsFromParts("1234", [ArithmeticProgression(1)], [], [], [AscendingOrder]);
  }

  /** "1234": only the row 1-2-3, found once. */
  lemma Keypad1234()
    ensures KeypadFindings("1234") == [KeypadLine(Horizontal, "123", false)]
  {
    KeypadOnlyFirstRow("1234");
    Contains1234();
    OneLineInFour(Horizontal, "123", "1234");
  }
  /** "1234": the row 1-2-3, an arithmetic progression with difference 1, and ascending order. */
  lemma Findings1234()
    ensures StructuralFindings("1234") == [KeypadLine(Horizontal, "123", false), ArithmeticProgression(1), AscendingOrder]
  {
    WellFormed1234();
    Repeats1234();
    Keypad1234();
    Progressions1234();
    CommonWithoutPair("1234", [], [KeypadLine(Horizontal, "123", false)]);
    StructuralFromParts("1234", [KeypadLine(Horizontal, "123", false)], [ArithmeticProgression(1), AscendingOrder]);
  }

  /** The three findings of "1234" cost 35 + 40 + 35. */
  lemma Deduction1234()
    ensures ExplanationsDeduction(CommonPattern, [KeypadLine(Horizontal, "123", false), ArithmeticProgression(1), AscendingOrder]) == 110
  {
    var a, b, c := KeypadLine(Horizontal, "123", false), ArithmeticProgression(1), AscendingOrder;
    ExplanationsDeductionAppend(CommonPattern, [a, b], [c]);
    ExplanationsDeductionAppend(CommonPattern, [a], [b]);
    OneExplanationDeduction(CommonPattern, a);
    OneExplanationDeduction(CommonPattern, b);
    OneExplanationDeduction(CommonPattern, c);
    assert [a, b] + [c] == [a, b, c];
    assert [a] + [b] == [a, b];
  }

  /** "1234" scores 0: its deductions add up to 110. */
  lemma Straight1234(parse: Parser)
    ensures Validate("1234", None, None, None, parse) ==
      Outcome(Weak, [(CommonPattern, [KeypadLine(Horizontal, "123", false), ArithmeticProgression(1), AscendingOrder])], 0, Red)
  {
    WellFormed1234();
    Findings1234();
    Deduction1234();
    OnlyCommonOutcome("1234", parse, [KeypadLine(Horizontal, "123", false), ArithmeticProgression(1), AscendingOrder], 110);
  }

  // The six-digit examples below name the PIN `p + p` rather than the literal "123123": on a
  // literal PIN the solver unfolds every substring test of every keypad line at once.

  lemma Repeats123123(p: string, pin: string)
    requires p == "123" && pin == p + p
    ensures RepeatedPair(pin) == None
    ensures SequenceFindings(pin) == [RepeatedSequence("123")]
  {
    RepeatedPairIsPeriodTwo(pin);
    RepeatIffPeriod(pin, 1);
    RepeatIffPeriod(pin, 2);
    RepeatIffPeriod(pin, 3);
    assert pin[1] != pin[0];
    assert pin[2] != pin[0];
    assert HasPeriod(pin, 3);
    assert pin[..3] == p;
    assert SequenceFindingsUpTo(pin, 1) == [];
    assert SequenceFindingsUpTo(pin, 2) == [];
    assert SequenceFindingsUpTo(pin, 3) == [RepeatedSequence("123")];
  }

  /** The row 1-2-3 occurs in "123123", and so does the row doubled. */
  lemma Hits123123(p: string, pin: string)
    requires p == "123" && pin == p + p
    ensures LineHits(Horizontal, p, pin) == [KeypadLine(Horizontal, p, false), KeypadLine(Horizontal, p, true)]
  {
    assert Repeat(p, 2) == pin by {
      assert Repeat(p, 1) == p + Repeat(p, 0);
    }
    assert pin[..|pin|] == pin;
    assert Contains(pin, pin);
    ContainsPrefix(pin, p, p);
  }

  /** A PIN without 5, 6 and 7 whose second digit is off the corners can only hit the first row. */
  lemma KeypadOnlyFirstRow(pin: string)
    requires '5' !in pin && '6' !in pin && '7' !in pin
    requires |pin| > 1 && pin[1] !in CornerDigits
    ensures KeypadFindings(pin) == LineHits(Horizontal, "123", pin)
  {
    LineHitsNeedEveryDigit(Horizontal, "456", pin, 1);
    LineHitsNeedEveryDigit(Horizontal, "789", pin, 0);
    LineHitsNeedEveryDigit(Vertical, "147", pin, 2);
    LineHitsNeedEveryDigit(Vertical, "258", pin, 1);
    LineHitsNeedEveryDigit(Vertical, "369", pin, 1);
    LineHitsNeedEveryDigit(Diagonal, "159", pin, 1);
    LineHitsNeedEveryDigit(Diagonal, "357", pin, 1);
    NoCornersWith(pin, 1);
    KeypadLineByLine(pin);
    KeypadWithoutCorners(pin, LineHits(Horizontal, "123", pin), [], []);
  }

  /** A PIN without 2, 3, 4 and 7 whose second digit is off the corners can only hit the diagonal 1-5-9. */
  lemma KeypadOnlyMainDiagonal(pin: string)
    requires '2' !in pin && '3' !in pin && '4' !in pin && '7' !in pin
    requires |pin| > 1 && pin[1] !in CornerDigits
    ensures KeypadFindings(pin) == LineHits(Diagonal, "159", pin)
  {
    LineHitsNeedEveryDigit(Horizontal, "123", pin, 1);
    LineHitsNeedEveryDigit(Horizontal, "456", pin, 0);
    LineHitsNeedEveryDigit(Horizontal, "789", pin, 0);
    LineHitsNeedEveryDigit(Vertical, "147", pin, 1);
    LineHitsNeedEveryDigit(Vertical, "258", pin, 0);
    LineHitsNeedEveryDigit(Vertical, "369", pin, 0);
    LineHitsNeedEveryDigit(Diagonal, "357", pin, 0);
    NoCornersWith(pin, 1);
    KeypadLineByLine(pin);
    KeypadWithoutCorners(pin, [], [], LineHits(Diagonal, "159", pin));
  }

  /** The keypad findings of "123123": the first row, found once and doubled. */
  lemma Keypad123123(p: string, pin: string)
    requires p == "123" && pin == p + p
    ensures KeypadFindings(pin) == [KeypadLine(Horizontal, "123", false), KeypadLine(Horizontal, "123", true)]
  {
    assert '5' !in pin && '6' !in pin && '7' !in pin && pin[1] !in CornerDigits;
    KeypadOnlyFirstRow(pin);
    Hits123123(p, pin);
  }

  lemma Progressions123123(p: string, pin: string)
    requires p == "123" && pin == p + p
    ensures ProgressionFindings(pin) == []
  {
    var ds := Values(pin);
    assert ds[3] - ds[2] != ds[1] - ds[0];
    assert ds[2] as real / ds[1] as real != ds[1] as real / ds[0] as real;
    RepeatedDigitIff(pin);
    assert pin[1] != pin[0];
    assert DigitValue(pin[2]) > DigitValue(pin[3]);
    assert DigitValue(pin[0]) < DigitValue(pin[1]);
  }

  /** "123123": the block 123 twice, the row 1-2-3, and the row doubled. */
  lemma Findings123123(p: string, pin: string)
    requires p == "123" && pin == p + p
    ensures StructuralFindings(pin) ==
      [RepeatedSequence("123"), KeypadLine(Horizontal, "123", false), KeypadLine(Horizontal, "123", true)]
  {
    WellFormed123123(p, pin);
    Repeats123123(p, pin);
    Keypad123123(p, pin);
    Progressions123123(p, pin);
    FindingsWithoutPairOrProgression(pin, [RepeatedSequence("123")], [KeypadLine(Horizontal, "123", false), KeypadLine(Horizontal, "123", true)]);
  }

  /** The findings of "123123" cost 35 + 35 + 0: the doubled row costs nothing. */
  lemma Deduction123123()
    ensures ExplanationsDeduction(CommonPattern,
      [RepeatedSequence("123"), KeypadLine(Horizontal, "123", false), KeypadLine(Horizontal, "123", true)]) == 70
  {
    var a, b, c := RepeatedSequence("123"), KeypadLine(Horizontal, "123", false), KeypadLine(Horizontal, "123", true);
    ExplanationsDeductionAppend(CommonPattern, [a, b], [c]);
    ExplanationsDeductionAppend(CommonPattern, [a], [b]);
    OneExplanationDeduction(CommonPattern, a);
    OneExplanationDeduction(CommonPattern, b);
    OneExplanationDeduction(CommonPattern, c);
    assert [a, b] + [c] == [a, b, c];
    assert [a] + [b] == [a, b];
  }

  lemma WellFormed123123(p: string, pin: string)
    requires p == "123" && pin == p + p
    ensures WellFormed(pin)
  {
  }

  /** The findings of "123123" cost 70. */
  lemma Common123123(p: string, pin: string)
    requires p == "123" && pin == p + p
    ensures StructuralFindings(pin) == [RepeatedSequence("123"), KeypadLine(Horizontal, "123", false), KeypadLine(Horizontal, "123", true)]
    ensures ExplanationsDeduction(CommonPattern, StructuralFindings(pin)) == 70
  {
    Findings123123(p, pin);
    Deduction123123();
  }

  /** "123123" scores 30 and is WEAK. */
  lemma Block123123(p: string, pin: string, parse: Parser)
    requires p == "123" && pin == p + p
    ensures Validate(pin, None, None, None, parse) ==
      Outcome(Weak, [(CommonPattern, [RepeatedSequence("123"), KeypadLine(Horizontal, "123", false), KeypadLine(Horizontal, "123", true)])], 30, Red)
  {
    WellFormed123123(p, pin);
    Common123123(p, pin);
    OnlyCommonOutcome(pin, parse, [RepeatedSequence("123"), KeypadLine(Horizontal, "123", false), KeypadLine(Horizontal, "123", true)], 70);
  }

  /** "1111" scores 0 and is WEAK, whatever dates are given. */
  lemma Constant1111(dob: Option<string>, spouse: Option<string>, anniversary: Option<string>, parse: Parser)
    ensures Validate("1111", dob, spouse, anniversary, parse).percentage == 0
    ensures Validate("1111", dob, spouse, anniversary, parse).strength == Weak
  {
    ConstantPinScoresZero("1111", dob, spouse, anniversary, parse);
  }

  /** A pattern loop none of whose patterns has all its characters in the PIN finds nothing. */
  lemma {:induction false} PatternsAllMissing(ps: seq<string>, pin: string, subsequenceAllowed: bool, ks: seq<nat>)
    requires |ks| == |ps| && forall j :: 0 <= j < |ps| ==> ks[j] < |ps[j]| && ps[j][ks[j]] !in pin
    ensures FirstMatch(ps, pin, subsequenceAllowed).None?
  {
    if ps != [] {
      ClassifyNeedsEveryChar(ps[0], pin, subsequenceAllowed, ks[0]);
      PatternsAllMissing(ps[1..], pin, subsequenceAllowed, ks[1..]);
    }
  }

  /** A PIN that fires no keypad line and is off the corners has no keypad findings. */
  lemma NoKeypadFindings(pin: string, hs: seq<nat>, vs: seq<nat>, ds: seq<nat>, c: nat)
    requires |hs| == 3 && forall j :: 0 <= j < 3 ==> hs[j] < |HorizontalLines[j]| && HorizontalLines[j][hs[j]] !in pin
    requires |vs| == 3 && forall j :: 0 <= j < 3 ==> vs[j] < |VerticalLines[j]| && VerticalLines[j][vs[j]] !in pin
    requires |ds| == 2 && forall j :: 0 <= j < 2 ==> ds[j] < |DiagonalLines[j]| && DiagonalLines[j][ds[j]] !in pin
    requires c < |pin| && pin[c] !in CornerDigits
    ensures KeypadFindings(pin) == []
  {
    LinesAllMissing(Horizontal, HorizontalLines, pin, hs);
    LinesAllMissing(Vertical, VerticalLines, pin, vs);
    LinesAllMissing(Diagonal, DiagonalLines, pin, ds);
    NoCornersWith(pin, c);
  }

  /** With only a date of birth, the reasons are the structural entry and that date's own block. */
  lemma DobOnlyOutcome(pin: string, dob: string, parse: Parser)
    requires WellFormed(pin) && dob != ""
    ensures Validate(pin, Some(dob), None, None, parse) == Verdict(SingleDate(PatternReasons(pin), pin, Self, parse(dob)))
  {
    assert GivenDates(Some(dob), None, None) == [(Self, dob)];
    CombineAllNeedsTwoDates(PatternReasons(pin), pin, [(Self, dob)], parse);
  }

  /**
   * A PIN that fires no structural detector and has one birth-date finding
   * scores 100 less that finding's cost, with the verdict that score gives.
   */
  lemma OneDobFinding(pin: string, dob: string, parse: Parser, e: Explanation)
    requires WellFormed(pin) && dob != "" && PatternReasons(pin) == []
    requires SingleDate([], pin, Self, parse(dob)) == [(DemographicDobSelf, [e])]
    requires Deduction(DemographicDobSelf, e) < 100
    ensures Validate(pin, Some(dob), None, None, parse) ==
      var r, score := [(DemographicDobSelf, [e])], 100 - Deduction(DemographicDobSelf, e);
      if score >= StrongThreshold then Outcome(Strong, r, score, Green) else Outcome(Weak, r, score, Red)
  {
    var r := [(DemographicDobSelf, [e])];
    DobOnlyOutcome(pin, dob, parse);
    assert SingleDate(PatternReasons(pin), pin, Self, parse(dob)) == r;
    OneEntryDeduction(DemographicDobSelf, [e]);
    OneExplanationDeduction(DemographicDobSelf, e);
    VerdictFromDeduction(r, Deduction(DemographicDobSelf, e));
  }

  /** The day, month and year strings of 15 June 1990. */
  lemma Fields15061990()
    ensures Day(Date(15, 6, 1990)) == "15" && Month(Date(15, 6, 1990)) == "06"
    ensures ShortYear(Date(15, 6, 1990)) == "90" && FullYear(Date(15, 6, 1990)) == "1990"
  {
    var d := Date(15, 6, 1990);
    assert DigitChar(0) == '0' && DigitChar(1) == '1' && DigitChar(5) == '5';
    assert DigitChar(6) == '6' && DigitChar(9) == '9';
    assert Pad2(19) == "19";
    assert FullYear(d) == "19" + "90" == "1990";
  }

  /** The year patterns of 15 June 1990. */
  lemma Years15061990()
    ensures YearPatterns(Some(Date(15, 6, 1990))) == ["1990", "90"]
  {
    Fields15061990();
  }

  /** The date patterns of 15 June 1990. */
  lemma Patterns15061990()
    ensures DatePatterns(Some(Date(15, 6, 1990))) ==
      ["1506", "0615", "9006", "0690", "9015", "1590", "150690", "900615", "061590", "901506"]
  {
    var d := Date(15, 6, 1990);
    Fields15061990();
    var dd, mm, yy := Day(d), Month(d), ShortYear(d);
    assert dd + mm == "1506" && mm + dd == "0615" && yy + mm == "9006" && mm + yy == "0690";
    assert yy + dd == "9015" && dd + yy == "1590";
    assert dd + mm + yy == "150690" && yy + mm + dd == "900615";
    assert mm + dd + yy == "061590" && yy + dd + mm == "901506";
  }

  lemma Repeats1506()
    ensures RepeatedPair("1506") == None && SequenceFindings("1506") == []
  {
    RepeatedPairIsPeriodTwo("1506");
    RepeatIffPeriod("1506", 1);
    RepeatIffPeriod("1506", 2);
    assert "1506"[1] != "1506"[0];
    assert "1506"[2] != "1506"[0];
  }

  lemma Keypad1506()
    ensures KeypadFindings("1506") == []
  {
    NoKeypadFindings("1506", [1, 0, 0], [1, 0, 0], [2, 0], 1);
  }

  lemma Progressions1506()
    ensures ProgressionFindings("1506") == []
  {
    WellFormed1506();
    var pin := "1506";
    var ds := Values(pin);
    assert ds[2] - ds[1] != ds[1] - ds[0];
    GeometricExcludesZero(pin);
    RepeatedDigitIff(pin);
    assert pin[1] != pin[0];
    assert DigitValue(pin[1]) > DigitValue(pin[2]);
    assert DigitValue(pin[0]) < DigitValue(pin[1]);
  }

  /** "1506" fires no structural detector. */
  lemma Plain1506()
    ensures PatternReasons("1506") == []
  {
    WellFormed1506();
    Repeats1506();
    Keypad1506();
    Progressions1506();
    FindingsWithoutPairOrProgression("1506", [], []);
  }

  /** Neither year pattern of 15 June 1990 occurs in "1506". */
  lemma YearMiss1506()
    ensures FirstMatch(YearPatterns(Some(Date(15, 6, 1990))), "1506", true) == None
  {
    Years15061990();
    PatternsAllMissing(["1990", "90"], "1506", true, [1, 0]);
  }

  /** The first date pattern of 15 June 1990 is "1506" itself. */
  lemma DateHit1506()
    ensures FirstMatch(DatePatterns(Some(Date(15, 6, 1990))), "1506", true) == Some((Exact, "1506"))
  {
    Patterns15061990();
  }

  /**
   * "1506" against the birth date 15-06-1990: the year misses, day and month
   * match exactly. With `OneDobFinding` and `Plain1506` the PIN scores
   * 100 - 40 = 60 and is WEAK.
   */
  lemma DobBlock1506()
    ensures SingleDate([], "1506", Self, Some(Date(15, 6, 1990))) == [(DemographicDobSelf, [DateMatch(Self, Exact)])]
  {
    YearMiss1506();
    DateHit1506();
  }

  lemma Repeats1990()
    ensures RepeatedPair("1990") == None && SequenceFindings("1990") == []
  {
    RepeatedPairIsPeriodTwo("1990");
    RepeatIffPeriod("1990", 1);
    RepeatIffPeriod("1990", 2);
    assert "1990"[1] != "1990"[0];
    assert "1990"[2] != "1990"[0];
  }

  lemma Keypad1990()
    ensures KeypadFindings("1990") == []
  {
    NoKeypadFindings("1990", [1, 0, 0], [1, 0, 0], [1, 0], 3);
  }

  lemma Progressions1990()
    ensures ProgressionFindings("1990") == []
  {
    WellFormed1990();
    var pin := "1990";
    var ds := Values(pin);
    assert ds[2] - ds[1] != ds[1] - ds[0];
    GeometricExcludesZero(pin);
    RepeatedDigitIff(pin);
    assert pin[1] != pin[0];
    assert DigitValue(pin[2]) > DigitValue(pin[3]);
    assert DigitValue(pin[0]) < DigitValue(pin[1]);
  }

  /** "1990" fires no structural detector. */
  lemma Plain1990()
    ensures PatternReasons("1990") == []
  {
    WellFormed1990();
    Repeats1990();
    Keypad1990();
    Progressions1990();
    FindingsWithoutPairOrProgression("1990", [], []);
  }

  /** The full year of 15 June 1990 is "1990" itself. */
  lemma YearHit1990()
    ensures FirstMatch(YearPatterns(Some(Date(15, 6, 1990))), "1990", true) == Some((Exact, "1990"))
  {
    Years15061990();
  }

  /** No date pattern of 15 June 1990 occurs in "1990". */
  lemma DateMiss1990()
    ensures FirstMatch(DatePatterns(Some(Date(15, 6, 1990))), "1990", true) == None
  {
    Patterns15061990();
    PatternsAllMissing(["1506", "0615", "9006", "0690", "9015", "1590", "150690", "900615", "061590", "901506"],
      "1990", true, [1, 1, 3, 1, 3, 1, 1, 3, 1, 3]);
  }

  /**
   * "1990" against the birth date 15-06-1990: the year matches exactly, no
   * date pattern does. With `OneDobFinding` and `Plain1990` the PIN scores
   * 100 - 20 = 80 and is STRONG.
   */
  lemma DobBlock1990()
    ensures SingleDate([], "1990", Self, Some(Date(15, 6, 1990))) == [(DemographicDobSelf, [YearMatch(Self, Exact)])]
  {
    YearHit1990();
    DateMiss1990();
  }

  /** A lone exact date-of-birth finding costs 40: WEAK at 60. */
  lemma ExactDobVerdict()
    ensures Verdict([(DemographicDobSelf, [DateMatch(Self, Exact)])]) ==
      Outcome(Weak, [(DemographicDobSelf, [DateMatch(Self, Exact)])], 60, Red)
  {
    var e := DateMatch(Self, Exact);
    assert Deduction(DemographicDobSelf, e) == 40;
    OneEntryDeduction(DemographicDobSelf, [e]);
    OneExplanationDeduction(DemographicDobSelf, e);
    VerdictFromDeduction([(DemographicDobSelf, [e])], 40);
  }

  /** A lone exact birth-year finding costs 20: STRONG at 80. */
  lemma ExactBirthYearVerdict()
    ensures Verdict([(DemographicDobSelf, [YearMatch(Self, Exact)])]) ==
      Outcome(Strong, [(DemographicDobSelf, [YearMatch(Self, Exact)])], 80, Green)
  {
    var e := YearMatch(Self, Exact);
    assert Deduction(DemographicDobSelf, e) == 20;
    OneEntryDeduction(DemographicDobSelf, [e]);
    OneExplanationDeduction(DemographicDobSelf, e);
    VerdictFromDeduction([(DemographicDobSelf, [e])], 20);
  }

  /**
   * A PIN that fires no structural detector and is exactly one of the
   * holder's date-of-birth patterns, with no other date given, costs 40:
   * WEAK at 60.
   */
  lemma ExactDobOutcome(pin: string, dob: string, parse: Parser, d: Date)
    requires WellFormed(pin) && PatternReasons(pin) == [] && dob != "" && parse(dob) == Some(d)
    requires SingleDate([], pin, Self, Some(d)) == [(DemographicDobSelf, [DateMatch(Self, Exact)])]
    ensures Validate(pin, Some(dob), None, None, parse) ==
      Outcome(Weak, [(DemographicDobSelf, [DateMatch(Self, Exact)])], 60, Red)
  {
    DobOnlyOutcome(pin, dob, parse);
    ExactDobVerdict();
  }

  /**
   * A PIN that fires no structural detector and is exactly the holder's
   * birth year, with no other date given, costs 20: STRONG at 80.
   */
  lemma ExactBirthYearOutcome(pin: string, dob: string, parse: Parser, d: Date)
    requires WellFormed(pin) && PatternReasons(pin) == [] && dob != "" && parse(dob) == Some(d)
    requires SingleDate([], pin, Self, Some(d)) == [(DemographicDobSelf, [YearMatch(Self, Exact)])]
    ensures Validate(pin, Some(dob), None, None, parse) ==
      Outcome(Strong, [(DemographicDobSelf, [YearMatch(Self, Exact)])], 80, Green)
  {
    DobOnlyOutcome(pin, dob, parse);
    ExactBirthYearVerdict();
  }

  /** "1506" with the birth date 15-06-1990 and nothing else: WEAK at 60. */
  lemma Dob1506(pin: string, dob: string, parse: Parser)
    requires pin == "1506" && dob == "15-06-1990" && parse(dob) == Some(Date(15, 6, 1990))
    ensures Validate(pin, Some(dob), None, None, parse) ==
      Outcome(Weak, [(DemographicDobSelf, [DateMatch(Self, Exact)])], 60, Red)
  {
    WellFormed1506();
    Plain1506();
    DobBlock1506();
    ExactDobOutcome(pin, dob, parse, Date(15, 6, 1990));
  }

  /** "1990" with the birth date 15-06-1990 and nothing else: STRONG at 80. */
  lemma Dob1990(pin: string, dob: string, parse: Parser)
    requires pin == "1990" && dob == "15-06-1990" && parse(dob) == Some(Date(15, 6, 1990))
    ensures Validate(pin, Some(dob), None, None, parse) ==
      Outcome(Strong, [(DemographicDobSelf, [YearMatch(Self, Exact)])], 80, Green)
  {
    WellFormed1990();
    Plain1990();
    DobBlock1990();
    ExactBirthYearOutcome(pin, dob, parse, Date(15, 6, 1990));
  }

  /** The day, month and year strings of 20 August 1985. */
  lemma Fields20081985()
    ensures Day(Date(20, 8, 1985)) == "20" && Month(Date(20, 8, 1985)) == "08"
    ensures ShortYear(Date(20, 8, 1985)) == "85" && FullYear(Date(20, 8, 1985)) == "1985"
  {
    var d := Date(20, 8, 1985);
    assert DigitChar(0) == '0' && DigitChar(1) == '1' && DigitChar(2) == '2';
    assert DigitChar(5) == '5' && DigitChar(8) == '8' && DigitChar(9) == '9';
    assert Pad2(19) == "19";
    assert FullYear(d) == "19" + "85" == "1985";
  }

  /** The year and date patterns of 20 August 1985. */
  lemma Patterns20081985()
    ensures YearPatterns(Some(Date(20, 8, 1985))) == ["1985", "85"]
    ensures DatePatterns(Some(Date(20, 8, 1985))) ==
      ["2008", "0820", "8508", "0885", "8520", "2085", "200885", "850820", "082085", "852008"]
  {
    var d := Date(20, 8, 1985);
    Fields20081985();
    var dd, mm, yy := Day(d), Month(d), ShortYear(d);
    assert dd + mm == "2008" && mm + dd == "0820" && yy + mm == "8508" && mm + yy == "0885";
    assert yy + dd == "8520" && dd + yy == "2085";
    assert dd + mm + yy == "200885" && yy + mm + dd == "850820";
    assert mm + dd + yy == "082085" && yy + dd + mm == "852008";
  }

  lemma WellFormed1520()
    ensures WellFormed("1520")
  {
  }

  lemma Repeats1520()
    ensures RepeatedPair("1520") == None && SequenceFindings("1520") == []
  {
    RepeatedPairIsPeriodTwo("1520");
    RepeatIffPeriod("1520", 1);
    RepeatIffPeriod("1520", 2);
    assert "1520"[1] != "1520"[0];
    assert "1520"[2] != "1520"[0];
  }

  lemma Keypad1520()
    ensures KeypadFindings("1520") == []
  {
    NoKeypadFindings("1520", [2, 0, 0], [1, 2, 0], [2, 0], 1);
  }

  lemma Progressions1520()
    ensures ProgressionFindings("1520") == []
  {
    WellFormed1520();
    var pin := "1520";
    var ds := Values(pin);
    assert ds[2] - ds[1] != ds[1] - ds[0];
    GeometricExcludesZero(pin);
    RepeatedDigitIff(pin);
    assert pin[1] != pin[0];
    assert DigitValue(pin[1]) > DigitValue(pin[2]);
    assert DigitValue(pin[0]) < DigitValue(pin[1]);
  }

  /** "1520" fires no structural detector. */
  lemma Plain1520()
    ensures PatternReasons("1520") == []
  {
    WellFormed1520();
    Repeats1520();
    Keypad1520();
    Progressions1520();
    FindingsWithoutPairOrProgression("1520", [], []);
  }

  /** Neither year pattern of 15 June 1990 occurs in "1520". */
  lemma YearMiss15061990In1520()
    ensures FirstMatch(YearPatterns(Some(Date(15, 6, 1990))), "1520", true) == None
  {
    Years15061990();
    PatternsAllMissing(["1990", "90"], "1520", true, [2, 0]);
  }

  /** No date pattern of 15 June 1990 occurs in "1520". */
  lemma DateMiss15061990In1520()
    ensures FirstMatch(DatePatterns(Some(Date(15, 6, 1990))), "1520", true) == None
  {
    Patterns15061990();
    PatternsAllMissing(["1506", "0615", "9006", "0690", "9015", "1590", "150690", "900615", "061590", "901506"],
      "1520", true, [3, 1, 0, 1, 0, 2, 3, 0, 1, 0]);
  }

  /** Neither year pattern of 20 August 1985 occurs in "1520". */
  lemma YearMiss20081985In1520()
    ensures FirstMatch(YearPatterns(Some(Date(20, 8, 1985))), "1520", true) == None
  {
    Patterns20081985();
    PatternsAllMissing(["1985", "85"], "1520", true, [1, 0]);
  }

  /** No date pattern of 20 August 1985 occurs in "1520". */
  lemma DateMiss20081985In1520()
    ensures FirstMatch(DatePatterns(Some(Date(20, 8, 1985))), "1520", true) == None
  {
    Patterns20081985();
    PatternsAllMissing(["2008", "0820", "8508", "0885", "8520", "2085", "200885", "850820", "082085", "852008"],
      "1520", true, [3, 1, 0, 1, 0, 2, 3, 0, 1, 0]);
  }

  /**
   * Given the holder's and the spouse's birth dates, neither of which matches
   * the PIN on its own while the pair does, the date blocks file only the
   * pair's DEMOGRAPHIC_COMBINED entry.
   */
  lemma CombinedOnlyReasons(pin: string, dob: string, spouse: string, parse: Parser, d1: Date, d2: Date, e: Explanation)
    requires dob != "" && spouse != "" && parse(dob) == Some(d1) && parse(spouse) == Some(d2)
    requires PairFinding(pin, (Self, dob), (Spouse, spouse), parse) == Some(e)
    requires FirstMatch(YearPatterns(Some(d1)), pin, true) == None && FirstMatch(DatePatterns(Some(d1)), pin, true) == None
    requires FirstMatch(YearPatterns(Some(d2)), pin, true) == None && FirstMatch(DatePatterns(Some(d2)), pin, true) == None
    ensures DateReasons([], pin, Some(dob), Some(spouse), None, parse) == [(DemographicCombined, [e])]
  {
    var self, other := (Self, dob), (Spouse, spouse);
    var r := [(DemographicCombined, [e])];
    assert GivenDates(Some(dob), Some(spouse), None) == [self] + [other] + [];
    assert CombineWith([], pin, self, [other], parse) == r;
    assert CombineAll(r, pin, [other], parse) == r;
    assert CombineAll([], pin, [self, other], parse) == r;
    assert SingleIfGiven(r, pin, Self, Some(dob), parse) == r by {
      assert SingleDate(r, pin, Self, Some(d1)) == r;
    }
    assert SingleIfGiven(r, pin, Spouse, Some(spouse), parse) == r by {
      assert SingleDate(r, pin, Spouse, Some(d2)) == r;
    }
    assert SingleIfGiven(r, pin, Anniversary, None, parse) == r;
    var ds := GivenDates(Some(dob), Some(spouse), None);
    assert CombineAll([], pin, ds, parse) == r;
  }

  /** A lone exact combined-date finding costs 20: STRONG at 80. */
  lemma CombinedExactVerdict(e: Explanation)
    requires e.CombinedExact?
    ensures Verdict([(DemographicCombined, [e])]) == Outcome(Strong, [(DemographicCombined, [e])], 80, Green)
  {
    assert Deduction(DemographicCombined, e) == 20;
    OneEntryDeduction(DemographicCombined, [e]);
    OneExplanationDeduction(DemographicCombined, e);
    VerdictFromDeduction([(DemographicCombined, [e])], 20);
  }

  /**
   * A PIN that fires no structural detector, given the holder's and the
   * spouse's birth dates, neither of which matches it on its own, while the
   * pair matches it exactly: only DEMOGRAPHIC_COMBINED is filed, costing 20,
   * so the PIN is STRONG at 80.
   */
  lemma CombinedOnlyOutcome(pin: string, dob: string, spouse: string, parse: Parser, d1: Date, d2: Date, e: Explanation)
    requires WellFormed(pin) && PatternReasons(pin) == [] && dob != "" && spouse != ""
    requires parse(dob) == Some(d1) && parse(spouse) == Some(d2)
    requires PairFinding(pin, (Self, dob), (Spouse, spouse), parse) == Some(e) && e.CombinedExact?
    requires FirstMatch(YearPatterns(Some(d1)), pin, true) == None && FirstMatch(DatePatterns(Some(d1)), pin, true) == None
    requires FirstMatch(YearPatterns(Some(d2)), pin, true) == None && FirstMatch(DatePatterns(Some(d2)), pin, true) == None
    ensures Validate(pin, Some(dob), Some(spouse), None, parse) == Outcome(Strong, [(DemographicCombined, [e])], 80, Green)
  {
    CombinedOnlyReasons(pin, dob, spouse, parse, d1, d2, e);
    CombinedExactVerdict(e);
  }

  /** The days of 15 June 1990 and 20 August 1985, joined, are "1520". */
  lemma DaysJoin1520()
    ensures Day(Date(15, 6, 1990)) + Day(Date(20, 8, 1985)) == "1520"
  {
    Fields15061990();
    Fields20081985();
    assert "15" + "20" == "1520";
  }

  /**
   * "1520" with the birth dates 15-06-1990 (self) and 20-08-1985 (spouse):
   * the self day followed by the spouse day. Only DEMOGRAPHIC_COMBINED is
   * filed, costing 20, so the PIN is STRONG at 80.
   */
  lemma CombinedDays1520(pin: string, dob: string, spouse: string, parse: Parser)
    requires pin == "1520" && dob == "15-06-1990" && spouse == "20-08-1985"
    requires parse(dob) == Some(Date(15, 6, 1990)) && parse(spouse) == Some(Date(20, 8, 1985))
    ensures Validate(pin, Some(dob), Some(spouse), None, parse) ==
      Outcome(Strong, [(DemographicCombined, [CombinedExact(Fields(DayField, Self, DayField, Spouse))])], 80, Green)
  {
    WellFormed1520();
    Plain1520();
    DaysJoin1520();
    DayPairMatch(pin, (Self, dob), (Spouse, spouse), parse, Date(15, 6, 1990), Date(20, 8, 1985));
    YearMiss15061990In1520();
    DateMiss15061990In1520();
    YearMiss20081985In1520();
    DateMiss20081985In1520();
    CombinedOnlyOutcome(pin, dob, spouse, parse, Date(15, 6, 1990), Date(20, 8, 1985),
      CombinedExact(Fields(DayField, Self, DayField, Spouse)));
  }
}
