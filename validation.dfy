/**
 * `validate_mpin`: the format check, the structural detectors under
 * COMMON_PATTERN, the combined detector over every pair of given dates, each
 * date's own detectors, and the verdict drawn from the score.
 */
module Validation {
  import opened Wrappers
  import opened Text
  import opened Dates
  import opened Findings
  import opened Structural
  import opened Demographic
  import opened Scoring

  datatype Strength = Strong | Weak
  datatype Color = Red | Green

  /** The four values `validate_mpin` returns. */
  datatype Outcome = Outcome(strength: Strength, reasons: Reasons, percentage: int, color: Color)

  /** Only digits, and four or six of them. */
  predicate WellFormed(pin: string) {
    AllDigits(pin) && (|pin| == 4 || |pin| == 6)
  }

  /** An optional date argument counts when it is present and not the empty string. */
  predicate Given(arg: Option<string>) {
    arg.Some? && arg.value != ""
  }

  /** The given dates, labelled, in the order self, spouse, anniversary. */
  function GivenDates(dob: Option<string>, spouse: Option<string>, anniversary: Option<string>): (ds: seq<(Label, string)>)
    ensures |ds| <= 3
  {
    (if Given(dob) then [(Self, dob.value)] else [])
    + (if Given(spouse) then [(Spouse, spouse.value)] else [])
    + (if Given(anniversary) then [(Anniversary, anniversary.value)] else [])
  }

  /** The COMMON_PATTERN entry, present only when some structural detector fired. */
  function PatternReasons(pin: string): Reasons
    requires AllDigits(pin)
  {
    var fs := StructuralFindings(pin);
    if fs == [] then [] else [(CommonPattern, fs)]
  }

  /** One date's block runs only when that date is given. */
  function SingleIfGiven(r: Reasons, pin: string, who: Label, arg: Option<string>, parse: Parser): Reasons {
    if Given(arg) then SingleDate(r, pin, who, parse(arg.value)) else r
  }

  /** The date blocks, run after the structural ones have filed `r`. */
  function DateReasons(r: Reasons, pin: string, dob: Option<string>, spouse: Option<string>, anniversary: Option<string>, parse: Parser): Reasons {
    var r1 := CombineAll(r, pin, GivenDates(dob, spouse, anniversary), parse);
    var r2 := SingleIfGiven(r1, pin, Self, dob, parse);
    var r3 := SingleIfGiven(r2, pin, Spouse, spouse, parse);
    SingleIfGiven(r3, pin, Anniversary, anniversary, parse)
  }

  /** Every finding of a well-formed PIN, in the order the original files them. */
  function ReasonsFor(pin: string, dob: Option<string>, spouse: Option<string>, anniversary: Option<string>, parse: Parser): Reasons
    requires AllDigits(pin)
  {
    DateReasons(PatternReasons(pin), pin, dob, spouse, anniversary, parse)
  }

  /** STRONG and green from 70 up, WEAK and red below. */
  function Verdict(reasons: Reasons): Outcome {
    var score := StrengthPercentage(reasons);
    if score >= StrongThreshold then Outcome(Strong, reasons, score, Green)
    else Outcome(Weak, reasons, score, Red)
  }

  function Validate(pin: string, dob: Option<string>, spouse: Option<string>, anniversary: Option<string>, parse: Parser): Outcome {
    if !WellFormed(pin) then Outcome(Weak, [(InvalidFormat, [WrongFormat])], 0, Red)
    else Verdict(ReasonsFor(pin, dob, spouse, anniversary, parse))
  }
}

/** What `validate_mpin` promises. */
module ValidationProperties {
  import opened Wrappers
  import opened Text
  import opened Dates
  import opened Findings
  import opened Structural
  import opened StructuralProperties
  import opened Demographic
  import opened DemographicProperties
  import opened Scoring
  import opened Validation

  /** The verdict is the score read against the threshold, and the score is a percentage. */
  lemma VerdictFollowsScore(pin: string, dob: Option<string>, spouse: Option<string>, anniversary: Option<string>, parse: Parser)
    ensures var o := Validate(pin, dob, spouse, anniversary, parse);
      && 0 <= o.percentage <= 100
      && (o.strength == Strong <==> o.percentage >= 70)
      && (o.color == Green <==> o.strength == Strong)
      && o.percentage == (if WellFormed(pin) then StrengthPercentage(o.reasons) else 0)
  {
    if WellFormed(pin) {
      StrengthIsPercentage(ReasonsFor(pin, dob, spouse, anniversary, parse));
    }
  }

  /** Only COMMON_PATTERN, if anything, is filed before the date blocks run. */
  predicate OnlyCommon(r: Reasons) {
    DistinctKeys(r) && forall c :: c in Keys(r) ==> c == CommonPattern
  }

  lemma PatternReasonsOnlyCommon(pin: string)
    requires AllDigits(pin)
    ensures OnlyCommon(PatternReasons(pin))
  {
    var r0 := PatternReasons(pin);
    if r0 != [] { assert |r0| == 1; }
  }

  /** `x` still starts with `r`, has distinct keys, and holds only COMMON_PATTERN and demographic keys. */
  predicate ShapeKept(r: Reasons, x: Reasons) {
    r <= x && DistinctKeys(x) && forall c :: c in Keys(x) ==> c == CommonPattern || c.IsDemographic()
  }

  lemma CombineAllKeepsShape(r: Reasons, pin: string, dates: seq<(Label, string)>, parse: Parser)
    requires OnlyCommon(r)
    ensures ShapeKept(r, CombineAll(r, pin, dates, parse))
  {
    CombineAllOnlyCombined(r, pin, dates, parse);
  }

  lemma SingleIfGivenKeepsShape(r: Reasons, x: Reasons, pin: string, who: Label, arg: Option<string>, parse: Parser)
    requires OnlyCommon(r) && ShapeKept(r, x)
    ensures ShapeKept(r, SingleIfGiven(x, pin, who, arg, parse))
  {
    if Given(arg) {
      SingleDateOnlyOwnKey(x, pin, who, parse(arg.value));
      assert CategoryOf(who) !in Keys(r);
    }
  }

  /**
   * The date blocks leave what was filed before them first and as it was,
   * file nothing but demographic keys, and keep the list a dictionary.
   */
  lemma DateReasonsShape(r: Reasons, pin: string, dob: Option<string>, spouse: Option<string>, anniversary: Option<string>, parse: Parser)
    requires OnlyCommon(r)
    ensures r <= DateReasons(r, pin, dob, spouse, anniversary, parse)
    ensures DistinctKeys(DateReasons(r, pin, dob, spouse, anniversary, parse))
    ensures forall c :: c in Keys(DateReasons(r, pin, dob, spouse, anniversary, parse)) ==> c == CommonPattern || c.IsDemographic()
  {
    var r1 := CombineAll(r, pin, GivenDates(dob, spouse, anniversary), parse);
    var r2 := SingleIfGiven(r1, pin, Self, dob, parse);
    var r3 := SingleIfGiven(r2, pin, Spouse, spouse, parse);
    CombineAllKeepsShape(r, pin, GivenDates(dob, spouse, anniversary), parse);
    SingleIfGivenKeepsShape(r, r1, pin, Self, dob, parse);
    SingleIfGivenKeepsShape(r, r2, pin, Spouse, spouse, parse);
    SingleIfGivenKeepsShape(r, r3, pin, Anniversary, anniversary, parse);
    assert ShapeKept(r, DateReasons(r, pin, dob, spouse, anniversary, parse));
  }

  lemma ReasonsShape(pin: string, dob: Option<string>, spouse: Option<string>, anniversary: Option<string>, parse: Parser)
    requires AllDigits(pin)
    ensures PatternReasons(pin) <= ReasonsFor(pin, dob, spouse, anniversary, parse)
    ensures DistinctKeys(ReasonsFor(pin, dob, spouse, anniversary, parse))
    ensures forall c :: c in Keys(ReasonsFor(pin, dob, spouse, anniversary, parse)) ==> c == CommonPattern || c.IsDemographic()
  {
    PatternReasonsOnlyCommon(pin);
    DateReasonsShape(PatternReasons(pin), pin, dob, spouse, anniversary, parse);
  }

  /** The INVALID_FORMAT key appears exactly when the PIN is not four or six digits, and then the verdict is WEAK at 0. */
  lemma InvalidFormatIff(pin: string, dob: Option<string>, spouse: Option<string>, anniversary: Option<string>, parse: Parser)
    ensures InvalidFormat in Keys(Validate(pin, dob, spouse, anniversary, parse).reasons) <==> !WellFormed(pin)
    ensures !WellFormed(pin) ==> Validate(pin, dob, spouse, anniversary, parse) == Outcome(Weak, [(InvalidFormat, [WrongFormat])], 0, Red)
  {
    if WellFormed(pin) {
      ReasonsShape(pin, dob, spouse, anniversary, parse);
    } else {
      assert [(InvalidFormat, [WrongFormat])][0].0 == InvalidFormat;
    }
  }

  /** The returned reasons form a dictionary: no key twice. */
  lemma ReasonsAreADictionary(pin: string, dob: Option<string>, spouse: Option<string>, anniversary: Option<string>, parse: Parser)
    ensures DistinctKeys(Validate(pin, dob, spouse, anniversary, parse).reasons)
  {
    if WellFormed(pin) {
      ReasonsShape(pin, dob, spouse, anniversary, parse);
    }
  }

  /** COMMON_PATTERN holds every structural finding, in detector order, and is present exactly when there is one. */
  lemma CommonEntry(pin: string, dob: Option<string>, spouse: Option<string>, anniversary: Option<string>, parse: Parser)
    requires WellFormed(pin)
    ensures Get(Validate(pin, dob, spouse, anniversary, parse).reasons, CommonPattern) ==
      if StructuralFindings(pin) == [] then None else Some(StructuralFindings(pin))
  {
    DateReasonsCommon(PatternReasons(pin), pin, dob, spouse, anniversary, parse);
  }

  lemma {:induction false} KeyAbsent(r: Reasons, c: Category)
    requires c !in Keys(r)
    ensures Get(r, c).None?
  {
    if r != [] {
      KeysOfTail(r);
      KeyAbsent(r[1..], c);
    }
  }

  /** The date blocks file COMMON_PATTERN only if it was filed before them. */
  lemma DateReasonsCommon(r: Reasons, pin: string, dob: Option<string>, spouse: Option<string>, anniversary: Option<string>, parse: Parser)
    ensures Get(DateReasons(r, pin, dob, spouse, anniversary, parse), CommonPattern) == Get(r, CommonPattern)
  {
    var r1 := CombineAll(r, pin, GivenDates(dob, spouse, anniversary), parse);
    var r2 := SingleIfGiven(r1, pin, Self, dob, parse);
    var r3 := SingleIfGiven(r2, pin, Spouse, spouse, parse);
    CombineAllOnlyCombined(r, pin, GivenDates(dob, spouse, anniversary), parse);
    if Given(dob) { SingleDateOnlyOwnKey(r1, pin, Self, parse(dob.value)); }
    if Given(spouse) { SingleDateOnlyOwnKey(r2, pin, Spouse, parse(spouse.value)); }
    if Given(anniversary) { SingleDateOnlyOwnKey(r3, pin, Anniversary, parse(anniversary.value)); }
  }

  /**
   * After the date blocks DEMOGRAPHIC_COMBINED is present exactly when some
   * pair of given dates matches, and then holds one explanation: that of some
   * such pair.
   */
  lemma DateReasonsCombined(r: Reasons, pin: string, dob: Option<string>, spouse: Option<string>, anniversary: Option<string>, parse: Parser)
    requires Get(r, DemographicCombined).None?
    ensures var out := DateReasons(r, pin, dob, spouse, anniversary, parse);
      && (Get(out, DemographicCombined).Some? <==> SomePairMatches(pin, GivenDates(dob, spouse, anniversary), parse))
      && (Get(out, DemographicCombined).Some? ==>
            exists e :: Get(out, DemographicCombined) == Some([e]) && ReportedBySomePair(pin, GivenDates(dob, spouse, anniversary), parse, e))
  {
    var dates := GivenDates(dob, spouse, anniversary);
    var r1 := CombineAll(r, pin, dates, parse);
    var r2 := SingleIfGiven(r1, pin, Self, dob, parse);
    var r3 := SingleIfGiven(r2, pin, Spouse, spouse, parse);
    CombineAllEntryPresent(r, pin, dates, parse);
    CombineAllEntryOrigin(r, pin, dates, parse);
    if Given(dob) { SingleDateOnlyOwnKey(r1, pin, Self, parse(dob.value)); }
    if Given(spouse) { SingleDateOnlyOwnKey(r2, pin, Spouse, parse(spouse.value)); }
    if Given(anniversary) { SingleDateOnlyOwnKey(r3, pin, Anniversary, parse(anniversary.value)); }
  }

  /**
   * DEMOGRAPHIC_COMBINED is present exactly when some pair of given dates
   * matches, and then holds one explanation: that of some such pair.
   */
  lemma CombinedEntry(pin: string, dob: Option<string>, spouse: Option<string>, anniversary: Option<string>, parse: Parser)
    requires WellFormed(pin)
    ensures var reasons := Validate(pin, dob, spouse, anniversary, parse).reasons;
      && (Get(reasons, DemographicCombined).Some? <==> SomePairMatches(pin, GivenDates(dob, spouse, anniversary), parse))
      && (Get(reasons, DemographicCombined).Some? ==>
            exists e :: Get(reasons, DemographicCombined) == Some([e]) && ReportedBySomePair(pin, GivenDates(dob, spouse, anniversary), parse, e))
  {
    ValidateReasons(pin, dob, spouse, anniversary, parse);
    assert Get(PatternReasons(pin), DemographicCombined).None? by {
      PatternReasonsOnlyCommon(pin);
      KeyAbsent(PatternReasons(pin), DemographicCombined);
    }
    DateReasonsCombined(PatternReasons(pin), pin, dob, spouse, anniversary, parse);
  }

  /**
   * After the date blocks DEMOGRAPHIC_COMBINED holds the finding of the last
   * pair of given dates, in the double loop's order, whose patterns match:
   * each matching pair overwrites the entry.
   */
  lemma DateReasonsCombinedLast(r: Reasons, pin: string, dob: Option<string>, spouse: Option<string>, anniversary: Option<string>, parse: Parser, i: nat, j: nat)
    requires LastMatchingPair(pin, GivenDates(dob, spouse, anniversary), parse, i, j)
    ensures var dates := GivenDates(dob, spouse, anniversary);
      Get(DateReasons(r, pin, dob, spouse, anniversary, parse), DemographicCombined) == Some([PairFinding(pin, dates[i], dates[j], parse).value])
  {
    var dates := GivenDates(dob, spouse, anniversary);
    var r1 := CombineAll(r, pin, dates, parse);
    var r2 := SingleIfGiven(r1, pin, Self, dob, parse);
    var r3 := SingleIfGiven(r2, pin, Spouse, spouse, parse);
    CombineAllLast(r, pin, dates, parse, i, j);
    SingleEntryKept(r1, pin, Self, dob, parse, DemographicCombined);
    SingleEntryKept(r2, pin, Spouse, spouse, parse, DemographicCombined);
    SingleEntryKept(r3, pin, Anniversary, anniversary, parse, DemographicCombined);
  }

  /**
   * In the result DEMOGRAPHIC_COMBINED holds the finding of the last pair of
   * given dates, in loop order, whose patterns match.
   */
  lemma CombinedEntryIsLastPair(pin: string, dob: Option<string>, spouse: Option<string>, anniversary: Option<string>, parse: Parser, i: nat, j: nat)
    requires WellFormed(pin)
    requires LastMatchingPair(pin, GivenDates(dob, spouse, anniversary), parse, i, j)
    ensures var dates := GivenDates(dob, spouse, anniversary);
      Get(Validate(pin, dob, spouse, anniversary, parse).reasons, DemographicCombined) == Some([PairFinding(pin, dates[i], dates[j], parse).value])
  {
    ValidateReasons(pin, dob, spouse, anniversary, parse);
    DateReasonsCombinedLast(PatternReasons(pin), pin, dob, spouse, anniversary, parse, i, j);
  }

  /** A well-formed PIN's reasons are the structural entry followed by the date blocks. */
  lemma ValidateReasons(pin: string, dob: Option<string>, spouse: Option<string>, anniversary: Option<string>, parse: Parser)
    requires WellFormed(pin)
    ensures Validate(pin, dob, spouse, anniversary, parse).reasons == DateReasons(PatternReasons(pin), pin, dob, spouse, anniversary, parse)
  {
  }

  /**
   * After the date blocks each date's key holds what that date's block finds
   * on its own, and is absent when the date is not given.
   */
  lemma DateReasonsSingle(r: Reasons, pin: string, dob: Option<string>, spouse: Option<string>, anniversary: Option<string>, parse: Parser)
    requires OnlyCommon(r)
    ensures var out := DateReasons(r, pin, dob, spouse, anniversary, parse);
      && Get(out, DemographicDobSelf) ==
           (if Given(dob) then Get(SingleDate([], pin, Self, parse(dob.value)), DemographicDobSelf) else None)
      && Get(out, DemographicDobSpouse) ==
           (if Given(spouse) then Get(SingleDate([], pin, Spouse, parse(spouse.value)), DemographicDobSpouse) else None)
      && Get(out, DemographicAnniversary) ==
           (if Given(anniversary) then Get(SingleDate([], pin, Anniversary, parse(anniversary.value)), DemographicAnniversary) else None)
  {
    var dates := GivenDates(dob, spouse, anniversary);
    var r1 := CombineAll(r, pin, dates, parse);
    var r2 := SingleIfGiven(r1, pin, Self, dob, parse);
    var r3 := SingleIfGiven(r2, pin, Spouse, spouse, parse);
    KeyAbsent(r, DemographicDobSelf);
    KeyAbsent(r, DemographicDobSpouse);
    KeyAbsent(r, DemographicAnniversary);
    CombineAllOnlyCombined(r, pin, dates, parse);
    if Given(dob) {
      SingleDateEntry(r1, pin, Self, parse(dob.value));
      SingleDateEntry([], pin, Self, parse(dob.value));
    }
    SingleEntryKept(r2, pin, Spouse, spouse, parse, DemographicDobSelf);
    SingleEntryKept(r3, pin, Anniversary, anniversary, parse, DemographicDobSelf);
    if Given(spouse) {
      SingleDateEntry(r2, pin, Spouse, parse(spouse.value));
      SingleDateEntry([], pin, Spouse, parse(spouse.value));
    }
    SingleEntryKept(r1, pin, Self, dob, parse, DemographicDobSpouse);
    SingleEntryKept(r3, pin, Anniversary, anniversary, parse, DemographicDobSpouse);
    if Given(anniversary) {
      SingleDateEntry(r3, pin, Anniversary, parse(anniversary.value));
      SingleDateEntry([], pin, Anniversary, parse(anniversary.value));
    }
    SingleEntryKept(r1, pin, Self, dob, parse, DemographicAnniversary);
    SingleEntryKept(r2, pin, Spouse, spouse, parse, DemographicAnniversary);
  }

  lemma SingleEntryKept(r: Reasons, pin: string, who: Label, arg: Option<string>, parse: Parser, c: Category)
    requires c != CategoryOf(who)
    ensures Get(SingleIfGiven(r, pin, who, arg, parse), c) == Get(r, c)
  {
    if Given(arg) { SingleDateOnlyOwnKey(r, pin, who, parse(arg.value)); }
  }

  /**
   * Each date's key holds what that date's block finds on its own (the date
   * match if any, else the year match), and is absent when the date is not given.
   */
  lemma SingleDateEntries(pin: string, dob: Option<string>, spouse: Option<string>, anniversary: Option<string>, parse: Parser)
    requires WellFormed(pin)
    ensures var reasons := Validate(pin, dob, spouse, anniversary, parse).reasons;
      && Get(reasons, DemographicDobSelf) ==
           (if Given(dob) then Get(SingleDate([], pin, Self, parse(dob.value)), DemographicDobSelf) else None)
      && Get(reasons, DemographicDobSpouse) ==
           (if Given(spouse) then Get(SingleDate([], pin, Spouse, parse(spouse.value)), DemographicDobSpouse) else None)
      && Get(reasons, DemographicAnniversary) ==
           (if Given(anniversary) then Get(SingleDate([], pin, Anniversary, parse(anniversary.value)), DemographicAnniversary) else None)
  {
    PatternReasonsOnlyCommon(pin);
    DateReasonsSingle(PatternReasons(pin), pin, dob, spouse, anniversary, parse);
  }

  /** Without dates the reasons are the COMMON_PATTERN entry alone. */
  lemma NoDatesOnlyPatterns(pin: string, parse: Parser)
    requires WellFormed(pin)
    ensures Validate(pin, None, None, None, parse).reasons == PatternReasons(pin)
  {
    assert GivenDates(None, None, None) == [];
  }

  /** Without dates the verdict is drawn from the structural findings alone. */
  lemma NoDatesOutcome(pin: string, parse: Parser)
    requires WellFormed(pin)
    ensures Validate(pin, None, None, None, parse) == Verdict(PatternReasons(pin))
  {
    NoDatesOnlyPatterns(pin, parse);
  }

  /** Giving dates can only lower the score the PIN gets on its own. */
  lemma DatesOnlyLowerTheScore(pin: string, dob: Option<string>, spouse: Option<string>, anniversary: Option<string>, parse: Parser)
    requires WellFormed(pin)
    ensures Validate(pin, dob, spouse, anniversary, parse).percentage <= Validate(pin, None, None, None, parse).percentage
  {
    NoDatesOnlyPatterns(pin, parse);
    ReasonsShape(pin, dob, spouse, anniversary, parse);
    PrefixScoresNoLower(PatternReasons(pin), ReasonsFor(pin, dob, spouse, anniversary, parse));
  }

  /** The repetition and both order findings cost 35 each. */
  lemma RepetitionAndOrderDeduction(c: char)
    ensures ExplanationsDeduction(CommonPattern, [AllDigitsSame(c), AscendingOrder, DescendingOrder]) == 105
  {
    var one, two, three := [AllDigitsSame(c)], [AllDigitsSame(c), AscendingOrder], [AllDigitsSame(c), AscendingOrder, DescendingOrder];
    assert one[..0] == [];
    assert ExplanationsDeduction(CommonPattern, one) == 35;
    assert two[..1] == one;
    assert ExplanationsDeduction(CommonPattern, two) == 70;
    assert three[..2] == two;
  }

  /** A difference-0 progression costs 40, with or without the ratio-1 one after it. */
  lemma ArithmeticHeadDeduction(geo: seq<Explanation>)
    ensures ExplanationsDeduction(CommonPattern, [ArithmeticProgression(0)] + geo) >= 40
  {
    ExplanationsDeductionAppend(CommonPattern, [ArithmeticProgression(0)], geo);
    assert [ArithmeticProgression(0)][..0] == [];
  }

  /** The progression findings of a PIN that is one digit repeated cost at least 145. */
  lemma ConstantPinProgressionDeduction(pin: string)
    requires WellFormed(pin) && forall i :: 0 <= i < |pin| ==> pin[i] == pin[0]
    ensures ExplanationsDeduction(CommonPattern, ProgressionFindings(pin)) >= 145
  {
    var geo := if pin[0] == '0' then [] else [GeometricProgression(1.0)];
    var head := [ArithmeticProgression(0)] + geo;
    var tail := [AllDigitsSame(pin[0]), AscendingOrder, DescendingOrder];
    ConstantPinProgressions(pin);
    ExplanationsDeductionAppend(CommonPattern, head, tail);
    ArithmeticHeadDeduction(geo);
    RepetitionAndOrderDeduction(pin[0]);
  }

  /** The deductions of a PIN that is one digit repeated: at least arithmetic, repetition, ascending and descending. */
  lemma ConstantPinDeduction(pin: string)
    requires WellFormed(pin) && forall i :: 0 <= i < |pin| ==> pin[i] == pin[0]
    ensures ExplanationsDeduction(CommonPattern, StructuralFindings(pin)) >= 145
  {
    ConstantPinProgressionDeduction(pin);
    ExplanationsDeductionAppend(CommonPattern, CommonFindings(pin), ProgressionFindings(pin));
  }

  /** What the progression detectors report for a PIN that is one digit repeated. */
  lemma ConstantPinProgressions(pin: string)
    requires WellFormed(pin) && forall i :: 0 <= i < |pin| ==> pin[i] == pin[0]
    ensures ProgressionFindings(pin) ==
      [ArithmeticProgression(0)] + (if pin[0] == '0' then [] else [GeometricProgression(1.0)])
      + [AllDigitsSame(pin[0]), AscendingOrder, DescendingOrder]
  {
    ConstantPinFiresOrderChecks(pin);
    if pin[0] == '0' {
      assert Values(pin)[0] == 0;
    }
  }

  /** A PIN that is one digit repeated scores 0 and is WEAK, whatever the dates. */
  lemma ConstantPinScoresZero(pin: string, dob: Option<string>, spouse: Option<string>, anniversary: Option<string>, parse: Parser)
    requires WellFormed(pin) && forall i :: 0 <= i < |pin| ==> pin[i] == pin[0]
    ensures Validate(pin, dob, spouse, anniversary, parse).percentage == 0
    ensures Validate(pin, dob, spouse, anniversary, parse).strength == Weak
  {
    ConstantPatternsCostAll(pin);
    PatternsCostNoMore(pin, dob, spouse, anniversary, parse);
  }

  /** The structural entry of a PIN that is one digit repeated costs at least 100. */
  lemma ConstantPatternsCostAll(pin: string)
    requires WellFormed(pin) && forall i :: 0 <= i < |pin| ==> pin[i] == pin[0]
    ensures TotalDeduction(PatternReasons(pin)) >= 100
  {
    ConstantPinDeduction(pin);
    var p := PatternReasons(pin);
    assert p == [(CommonPattern, StructuralFindings(pin))];
    TotalDeductionCons(p);
  }

  /** The date blocks only add to what the structural entry costs. */
  lemma PatternsCostNoMore(pin: string, dob: Option<string>, spouse: Option<string>, anniversary: Option<string>, parse: Parser)
    requires AllDigits(pin)
    ensures TotalDeduction(PatternReasons(pin)) <= TotalDeduction(ReasonsFor(pin, dob, spouse, anniversary, parse))
  {
    ReasonsShape(pin, dob, spouse, anniversary, parse);
    PrefixCostsNoMore(PatternReasons(pin), ReasonsFor(pin, dob, spouse, anniversary, parse));
  }

  /** The argument `validate_mpin` received for the date labelled `who`. */
  function ArgFor(who: Label, dob: Option<string>, spouse: Option<string>, anniversary: Option<string>): Option<string> {
    match who
    case Self => dob
    case Spouse => spouse
    case Anniversary => anniversary
  }

  /** The position of a label in the order self, spouse, anniversary. */
  function LabelRank(who: Label): nat {
    match who
    case Self => 0
    case Spouse => 1
    case Anniversary => 2
  }

  /**
   * The labelled date list holds exactly the given dates, each under its own
   * label with its own text, once each, in the order self, spouse, anniversary.
   */
  lemma GivenDatesContents(dob: Option<string>, spouse: Option<string>, anniversary: Option<string>)
    ensures var ds := GivenDates(dob, spouse, anniversary);
      && (forall k :: 0 <= k < |ds| ==>
            Given(ArgFor(ds[k].0, dob, spouse, anniversary)) && ds[k].1 == ArgFor(ds[k].0, dob, spouse, anniversary).value)
      && (forall who :: Given(ArgFor(who, dob, spouse, anniversary)) ==> exists k :: 0 <= k < |ds| && ds[k].0 == who)
      && (forall k, m :: 0 <= k < m < |ds| ==> LabelRank(ds[k].0) < LabelRank(ds[m].0))
  {
    var ds := GivenDates(dob, spouse, anniversary);
    var a := if Given(dob) then [(Self, dob.value)] else [];
    var b := if Given(spouse) then [(Spouse, spouse.value)] else [];
    forall who | Given(ArgFor(who, dob, spouse, anniversary))
      ensures exists k :: 0 <= k < |ds| && ds[k].0 == who
    {
      match who
      case Self => assert ds[0].0 == Self;
      case Spouse => assert ds[|a|].0 == Spouse;
      case Anniversary => assert ds[|a| + |b|].0 == Anniversary;
    }
  }

  /** A self date that does not parse is as if it were not given. */
  lemma UnparsableDobIgnored(pin: string, dob: Option<string>, spouse: Option<string>, anniversary: Option<string>, parse: Parser)
    requires Given(dob) && parse(dob.value).None?
    ensures Validate(pin, dob, spouse, anniversary, parse) == Validate(pin, None, spouse, anniversary, parse)
  {
    if WellFormed(pin) {
      var x := (Self, dob.value);
      var b := GivenDates(None, spouse, anniversary);
      assert GivenDates(dob, spouse, anniversary) == [] + [x] + b;
      CombineAllSkipsUnparsable(PatternReasons(pin), pin, [], x, b, parse);
      assert [] + b == b;
    }
  }

  /** A spouse's date that does not parse is as if it were not given. */
  lemma UnparsableSpouseIgnored(pin: string, dob: Option<string>, spouse: Option<string>, anniversary: Option<string>, parse: Parser)
    requires Given(spouse) && parse(spouse.value).None?
    ensures Validate(pin, dob, spouse, anniversary, parse) == Validate(pin, dob, None, anniversary, parse)
  {
    if WellFormed(pin) {
      var a := if Given(dob) then [(Self, dob.value)] else [];
      var x := (Spouse, spouse.value);
      var b := if Given(anniversary) then [(Anniversary, anniversary.value)] else [];
      assert GivenDates(dob, spouse, anniversary) == a + [x] + b;
      assert GivenDates(dob, None, anniversary) == a + b;
      CombineAllSkipsUnparsable(PatternReasons(pin), pin, a, x, b, parse);
    }
  }

  /** An anniversary that does not parse is as if it were not given. */
  lemma UnparsableAnniversaryIgnored(pin: string, dob: Option<string>, spouse: Option<string>, anniversary: Option<string>, parse: Parser)
    requires Given(anniversary) && parse(anniversary.value).None?
    ensures Validate(pin, dob, spouse, anniversary, parse) == Validate(pin, dob, spouse, None, parse)
  {
    if WellFormed(pin) {
      var a := GivenDates(dob, spouse, None);
      var x := (Anniversary, anniversary.value);
      assert GivenDates(dob, spouse, anniversary) == a + [x] + [];
      assert a + [] == a;
      CombineAllSkipsUnparsable(PatternReasons(pin), pin, a, x, [], parse);
    }
  }

  /** A single given date never produces a DEMOGRAPHIC_COMBINED entry. */
  lemma OneDateNoCombined(pin: string, dob: Option<string>, parse: Parser)
    requires WellFormed(pin)
    ensures Get(Validate(pin, dob, None, None, parse).reasons, DemographicCombined).None?
  {
    CombinedEntry(pin, dob, None, None, parse);
  }
}
