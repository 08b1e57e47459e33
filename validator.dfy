/**
 * `MPINValidator` itself: the keypad tables its constructor builds, and the
 * methods that work step by step, each proved to compute the function that
 * specifies it.
 */
module Validator {
  import opened Wrappers
  import opened Text
  import opened Dates
  import opened Findings
  import opened Keypad
  import Subsequence
  import opened Structural
  import opened Demographic
  import opened Scoring
  import opened Validation
  import opened ValidationProperties

  /** Cell `p` comes before cell `(i, j)` in row-by-row order. */
  predicate Before(p: (nat, nat), i: nat, j: nat) {
    p.0 < i || (p.0 == i && p.1 < j)
  }

  /** The position table holds exactly the keys before cell `(i, j)`, each at its place. */
  predicate FilledUpTo(table: map<char, (nat, nat)>, i: nat, j: nat) {
    && (forall c :: c in table <==> Locate(c).Some? && Before(Locate(c).value, i, j))
    && (forall c :: c in table ==> table[c] == Locate(c).value)
  }

  lemma FillStep(table: map<char, (nat, nat)>, i: nat, j: nat)
    requires i < |Rows| && j < |Rows[i]| && FilledUpTo(table, i, j)
    ensures FilledUpTo(table[Rows[i][j] := (i, j)], i, j + 1)
  {
    LocateCell(i, j);
    forall c | Locate(c) == Some((i, j)) ensures c == Rows[i][j] {
      LocateSound(c);
    }
  }

  lemma RowFilled(table: map<char, (nat, nat)>, i: nat)
    requires i < |Rows| && FilledUpTo(table, i, |Rows[i]|)
    ensures FilledUpTo(table, i + 1, 0)
  {
    forall c | Locate(c).Some? ensures Locate(c).value.1 < |Rows[i]| {
      LocateSound(c);
    }
  }

  lemma AllFilled(table: map<char, (nat, nat)>)
    requires FilledUpTo(table, |Rows|, 0)
    ensures forall c :: c in table <==> Locate(c).Some?
    ensures forall c :: c in table ==> table[c] == Locate(c).value
  {
    forall c | Locate(c).Some? ensures Locate(c).value.0 < |Rows| {
      LocateSound(c);
    }
  }

  class MpinValidator {
    /** The grid, top row first. */
    const keypad: seq<seq<char>>
    /** Row and column of every key. */
    const positions: map<char, (nat, nat)>

    /** The grid is the phone pad and every key's position is where it sits. */
    predicate Valid() {
      && keypad == Rows
      && (forall c :: c in positions <==> Locate(c).Some?)
      && (forall c :: c in positions ==> positions[c] == Locate(c).value)
    }

    /** `__init__`: the grid, and the position table filled row by row. */
    constructor ()
      ensures Valid()
    {
      keypad := Rows;
      var table: map<char, (nat, nat)> := map[];
      var i := 0;
      while i < |Rows|
        invariant 0 <= i <= |Rows|
        invariant FilledUpTo(table, i, 0)
      {
        var j := 0;
        while j < |Rows[i]|
          invariant 0 <= j <= |Rows[i]|
          invariant FilledUpTo(table, i, j)
        {
          FillStep(table, i, j);
          table := table[Rows[i][j] := (i, j)];
          j := j + 1;
        }
        RowFilled(table, i);
        i := i + 1;
      }
      AllFilled(table);
      positions := table;
    }

    /** `get_keypad_neighbors`: the digit keys around `digit`, in direction order. */
    method GetKeypadNeighbors(digit: char) returns (neighbors: seq<char>)
      requires Valid()
      ensures neighbors == Neighbors(digit)
    {
      if digit !in positions {
        NeighborsOfUnlocated(digit);
        return [];
      }
      var (i, j) := positions[digit];
      NeighborsOfLocated(digit, i, j);
      neighbors := [];
      var directions := Directions;
      var k := 0;
      while k < |directions|
        invariant 0 <= k <= |directions|
        invariant neighbors == NeighborsAlong(i, j, directions[..k])
      {
        var found := NeighborInDirection(i, j, directions[k]);
        NeighborsAlongSnoc(i, j, directions, k);
        neighbors := neighbors + found;
        k := k + 1;
      }
      assert directions[..k] == directions;
    }

    /** The body of the direction loop: the digit key one step away, if the step stays on the pad. */
    method NeighborInDirection(i: int, j: int, direction: (int, int)) returns (found: seq<char>)
      requires Valid()
      ensures found == Step(i, j, direction)
    {
      found := [];
      var (di, dj) := direction;
      var (ni, nj) := (i + di, j + dj);
      if 0 <= ni < |keypad| && 0 <= nj < |keypad[0]| {
        var neighbor := keypad[ni][nj];
        if IsDigit(neighbor) {
          found := [neighbor];
        }
      }
    }

    /** One keypad line: the line itself or reversed, then the line doubled or reversed and doubled. */
    method ScanLine(line: Line, pattern: string, pin: string) returns (hits: seq<Explanation>)
      ensures hits == LineHits(line, pattern, pin)
    {
      hits := [];
      if Contains(pin, pattern) || Contains(pin, Reverse(pattern)) {
        hits := hits + [KeypadLine(line, pattern, false)];
      }
      if Contains(pin, Repeat(pattern, 2)) || Contains(pin, Repeat(Reverse(pattern), 2)) {
        hits := hits + [KeypadLine(line, pattern, true)];
      }
    }

    /** One table of keypad lines: for each, the line itself and the line doubled. */
    method ScanLines(line: Line, patterns: seq<string>, pin: string) returns (reasons: seq<Explanation>)
      ensures reasons == LineFindings(line, patterns, pin)
    {
      reasons := [];
      var k := 0;
      while k < |patterns|
        invariant 0 <= k <= |patterns|
        invariant reasons == LineFindings(line, patterns[..k], pin)
      {
        var hits := ScanLine(line, patterns[k], pin);
        LineFindingsSnoc(line, patterns, pin, k);
        reasons := reasons + hits;
        k := k + 1;
      }
      assert patterns[..k] == patterns;
    }

    /** `is_keypad_pattern`: rows, columns, diagonals, then corners. */
    method IsKeypadPattern(pin: string) returns (found: bool, reasons: seq<Explanation>)
      ensures reasons == KeypadFindings(pin)
      ensures found <==> reasons != []
    {
      var horizontal := ScanLines(Horizontal, HorizontalLines, pin);
      var vertical := ScanLines(Vertical, VerticalLines, pin);
      var diagonal := ScanLines(Diagonal, DiagonalLines, pin);
      reasons := horizontal + vertical + diagonal;
      var used := set c | c in pin;
      if used <= CornerDigits && 2 <= |used| <= 4 {
        reasons := reasons + [KeypadCorners(used)];
      }
      found := reasons != [];
    }

    /** `is_common_pattern`: the repeated pair, every repeated block, then the keypad. */
    method IsCommonPattern(pin: string) returns (found: bool, reasons: seq<Explanation>)
      ensures reasons == CommonFindings(pin)
      ensures found <==> reasons != []
    {
      reasons := [];
      if |pin| >= 4 {
        var pairs := Pairs(pin);
        if |set p | p in pairs| == 1 {
          reasons := reasons + [RepeatedPairPattern(pairs[0])];
        }
      }
      ghost var pairPart := reasons;
      assert pairPart == PairFindings(pin);
      reasons := AddRepeatedSequences(pin, reasons);
      ghost var withSequences := reasons;
      var isKeypad, keypadReasons := IsKeypadPattern(pin);
      if isKeypad {
        reasons := reasons + keypadReasons;
      }
      assert reasons == withSequences + keypadReasons;
      CommonFromParts(pin, pairPart, withSequences, reasons);
      found := reasons != [];
    }

    /** The repeated-sequence loop of `is_common_pattern`: block lengths 1 to half the PIN. */
    method AddRepeatedSequences(pin: string, before: seq<Explanation>) returns (reasons: seq<Explanation>)
      ensures reasons == before + SequenceFindings(pin)
    {
      reasons := before;
      if |pin| >= 4 {
        var i := 1;
        while i <= |pin| / 2
          invariant 1 <= i <= |pin| / 2 + 1
          invariant reasons == before + SequenceFindingsUpTo(pin, i - 1)
        {
          if Repeat(pin[..i], |pin| / i) == pin {
            reasons := reasons + [RepeatedSequence(pin[..i])];
          }
          i := i + 1;
        }
      }
    }

    /** `is_subsequence`: one scan of the PIN, advancing through the pattern on each match. */
    method IsSubsequence(pattern: string, pin: string) returns (r: bool)
      ensures r == Subsequence.IsSubsequence(pattern, pin)
      ensures r <==> |pattern| > 1 && exists idx :: Subsequence.Embedding(pattern, pin, idx)
    {
      Subsequence.IsSubsequenceIff(pattern, pin);
      if |pattern| <= 1 {
        return false;
      }
      var patternIdx := 0;
      var k := 0;
      while k < |pin|
        invariant 0 <= k <= |pin| && 0 <= patternIdx <= |pattern|
        invariant Subsequence.Greedy(pattern, pin) == Subsequence.Greedy(pattern[patternIdx..], pin[k..])
      {
        var digit := pin[k];
        if patternIdx < |pattern| && digit == pattern[patternIdx] {
          assert pattern[patternIdx..][1..] == pattern[patternIdx + 1..];
          patternIdx := patternIdx + 1;
        } else if patternIdx == |pattern| {
          assert pattern[patternIdx..] == [];
        }
        assert pin[k..][1..] == pin[k + 1..];
        k := k + 1;
      }
      r := patternIdx == |pattern|;
    }

    /** A pattern loop of `validate_mpin`: stop at the first pattern that matches, exactly or, where allowed, as a subsequence. */
    method FirstMatchingPattern(patterns: seq<string>, pin: string, subsequenceAllowed: bool) returns (m: Option<(MatchKind, string)>)
      ensures m == FirstMatch(patterns, pin, subsequenceAllowed)
    {
      m := None;
      var k := 0;
      while k < |patterns|
        invariant 0 <= k <= |patterns|
        invariant FirstMatch(patterns, pin, subsequenceAllowed) == FirstMatch(patterns[k..], pin, subsequenceAllowed)
      {
        var pattern := patterns[k];
        assert patterns[k..][0] == pattern && patterns[k..][1..] == patterns[k + 1..];
        if |pattern| == |pin| && pattern == pin {
          return Some((Exact, pattern));
        }
        if subsequenceAllowed {
          var isSub := IsSubsequence(pattern, pin);
          if isSub {
            return Some((Subsequence, pattern));
          }
        }
        k := k + 1;
      }
    }

    /** One date's block of `validate_mpin`: the year loop, then the date loop. */
    method ScanDate(reasons: Reasons, pin: string, who: Label, arg: Option<string>, parse: Parser) returns (r: Reasons)
      ensures r == SingleIfGiven(reasons, pin, who, arg, parse)
    {
      r := reasons;
      if Given(arg) {
        var date := parse(arg.value);
        var year := FirstMatchingPattern(YearPatterns(date), pin, who != Anniversary);
        if year.Some? {
          r := Put(r, CategoryOf(who), [YearMatch(who, year.value.0)]);
        }
        var day := FirstMatchingPattern(DatePatterns(date), pin, true);
        if day.Some? {
          r := Put(r, CategoryOf(who), [DateMatch(who, day.value.0)]);
        }
      }
    }

    /** The body of the double loop: one pair of dates against the combined patterns. */
    method ScanPair(reasons: Reasons, pin: string, first: (Label, string), second: (Label, string), parse: Parser)
      returns (r: Reasons)
      ensures r == Record(reasons, PairFinding(pin, first, second, parse))
    {
      r := reasons;
      var (label1, text1) := first;
      var (label2, text2) := second;
      var date1, date2 := parse(text1), parse(text2);
      var combined := CombinedPatterns(date1, date2);
      var m := FirstMatchingPattern(combined, pin, true);
      if m.Some? {
        assert date1.Some? && date2.Some?;
        var (kind, pattern) := m.value;
        if kind == Exact {
          r := Put(r, DemographicCombined, [CombinedExact(Describe(pattern, label1, date1.value, label2, date2.value))]);
        } else {
          r := Put(r, DemographicCombined, [CombinedSubsequence(label1, label2)]);
        }
      }
    }

    /** The double loop of `validate_mpin` over every pair `i < j` of the given dates. */
    method ScanDatePairs(reasons: Reasons, pin: string, dates: seq<(Label, string)>, parse: Parser) returns (r: Reasons)
      ensures r == CombineAll(reasons, pin, dates, parse)
    {
      r := reasons;
      var i := 0;
      while i < |dates|
        invariant 0 <= i <= |dates|
        invariant CombineAll(r, pin, dates[i..], parse) == CombineAll(reasons, pin, dates, parse)
      {
        assert dates[i..][0] == dates[i] && dates[i..][1..] == dates[i + 1..];
        r := ScanLaterDates(r, pin, dates, i, parse);
        i := i + 1;
      }
    }

    /** The inner loop: the date at `i` against every later date, in order. */
    method ScanLaterDates(reasons: Reasons, pin: string, dates: seq<(Label, string)>, i: nat, parse: Parser) returns (r: Reasons)
      requires i < |dates|
      ensures r == CombineWith(reasons, pin, dates[i], dates[i + 1..], parse)
    {
      r := reasons;
      var j := i + 1;
      while j < |dates|
        invariant i + 1 <= j <= |dates|
        invariant r == CombineUpTo(reasons, pin, dates, i, j, parse)
      {
        r := ScanPair(r, pin, dates[i], dates[j], parse);
        j := j + 1;
      }
      CombineUpToIsCombineWith(reasons, pin, dates, i, parse);
    }

    /** `calculate_strength_percentage`: every explanation's deduction added up, then taken from 100. */
    method CalculateStrengthPercentage(reasons: Reasons) returns (score: int)
      ensures score == StrengthPercentage(reasons)
      ensures 0 <= score <= 100
    {
      StrengthIsPercentage(reasons);
      if reasons == [] {
        return 100;
      }
      var total := 0;
      var k := 0;
      while k < |reasons|
        invariant 0 <= k <= |reasons|
        invariant total == TotalDeduction(reasons[..k])
      {
        var (reason, explanations) := reasons[k];
        if reason == CommonPattern || reason.IsDemographic() {
          var m := 0;
          while m < |explanations|
            invariant 0 <= m <= |explanations|
            invariant total == TotalDeduction(reasons[..k]) + ExplanationsDeduction(reason, explanations[..m])
          {
            assert explanations[..m + 1][..m] == explanations[..m];
            total := total + Deduction(reason, explanations[m]);
            m := m + 1;
          }
          assert explanations[..m] == explanations;
        } else {
          total := total + KeyDeduction(reason);
        }
        assert reasons[..k + 1][..k] == reasons[..k];
        k := k + 1;
      }
      assert reasons[..k] == reasons;
      score := if 100 - total > 0 then 100 - total else 0;
    }

    /** The COMMON_PATTERN explanations `validate_mpin` collects from the structural detectors, in order. */
    method CollectPatternReasons(pin: string) returns (patternReasons: seq<Explanation>)
      requires AllDigits(pin)
      ensures patternReasons == StructuralFindings(pin)
    {
      patternReasons := [];
      var isCommon, commonReasons := IsCommonPattern(pin);
      if isCommon {
        patternReasons := patternReasons + commonReasons;
      }
      assert patternReasons == commonReasons;
      patternReasons := AddProgressions(pin, patternReasons);
    }

    /** The arithmetic, geometric, repetition and order checks of `validate_mpin`, each appending its finding. */
    method AddProgressions(pin: string, reasons: seq<Explanation>) returns (patternReasons: seq<Explanation>)
      requires AllDigits(pin)
      ensures patternReasons == reasons + ProgressionFindings(pin)
    {
      patternReasons := reasons;
      var arithmetic := ArithmeticDifference(pin);
      if arithmetic.Some? {
        patternReasons := patternReasons + [ArithmeticProgression(arithmetic.value)];
      }
      ghost var ra := patternReasons;
      var geometric := GeometricRatio(pin);
      if geometric.Some? {
        patternReasons := patternReasons + [GeometricProgression(geometric.value)];
      }
      ghost var rag := patternReasons;
      var repeated := RepeatedDigit(pin);
      if repeated.Some? {
        patternReasons := patternReasons + [AllDigitsSame(repeated.value)];
      }
      ghost var ragr := patternReasons;
      if IsAscending(pin) {
        patternReasons := patternReasons + [AscendingOrder];
      }
      ghost var ragra := patternReasons;
      if IsDescending(pin) {
        patternReasons := patternReasons + [DescendingOrder];
      }
      ProgressionsFromSteps(pin, reasons, ra, rag, ragr, ragra, patternReasons);
    }

    /** The `dates` list `validate_mpin` builds: each given date with its label, in order. */
    method CollectGivenDates(dob: Option<string>, spouse: Option<string>, anniversary: Option<string>)
      returns (dates: seq<(Label, string)>)
      ensures dates == GivenDates(dob, spouse, anniversary)
    {
      ghost var selfPart: seq<(Label, string)> := if Given(dob) then [(Self, dob.value)] else [];
      ghost var spousePart: seq<(Label, string)> := if Given(spouse) then [(Spouse, spouse.value)] else [];
      dates := [];
      if Given(dob) {
        dates := dates + [(Self, dob.value)];
      }
      assert dates == selfPart;
      if Given(spouse) {
        dates := dates + [(Spouse, spouse.value)];
      }
      assert dates == selfPart + spousePart;
      if Given(anniversary) {
        dates := dates + [(Anniversary, anniversary.value)];
      }
    }

    /** The reasons `validate_mpin` files for a well-formed PIN: the structural entry, then the date blocks. */
    method CollectReasons(pin: string, dob: Option<string>, spouse: Option<string>, anniversary: Option<string>, parse: Parser)
      returns (reasons: Reasons)
      requires WellFormed(pin)
      ensures reasons == ReasonsFor(pin, dob, spouse, anniversary, parse)
    {
      var patternReasons := CollectPatternReasons(pin);
      reasons := [];
      if patternReasons != [] {
        reasons := Put(reasons, CommonPattern, patternReasons);
      }
      assert reasons == PatternReasons(pin);

      var dates := CollectGivenDates(dob, spouse, anniversary);
      reasons := ScanDatePairs(reasons, pin, dates, parse);
      reasons := ScanDate(reasons, pin, Self, dob, parse);
      reasons := ScanDate(reasons, pin, Spouse, spouse, parse);
      reasons := ScanDate(reasons, pin, Anniversary, anniversary, parse);
    }

    /** `validate_mpin`: the format check, the reasons, then the score and the verdict drawn from it. */
    method ValidateMpin(pin: string, dob: Option<string>, spouse: Option<string>, anniversary: Option<string>, parse: Parser)
      returns (o: Outcome)
      ensures o == Validate(pin, dob, spouse, anniversary, parse)
      ensures 0 <= o.percentage <= 100 && (o.strength == Strong <==> o.percentage >= 70)
      ensures DistinctKeys(o.reasons)
    {
      if !(AllDigits(pin) && (|pin| == 4 || |pin| == 6)) {
        ReasonsAreADictionary(pin, dob, spouse, anniversary, parse);
        return Outcome(Weak, [(InvalidFormat, [WrongFormat])], 0, Red);
      }

      var reasons := CollectReasons(pin, dob, spouse, anniversary, parse);
      var strengthPercentage := CalculateStrengthPercentage(reasons);
      VerdictFollowsScore(pin, dob, spouse, anniversary, parse);
      ReasonsAreADictionary(pin, dob, spouse, anniversary, parse);
      if strengthPercentage >= StrongThreshold {
        o := Outcome(Strong, reasons, strengthPercentage, Green);
      } else {
        o := Outcome(Weak, reasons, strengthPercentage, Red);
      }
    }
  }
}
