# MPIN validator, modelled in Dafny

This project models `MPINValidator` from `main.py`, the checker behind an
MPIN (mobile banking PIN) strength service. The validator:

- accepts a PIN of 4 or 6 digits, plus optional dates written `dd-mm-YYYY`: the user's
  birth date, their spouse's birth date and a wedding anniversary;
- looks for weak structure in the PIN: a repeated pair, a repeated block, lines and corners
  of a phone keypad, arithmetic and geometric progressions, one digit repeated, ascending or
  descending order;
- looks for the dates in the PIN: the year, day/month/year combinations, and day and month
  combinations across two dates, each either exactly or as a subsequence;
- gathers its explanations in a dictionary keyed by category;
- deducts a fixed amount per explanation from 100. A score of 70 or more is STRONG (green);
  anything lower is WEAK (red).

Modules, one per concern of the class:

| module | what it holds |
|---|---|
| `Wrappers` | `Option` |
| `Text` | digit strings and zero-padded numbers (`strftime`'s `%d %m %y %Y`), substring search (`in`), reversal (`[::-1]`), repetition (`*`) |
| `Dates` | a parsed date and the pattern lists of `extract_year_patterns`, `extract_date_patterns` and `extract_combined_date_patterns` |
| `Findings` | categories, the explanations as a tagged datatype, and the reasons dictionary as an insertion-ordered association list with `Put` as dictionary assignment |
| `Keypad` | the keypad grid, cell positions, neighbours and the line tables of `is_keypad_pattern` |
| `Subsequence` | the greedy scan of `is_subsequence`, proved equal to "embeds in order" |
| `Structural`, `StructuralProperties` | the structural detectors as functions, and what each one reports |
| `Demographic`, `DemographicProperties` | the single-date and date-pair detectors, and what they add to the dictionary |
| `Scoring` | `calculate_strength_percentage` as functions on the dictionary |
| `Validation`, `ValidationProperties` | `validate_mpin` as one function, and properties of its result |
| `Validator` | the class `MpinValidator`: the constructor's grid and position table, and one method per loop of the source, each proved equal to the function that specifies it |
| `Vectors` | worked examples: "1590", "1234", "123123", "1111", a birth date of 15-06-1990 against "1506" and "1990", and the days of 15-06-1990 and 20-08-1985 joined as "1520" |

The pure detectors (progressions, repetition, order, pattern extraction) are functions. The
loops of the class are methods with loop invariants: the position table, the neighbour
scan, the keypad line scans, the repeated-block scan, the subsequence scan, the date pair
scan and the deduction loop.

The model follows the code where the two could be read differently:

- The deduction loop matches explanation text. A "Repeated horizontal/vertical/diagonal
  keypad pattern" explanation has a lower-case family word, so it matches none of the
  scorer's phrases and costs 0. The model keeps this (`Scoring.CommonDeduction`).
- A 4-digit PIN such as "1234" collects a keypad line (35), an arithmetic progression (40)
  and ascending order (35). That is 110 points, so it scores 0 (`Vectors.Straight1234`).
- A PIN that is one digit repeated always scores 0 (`ValidationProperties.ConstantPinScoresZero`).
- `extract_combined_date_patterns` produces 18 patterns per pair of dates.
- Every pair of given dates is scanned. Each pair that matches overwrites
  DEMOGRAPHIC_COMBINED, so the last matching pair decides its explanation.
- The anniversary's year is only ever matched exactly, never as a subsequence.
- `str.isdigit` also accepts non-ASCII digits. The model accepts ASCII `0`-`9` only.
- `is_geometric_progression` compares floating-point quotients of single digits. Two such
  quotients that differ as rationals differ by at least 1/72, and IEEE division rounds
  correctly. So comparing them as exact reals decides the same equalities, and the model
  uses `real`.

## Model

| member | source | states |
|---|---|---|
| `Validator.MpinValidator.constructor` | main.py:6-16 | the grid is the 4x3 phone keypad, and the position table maps exactly the keypad's characters, each to its own row and column |
| `Validator.FillStep` | main.py:14-16 | one step of the nested fill loop records the current cell and keeps the table exact for all earlier cells |
| `Validator.RowFilled` | main.py:14-15 | finishing a row leaves the table exact up to the start of the next row |
| `Validator.AllFilled` | main.py:14-16 | after the last row, the table maps every keypad character to its position and nothing else |
| `Validator.MpinValidator.GetKeypadNeighbors` | main.py:18-39 | returns the digits in the eight cells around the digit, in the source's direction order; it returns nothing for a character not on the keypad |
| `Validator.MpinValidator.NeighborInDirection` | main.py:33-37 | one direction gives the cell's character when that cell is on the grid and holds a digit, and nothing otherwise |
| `Validator.MpinValidator.ScanLine` | main.py:50-54 | one keypad line is reported once when it occurs forwards or backwards, and again as repeated when it occurs doubled |
| `Validator.MpinValidator.ScanLines` | main.py:50-66 | the loop over one family of lines yields, in order, the findings of each line |
| `Validator.MpinValidator.IsKeypadPattern` | main.py:41-78 | the reasons are the horizontal, vertical and diagonal findings, then the corner finding, and the flag is true exactly when there are reasons |
| `Validator.MpinValidator.IsCommonPattern` | main.py:122-140 | the reasons are the repeated pair, then every repeated block, then the keypad findings, and the flag is true exactly when there are reasons |
| `Validator.MpinValidator.AddRepeatedSequences` | main.py:131-134 | appends one finding per block length up to half the PIN whose repetition is the PIN, shortest first |
| `Validator.MpinValidator.IsSubsequence` | main.py:182-191 | true exactly when the pattern has at least two characters and embeds in the PIN at strictly increasing positions |
| `Validator.MpinValidator.FirstMatchingPattern` | main.py:321-327 | the scan stops at the first pattern that equals the PIN or, where allowed, is a subsequence of it, and reports which kind of match that was |
| `Validator.MpinValidator.ScanDate` | main.py:319-336 | a given date sets its own key from the year patterns and then the date patterns, the later match overwriting; an absent date changes nothing |
| `Validator.MpinValidator.ScanPair` | main.py:287-317 | one pair of dates sets DEMOGRAPHIC_COMBINED from its first matching combined pattern, and leaves the dictionary alone when nothing matches |
| `Validator.MpinValidator.ScanDatePairs` | main.py:285-317 | the double loop visits every pair (i, j) with i < j in order and records each one's finding |
| `Validator.MpinValidator.ScanLaterDates` | main.py:286-317 | the inner loop pairs date i with each later date in order |
| `Validator.MpinValidator.CalculateStrengthPercentage` | main.py:384-453 | the loop computes 100 for an empty dictionary and 100 minus the summed deductions otherwise, clamped at 0, always within 0..100 |
| `Validator.MpinValidator.CollectPatternReasons` | main.py:247-275 | the common-pattern list is the common findings followed by the progression, repetition and order findings |
| `Validator.MpinValidator.AddProgressions` | main.py:254-272 | the five checks append their findings in the source's order |
| `Validator.MpinValidator.CollectGivenDates` | main.py:277-283 | the date list holds the present, non-empty dates labelled self, spouse and anniversary, in that order |
| `Validator.MpinValidator.CollectReasons` | main.py:247-371 | the dictionary is the pattern entry, then the pair scan, then the three single-date scans |
| `Validator.MpinValidator.ValidateMpin` | main.py:241-382 | the result is the outcome of `validate_mpin`: its percentage is within 0..100, it is STRONG exactly at 70 or more, and its reasons have distinct keys |
| `Text.DigitChar` | main.py:149-154 | a value 0..9 prints as a digit that reads back as that value |
| `Text.Pad2` | main.py:202-208 | two-digit zero padding gives two digits |
| `Text.Pad2Decodes` | main.py:202-208 | two-digit zero padding reads back as the number modulo 100 |
| `Text.Pad4` | main.py:174 | four-digit zero padding gives four digits |
| `Text.Pad4Decodes` | main.py:174 | four-digit zero padding reads back as the number modulo 10000 |
| `Text.DecimalAppendPair` | main.py:149-161 | appending two digits to a digit string multiplies its value by 100 and adds theirs |
| `Text.ContainsAt` | main.py:51 | substring search succeeds exactly when the pattern occurs at some offset |
| `Text.ContainsKeepsChars` | main.py:51 | every character of a found substring occurs in the text |
| `Text.ContainsNotLonger` | main.py:51 | a found substring is no longer than the text |
| `Text.ContainsPrefix` | main.py:53 | when a concatenation occurs, its first part occurs too |
| `Text.Reverse` | main.py:51 | reversal keeps the length |
| `Text.ReverseAt` | main.py:51 | position k of the reversal is position len-1-k of the original |
| `Text.Repeat` | main.py:53 | repeating a string n times multiplies its length by n |
| `Text.RepeatPrefix` | main.py:133 | a repetition starts with the repeated string |
| `Text.RepeatShift` | main.py:133 | a repetition is periodic with the repeated string's length |
| `Dates.YearPatterns` | main.py:168-180 | a parsed date gives a four-digit and a two-digit year, and a failed parse gives none |
| `Dates.DatePatterns` | main.py:142-166 | a parsed date gives six four-digit and four six-digit patterns, and a failed parse gives none |
| `Dates.CombinedPatterns` | main.py:193-239 | two parsed dates give 18 four-digit patterns, and a failed parse of either gives none |
| `Dates.YearPatternsDenoteYear` | main.py:174-176 | the year patterns read back as the year modulo 10000 and modulo 100 |
| `Dates.Pad2Small` | main.py:202-208 | a two-digit field reads back as its value |
| `Dates.PairDenotes` | main.py:210-235 | two concatenated two-digit fields read back as 100 times the first plus the second |
| `Dates.DayMonthDenotes` | main.py:149-150 | `%d%m` and `%m%d` read back as the day and month in those places |
| `Dates.DayMonthPatternsDenoteDate` | main.py:149-150 | the first two date patterns read back as day-month and month-day |
| `Findings.CategoryOf` | main.py:319-371 | each single date files under its own DEMOGRAPHIC_ key, never the combined one |
| `Findings.Put` | main.py:275 | assigning a key adds an entry only when the key is new |
| `Findings.KeysOfTail` | main.py:247-371 | the keys of a dictionary are its first key and the keys of the rest |
| `Findings.GetPutSame` | main.py:275 | reading a key just assigned gives the assigned list |
| `Findings.GetPutOther` | main.py:301-371 | assigning one key leaves every other key's list as it was |
| `Findings.PutPut` | main.py:319-336 | a second assignment to a key replaces the first (the date scan's later match wins) |
| `Findings.KeysPut` | main.py:275 | assigning adds the key to the key set |
| `Findings.PutKeepsDistinct` | main.py:247-371 | assignment keeps every key unique |
| `Findings.PutKeepsPrefix` | main.py:247-371 | assignment keeps the earlier entries that do not hold the key, in place and in order |
| `Findings.PutFrame` | main.py:247-371 | assignment changes only its own key, adds only that key, keeps keys unique and keeps earlier entries in place |
| `Keypad.LocateCell` | main.py:13-16 | each keypad cell's character is located at that cell |
| `Keypad.LocateSound` | main.py:13-16 | a located character sits at its position on the grid |
| `Keypad.Cell` | main.py:34-36 | a cell yields at most one character, and only a digit |
| `Keypad.NeighborsAlongSnoc` | main.py:32-37 | scanning one more direction appends that direction's neighbour |
| `Keypad.NeighborsOfLocated` | main.py:23-37 | a located character's neighbours are the scan over all eight directions from its cell |
| `Keypad.NeighborsOfUnlocated` | main.py:20-21 | a character not on the keypad has no neighbours |
| `Keypad.NeighborsAlongMembers` | main.py:32-37 | a character is among the scanned neighbours exactly when some direction reaches it |
| `Keypad.DirectionIndex` | main.py:26-30 | every one-step move other than staying put is among the eight directions |
| `Keypad.DirectionsAreSteps` | main.py:26-30 | each direction moves by at most one row and one column and moves somewhere |
| `Keypad.StepIsAdjacentDigit` | main.py:32-37 | what a direction reaches is a digit on an adjacent cell |
| `Keypad.AdjacentDigitIsStep` | main.py:32-37 | every digit on an adjacent cell is reached by some direction |
| `Keypad.NeighborsAreAdjacentDigits` | main.py:18-39 | b is a neighbour of a exactly when b is a digit and both sit on adjacent cells (including diagonals) |
| `Keypad.NeighborsSymmetric` | main.py:18-39 | for digits, the neighbour relation is symmetric |
| `Keypad.NeighborsAreDigits` | main.py:36-37 | neighbours are always digits; `*` and `#` never appear |
| `Keypad.ZeroNeighbors` | main.py:18-39 | the neighbours of 0 are 7, 8 and 9, in that order |
| `Keypad.NeighborsAlongEmptyTail` | main.py:32-37 | directions that lead off the grid or to a non-digit add nothing |
| `Keypad.ZeroStepsAbove` | main.py:26-37 | from 0's cell, the three upward directions reach 7, 8 and 9 |
| `Keypad.ZeroStepsBeside` | main.py:26-37 | from 0's cell, the sideways and downward directions reach no digit |
| `Keypad.LinesFollowTheGrid` | main.py:45-48 | the horizontal, vertical and diagonal patterns are the rows, columns and diagonals of the grid, and the corner digits are its four corners |
| `Subsequence.Shift` | main.py:187-191 | shifting positions moves each one by the offset |
| `Subsequence.EmbedAfterMatch` | main.py:189-190 | when the first characters agree, an embedding of the rests extends to the whole |
| `Subsequence.EmbedAfterSkip` | main.py:188-189 | an embedding into the text after its first character is an embedding into the text |
| `Subsequence.GreedySound` | main.py:187-191 | when the greedy scan consumes the whole pattern, the pattern embeds in order |
| `Subsequence.GreedyComplete` | main.py:187-191 | when the pattern embeds in order, the greedy scan consumes it all |
| `Subsequence.IsSubsequenceIff` | main.py:182-191 | `is_subsequence` holds exactly when the pattern is longer than one character and embeds in order |
| `Subsequence.GreedyNotLonger` | main.py:187-191 | a matched pattern is no longer than the PIN |
| `Subsequence.GreedySameLength` | main.py:187-191 | a matched pattern as long as the PIN is the PIN |
| `Subsequence.GreedyKeepsChars` | main.py:187-191 | every character of a matched pattern occurs in the PIN |
| `Structural.Values` | main.py:82 | the digit list has one value per character, each that digit's value |
| `Structural.Pairs` | main.py:127 | the pair list has one entry per two characters, entry k being characters 2k and 2k+1 |
| `Structural.LineFindingsSnoc` | main.py:50-66 | scanning one more line of a family appends that line's findings |
| `Structural.CommonFromParts` | main.py:122-140 | the common findings are the pair findings, then the block findings, then the keypad findings |
| `Structural.ProgressionsFromSteps` | main.py:254-272 | the pattern list grows by the arithmetic, geometric, repetition, ascending and descending findings in that order |
| `StructuralProperties.ArithmeticTerm` | main.py:86 | equal successive differences d give term i = first + i*d |
| `StructuralProperties.ArithmeticClosedForm` | main.py:80-89 | the arithmetic check reports difference d exactly when the PIN has two or more digits and digit i is the first plus i*d |
| `StructuralProperties.RatioEquality` | main.py:96-97 | two quotients are equal exactly when the cross products are |
| `StructuralProperties.GeometricCrossMultiplication` | main.py:91-100 | the geometric check fires exactly when the PIN has two or more digits, no zero, and every successive quotient equals the first, stated without division; the reported ratio is the second digit over the first |
| `StructuralProperties.GeometricExcludesZero` | main.py:94-95 | a PIN with a zero is never geometric |
| `StructuralProperties.SingletonSet` | main.py:104 | a sequence's set of elements has one member exactly when the sequence is non-empty and constant |
| `StructuralProperties.RepeatedDigitIff` | main.py:102-106 | the repetition check fires exactly when the PIN is non-empty and every digit equals the first, and it names that digit |
| `StructuralProperties.AscendingBetween` | main.py:108-113 | in an ascending PIN, any digit is at most any later digit |
| `StructuralProperties.DescendingBetween` | main.py:115-120 | in a descending PIN, any digit is at least any later digit |
| `StructuralProperties.AscendingIsSorted` | main.py:108-113 | the adjacent-pair check is the same as being sorted non-decreasingly |
| `StructuralProperties.DescendingIsSorted` | main.py:115-120 | the adjacent-pair check is the same as being sorted non-increasingly |
| `StructuralProperties.AscendingAndDescendingIffConstant` | main.py:108-120 | a PIN is both ascending and descending exactly when it is one digit repeated |
| `StructuralProperties.PeriodicMatchesRepeat` | main.py:133 | a string with period i agrees with the repetition of its first i characters |
| `StructuralProperties.RepeatIffPeriod` | main.py:133 | repeating the first i characters len/i times gives the PIN exactly when i divides the length and the PIN has period i |
| `StructuralProperties.SequenceFindingsUpToMembers` | main.py:132-134 | the block loop up to m reports exactly the prefixes of length 1..m whose repetition is the PIN |
| `StructuralProperties.RepeatedSequenceReported` | main.py:131-134 | a block is reported exactly when the PIN has 4 or more digits, the block is a prefix of at most half the PIN, its length divides the PIN's, and the PIN has that period; every such block is reported |
| `StructuralProperties.RepeatedPairIsPeriodTwo` | main.py:126-129 | for an even length, the pair check fires exactly when the PIN has 4 or more digits and period 2, and it names the first pair |
| `StructuralProperties.PairsConstant` | main.py:127-128 | with period 2, all pairs equal the first |
| `StructuralProperties.PairAt` | main.py:127-128 | with period 2, pair k equals the first pair |
| `StructuralProperties.RepeatedPairIsBlockOfTwo` | main.py:126-134 | for an even length, a repeated pair is reported exactly when the two-character block is reported too |
| `StructuralProperties.LineHitsMembers` | main.py:51-54 | a line's findings are the plain one when the line occurs forwards or backwards, and the repeated one when it occurs doubled |
| `StructuralProperties.LineFindingsLast` | main.py:50-66 | a finding of a family is a finding of its earlier lines or of its last line |
| `StructuralProperties.InLast` | main.py:50 | membership in a non-empty list splits into its earlier part and its last element |
| `StructuralProperties.FamilyReported` | main.py:50-66 | a family's scan reports a line exactly when the line belongs to the family and is found (doubled, for the repeated finding) |
| `StructuralProperties.KeypadLineReported` | main.py:41-78 | the keypad check reports a line exactly when it is one of its family's patterns and occurs forwards or backwards; it reports it as repeated exactly when it occurs doubled |
| `StructuralProperties.LineHitsNeedEveryDigit` | main.py:51-54 | a line none of whose occurrences can fit (one of its digits is missing) is not reported |
| `StructuralProperties.RepeatedLineNeedsSixDigits` | main.py:53-54 | a repeated line needs a PIN of six or more digits and implies the plain finding |
| `StructuralProperties.NoCornerOnLines` | main.py:50-66 | the line scans never produce a corner finding |
| `StructuralProperties.CornerReported` | main.py:68-76 | the corner finding is reported exactly when every digit is a corner digit and two to four distinct corners are used, and it names those corners |
| `StructuralProperties.ConstantPinFiresOrderChecks` | main.py:80-120 | one digit repeated is arithmetic with difference 0, geometric with ratio 1 unless the digit is 0, repetitive, ascending and descending |
| `StructuralProperties.ConstantPinSteps` | main.py:80-100 | one digit repeated is arithmetic with difference 0, and geometric with ratio 1 unless the digit is 0 |
| `StructuralProperties.ConstantPinFiresRepeats` | main.py:126-134 | one digit repeated (4 or more) is a repeated pair, and every block length dividing the length up to half of it is reported |
| `Demographic.ClassifyNeedsEveryChar` | main.py:322-326 | a pattern with a character missing from the PIN matches neither exactly nor as a subsequence |
| `Demographic.FirstMatchIsFirst` | main.py:321-327 | the scan finds nothing exactly when no pattern matches; otherwise it reports the FIRST matching pattern and how it matches, and every earlier pattern matches in no way |
| `Demographic.FirstMatchKinds` | main.py:321-327 | a reported pattern is in the list, is exact exactly when it equals the PIN, and is a subsequence only where subsequences are allowed |
| `Demographic.DescribeIsTruthful` | main.py:300-313 | each field-by-field description of a combined match names two different dates and fields whose concatenation is the pattern; otherwise the match is described by the pair of dates |
| `Demographic.CombinedExactNeedsFourDigits` | main.py:291-292 | an exact combined match only happens on a 4-digit PIN |
| `Demographic.NoCombinedSubsequenceOnFourDigits` | main.py:291-317 | on a 4-digit PIN, a combined match is always exact |
| `Demographic.CombineWithStep` | main.py:286-317 | pairing date i with its later dates is one pair's record followed by the remaining pairs |
| `Demographic.CombineUpToThenWith` | main.py:286-317 | the inner loop's progress so far, continued over the remaining dates, gives the full inner scan |
| `Demographic.CombineUpToIsCombineWith` | main.py:286-317 | the inner loop run to the end gives the full inner scan |
| `Demographic.SingleDateEntry` | main.py:319-371 | a single date's key holds the date-pattern match when there is one, else the year match, else what it held before |
| `Demographic.AnniversaryYearOnlyExact` | main.py:357-362 | the anniversary year is never reported as a subsequence |
| `DemographicProperties.CombineWithOnlyCombined` | main.py:286-317 | the inner pair scan changes only DEMOGRAPHIC_COMBINED, keeps keys unique and keeps earlier entries in place |
| `DemographicProperties.CombineWithEntry` | main.py:286-317 | presence and shape only: after the inner scan, DEMOGRAPHIC_COMBINED is present exactly when it was before or some later date pairs with the head, and a changed entry is one pair's single finding (which pair is `CombineWithLast`) |
| `DemographicProperties.CombineWithNoMatch` | main.py:286-317 | when no later date pairs with the head, the inner scan leaves the dictionary unchanged |
| `DemographicProperties.CombineWithLast` | main.py:286-317 | when later date k pairs with the head and no date after it does, DEMOGRAPHIC_COMBINED holds exactly date k's finding: the last assignment wins |
| `DemographicProperties.CombineAllOnlyCombined` | main.py:285-317 | the whole pair scan changes only DEMOGRAPHIC_COMBINED, keeps keys unique and keeps earlier entries in place |
| `DemographicProperties.PairsOfTail` | main.py:285-286 | some pair matches exactly when the first date pairs with a later one or some pair among the later dates matches |
| `DemographicProperties.FirstDatePairsMatch` | main.py:285-286 | a match of the first date with a later one is a match of some pair |
| `DemographicProperties.RestPairsMatch` | main.py:285-286 | a match among the later dates is a match of some pair |
| `DemographicProperties.MatchingPairSplits` | main.py:285-286 | a matching pair either starts at the first date or lies among the later ones |
| `DemographicProperties.ReportedByTailPair` | main.py:285-317 | a finding of the first date's pairs or of the later dates' pairs is a finding of some pair |
| `DemographicProperties.ReportedByRestPair` | main.py:285-317 | a finding of a pair among the later dates is a finding of some pair |
| `DemographicProperties.ReportedByHeadPair` | main.py:285-317 | a finding of the first date with a later one is a finding of some pair |
| `DemographicProperties.ReportedByShiftedPair` | main.py:285-317 | a pair among the later dates is a pair of the whole list |
| `DemographicProperties.ReportedByPair` | main.py:285-317 | the finding of any pair i < j is a finding of some pair |
| `DemographicProperties.CombineAllEntryPresent` | main.py:285-317 | after the pair scan, DEMOGRAPHIC_COMBINED is present exactly when it was before or some pair of dates matches |
| `DemographicProperties.CombineAllEntryOrigin` | main.py:285-317 | origin only: a changed DEMOGRAPHIC_COMBINED holds exactly one explanation, the finding of a matching pair (which pair is `CombineAllLast`) |
| `DemographicProperties.CombineAllNoMatch` | main.py:285-317 | when no pair of dates matches, the whole pair scan leaves the dictionary unchanged |
| `DemographicProperties.CombineAllLast` | main.py:285-317 | when (i, j) is the last matching pair in the loop order (i ascending, then j ascending), DEMOGRAPHIC_COMBINED holds exactly the finding of pair (i, j) |
| `DemographicProperties.LastMatchingPairExists` | main.py:285-317 | whenever some pair matches, there is a last matching pair in that loop order |
| `DemographicProperties.DayPairMatch` | main.py:293-301 | a PIN equal to the first date's day followed by the second date's day is an exact combined match naming those two days |
| `DemographicProperties.UnparsablePairsWithNothing` | main.py:195-200 | a pair with an unparsable date produces no finding |
| `DemographicProperties.CombineWithSkipsUnparsable` | main.py:195-200 | an unparsable later date can be dropped from the inner scan without changing it |
| `DemographicProperties.CombineWithUnparsableHead` | main.py:195-196 | an unparsable first date makes the inner scan change nothing |
| `DemographicProperties.CombineAllSkipsUnparsable` | main.py:195-200 | an unparsable date can be dropped from the date list without changing the pair scan |
| `DemographicProperties.CombineAllNeedsTwoDates` | main.py:285-286 | with fewer than two dates the pair scan changes nothing |
| `DemographicProperties.SingleDateOnlyOwnKey` | main.py:319-371 | a single-date scan changes only its own key, keeps keys unique and keeps earlier entries in place |
| `DemographicProperties.SingleDateWithoutDate` | main.py:165-166 | a date that does not parse changes nothing |
| `Scoring.CommonDeduction` | main.py:410-433 | an explanation under COMMON_PATTERN costs at most 40, and costs nothing exactly when it is none of the phrases the scorer looks for; a repeated keypad line is one of those |
| `Scoring.DemographicDeduction` | main.py:434-449 | an explanation under a DEMOGRAPHIC_ key costs at most 40, and costs something exactly when it is a match or a subsequence |
| `Scoring.StrengthIsPercentage` | main.py:384-453 | the percentage is within 0..100; it is 100 exactly when nothing is deducted and 0 exactly when 100 or more is; otherwise it and the deduction sum to 100 |
| `Scoring.ExplanationsDeductionAppend` | main.py:411-449 | the cost of a joined explanation list is the sum of the parts' costs |
| `Scoring.TotalDeductionAppend` | main.py:409-451 | the cost of a joined dictionary is the sum of the parts' costs |
| `Scoring.TotalDeductionCons` | main.py:409-451 | the cost of a dictionary is its first entry's cost plus the rest's |
| `Scoring.MoreReasonsNeverRaiseTheScore` | main.py:384-453 | adding entries never raises the percentage |
| `Scoring.PrefixCostsNoMore` | main.py:409-451 | a prefix of a dictionary costs no more than the whole |
| `Scoring.PrefixScoresNoLower` | main.py:384-453 | a prefix of a dictionary scores no lower than the whole |
| `Scoring.PutDeduction` | main.py:409-451 | assigning a key changes the cost by the new entry's cost minus the old entry's |
| `Scoring.ExplanationsDeductionBound` | main.py:410-449 | a list of n explanations costs at most 40n |
| `Validation.GivenDates` | main.py:277-283 | at most three dates are gathered |
| `ValidationProperties.GivenDatesContents` | main.py:277-283 | the date list holds every given (present, non-empty) date under its own label and with its own text, nothing else, in the order self, spouse, anniversary |
| `ValidationProperties.VerdictFollowsScore` | main.py:373-382 | the percentage is within 0..100; STRONG exactly at 70 or more; green exactly when STRONG; the percentage is the dictionary's score for a well-formed PIN and 0 otherwise |
| `ValidationProperties.PatternReasonsOnlyCommon` | main.py:247-275 | the structural phase files only under COMMON_PATTERN |
| `ValidationProperties.CombineAllKeepsShape` | main.py:285-317 | the pair scan keeps the earlier entries and adds only demographic keys |
| `ValidationProperties.SingleIfGivenKeepsShape` | main.py:319-371 | a single-date scan keeps the earlier entries and adds only demographic keys |
| `ValidationProperties.DateReasonsShape` | main.py:285-371 | the date phases extend the pattern entry with unique keys, all of them COMMON_PATTERN or DEMOGRAPHIC_ |
| `ValidationProperties.ReasonsShape` | main.py:247-371 | the dictionary starts with the pattern entry, has unique keys, all of them COMMON_PATTERN or DEMOGRAPHIC_ |
| `ValidationProperties.InvalidFormatIff` | main.py:244-245 | INVALID_FORMAT appears exactly when the PIN is not 4 or 6 digits, and then the outcome is WEAK, 0, red with that single entry |
| `ValidationProperties.ReasonsAreADictionary` | main.py:241-382 | every returned key occurs once |
| `ValidationProperties.CommonEntry` | main.py:247-275 | COMMON_PATTERN is present exactly when some structural check fires, and holds exactly their findings |
| `ValidationProperties.KeyAbsent` | main.py:247-371 | a key not among the keys reads as absent |
| `ValidationProperties.DateReasonsCommon` | main.py:285-371 | the date phases leave COMMON_PATTERN as it was |
| `ValidationProperties.DateReasonsCombined` | main.py:285-317 | presence and shape only: after the date phases, DEMOGRAPHIC_COMBINED is present exactly when some pair of given dates matches, and then holds one finding of a matching pair (which pair is `DateReasonsCombinedLast`) |
| `ValidationProperties.DateReasonsCombinedLast` | main.py:285-317 | after the date phases, DEMOGRAPHIC_COMBINED holds exactly the finding of the last matching pair of given dates in loop order |
| `ValidationProperties.CombinedEntry` | main.py:285-317 | presence and shape only: in the result, DEMOGRAPHIC_COMBINED is present exactly when some pair of given dates matches, and holds one finding of a matching pair (which pair is `CombinedEntryIsLastPair`) |
| `ValidationProperties.CombinedEntryIsLastPair` | main.py:241-317 | for a well-formed PIN, the result's DEMOGRAPHIC_COMBINED holds exactly the finding of the last matching pair of given dates in loop order |
| `ValidationProperties.ValidateReasons` | main.py:247-371 | for a well-formed PIN, the reasons are the pattern entry followed by the date phases |
| `ValidationProperties.DateReasonsSingle` | main.py:319-371 | after the date phases, each single-date key holds what that date alone reports, or is absent when the date is not given |
| `ValidationProperties.SingleEntryKept` | main.py:319-371 | a single-date scan leaves other keys alone |
| `ValidationProperties.SingleDateEntries` | main.py:319-371 | in the result, each single-date key holds what that date alone reports, or is absent when the date is not given |
| `ValidationProperties.NoDatesOnlyPatterns` | main.py:277-283 | with no dates, the reasons are the pattern entry alone |
| `ValidationProperties.NoDatesOutcome` | main.py:277-382 | with no dates, the outcome is the verdict on the pattern entry |
| `ValidationProperties.DatesOnlyLowerTheScore` | main.py:285-453 | supplying dates never raises the percentage |
| `ValidationProperties.RepetitionAndOrderDeduction` | main.py:416-421 | all-same plus ascending plus descending costs 105 |
| `ValidationProperties.ArithmeticHeadDeduction` | main.py:412-413 | a list that starts with an arithmetic progression costs at least 40 |
| `ValidationProperties.ConstantPinProgressionDeduction` | main.py:254-272 | one digit repeated costs at least 145 in progression findings |
| `ValidationProperties.ConstantPinDeduction` | main.py:247-275 | one digit repeated costs at least 145 in structural findings |
| `ValidationProperties.ConstantPinProgressions` | main.py:254-272 | one digit repeated yields difference 0, ratio 1 (unless 0), all-same, ascending and descending, in that order |
| `ValidationProperties.ConstantPinScoresZero` | main.py:241-453 | a well-formed PIN of one repeated digit scores 0 and is WEAK, whatever the dates |
| `ValidationProperties.ConstantPatternsCostAll` | main.py:247-275 | one digit repeated makes the pattern entry cost 100 or more |
| `ValidationProperties.PatternsCostNoMore` | main.py:247-371 | the pattern entry costs no more than the full dictionary |
| `ValidationProperties.UnparsableDobIgnored` | main.py:319-336 | an unparsable birth date has the same outcome as none |
| `ValidationProperties.UnparsableSpouseIgnored` | main.py:338-355 | an unparsable spouse birth date has the same outcome as none |
| `ValidationProperties.UnparsableAnniversaryIgnored` | main.py:357-371 | an unparsable anniversary has the same outcome as none |
| `ValidationProperties.OneDateNoCombined` | main.py:285-286 | with only a birth date, DEMOGRAPHIC_COMBINED never appears |
| `Vectors.NoDoubledLineInFour` | main.py:53-54 | in a 4-digit PIN a three-digit line is never found doubled |
| `Vectors.LinesAllMissing` | main.py:50-66 | lines each missing a digit of the PIN report nothing |
| `Vectors.NoCornersWith` | main.py:68-69 | a digit that is not a corner rules out the corner finding |
| `Vectors.VerdictFromDeduction` | main.py:373-382 | a non-empty dictionary costing d gives 0 and WEAK at 100 or more, STRONG at 100-d of 70 or more, and WEAK below |
| `Vectors.OnlyCommonOutcome` | main.py:241-382 | with no dates, a PIN with structural findings gets the verdict on their cost alone |
| `Vectors.PatternsAllMissing` | main.py:321-327 | patterns each missing a digit of the PIN give no match |
| `Vectors.NoKeypadFindings` | main.py:41-78 | with a digit missing from every line and a non-corner digit, nothing keypad-related is reported |
| `Vectors.Keypad1590` | main.py:41-78 | "1590" reports the diagonal 159 only |
| `Vectors.Diagonal1590` | main.py:241-453 | "1590" with no dates is WEAK at 65 with only the diagonal finding |
| `Vectors.Findings1234` | main.py:247-275 | "1234" reports horizontal line 123, difference 1 and ascending order |
| `Vectors.Straight1234` | main.py:241-453 | "1234" with no dates is WEAK at 0 |
| `Vectors.Keypad123123` | main.py:41-78 | "123123" reports line 123 plain and repeated |
| `Vectors.Common123123` | main.py:247-275 | "123123" reports the block 123 and line 123 plain and repeated, costing 70 since the repeated line costs nothing |
| `Vectors.Block123123` | main.py:241-453 | "123123" with no dates is WEAK at 30 |
| `Vectors.Constant1111` | main.py:241-453 | "1111" scores 0 and is WEAK, whatever the dates |
| `Vectors.Patterns15061990` | main.py:142-166 | 15-06-1990 gives the ten patterns 1506, 0615, 9006, 0690, 9015, 1590, 150690, 900615, 061590, 901506 |
| `Vectors.Years15061990` | main.py:168-180 | 15-06-1990 gives the year patterns 1990 and 90 |
| `Vectors.DobBlock1506` | main.py:319-336 | "1506" against a birth date of 15-06-1990 is an exact date-of-birth match |
| `Vectors.DobBlock1990` | main.py:319-336 | "1990" against a birth date of 15-06-1990 is an exact birth-year match |
| `Vectors.OneDobFinding` | main.py:241-453 | a PIN whose only finding is one birth-date finding scores 100 minus that finding's cost |
| `Vectors.ExactDobVerdict` | main.py:373-453 | a lone exact date-of-birth finding costs 40: WEAK at 60 |
| `Vectors.ExactBirthYearVerdict` | main.py:373-453 | a lone exact birth-year finding costs 20: STRONG at 80 |
| `Vectors.ExactDobOutcome` | main.py:241-453 | a PIN with no structural finding whose only finding is an exact date-of-birth match is WEAK at 60 |
| `Vectors.ExactBirthYearOutcome` | main.py:241-453 | a PIN with no structural finding whose only finding is an exact birth-year match is STRONG at 80 |
| `Vectors.Dob1506` | main.py:241-453 | "1506" with the birth date 15-06-1990 is WEAK at 60, with only the exact date-of-birth finding |
| `Vectors.Dob1990` | main.py:241-453 | "1990" with the birth date 15-06-1990 is STRONG at 80, with only the exact birth-year finding |
| `Vectors.Patterns20081985` | main.py:142-180 | 20-08-1985 gives the year patterns 1985 and 85 and the ten patterns 2008, 0820, 8508, 0885, 8520, 2085, 200885, 850820, 082085, 852008 |
| `Vectors.DateMiss20081985In1520` | main.py:348-355 | no date pattern of the spouse date 20-08-1985 matches "1520" |
| `Vectors.CombinedOnlyReasons` | main.py:277-368 | when neither of two birth dates matches a PIN on its own but the pair does, the date phases file only that pair's DEMOGRAPHIC_COMBINED finding |
| `Vectors.CombinedExactVerdict` | main.py:373-453 | a lone exact combined-date finding costs 20: STRONG at 80 |
| `Vectors.CombinedOnlyOutcome` | main.py:241-453 | a PIN with no structural finding whose only finding is an exact match of two birth dates is STRONG at 80 |
| `Vectors.CombinedDays1520` | main.py:241-453 | "1520" with birth dates 15-06-1990 (self) and 20-08-1985 (spouse) is STRONG at 80, with only the combined day-from-self plus day-from-spouse finding |

## Left out

- Date parsing: `datetime.strptime(s, '%d-%m-%Y')` is the parameter `parse`, a function from text to an optional date. The model does not describe which strings parse, so calendar validity and the accepted spellings are not modelled. A date that does not parse is `None`, which is what the source's `ValueError` handlers produce.
- Explanation text: explanations are a tagged datatype that carries the same facts as the f-strings (pattern, digits, date labels and fields). The deduction loop's substring tests are modelled per tag, with the outcome they have on the source's strings. The exact wording, and `f"{ratio}"`'s rendering of a float, are not modelled.
- `Scoring.CommonDeduction`: an explanation text that could contain two of the scorer's phrases at once is not modelled, because every explanation the validator produces contains at most one.
- Non-ASCII digits: `str.isdigit` accepts them; the model treats only `0`-`9` as digits.
- The Python dictionary is modelled as an insertion-ordered list of (key, explanations) entries. `Findings.Put` is dictionary assignment: it overwrites in place or appends. Hashing and the dictionary's own storage are not modelled.
- Corner text: the corner finding carries the set of corners used, not the sorted, comma-joined string.
- `get_keypad_neighbors` is modelled (`Validator.MpinValidator.GetKeypadNeighbors`) but nothing in `validate_mpin` calls it, as in the source.
- The `re` import is unused in the source.
- `app.py` (the web front end) is not part of this model.
