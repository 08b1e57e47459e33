/**
 * The detectors that compare the PIN with patterns derived from the holder's
 * dates: one date at a time (year patterns, then date patterns) and every pair
 * of dates (combined patterns).
 */
module Demographic {
  import opened Wrappers
  import opened Text
  import opened Dates
  import opened Findings
  import opened Subsequence

  /**
   * How one pattern matches the PIN: exactly (same length, same text), or
   * else, where the loop has that branch, as a subsequence.
   */
  function Classify(pattern: string, pin: string, subsequenceAllowed: bool): Option<MatchKind> {
    if |pattern| == |pin| && pattern == pin then Some(Exact)
    else if subsequenceAllowed && IsSubsequence(pattern, pin) then Some(Subsequence)
    else None
  }

  /** A pattern with a character the PIN lacks matches it in no way. */
  lemma ClassifyNeedsEveryChar(pattern: string, pin: string, subsequenceAllowed: bool, k: nat)
    requires k < |pattern| && pattern[k] !in pin
    ensures Classify(pattern, pin, subsequenceAllowed).None?
  {
    if Greedy(pattern, pin) {
      GreedyKeepsChars(pattern, pin, k);
    }
  }

  /** A pattern loop that stops at its first hit: how and with which pattern it matched. */
  function FirstMatch(patterns: seq<string>, pin: string, subsequenceAllowed: bool): Option<(MatchKind, string)> {
    if patterns == [] then None
    else match Classify(patterns[0], pin, subsequenceAllowed)
      case Some(kind) => Some((kind, patterns[0]))
      case None => FirstMatch(patterns[1..], pin, subsequenceAllowed)
  }

  /**
   * The loop reports the first pattern that matches at all, and how it
   * matches; every pattern before it matches in no way.
   */
  lemma {:induction false} FirstMatchIsFirst(patterns: seq<string>, pin: string, subsequenceAllowed: bool)
    ensures FirstMatch(patterns, pin, subsequenceAllowed).None? <==>
      forall j :: 0 <= j < |patterns| ==> Classify(patterns[j], pin, subsequenceAllowed).None?
    ensures FirstMatch(patterns, pin, subsequenceAllowed).Some? ==>
      exists i :: 0 <= i < |patterns| && Classify(patterns[i], pin, subsequenceAllowed).Some?
        && FirstMatch(patterns, pin, subsequenceAllowed).value == (Classify(patterns[i], pin, subsequenceAllowed).value, patterns[i])
        && forall j :: 0 <= j < i ==> Classify(patterns[j], pin, subsequenceAllowed).None?
  {
    if patterns != [] && Classify(patterns[0], pin, subsequenceAllowed).None? {
      var rest := patterns[1..];
      FirstMatchIsFirst(rest, pin, subsequenceAllowed);
      assert forall j :: 1 <= j < |patterns| ==> patterns[j] == rest[j - 1];
      if FirstMatch(rest, pin, subsequenceAllowed).Some? {
        var i :| 0 <= i < |rest| && Classify(rest[i], pin, subsequenceAllowed).Some?
          && FirstMatch(rest, pin, subsequenceAllowed).value == (Classify(rest[i], pin, subsequenceAllowed).value, rest[i])
          && forall j :: 0 <= j < i ==> Classify(rest[j], pin, subsequenceAllowed).None?;
        assert patterns[i + 1] == rest[i];
      }
    } else if patterns != [] {
      assert Classify(patterns[0], pin, subsequenceAllowed).Some?;
    }
  }

  /** A hit is exact only on a pattern equal to the PIN, and a loop without the subsequence branch hits only exactly. */
  lemma FirstMatchKinds(patterns: seq<string>, pin: string, subsequenceAllowed: bool)
    requires FirstMatch(patterns, pin, subsequenceAllowed).Some?
    ensures var (kind, p) := FirstMatch(patterns, pin, subsequenceAllowed).value;
      && p in patterns
      && (kind == Exact <==> p == pin)
      && (kind == Subsequence ==> subsequenceAllowed && IsSubsequence(p, pin))
  {
    FirstMatchIsFirst(patterns, pin, subsequenceAllowed);
  }

  /** Which fields an exact combined match is reported as: the first equality that holds, in the source's order. */
  function Describe(p: string, l1: Label, first: Date, l2: Label, second: Date): CombinedSource {
    var d1, m1, d2, m2 := Day(first), Month(first), Day(second), Month(second);
    if p == d1 + d2 then Fields(DayField, l1, DayField, l2)
    else if p == d2 + d1 then Fields(DayField, l2, DayField, l1)
    else if p == d1 + m2 then Fields(DayField, l1, MonthField, l2)
    else if p == m2 + d1 then Fields(MonthField, l2, DayField, l1)
    else if p == m1 + d2 then Fields(MonthField, l1, DayField, l2)
    else if p == d2 + m1 then Fields(DayField, l2, MonthField, l1)
    else BothDates(l1, l2)
  }

  function FieldOf(f: Field, d: Date): string {
    match f
    case DayField => Day(d)
    case MonthField => Month(d)
  }

  /** A reported pair of fields is what the pattern is made of. */
  lemma DescribeIsTruthful(p: string, l1: Label, first: Date, l2: Label, second: Date)
    requires l1 != l2
    ensures match Describe(p, l1, first, l2, second)
      case Fields(f1, a, f2, b) =>
        a != b && p == FieldOf(f1, if a == l1 then first else second) + FieldOf(f2, if b == l1 then first else second)
      case BothDates(a, b) => a == l1 && b == l2
  {
  }

  /**
   * The combined detector for one pair of dates, as `(label, date text)`:
   * the first of the eighteen patterns that matches decides the finding.
   */
  function PairFinding(pin: string, first: (Label, string), second: (Label, string), parse: Parser): Option<Explanation> {
    var (l1, date1) := (first.0, parse(first.1));
    var (l2, date2) := (second.0, parse(second.1));
    if date1.None? || date2.None? then None
    else match FirstMatch(CombinedPatterns(date1, date2), pin, true)
      case None => None
      case Some((Exact, p)) => Some(CombinedExact(Describe(p, l1, date1.value, l2, date2.value)))
      case Some((Subsequence, _)) => Some(CombinedSubsequence(l1, l2))
  }

  /** An exact combined match needs a 4-digit PIN: every combined pattern has four digits. */
  lemma CombinedExactNeedsFourDigits(pin: string, first: (Label, string), second: (Label, string), parse: Parser)
    requires PairFinding(pin, first, second, parse).Some? && PairFinding(pin, first, second, parse).value.CombinedExact?
    ensures |pin| == 4
  {
    var patterns := CombinedPatterns(parse(first.1), parse(second.1));
    FirstMatchKinds(patterns, pin, true);
  }

  /** On a 4-digit PIN the combined detector never reports a subsequence: a 4-digit pattern in it is it. */
  lemma NoCombinedSubsequenceOnFourDigits(pin: string, first: (Label, string), second: (Label, string), parse: Parser)
    requires |pin| == 4
    ensures PairFinding(pin, first, second, parse).Some? ==> PairFinding(pin, first, second, parse).value.CombinedExact?
  {
    var patterns := CombinedPatterns(parse(first.1), parse(second.1));
    if FirstMatch(patterns, pin, true).Some? {
      FirstMatchKinds(patterns, pin, true);
      var (kind, p) := FirstMatch(patterns, pin, true).value;
      if kind == Subsequence {
        GreedySameLength(p, pin);
      }
    }
  }

  /** `reasons['DEMOGRAPHIC_COMBINED'] = [...]` when the pair matched. */
  function Record(r: Reasons, finding: Option<Explanation>): Reasons {
    match finding
    case None => r
    case Some(e) => Put(r, DemographicCombined, [e])
  }

  /** The inner pair loop: the date `head` against each later date, in order. */
  function CombineWith(r: Reasons, pin: string, head: (Label, string), later: seq<(Label, string)>, parse: Parser): Reasons
    decreases |later|
  {
    if later == [] then r
    else CombineWith(Record(r, PairFinding(pin, head, later[0], parse)), pin, head, later[1..], parse)
  }

  /** One step of the inner pair loop, stated over the first later date. */
  lemma CombineWithStep(r: Reasons, pin: string, head: (Label, string), dates: seq<(Label, string)>, j: nat, parse: Parser, next: Reasons)
    requires j < |dates|
    requires next == Record(r, PairFinding(pin, head, dates[j], parse))
    ensures CombineWith(r, pin, head, dates[j..], parse) == CombineWith(next, pin, head, dates[j + 1..], parse)
  {
    assert dates[j..][0] == dates[j] && dates[j..][1..] == dates[j + 1..];
  }

  /** The inner pair loop after its first `j - i - 1` rounds, counted forward from the date at `i`. */
  function CombineUpTo(r: Reasons, pin: string, dates: seq<(Label, string)>, i: nat, j: nat, parse: Parser): Reasons
    requires i < j <= |dates|
    decreases j
  {
    if j == i + 1 then r
    else Record(CombineUpTo(r, pin, dates, i, j - 1, parse), PairFinding(pin, dates[i], dates[j - 1], parse))
  }

  /** Running the forward rounds and then the remaining ones is the whole inner loop. */
  lemma {:induction false} CombineUpToThenWith(r: Reasons, pin: string, dates: seq<(Label, string)>, i: nat, j: nat, parse: Parser)
    requires i < j <= |dates|
    ensures CombineWith(CombineUpTo(r, pin, dates, i, j, parse), pin, dates[i], dates[j..], parse)
         == CombineWith(r, pin, dates[i], dates[i + 1..], parse)
    decreases j
  {
    if j > i + 1 {
      CombineUpToThenWith(r, pin, dates, i, j - 1, parse);
      var before, after := CombineUpTo(r, pin, dates, i, j - 1, parse), CombineUpTo(r, pin, dates, i, j, parse);
      CombineWithStep(before, pin, dates[i], dates, j - 1, parse, after);
    }
  }

  /** All the rounds counted forward are the inner loop. */
  lemma CombineUpToIsCombineWith(r: Reasons, pin: string, dates: seq<(Label, string)>, i: nat, parse: Parser)
    requires i < |dates|
    ensures CombineUpTo(r, pin, dates, i, |dates|, parse) == CombineWith(r, pin, dates[i], dates[i + 1..], parse)
  {
    CombineUpToThenWith(r, pin, dates, i, |dates|, parse);
    assert dates[|dates|..] == [];
  }

  /** The double loop over every pair `i < j` of the given dates. */
  function CombineAll(r: Reasons, pin: string, dates: seq<(Label, string)>, parse: Parser): Reasons
    decreases |dates|
  {
    if dates == [] then r
    else CombineAll(CombineWith(r, pin, dates[0], dates[1..], parse), pin, dates[1..], parse)
  }

  /**
   * One date's block: the year loop (whose hit is filed first), then the date
   * loop (whose hit replaces it under the same key). The anniversary year
   * loop has no subsequence branch.
   */
  function SingleDate(r: Reasons, pin: string, who: Label, date: Option<Date>): Reasons {
    var cat := CategoryOf(who);
    var r1 := match FirstMatch(YearPatterns(date), pin, who != Anniversary)
      case None => r
      case Some((kind, _)) => Put(r, cat, [YearMatch(who, kind)]);
    match FirstMatch(DatePatterns(date), pin, true)
    case None => r1
    case Some((kind, _)) => Put(r1, cat, [DateMatch(who, kind)])
  }

  /**
   * What one date's block leaves under its key: the date-loop hit if there is
   * one, else the year-loop hit, else what was there before.
   */
  lemma SingleDateEntry(r: Reasons, pin: string, who: Label, date: Option<Date>)
    ensures Get(SingleDate(r, pin, who, date), CategoryOf(who)) ==
      match FirstMatch(DatePatterns(date), pin, true)
      case Some((kind, _)) => Some([DateMatch(who, kind)])
      case None =>
        match FirstMatch(YearPatterns(date), pin, who != Anniversary)
        case Some((kind, _)) => Some([YearMatch(who, kind)])
        case None => Get(r, CategoryOf(who))
  {
    var cat := CategoryOf(who);
    var r1 := match FirstMatch(YearPatterns(date), pin, who != Anniversary)
      case None => r
      case Some((kind, _)) => Put(r, cat, [YearMatch(who, kind)]);
    match FirstMatch(YearPatterns(date), pin, who != Anniversary) {
      case None =>
      case Some((kind, _)) => GetPutSame(r, cat, [YearMatch(who, kind)]);
    }
    match FirstMatch(DatePatterns(date), pin, true) {
      case None =>
      case Some((kind, _)) => GetPutSame(r1, cat, [DateMatch(who, kind)]);
    }
  }

  /** The anniversary's year is only ever matched exactly. */
  lemma AnniversaryYearOnlyExact(r: Reasons, pin: string, date: Option<Date>)
    requires Get(r, DemographicAnniversary).None?
    ensures Get(SingleDate(r, pin, Anniversary, date), DemographicAnniversary) != Some([YearMatch(Anniversary, Subsequence)])
  {
    SingleDateEntry(r, pin, Anniversary, date);
    if FirstMatch(YearPatterns(date), pin, false).Some? {
      FirstMatchKinds(YearPatterns(date), pin, false);
    }
  }
}

module DemographicProperties {
  import opened Wrappers
  import opened Dates
  import opened Findings
  import opened Demographic

  /** Some pair `i < j` of the dates, in this order, makes the combined detector report. */
  predicate SomePairMatches(pin: string, dates: seq<(Label, string)>, parse: Parser) {
    exists i, j :: 0 <= i < j < |dates| && PairFinding(pin, dates[i], dates[j], parse).Some?
  }

  /** `e` is what the combined detector reports for some pair `i < j` of the dates. */
  predicate ReportedBySomePair(pin: string, dates: seq<(Label, string)>, parse: Parser, e: Explanation) {
    exists i, j :: 0 <= i < j < |dates| && PairFinding(pin, dates[i], dates[j], parse) == Some(e)
  }

  /** The pair loop touches only the combined key, and keeps the list a dictionary. */
  lemma {:induction false} CombineWithOnlyCombined(r: Reasons, pin: string, head: (Label, string), later: seq<(Label, string)>, parse: Parser)
    ensures forall c :: c != DemographicCombined ==> Get(CombineWith(r, pin, head, later, parse), c) == Get(r, c)
    ensures Keys(CombineWith(r, pin, head, later, parse)) <= Keys(r) + {DemographicCombined}
    ensures DistinctKeys(r) ==> DistinctKeys(CombineWith(r, pin, head, later, parse))
    ensures forall p :: p <= r && DemographicCombined !in Keys(p) ==> p <= CombineWith(r, pin, head, later, parse)
    decreases |later|
  {
    if later != [] {
      var f := PairFinding(pin, head, later[0], parse);
      var r1 := Record(r, f);
      CombineWithOnlyCombined(r1, pin, head, later[1..], parse);
      if f.Some? {
        forall c | c != DemographicCombined ensures Get(r1, c) == Get(r, c) {
          GetPutOther(r, DemographicCombined, [f.value], c);
        }
        KeysPut(r, DemographicCombined, [f.value]);
        if DistinctKeys(r) { PutKeepsDistinct(r, DemographicCombined, [f.value]); }
        forall p | p <= r && DemographicCombined !in Keys(p) ensures p <= r1 {
          PutKeepsPrefix(r, p, DemographicCombined, [f.value]);
        }
      }
    }
  }

  /**
   * After the pair loop the combined key is present exactly when it was
   * before or some later date pairs with `head`; a new value is the finding
   * of such a pair.
   */
  lemma {:induction false} CombineWithEntry(r: Reasons, pin: string, head: (Label, string), later: seq<(Label, string)>, parse: Parser)
    ensures Get(CombineWith(r, pin, head, later, parse), DemographicCombined).Some? <==>
      Get(r, DemographicCombined).Some? || exists k :: 0 <= k < |later| && PairFinding(pin, head, later[k], parse).Some?
    ensures Get(CombineWith(r, pin, head, later, parse), DemographicCombined) != Get(r, DemographicCombined) ==>
      exists k :: 0 <= k < |later| && PairFinding(pin, head, later[k], parse).Some?
        && Get(CombineWith(r, pin, head, later, parse), DemographicCombined) == Some([PairFinding(pin, head, later[k], parse).value])
    decreases |later|
  {
    if later != [] {
      var f := PairFinding(pin, head, later[0], parse);
      var r1 := Record(r, f);
      var rest := later[1..];
      var out := CombineWith(r1, pin, head, rest, parse);
      assert out == CombineWith(r, pin, head, later, parse);
      CombineWithEntry(r1, pin, head, rest, parse);
      if f.Some? { GetPutSame(r, DemographicCombined, [f.value]); }
      assert forall k :: 0 <= k < |rest| ==> rest[k] == later[k + 1];
      if exists k :: 0 <= k < |rest| && PairFinding(pin, head, rest[k], parse).Some? {
        var k :| 0 <= k < |rest| && PairFinding(pin, head, rest[k], parse).Some?;
        assert PairFinding(pin, head, later[k + 1], parse).Some?;
      }
      if exists k :: 0 <= k < |later| && PairFinding(pin, head, later[k], parse).Some? {
        var k :| 0 <= k < |later| && PairFinding(pin, head, later[k], parse).Some?;
        if k > 0 { assert PairFinding(pin, head, rest[k - 1], parse).Some?; }
      }
      if Get(out, DemographicCombined) != Get(r, DemographicCombined) {
        if Get(out, DemographicCombined) != Get(r1, DemographicCombined) {
          var k :| 0 <= k < |rest| && PairFinding(pin, head, rest[k], parse).Some?
            && Get(out, DemographicCombined) == Some([PairFinding(pin, head, rest[k], parse).value]);
          assert rest[k] == later[k + 1];
        } else {
          assert PairFinding(pin, head, later[0], parse).Some?;
        }
      }
    }
  }

  /** The whole double loop touches only the combined key, and keeps the list a dictionary. */
  lemma {:induction false} CombineAllOnlyCombined(r: Reasons, pin: string, dates: seq<(Label, string)>, parse: Parser)
    ensures forall c :: c != DemographicCombined ==> Get(CombineAll(r, pin, dates, parse), c) == Get(r, c)
    ensures Keys(CombineAll(r, pin, dates, parse)) <= Keys(r) + {DemographicCombined}
    ensures DistinctKeys(r) ==> DistinctKeys(CombineAll(r, pin, dates, parse))
    ensures forall p :: p <= r && DemographicCombined !in Keys(p) ==> p <= CombineAll(r, pin, dates, parse)
    decreases |dates|
  {
    if dates != [] {
      CombineWithOnlyCombined(r, pin, dates[0], dates[1..], parse);
      CombineAllOnlyCombined(CombineWith(r, pin, dates[0], dates[1..], parse), pin, dates[1..], parse);
    }
  }

  /** The pairs of a list of dates: those of its first date, and those of the rest. */
  lemma PairsOfTail(pin: string, dates: seq<(Label, string)>, parse: Parser)
    requires dates != []
    ensures SomePairMatches(pin, dates, parse) <==>
      (exists k :: 0 <= k < |dates[1..]| && PairFinding(pin, dates[0], dates[1..][k], parse).Some?)
      || SomePairMatches(pin, dates[1..], parse)
  {
    FirstDatePairsMatch(pin, dates, parse);
    RestPairsMatch(pin, dates, parse);
    MatchingPairSplits(pin, dates, parse);
  }

  lemma FirstDatePairsMatch(pin: string, dates: seq<(Label, string)>, parse: Parser)
    requires dates != []
    ensures (exists k :: 0 <= k < |dates[1..]| && PairFinding(pin, dates[0], dates[1..][k], parse).Some?) ==>
      SomePairMatches(pin, dates, parse)
  {
    var rest := dates[1..];
    if exists k :: 0 <= k < |rest| && PairFinding(pin, dates[0], rest[k], parse).Some? {
      var k :| 0 <= k < |rest| && PairFinding(pin, dates[0], rest[k], parse).Some?;
      assert rest[k] == dates[k + 1];
      assert PairFinding(pin, dates[0], dates[k + 1], parse).Some?;
    }
  }

  lemma RestPairsMatch(pin: string, dates: seq<(Label, string)>, parse: Parser)
    requires dates != []
    ensures SomePairMatches(pin, dates[1..], parse) ==> SomePairMatches(pin, dates, parse)
  {
    var rest := dates[1..];
    if SomePairMatches(pin, rest, parse) {
      var i, j :| 0 <= i < j < |rest| && PairFinding(pin, rest[i], rest[j], parse).Some?;
      assert rest[i] == dates[i + 1] && rest[j] == dates[j + 1];
      assert PairFinding(pin, dates[i + 1], dates[j + 1], parse).Some?;
    }
  }

  lemma MatchingPairSplits(pin: string, dates: seq<(Label, string)>, parse: Parser)
    requires dates != []
    ensures SomePairMatches(pin, dates, parse) ==>
      (exists k :: 0 <= k < |dates[1..]| && PairFinding(pin, dates[0], dates[1..][k], parse).Some?)
      || SomePairMatches(pin, dates[1..], parse)
  {
    var rest := dates[1..];
    if SomePairMatches(pin, dates, parse) {
      var i, j :| 0 <= i < j < |dates| && PairFinding(pin, dates[i], dates[j], parse).Some?;
      assert rest[j - 1] == dates[j];
      if i == 0 {
        assert PairFinding(pin, dates[0], rest[j - 1], parse).Some?;
      } else {
        assert rest[i - 1] == dates[i];
        assert PairFinding(pin, rest[i - 1], rest[j - 1], parse).Some?;
      }
    }
  }

  /** A finding of a pair in the rest, or of the first date with a later one, is a finding of some pair. */
  lemma ReportedByTailPair(pin: string, dates: seq<(Label, string)>, parse: Parser, e: Explanation)
    requires dates != []
    requires ReportedBySomePair(pin, dates[1..], parse, e)
      || exists k :: 0 <= k < |dates[1..]| && PairFinding(pin, dates[0], dates[1..][k], parse) == Some(e)
    ensures ReportedBySomePair(pin, dates, parse, e)
  {
    if ReportedBySomePair(pin, dates[1..], parse, e) {
      ReportedByRestPair(pin, dates, parse, e);
    } else {
      ReportedByHeadPair(pin, dates, parse, e);
    }
  }

  lemma ReportedByRestPair(pin: string, dates: seq<(Label, string)>, parse: Parser, e: Explanation)
    requires dates != [] && ReportedBySomePair(pin, dates[1..], parse, e)
    ensures ReportedBySomePair(pin, dates, parse, e)
  {
    var i, j :| 0 <= i < j < |dates[1..]| && PairFinding(pin, dates[1..][i], dates[1..][j], parse) == Some(e);
    ReportedByShiftedPair(pin, dates, parse, e, i, j);
  }

  lemma ReportedByHeadPair(pin: string, dates: seq<(Label, string)>, parse: Parser, e: Explanation)
    requires dates != []
    requires exists k :: 0 <= k < |dates[1..]| && PairFinding(pin, dates[0], dates[1..][k], parse) == Some(e)
    ensures ReportedBySomePair(pin, dates, parse, e)
  {
    var k :| 0 <= k < |dates[1..]| && PairFinding(pin, dates[0], dates[1..][k], parse) == Some(e);
    ReportedByPair(pin, dates, parse, e, 0, k + 1, dates[0], dates[1..][k]);
  }

  /** The finding of a pair of the later dates is a finding of some pair. */
  lemma ReportedByShiftedPair(pin: string, dates: seq<(Label, string)>, parse: Parser, e: Explanation, i: nat, j: nat)
    requires dates != [] && i < j < |dates[1..]|
    requires PairFinding(pin, dates[1..][i], dates[1..][j], parse) == Some(e)
    ensures ReportedBySomePair(pin, dates, parse, e)
  {
    ReportedByPair(pin, dates, parse, e, i + 1, j + 1, dates[1..][i], dates[1..][j]);
  }

  /** The finding of one pair `i < j` is a finding of some pair. */
  lemma ReportedByPair(pin: string, dates: seq<(Label, string)>, parse: Parser, e: Explanation, i: nat, j: nat,
                       first: (Label, string), second: (Label, string))
    requires i < j < |dates| && dates[i] == first && dates[j] == second
    requires PairFinding(pin, first, second, parse) == Some(e)
    ensures ReportedBySomePair(pin, dates, parse, e)
  {
  }

  /**
   * After the double loop the combined key is present exactly when it was
   * before or some pair of dates matched.
   */
  lemma {:induction false} CombineAllEntryPresent(r: Reasons, pin: string, dates: seq<(Label, string)>, parse: Parser)
    ensures Get(CombineAll(r, pin, dates, parse), DemographicCombined).Some? <==>
      Get(r, DemographicCombined).Some? || SomePairMatches(pin, dates, parse)
    decreases |dates|
  {
    if dates != [] {
      var r1 := CombineWith(r, pin, dates[0], dates[1..], parse);
      CombineWithEntry(r, pin, dates[0], dates[1..], parse);
      CombineAllEntryPresent(r1, pin, dates[1..], parse);
      PairsOfTail(pin, dates, parse);
    }
  }

  /** A value the double loop files under the combined key is the finding of some pair of dates. */
  lemma {:induction false} CombineAllEntryOrigin(r: Reasons, pin: string, dates: seq<(Label, string)>, parse: Parser)
    ensures Get(CombineAll(r, pin, dates, parse), DemographicCombined) != Get(r, DemographicCombined) ==>
      exists e :: Get(CombineAll(r, pin, dates, parse), DemographicCombined) == Some([e]) && ReportedBySomePair(pin, dates, parse, e)
    decreases |dates|
  {
    if dates != [] {
      var rest := dates[1..];
      var r1 := CombineWith(r, pin, dates[0], rest, parse);
      var out := CombineAll(r1, pin, rest, parse);
      CombineWithEntry(r, pin, dates[0], rest, parse);
      CombineAllEntryOrigin(r1, pin, rest, parse);
      if Get(out, DemographicCombined) != Get(r, DemographicCombined) {
        if Get(out, DemographicCombined) != Get(r1, DemographicCombined) {
          var e :| Get(out, DemographicCombined) == Some([e]) && ReportedBySomePair(pin, rest, parse, e);
          ReportedByTailPair(pin, dates, parse, e);
        } else {
          var k :| 0 <= k < |rest| && PairFinding(pin, dates[0], rest[k], parse).Some?
            && Get(r1, DemographicCombined) == Some([PairFinding(pin, dates[0], rest[k], parse).value]);
          ReportedByTailPair(pin, dates, parse, PairFinding(pin, dates[0], rest[k], parse).value);
        }
      }
    }
  }

  /**
   * Pair `i < j` is the last pair, in the double loop's order, whose combined
   * patterns match: every pair the loop visits after it finds nothing.
   */
  predicate LastMatchingPair(pin: string, dates: seq<(Label, string)>, parse: Parser, i: nat, j: nat) {
    && i < j < |dates|
    && PairFinding(pin, dates[i], dates[j], parse).Some?
    && forall a, b :: 0 <= a < b < |dates| && (a > i || (a == i && b > j)) ==> PairFinding(pin, dates[a], dates[b], parse).None?
  }

  /** An inner loop in which no later date pairs with `head` leaves the dictionary as it was. */
  lemma {:induction false} CombineWithNoMatch(r: Reasons, pin: string, head: (Label, string), later: seq<(Label, string)>, parse: Parser)
    requires forall m :: 0 <= m < |later| ==> PairFinding(pin, head, later[m], parse).None?
    ensures CombineWith(r, pin, head, later, parse) == r
    decreases |later|
  {
    if later != [] {
      assert PairFinding(pin, head, later[0], parse).None?;
      assert forall m :: 0 <= m < |later[1..]| ==> later[1..][m] == later[m + 1];
      CombineWithNoMatch(r, pin, head, later[1..], parse);
    }
  }

  /**
   * Each match overwrites the combined key, so after the inner loop it holds
   * the finding of the last later date that pairs with `head`.
   */
  lemma {:induction false} CombineWithLast(r: Reasons, pin: string, head: (Label, string), later: seq<(Label, string)>, parse: Parser, k: nat)
    requires k < |later| && PairFinding(pin, head, later[k], parse).Some?
    requires forall m :: k < m < |later| ==> PairFinding(pin, head, later[m], parse).None?
    ensures Get(CombineWith(r, pin, head, later, parse), DemographicCombined) == Some([PairFinding(pin, head, later[k], parse).value])
    decreases |later|
  {
    var rest := later[1..];
    var r1 := Record(r, PairFinding(pin, head, later[0], parse));
    assert forall m :: 0 <= m < |rest| ==> rest[m] == later[m + 1];
    if k == 0 {
      CombineWithNoMatch(r1, pin, head, rest, parse);
      GetPutSame(r, DemographicCombined, [PairFinding(pin, head, later[0], parse).value]);
    } else {
      CombineWithLast(r1, pin, head, rest, parse, k - 1);
    }
  }

  /** A double loop in which no pair matches leaves the dictionary as it was. */
  lemma {:induction false} CombineAllNoMatch(r: Reasons, pin: string, dates: seq<(Label, string)>, parse: Parser)
    requires !SomePairMatches(pin, dates, parse)
    ensures CombineAll(r, pin, dates, parse) == r
    decreases |dates|
  {
    if dates != [] {
      FirstDatePairsMatch(pin, dates, parse);
      RestPairsMatch(pin, dates, parse);
      CombineWithNoMatch(r, pin, dates[0], dates[1..], parse);
      CombineAllNoMatch(r, pin, dates[1..], parse);
    }
  }

  /** Dropping the first date shifts a last matching pair down by one. */
  lemma LastPairOfRest(pin: string, dates: seq<(Label, string)>, parse: Parser, i: nat, j: nat)
    requires 0 < i && LastMatchingPair(pin, dates, parse, i, j)
    ensures LastMatchingPair(pin, dates[1..], parse, i - 1, j - 1)
  {
    var rest := dates[1..];
    assert rest[i - 1] == dates[i] && rest[j - 1] == dates[j];
    forall a, b | 0 <= a < b < |rest| && (a > i - 1 || (a == i - 1 && b > j - 1))
      ensures PairFinding(pin, rest[a], rest[b], parse).None?
    {
      assert rest[a] == dates[a + 1] && rest[b] == dates[b + 1];
    }
  }

  /** When the first date is in the last matching pair, no pair of the later dates matches. */
  lemma NoPairAfterHead(pin: string, dates: seq<(Label, string)>, parse: Parser, j: nat)
    requires LastMatchingPair(pin, dates, parse, 0, j)
    ensures !SomePairMatches(pin, dates[1..], parse)
    ensures forall m :: j - 1 < m < |dates[1..]| ==> PairFinding(pin, dates[0], dates[1..][m], parse).None?
  {
    var rest := dates[1..];
    forall a, b | 0 <= a < b < |rest| ensures PairFinding(pin, rest[a], rest[b], parse).None? {
      assert rest[a] == dates[a + 1] && rest[b] == dates[b + 1];
    }
    forall m | j - 1 < m < |rest| ensures PairFinding(pin, dates[0], rest[m], parse).None? {
      assert rest[m] == dates[m + 1];
    }
  }

  /**
   * Each matching pair overwrites the combined key, so after the double loop
   * it holds the finding of the last matching pair in loop order.
   */
  lemma {:induction false} CombineAllLast(r: Reasons, pin: string, dates: seq<(Label, string)>, parse: Parser, i: nat, j: nat)
    requires LastMatchingPair(pin, dates, parse, i, j)
    ensures Get(CombineAll(r, pin, dates, parse), DemographicCombined) == Some([PairFinding(pin, dates[i], dates[j], parse).value])
    decreases |dates|
  {
    var rest := dates[1..];
    var r1 := CombineWith(r, pin, dates[0], rest, parse);
    if i == 0 {
      NoPairAfterHead(pin, dates, parse, j);
      assert rest[j - 1] == dates[j];
      CombineWithLast(r, pin, dates[0], rest, parse, j - 1);
      CombineAllNoMatch(r1, pin, rest, parse);
    } else {
      LastPairOfRest(pin, dates, parse, i, j);
      CombineAllLast(r1, pin, rest, parse, i - 1, j - 1);
    }
  }

  /** When some element satisfies `p`, one of them is the last to do so. */
  lemma {:induction false} LastSatisfying<T>(xs: seq<T>, p: T -> bool)
    requires exists k :: 0 <= k < |xs| && p(xs[k])
    ensures exists k :: 0 <= k < |xs| && p(xs[k]) && (forall m :: k < m < |xs| ==> !p(xs[m]))
    decreases |xs|
  {
    var n := |xs| - 1;
    if !p(xs[n]) {
      var init := xs[..n];
      var k0 :| 0 <= k0 < |xs| && p(xs[k0]);
      assert init[k0] == xs[k0];
      LastSatisfying(init, p);
      var k :| 0 <= k < |init| && p(init[k]) && (forall m :: k < m < |init| ==> !p(init[m]));
      assert init[k] == xs[k];
      forall m | k < m < |xs| ensures !p(xs[m]) {
        if m < n { assert init[m] == xs[m]; }
      }
    }
  }

  /** `later[k]` is the last later date that pairs with `head`. */
  predicate LastLaterMatch(pin: string, head: (Label, string), later: seq<(Label, string)>, parse: Parser, k: nat) {
    && k < |later|
    && PairFinding(pin, head, later[k], parse).Some?
    && forall m :: k < m < |later| ==> PairFinding(pin, head, later[m], parse).None?
  }

  /** When some later date pairs with `head`, one of them is the last to do so. */
  lemma LastLaterMatchExists(pin: string, head: (Label, string), later: seq<(Label, string)>, parse: Parser)
    requires exists k :: 0 <= k < |later| && PairFinding(pin, head, later[k], parse).Some?
    ensures exists k :: LastLaterMatch(pin, head, later, parse, k)
  {
    var p := (x: (Label, string)) => PairFinding(pin, head, x, parse).Some?;
    var k0 :| 0 <= k0 < |later| && PairFinding(pin, head, later[k0], parse).Some?;
    assert p(later[k0]);
    LastSatisfying(later, p);
    var k :| 0 <= k < |later| && p(later[k]) && (forall m :: k < m < |later| ==> !p(later[m]));
    assert LastLaterMatch(pin, head, later, parse, k);
  }

  /** A last matching pair of the later dates is, shifted up by one, a last matching pair of all of them. */
  lemma LastPairFromRest(pin: string, dates: seq<(Label, string)>, parse: Parser, i: nat, j: nat)
    requires dates != [] && LastMatchingPair(pin, dates[1..], parse, i, j)
    ensures LastMatchingPair(pin, dates, parse, i + 1, j + 1)
  {
    var rest := dates[1..];
    assert rest[i] == dates[i + 1] && rest[j] == dates[j + 1];
    forall a, b | 0 <= a < b < |dates| && (a > i + 1 || (a == i + 1 && b > j + 1))
      ensures PairFinding(pin, dates[a], dates[b], parse).None?
    {
      assert rest[a - 1] == dates[a] && rest[b - 1] == dates[b];
    }
  }

  /**
   * When no pair of the later dates matches, the first date with the last
   * later date it pairs with is the last matching pair.
   */
  lemma LastPairAtHead(pin: string, dates: seq<(Label, string)>, parse: Parser, k: nat)
    requires dates != [] && !SomePairMatches(pin, dates[1..], parse) && LastLaterMatch(pin, dates[0], dates[1..], parse, k)
    ensures LastMatchingPair(pin, dates, parse, 0, k + 1)
  {
    var rest := dates[1..];
    assert rest[k] == dates[k + 1];
    forall a, b | 0 <= a < b < |dates| && (a > 0 || (a == 0 && b > k + 1))
      ensures PairFinding(pin, dates[a], dates[b], parse).None?
    {
      if a > 0 {
        assert rest[a - 1] == dates[a] && rest[b - 1] == dates[b];
      } else {
        assert rest[b - 1] == dates[b];
      }
    }
  }

  /** When some pair of dates matches, one of them is the last to match in loop order. */
  lemma {:induction false} LastMatchingPairExists(pin: string, dates: seq<(Label, string)>, parse: Parser)
    requires SomePairMatches(pin, dates, parse)
    ensures exists i, j :: LastMatchingPair(pin, dates, parse, i, j)
    decreases |dates|
  {
    MatchingPairSplits(pin, dates, parse);
    if SomePairMatches(pin, dates[1..], parse) {
      LastMatchingPairExists(pin, dates[1..], parse);
      var i, j :| LastMatchingPair(pin, dates[1..], parse, i, j);
      LastPairFromRest(pin, dates, parse, i, j);
    } else {
      LastLaterMatchExists(pin, dates[0], dates[1..], parse);
      var k :| LastLaterMatch(pin, dates[0], dates[1..], parse, k);
      LastPairAtHead(pin, dates, parse, k);
    }
  }

  /**
   * Two parsed dates whose days, joined in order, are the PIN: the first
   * combined pattern matches exactly and is described as day plus day.
   */
  lemma DayPairMatch(pin: string, first: (Label, string), second: (Label, string), parse: Parser, d1: Date, d2: Date)
    requires parse(first.1) == Some(d1) && parse(second.1) == Some(d2)
    requires pin == Day(d1) + Day(d2)
    ensures PairFinding(pin, first, second, parse) == Some(CombinedExact(Fields(DayField, first.0, DayField, second.0)))
  {
    var ps := CombinedPatterns(Some(d1), Some(d2));
    assert ps[0] == pin;
    assert Classify(ps[0], pin, true) == Some(Exact);
  }

  /** A date that does not parse pairs with nothing. */
  lemma UnparsablePairsWithNothing(pin: string, x: (Label, string), y: (Label, string), parse: Parser)
    requires parse(x.1).None? || parse(y.1).None?
    ensures PairFinding(pin, x, y, parse).None?
  {
  }

  lemma {:induction false} CombineWithSkipsUnparsable(r: Reasons, pin: string, head: (Label, string), a: seq<(Label, string)>, x: (Label, string), b: seq<(Label, string)>, parse: Parser)
    requires parse(x.1).None?
    ensures CombineWith(r, pin, head, a + [x] + b, parse) == CombineWith(r, pin, head, a + b, parse)
    decreases |a|
  {
    if a == [] {
      assert a + [x] + b == [x] + b;
      assert ([x] + b)[1..] == b;
      assert a + b == b;
    } else {
      var r1 := Record(r, PairFinding(pin, head, a[0], parse));
      assert (a + [x] + b)[1..] == a[1..] + [x] + b;
      assert (a + b)[1..] == a[1..] + b;
      CombineWithSkipsUnparsable(r1, pin, head, a[1..], x, b, parse);
    }
  }

  lemma {:induction false} CombineWithUnparsableHead(r: Reasons, pin: string, head: (Label, string), later: seq<(Label, string)>, parse: Parser)
    requires parse(head.1).None?
    ensures CombineWith(r, pin, head, later, parse) == r
    decreases |later|
  {
    if later != [] {
      CombineWithUnparsableHead(r, pin, head, later[1..], parse);
    }
  }

  /**
   * A date that does not parse changes nothing in the combined detector:
   * the double loop runs as if the date were not given.
   */
  lemma {:induction false} CombineAllSkipsUnparsable(r: Reasons, pin: string, a: seq<(Label, string)>, x: (Label, string), b: seq<(Label, string)>, parse: Parser)
    requires parse(x.1).None?
    ensures CombineAll(r, pin, a + [x] + b, parse) == CombineAll(r, pin, a + b, parse)
    decreases |a|
  {
    if a == [] {
      assert a + [x] + b == [x] + b;
      assert ([x] + b)[1..] == b;
      assert a + b == b;
      CombineWithUnparsableHead(r, pin, x, b, parse);
    } else {
      assert (a + [x] + b)[0] == a[0];
      assert (a + [x] + b)[1..] == a[1..] + [x] + b;
      assert (a + b)[0] == a[0];
      assert (a + b)[1..] == a[1..] + b;
      CombineWithSkipsUnparsable(r, pin, a[0], a[1..], x, b, parse);
      var r1 := CombineWith(r, pin, a[0], a[1..] + b, parse);
      CombineAllSkipsUnparsable(r1, pin, a[1..], x, b, parse);
    }
  }

  /** With fewer than two dates there is no pair, and the combined detector reports nothing. */
  lemma CombineAllNeedsTwoDates(r: Reasons, pin: string, dates: seq<(Label, string)>, parse: Parser)
    requires |dates| <= 1
    ensures CombineAll(r, pin, dates, parse) == r
  {
    if |dates| == 1 {
      assert CombineWith(r, pin, dates[0], dates[1..], parse) == r;
      assert CombineAll(r, pin, dates, parse) == CombineAll(r, pin, dates[1..], parse);
    }
  }

  /** One date's block touches only that date's key, and keeps the list a dictionary. */
  lemma SingleDateOnlyOwnKey(r: Reasons, pin: string, who: Label, date: Option<Date>)
    ensures forall c :: c != CategoryOf(who) ==> Get(SingleDate(r, pin, who, date), c) == Get(r, c)
    ensures Keys(SingleDate(r, pin, who, date)) <= Keys(r) + {CategoryOf(who)}
    ensures DistinctKeys(r) ==> DistinctKeys(SingleDate(r, pin, who, date))
    ensures forall p :: p <= r && CategoryOf(who) !in Keys(p) ==> p <= SingleDate(r, pin, who, date)
  {
    var cat := CategoryOf(who);
    var r1 := match FirstMatch(YearPatterns(date), pin, who != Anniversary)
      case None => r
      case Some((kind, _)) => Put(r, cat, [YearMatch(who, kind)]);
    match FirstMatch(YearPatterns(date), pin, who != Anniversary) {
      case None =>
      case Some((kind, _)) => PutFrame(r, cat, [YearMatch(who, kind)]);
    }
    match FirstMatch(DatePatterns(date), pin, true) {
      case None =>
      case Some((kind, _)) => PutFrame(r1, cat, [DateMatch(who, kind)]);
    }
  }

  /** A date that did not parse produces no pattern, so its block changes nothing. */
  lemma SingleDateWithoutDate(r: Reasons, pin: string, who: Label)
    ensures SingleDate(r, pin, who, None) == r
  {
  }
}
