/**
 * `calculate_strength_percentage`: 100 minus what the findings cost, floored
 * at 0. The original recognises a finding by phrases in its text; here each
 * tag costs what its text would.
 */
module Scoring {
  import opened Findings
  import opened Dates

  /** A PIN scoring at least this much is STRONG. */
  const StrongThreshold: int := 70

  /**
   * What one explanation filed under COMMON_PATTERN costs. A repeated keypad
   * line reads "Repeated horizontal keypad pattern", which none of the
   * case-sensitive phrases matches, so it costs nothing.
   */
  function CommonDeduction(e: Explanation): (d: nat)
    ensures d <= 40
    ensures d == 0 <==>
      !(e.ArithmeticProgression? || e.GeometricProgression? || e.AllDigitsSame?
        || e.AscendingOrder? || e.DescendingOrder? || e.RepeatedPairPattern? || e.RepeatedSequence?
        || (e.KeypadLine? && !e.repeated) || e.KeypadCorners?)
  {
    match e
    case ArithmeticProgression(_) => 40
    case GeometricProgression(_) => 10
    case AllDigitsSame(_) => 35
    case AscendingOrder => 35
    case DescendingOrder => 35
    case RepeatedPairPattern(_) => 35
    case RepeatedSequence(_) => 35
    case KeypadLine(_, _, repeated) => if repeated then 0 else 35
    case KeypadCorners(_) => 35
    case _ => 0
  }

  /**
   * What one explanation filed under a DEMOGRAPHIC_ key costs: a year costs
   * 20 when matched and 5 as a subsequence; anything else matched costs 20
   * under the combined key and 40 under the others, and as a subsequence 5
   * and 10.
   */
  function DemographicDeduction(c: Category, e: Explanation): (d: nat)
    requires c.IsDemographic()
    ensures d <= 40
    ensures d > 0 <==> e.YearMatch? || e.DateMatch? || e.CombinedExact? || e.CombinedSubsequence?
  {
    match e
    case YearMatch(_, kind) => if kind == Exact then 20 else 5
    case DateMatch(_, kind) =>
      if kind == Exact then (if c == DemographicCombined then 20 else 40)
      else (if c == DemographicCombined then 5 else 10)
    case CombinedExact(_) => if c == DemographicCombined then 20 else 40
    case CombinedSubsequence(_, _) => if c == DemographicCombined then 5 else 10
    case _ => 0
  }

  /** The cost of one explanation under a key. */
  function Deduction(c: Category, e: Explanation): nat {
    if c == CommonPattern then CommonDeduction(e)
    else if c.IsDemographic() then DemographicDeduction(c, e)
    else 0
  }

  /** The inner loop over one key's explanations. */
  function ExplanationsDeduction(c: Category, es: seq<Explanation>): nat {
    if es == [] then 0 else ExplanationsDeduction(c, es[..|es| - 1]) + Deduction(c, es[|es| - 1])
  }

  /** `deductions.get(reason, 0)`: no other key is in the table, so it costs nothing. */
  function KeyDeduction(c: Category): nat {
    0
  }

  /** What one entry costs: per explanation for the common and demographic keys, once for any other. */
  function EntryDeduction(entry: (Category, seq<Explanation>)): nat {
    var (c, es) := entry;
    if c == CommonPattern || c.IsDemographic() then ExplanationsDeduction(c, es) else KeyDeduction(c)
  }

  /** The outer loop over `reasons.items()`. */
  function TotalDeduction(r: Reasons): nat {
    if r == [] then 0 else TotalDeduction(r[..|r| - 1]) + EntryDeduction(r[|r| - 1])
  }

  function StrengthPercentage(r: Reasons): int {
    if r == [] then 100
    else if TotalDeduction(r) >= 100 then 0
    else 100 - TotalDeduction(r)
  }

  /** The score is a percentage: 100 exactly when nothing costs anything, 0 once the costs reach 100. */
  lemma StrengthIsPercentage(r: Reasons)
    ensures 0 <= StrengthPercentage(r) <= 100
    ensures StrengthPercentage(r) == 100 <==> TotalDeduction(r) == 0
    ensures StrengthPercentage(r) == 0 <==> TotalDeduction(r) >= 100
    ensures TotalDeduction(r) < 100 ==> StrengthPercentage(r) + TotalDeduction(r) == 100
  {
    if r == [] {
      assert TotalDeduction(r) == 0;
    }
  }

  /** The cost of a key's explanations is the sum over any split of them. */
  lemma {:induction false} ExplanationsDeductionAppend(c: Category, xs: seq<Explanation>, ys: seq<Explanation>)
    ensures ExplanationsDeduction(c, xs + ys) == ExplanationsDeduction(c, xs) + ExplanationsDeduction(c, ys)
    decreases |ys|
  {
    if ys == [] {
      assert xs + ys == xs;
    } else {
      var ys' := ys[..|ys| - 1];
      assert (xs + ys)[..|xs + ys| - 1] == xs + ys';
      ExplanationsDeductionAppend(c, xs, ys');
    }
  }

  /** The total is the sum over any split of the entries. */
  lemma {:induction false} TotalDeductionAppend(a: Reasons, b: Reasons)
    ensures TotalDeduction(a + b) == TotalDeduction(a) + TotalDeduction(b)
    decreases |b|
  {
    if b == [] {
      assert a + b == a;
    } else {
      var b' := b[..|b| - 1];
      assert (a + b)[..|a + b| - 1] == a + b';
      TotalDeductionAppend(a, b');
    }
  }

  /** The total is each entry's cost added up, the first entry included. */
  lemma TotalDeductionCons(r: Reasons)
    requires r != []
    ensures TotalDeduction(r) == EntryDeduction(r[0]) + TotalDeduction(r[1..])
  {
    assert r == [r[0]] + r[1..];
    TotalDeductionAppend([r[0]], r[1..]);
    assert [r[0]][..0] == [];
  }

  /** Entries added after the existing ones never raise the score. */
  lemma MoreReasonsNeverRaiseTheScore(a: Reasons, b: Reasons)
    ensures StrengthPercentage(a + b) <= StrengthPercentage(a)
  {
    TotalDeductionAppend(a, b);
    StrengthIsPercentage(a + b);
  }

  /** A reasons list costs at least what any prefix of it costs. */
  lemma PrefixCostsNoMore(p: Reasons, r: Reasons)
    requires p <= r
    ensures TotalDeduction(p) <= TotalDeduction(r)
  {
    assert r == p + r[|p|..];
    TotalDeductionAppend(p, r[|p|..]);
  }

  /** A reasons list scores no higher than any prefix of it. */
  lemma PrefixScoresNoLower(p: Reasons, r: Reasons)
    requires p <= r
    ensures StrengthPercentage(r) <= StrengthPercentage(p)
  {
    assert r == p + r[|p|..];
    MoreReasonsNeverRaiseTheScore(p, r[|p|..]);
  }

  /**
   * Assigning a key changes the total by the new entry's cost less the cost
   * of the value it replaces.
   */
  lemma {:induction false} PutDeduction(r: Reasons, c: Category, v: seq<Explanation>)
    ensures TotalDeduction(Put(r, c, v)) + (if Get(r, c).Some? then EntryDeduction((c, Get(r, c).value)) else 0)
      == TotalDeduction(r) + EntryDeduction((c, v))
  {
    if r == [] {
      TotalDeductionCons([(c, v)]);
    } else {
      TotalDeductionCons(r);
      TotalDeductionCons(Put(r, c, v));
      if r[0].0 != c {
        PutDeduction(r[1..], c, v);
      }
    }
  }

  /** Every explanation under a key costs at most 40. */
  lemma {:induction false} ExplanationsDeductionBound(c: Category, es: seq<Explanation>)
    ensures ExplanationsDeduction(c, es) <= 40 * |es|
    decreases |es|
  {
    if es != [] {
      ExplanationsDeductionBound(c, es[..|es| - 1]);
    }
  }
}
