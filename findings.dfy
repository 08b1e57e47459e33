/**
 * What the detectors report. Each explanation the original renders as text is
 * a tagged value here; the tag keeps exactly the distinctions the scorer reads
 * from the text.
 */
module Findings {
  import opened Wrappers
  import opened Dates

  datatype Line = Horizontal | Vertical | Diagonal

  /** Exact equality with the PIN, or an order-preserving subsequence of it. */
  datatype MatchKind = Exact | Subsequence

  datatype Field = DayField | MonthField

  /** Which two date fields an exact combined match is reported as. */
  datatype CombinedSource =
    | Fields(firstField: Field, firstLabel: Label, secondField: Field, secondLabel: Label)
    | BothDates(first: Label, second: Label)

  datatype Explanation =
    | ArithmeticProgression(difference: int)        // "Arithmetic progression with difference d"
    | GeometricProgression(ratio: real)             // "Geometric progression with ratio r"
    | AllDigitsSame(digit: char)                    // "All digits are same (d)"
    | AscendingOrder                                // "Digits are in ascending order"
    | DescendingOrder                               // "Digits are in descending order"
    | RepeatedPairPattern(pair: string)             // "Repeated pair pattern (pp)"
    | RepeatedSequence(block: string)               // "Repeated sequence (b)"
    | KeypadLine(line: Line, pattern: string, repeated: bool)
      // "Horizontal keypad pattern (123)"; repeated: "Repeated horizontal keypad pattern (123)"
    | KeypadCorners(corners: set<char>)             // "Common keypad pattern using ... corners"
    | YearMatch(who: Label, kind: MatchKind)      // "... birth year" / "... anniversary year"
    | DateMatch(who: Label, kind: MatchKind)      // "... date of birth" / "... anniversary date"
    | CombinedExact(source: CombinedSource)         // "Match with combined pattern ..."
    | CombinedSubsequence(first: Label, second: Label) // "Contains subsequence from combined ..."
    | WrongFormat                                   // "MPIN must be 4 or 6 digits"

  /** The keys of the reasons dictionary. */
  datatype Category =
    | CommonPattern
    | DemographicDobSelf
    | DemographicDobSpouse
    | DemographicAnniversary
    | DemographicCombined
    | InvalidFormat
  {
    /** `reason.startswith('DEMOGRAPHIC_')` */
    predicate IsDemographic() {
      !CommonPattern? && !InvalidFormat?
    }
  }

  /** The category under which a single date's findings are filed. */
  function CategoryOf(who: Label): (c: Category)
    ensures c.IsDemographic() && !c.DemographicCombined?
  {
    match who
    case Self => DemographicDobSelf
    case Spouse => DemographicDobSpouse
    case Anniversary => DemographicAnniversary
  }

  /** The reasons dictionary, as an insertion-ordered list of entries. */
  type Reasons = seq<(Category, seq<Explanation>)>

  function Keys(r: Reasons): set<Category> {
    set k | 0 <= k < |r| :: r[k].0
  }

  predicate DistinctKeys(r: Reasons) {
    forall i, j :: 0 <= i < j < |r| ==> r[i].0 != r[j].0
  }

  /** `reasons[c]` if present. */
  function Get(r: Reasons, c: Category): Option<seq<Explanation>> {
    if r == [] then None
    else if r[0].0 == c then Some(r[0].1)
    else Get(r[1..], c)
  }

  /**
   * `reasons[c] = v`: a present key keeps its place and gets the new value,
   * an absent key is added at the end.
   */
  function Put(r: Reasons, c: Category, v: seq<Explanation>): (r': Reasons)
    ensures |r'| == if c in Keys(r) then |r| else |r| + 1
  {
    if r == [] then [(c, v)]
    else if r[0].0 == c then [(c, v)] + r[1..]
    else
      KeysOfTail(r);
      [r[0]] + Put(r[1..], c, v)
  }

  lemma {:induction false} KeysOfTail(r: Reasons)
    requires r != []
    ensures Keys(r) == {r[0].0} + Keys(r[1..])
  {
    forall x | x in Keys(r) ensures x in {r[0].0} + Keys(r[1..]) {
      var k :| 0 <= k < |r| && r[k].0 == x;
      if k > 0 { assert r[1..][k - 1].0 == x; }
    }
    forall x | x in Keys(r[1..]) ensures x in Keys(r) {
      var k :| 0 <= k < |r[1..]| && r[1..][k].0 == x;
      assert r[k + 1].0 == x;
    }
  }

  /** After `reasons[c] = v`, `reasons[c]` is `v`. */
  lemma {:induction false} GetPutSame(r: Reasons, c: Category, v: seq<Explanation>)
    ensures Get(Put(r, c, v), c) == Some(v)
  {
    if r != [] && r[0].0 != c {
      GetPutSame(r[1..], c, v);
    }
  }

  /** `reasons[c] = v` leaves every other key's value as it was. */
  lemma {:induction false} GetPutOther(r: Reasons, c: Category, v: seq<Explanation>, c': Category)
    requires c' != c
    ensures Get(Put(r, c, v), c') == Get(r, c')
  {
    if r != [] && r[0].0 != c && r[0].0 != c' {
      GetPutOther(r[1..], c, v, c');
    }
  }

  /** Assigning a key twice is the same as assigning it the second value. */
  lemma {:induction false} PutPut(r: Reasons, c: Category, v: seq<Explanation>, w: seq<Explanation>)
    ensures Put(Put(r, c, v), c, w) == Put(r, c, w)
  {
    if r != [] && r[0].0 != c {
      PutPut(r[1..], c, v, w);
    }
  }

  /** The keys after an assignment: the old ones and the assigned one. */
  lemma {:induction false} KeysPut(r: Reasons, c: Category, v: seq<Explanation>)
    ensures Keys(Put(r, c, v)) == Keys(r) + {c}
  {
    if r == [] {
      assert Keys([(c, v)]) == {c} by {
        assert [(c, v)][0].0 == c;
      }
    } else {
      KeysOfTail(r);
      KeysOfTail(Put(r, c, v));
      if r[0].0 != c {
        KeysPut(r[1..], c, v);
      }
    }
  }

  /** Assignment keeps the keys distinct: the list stays a dictionary. */
  lemma {:induction false} PutKeepsDistinct(r: Reasons, c: Category, v: seq<Explanation>)
    requires DistinctKeys(r)
    ensures DistinctKeys(Put(r, c, v))
  {
    if r != [] {
      KeysOfTail(r);
      var r' := Put(r, c, v);
      if r[0].0 == c {
        assert r'[1..] == r[1..];
      } else {
        PutKeepsDistinct(r[1..], c, v);
        KeysPut(r[1..], c, v);
        assert r'[1..] == Put(r[1..], c, v);
        forall j | 0 < j < |r'| ensures r'[0].0 != r'[j].0 {
          assert r'[j].0 in Keys(r'[1..]) by { assert r'[1..][j - 1] == r'[j]; }
        }
      }
    }
  }

  /** Assigning a key the prefix does not hold keeps that prefix in place. */
  lemma {:induction false} PutKeepsPrefix(r: Reasons, p: Reasons, c: Category, v: seq<Explanation>)
    requires p <= r && c !in Keys(p)
    ensures p <= Put(r, c, v)
  {
    if p != [] {
      KeysOfTail(p);
      assert r[0] == p[0];
      PutKeepsPrefix(r[1..], p[1..], c, v);
    }
  }

  /** Everything an assignment leaves alone: other keys, distinctness, prefixes without the key. */
  lemma PutFrame(r: Reasons, c: Category, v: seq<Explanation>)
    ensures forall c' :: c' != c ==> Get(Put(r, c, v), c') == Get(r, c')
    ensures Keys(Put(r, c, v)) == Keys(r) + {c}
    ensures DistinctKeys(r) ==> DistinctKeys(Put(r, c, v))
    ensures forall p :: p <= r && c !in Keys(p) ==> p <= Put(r, c, v)
  {
    forall c' | c' != c ensures Get(Put(r, c, v), c') == Get(r, c') {
      GetPutOther(r, c, v, c');
    }
    KeysPut(r, c, v);
    if DistinctKeys(r) { PutKeepsDistinct(r, c, v); }
    forall p | p <= r && c !in Keys(p) ensures p <= Put(r, c, v) {
      PutKeepsPrefix(r, p, c, v);
    }
  }
}
