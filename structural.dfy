/**
 * The detectors that look at the PIN alone: progressions, repetition,
 * ordering, repeated pairs and blocks, and keypad lines and corners.
 */
module Structural {
  import opened Wrappers
  import opened Text
  import opened Findings
  import opened Keypad

  /** `[int(d) for d in mpin]` */
  function Values(pin: string): (ds: seq<int>)
    requires AllDigits(pin)
    ensures |ds| == |pin| && forall i :: 0 <= i < |pin| ==> ds[i] == DigitValue(pin[i])
  {
    seq(|pin|, i requires 0 <= i < |pin| => DigitValue(pin[i]))
  }

  /** `is_arithmetic_progression`: the common difference, if consecutive digits share one. */
  function ArithmeticDifference(pin: string): Option<int>
    requires AllDigits(pin)
  {
    var ds := Values(pin);
    if |ds| < 2 then None
    else
      var diff := ds[1] - ds[0];
      if forall i :: 1 <= i < |ds| ==> ds[i] - ds[i - 1] == diff then Some(diff) else None
  }

  /** `is_geometric_progression`: the common ratio, if no digit is 0 and consecutive digits share one. */
  function GeometricRatio(pin: string): Option<real>
    requires AllDigits(pin)
  {
    var ds := Values(pin);
    if |ds| < 2 || 0 in ds then None
    else
      var ratio := ds[1] as real / ds[0] as real;
      if forall i :: 1 <= i < |ds| ==> ds[i] as real / ds[i - 1] as real == ratio then Some(ratio) else None
  }

  /** `is_repetitive`: the digit, if the PIN uses exactly one. */
  function RepeatedDigit(pin: string): Option<char> {
    if |set c | c in pin| == 1 then
      assert pin != [];
      Some(pin[0])
    else None
  }

  /** `is_ascending`: non-strictly increasing from each digit to the next. */
  predicate IsAscending(pin: string)
    requires AllDigits(pin)
  {
    forall i :: 0 <= i < |pin| - 1 ==> DigitValue(pin[i]) <= DigitValue(pin[i + 1])
  }

  /** `is_descending`: non-strictly decreasing from each digit to the next. */
  predicate IsDescending(pin: string)
    requires AllDigits(pin)
  {
    forall i :: 0 <= i < |pin| - 1 ==> DigitValue(pin[i]) >= DigitValue(pin[i + 1])
  }

  /** The consecutive two-character chunks, a trailing odd character dropped. */
  function Pairs(pin: string): (ps: seq<string>)
    ensures |ps| == |pin| / 2
    ensures forall k :: 0 <= k < |ps| ==> ps[k] == pin[2 * k..2 * k + 2]
  {
    seq(|pin| / 2, k requires 0 <= k < |pin| / 2 => pin[2 * k..2 * k + 2])
  }

  /** The repeated-pair check of `is_common_pattern`: the pair, if all chunks are the same. */
  function RepeatedPair(pin: string): Option<string> {
    if |pin| >= 4 then
      var ps := Pairs(pin);
      if |set p | p in ps| == 1 then Some(ps[0]) else None
    else None
  }

  /** What the repeated-pair check reports. */
  function PairFindings(pin: string): seq<Explanation> {
    match RepeatedPair(pin)
    case None => []
    case Some(p) => [RepeatedPairPattern(p)]
  }

  /** The repeated-sequence loop of `is_common_pattern`, for block lengths 1 to `m`. */
  function SequenceFindingsUpTo(pin: string, m: nat): seq<Explanation>
    requires m <= |pin|
  {
    if m == 0 then []
    else
      SequenceFindingsUpTo(pin, m - 1)
      + (if Repeat(pin[..m], |pin| / m) == pin then [RepeatedSequence(pin[..m])] else [])
  }

  function SequenceFindings(pin: string): seq<Explanation> {
    if |pin| >= 4 then SequenceFindingsUpTo(pin, |pin| / 2) else []
  }

  /** One keypad line: found forwards or backwards, and found doubled. */
  function LineHits(line: Line, p: string, pin: string): seq<Explanation> {
    (if Contains(pin, p) || Contains(pin, Reverse(p)) then [KeypadLine(line, p, false)] else [])
    + (if Contains(pin, Repeat(p, 2)) || Contains(pin, Repeat(Reverse(p), 2)) then [KeypadLine(line, p, true)] else [])
  }

  function LineFindings(line: Line, ps: seq<string>, pin: string): seq<Explanation> {
    if ps == [] then [] else LineFindings(line, ps[..|ps| - 1], pin) + LineHits(line, ps[|ps| - 1], pin)
  }

  /** One more line in the table adds that line's hits at the end. */
  lemma LineFindingsSnoc(line: Line, ps: seq<string>, pin: string, k: nat)
    requires k < |ps|
    ensures LineFindings(line, ps[..k + 1], pin) == LineFindings(line, ps[..k], pin) + LineHits(line, ps[k], pin)
  {
    assert ps[..k + 1][..k] == ps[..k];
  }

  /** The corner check: every digit is a corner key and two to four corners are used. */
  function CornerFindings(pin: string): seq<Explanation> {
    var used := set c | c in pin;
    if used <= CornerDigits && 2 <= |used| <= 4 then [KeypadCorners(used)] else []
  }

  /** `is_keypad_pattern` */
  function KeypadFindings(pin: string): seq<Explanation> {
    LineFindings(Horizontal, HorizontalLines, pin)
    + LineFindings(Vertical, VerticalLines, pin)
    + LineFindings(Diagonal, DiagonalLines, pin)
    + CornerFindings(pin)
  }

  /** `is_common_pattern`: repeated pair, repeated sequences, then keypad findings. */
  function CommonFindings(pin: string): seq<Explanation> {
    PairFindings(pin) + SequenceFindings(pin) + KeypadFindings(pin)
  }

  /** The `is_common_pattern` findings, part by part. */
  lemma CommonFromParts(pin: string, pairPart: seq<Explanation>, withSequences: seq<Explanation>, all: seq<Explanation>)
    requires pairPart == PairFindings(pin)
    requires withSequences == pairPart + SequenceFindings(pin)
    requires all == withSequences + KeypadFindings(pin)
    ensures all == CommonFindings(pin)
  {
  }

  function ArithmeticFindings(pin: string): seq<Explanation>
    requires AllDigits(pin)
  {
    match ArithmeticDifference(pin)
    case None => []
    case Some(d) => [ArithmeticProgression(d)]
  }

  function GeometricFindings(pin: string): seq<Explanation>
    requires AllDigits(pin)
  {
    match GeometricRatio(pin)
    case None => []
    case Some(q) => [GeometricProgression(q)]
  }

  function RepetitionFindings(pin: string): seq<Explanation> {
    match RepeatedDigit(pin)
    case None => []
    case Some(c) => [AllDigitsSame(c)]
  }

  function OrderFindings(pin: string): seq<Explanation>
    requires AllDigits(pin)
  {
    (if IsAscending(pin) then [AscendingOrder] else [])
    + (if IsDescending(pin) then [DescendingOrder] else [])
  }

  /** The arithmetic, geometric, repetition and order detectors, in the order they run. */
  function ProgressionFindings(pin: string): seq<Explanation>
    requires AllDigits(pin)
  {
    ArithmeticFindings(pin) + GeometricFindings(pin) + RepetitionFindings(pin) + OrderFindings(pin)
  }

  /** The `COMMON_PATTERN` explanations `validate_mpin` collects, in order. */
  function StructuralFindings(pin: string): seq<Explanation>
    requires AllDigits(pin)
  {
    CommonFindings(pin) + ProgressionFindings(pin)
  }

  /**
   * The progression findings appended detector by detector: each snapshot
   * extends the previous one by that detector's findings.
   */
  lemma ProgressionsFromSteps(pin: string, r: seq<Explanation>, ra: seq<Explanation>, rag: seq<Explanation>,
                              ragr: seq<Explanation>, ragra: seq<Explanation>, all: seq<Explanation>)
    requires AllDigits(pin)
    requires ra == r + ArithmeticFindings(pin)
    requires rag == ra + GeometricFindings(pin)
    requires ragr == rag + RepetitionFindings(pin)
    requires ragra == ragr + (if IsAscending(pin) then [AscendingOrder] else [])
    requires all == ragra + (if IsDescending(pin) then [DescendingOrder] else [])
    ensures all == r + ProgressionFindings(pin)
  {
    var asc: seq<Explanation> := if IsAscending(pin) then [AscendingOrder] else [];
    var desc: seq<Explanation> := if IsDescending(pin) then [DescendingOrder] else [];
    Regroup(r, ArithmeticFindings(pin), GeometricFindings(pin), RepetitionFindings(pin), asc, desc);
  }

  lemma Regroup<T>(r: seq<T>, a: seq<T>, g: seq<T>, p: seq<T>, asc: seq<T>, desc: seq<T>)
    ensures r + a + g + p + asc + desc == r + (a + g + p + (asc + desc))
  {
  }

}

/** What the structural detectors promise. */
module StructuralProperties {
  import opened Wrappers
  import opened Text
  import opened Findings
  import opened Keypad
  import opened Structural

  lemma {:induction false} ArithmeticTerm(ds: seq<int>, d: int, i: nat)
    requires forall k :: 1 <= k < |ds| ==> ds[k] - ds[k - 1] == d
    requires i < |ds|
    ensures ds[i] == ds[0] + i * d
  {
    if i > 0 {
      ArithmeticTerm(ds, d, i - 1);
      assert (i - 1) * d + d == i * d;
    }
  }

  /** An arithmetic progression with difference `d` is the PIN whose i-th digit is the first plus i times `d`. */
  lemma ArithmeticClosedForm(pin: string, d: int)
    requires AllDigits(pin)
    ensures ArithmeticDifference(pin) == Some(d) <==>
      |pin| >= 2 && forall i :: 0 <= i < |pin| ==> Values(pin)[i] == Values(pin)[0] + i * d
  {
    var ds := Values(pin);
    if ArithmeticDifference(pin) == Some(d) {
      forall i | 0 <= i < |pin| ensures ds[i] == ds[0] + i * d {
        ArithmeticTerm(ds, d, i);
      }
    }
    if |pin| >= 2 && forall i :: 0 <= i < |pin| ==> ds[i] == ds[0] + i * d {
      assert ds[1] - ds[0] == d;
      forall i | 1 <= i < |ds| ensures ds[i] - ds[i - 1] == d {
        assert i * d - (i - 1) * d == d;
      }
    }
  }

  lemma RatioEquality(a: int, b: int, c: int, d: int)
    requires b != 0 && d != 0
    ensures (a as real / b as real == c as real / d as real) <==> a * d == c * b
  {
    var x := a as real / b as real;
    var y := c as real / d as real;
    assert x * b as real == a as real;
    assert y * d as real == c as real;
    if x == y {
      assert (a * d) as real == x * (b as real) * (d as real) == (c * b) as real;
    }
    if a * d == c * b {
      assert x * (b as real) * (d as real) == y * (d as real) * (b as real);
    }
  }

  /**
   * The geometric check fires exactly when no digit is 0 and every digit times
   * the first equals the one before times the second; the ratio it reports is
   * the second digit over the first.
   */
  lemma GeometricCrossMultiplication(pin: string)
    requires AllDigits(pin)
    ensures GeometricRatio(pin).Some? <==>
      && |pin| >= 2
      && (forall i :: 0 <= i < |pin| ==> pin[i] != '0')
      && (forall i :: 1 <= i < |pin| ==> Values(pin)[i] * Values(pin)[0] == Values(pin)[i - 1] * Values(pin)[1])
    ensures GeometricRatio(pin).Some? ==> GeometricRatio(pin).value == Values(pin)[1] as real / Values(pin)[0] as real
  {
    var ds := Values(pin);
    var noZero := forall i :: 0 <= i < |pin| ==> pin[i] != '0';
    assert noZero <==> 0 !in ds by {
      if 0 in ds {
        var i :| 0 <= i < |ds| && ds[i] == 0;
        assert pin[i] == '0';
      }
      if !noZero {
        var i :| 0 <= i < |pin| && pin[i] == '0';
        assert ds[i] == 0;
      }
    }
    if |ds| >= 2 && 0 !in ds {
      assert ds[0] != 0;
      forall i | 1 <= i < |ds|
        ensures (ds[i] as real / ds[i - 1] as real == ds[1] as real / ds[0] as real) <==> ds[i] * ds[0] == ds[i - 1] * ds[1]
      {
        assert ds[i - 1] != 0;
        RatioEquality(ds[i], ds[i - 1], ds[1], ds[0]);
      }
    }
  }

  /** The geometric check never fires on a PIN holding a 0. */
  lemma GeometricExcludesZero(pin: string)
    requires AllDigits(pin) && '0' in pin
    ensures GeometricRatio(pin) == None
  {
    var i :| 0 <= i < |pin| && pin[i] == '0';
    assert Values(pin)[i] == 0;
  }

  /** A sequence holds exactly one distinct value iff it is non-empty and constant. */
  lemma SingletonSet<T>(s: seq<T>)
    ensures |set x | x in s| == 1 <==> |s| > 0 && forall i :: 0 <= i < |s| ==> s[i] == s[0]
  {
    var xs := set x | x in s;
    if |s| > 0 && forall i :: 0 <= i < |s| ==> s[i] == s[0] {
      assert xs == {s[0]};
    }
    if |xs| == 1 {
      assert s[0] in xs;
      assert |xs - {s[0]}| == 0;
      assert xs == {s[0]};
      forall i | 0 <= i < |s| ensures s[i] == s[0] {
        assert s[i] in xs;
      }
    }
  }

  /** `is_repetitive` fires exactly on a non-empty PIN of one repeated character, and names it. */
  lemma RepeatedDigitIff(pin: string)
    ensures RepeatedDigit(pin).Some? <==> |pin| > 0 && forall i :: 0 <= i < |pin| ==> pin[i] == pin[0]
    ensures RepeatedDigit(pin).Some? ==> RepeatedDigit(pin).value == pin[0]
  {
    SingletonSet(pin);
  }

  lemma {:induction false} AscendingBetween(pin: string, i: nat, j: nat)
    requires AllDigits(pin) && IsAscending(pin) && i <= j < |pin|
    ensures DigitValue(pin[i]) <= DigitValue(pin[j])
    decreases j - i
  {
    if i < j {
      AscendingBetween(pin, i + 1, j);
    }
  }

  lemma {:induction false} DescendingBetween(pin: string, i: nat, j: nat)
    requires AllDigits(pin) && IsDescending(pin) && i <= j < |pin|
    ensures DigitValue(pin[i]) >= DigitValue(pin[j])
    decreases j - i
  {
    if i < j {
      DescendingBetween(pin, i + 1, j);
    }
  }

  /** The consecutive-pairs check of `is_ascending` is the same as sortedness of the whole PIN. */
  lemma AscendingIsSorted(pin: string)
    requires AllDigits(pin)
    ensures IsAscending(pin) <==> forall i, j :: 0 <= i <= j < |pin| ==> DigitValue(pin[i]) <= DigitValue(pin[j])
  {
    if IsAscending(pin) {
      forall i, j | 0 <= i <= j < |pin| ensures DigitValue(pin[i]) <= DigitValue(pin[j]) {
        AscendingBetween(pin, i, j);
      }
    }
  }

  /** The consecutive-pairs check of `is_descending` is the same as reverse sortedness of the whole PIN. */
  lemma DescendingIsSorted(pin: string)
    requires AllDigits(pin)
    ensures IsDescending(pin) <==> forall i, j :: 0 <= i <= j < |pin| ==> DigitValue(pin[i]) >= DigitValue(pin[j])
  {
    if IsDescending(pin) {
      forall i, j | 0 <= i <= j < |pin| ensures DigitValue(pin[i]) >= DigitValue(pin[j]) {
        DescendingBetween(pin, i, j);
      }
    }
  }

  /** Both orderings hold exactly when every digit is the same. */
  lemma AscendingAndDescendingIffConstant(pin: string)
    requires AllDigits(pin)
    ensures IsAscending(pin) && IsDescending(pin) <==> forall i :: 0 <= i < |pin| ==> pin[i] == pin[0]
  {
    if IsAscending(pin) && IsDescending(pin) {
      forall i | 0 <= i < |pin| ensures pin[i] == pin[0] {
        AscendingBetween(pin, 0, i);
        DescendingBetween(pin, 0, i);
      }
    }
  }

  /** `s` repeats with period `i` from its start. */
  ghost predicate HasPeriod(s: string, i: nat) {
    forall k :: i <= k < |s| ==> s[k] == s[k - i]
  }

  lemma {:induction false} PeriodicMatchesRepeat(pin: string, i: nat, q: nat, k: nat)
    requires 1 <= i <= |pin| && HasPeriod(pin, i) && |Repeat(pin[..i], q)| == |pin| && k < |pin|
    ensures Repeat(pin[..i], q)[k] == pin[k]
    decreases k
  {
    if k < i {
      RepeatPrefix(pin[..i], q, k);
    } else {
      RepeatShift(pin[..i], q, k);
      PeriodicMatchesRepeat(pin, i, q, k - i);
    }
  }

  /** `mpin[:i] * (len(mpin)//i) == mpin` iff `i` divides the length and the PIN has period `i`. */
  lemma RepeatIffPeriod(pin: string, i: nat)
    requires 1 <= i <= |pin|
    ensures Repeat(pin[..i], |pin| / i) == pin <==> |pin| % i == 0 && HasPeriod(pin, i)
  {
    var n, q := |pin|, |pin| / i;
    var r := Repeat(pin[..i], q);
    assert |r| == i * q;
    assert n == i * q + n % i;
    if r == pin {
      forall k | i <= k < n ensures pin[k] == pin[k - i] {
        RepeatShift(pin[..i], q, k);
      }
    }
    if n % i == 0 && HasPeriod(pin, i) {
      forall k | 0 <= k < n ensures r[k] == pin[k] {
        PeriodicMatchesRepeat(pin, i, q, k);
      }
    }
  }

  lemma {:induction false} SequenceFindingsUpToMembers(pin: string, m: nat, b: string)
    requires m <= |pin|
    ensures RepeatedSequence(b) in SequenceFindingsUpTo(pin, m) <==>
      1 <= |b| <= m && b == pin[..|b|] && Repeat(b, |pin| / |b|) == pin
  {
    if m > 0 {
      SequenceFindingsUpToMembers(pin, m - 1, b);
    }
  }

  /**
   * Block `b` is reported as a repeated sequence iff it is a prefix of at most
   * half the (4-or-longer) PIN whose length it divides, and the PIN repeats it.
   * Every such block is reported, not only the shortest.
   */
  lemma RepeatedSequenceReported(pin: string, b: string)
    ensures RepeatedSequence(b) in SequenceFindings(pin) <==>
      |pin| >= 4 && 1 <= |b| <= |pin| / 2 && b == pin[..|b|] && |pin| % |b| == 0 && HasPeriod(pin, |b|)
  {
    if |pin| >= 4 {
      SequenceFindingsUpToMembers(pin, |pin| / 2, b);
      if 1 <= |b| <= |pin| / 2 {
        RepeatIffPeriod(pin, |b|);
      }
    }
  }

  /** On an even-length PIN the repeated-pair check is the same as period 2. */
  lemma RepeatedPairIsPeriodTwo(pin: string)
    requires |pin| % 2 == 0
    ensures RepeatedPair(pin).Some? <==> |pin| >= 4 && HasPeriod(pin, 2)
    ensures RepeatedPair(pin).Some? ==> RepeatedPair(pin).value == pin[..2]
  {
    if |pin| >= 4 {
      var ps := Pairs(pin);
      SingletonSet(ps);
      if RepeatedPair(pin).Some? {
        forall k | 2 <= k < |pin| ensures pin[k] == pin[k - 2] {
          var q, r := k / 2, k % 2;
          assert k == 2 * q + r && q < |ps|;
          assert pin[k] == ps[q][r] == ps[0][r] == ps[q - 1][r] == pin[k - 2];
        }
      }
      if HasPeriod(pin, 2) {
        PairsConstant(pin, ps);
      }
    }
  }

  lemma PairsConstant(pin: string, ps: seq<string>)
    requires ps == Pairs(pin) && HasPeriod(pin, 2) && |pin| >= 2
    ensures forall k :: 0 <= k < |ps| ==> ps[k] == ps[0]
  {
    forall k | 0 <= k < |ps| ensures ps[k] == ps[0] {
      PairAt(pin, ps, k);
    }
  }

  lemma {:induction false} PairAt(pin: string, ps: seq<string>, k: nat)
    requires ps == Pairs(pin) && HasPeriod(pin, 2) && k < |ps|
    ensures ps[k] == ps[0]
  {
    if k > 0 {
      PairAt(pin, ps, k - 1);
      assert ps[k][0] == pin[2 * k] == pin[2 * k - 2] == ps[k - 1][0];
      assert ps[k][1] == pin[2 * k + 1] == pin[2 * k - 1] == ps[k - 1][1];
    }
  }

  /** On an even-length PIN a repeated pair is also reported as the repeated sequence of its first two digits. */
  lemma RepeatedPairIsBlockOfTwo(pin: string)
    requires |pin| % 2 == 0 && |pin| >= 2
    ensures RepeatedPair(pin).Some? <==> RepeatedSequence(pin[..2]) in SequenceFindings(pin)
  {
    RepeatedPairIsPeriodTwo(pin);
    RepeatedSequenceReported(pin, pin[..2]);
  }

  /** A line is found forwards or backwards in the PIN. */
  predicate LineFound(pin: string, p: string) {
    Contains(pin, p) || Contains(pin, Reverse(p))
  }

  /** A line is found doubled, forwards or backwards, in the PIN. */
  predicate DoubledLineFound(pin: string, p: string) {
    Contains(pin, Repeat(p, 2)) || Contains(pin, Repeat(Reverse(p), 2))
  }

  lemma LineHitsMembers(line: Line, p: string, pin: string, e: Explanation)
    ensures e in LineHits(line, p, pin) <==>
      || (e == KeypadLine(line, p, false) && LineFound(pin, p))
      || (e == KeypadLine(line, p, true) && DoubledLineFound(pin, p))
  {
  }

  /** The findings of a table are those of all but its last line, then that line's hits. */
  lemma LineFindingsLast(family: Line, ps: seq<string>, pin: string, e: Explanation)
    requires ps != []
    ensures e in LineFindings(family, ps, pin) <==>
      e in LineFindings(family, ps[..|ps| - 1], pin) || e in LineHits(family, ps[|ps| - 1], pin)
  {
  }

  lemma InLast<T>(xs: seq<T>, x: T)
    requires xs != []
    ensures x in xs <==> x in xs[..|xs| - 1] || x == xs[|xs| - 1]
  {
    assert xs == xs[..|xs| - 1] + [xs[|xs| - 1]];
  }

  /** A table reports a line exactly when the line is in the table and found, plain or doubled as asked. */
  lemma {:induction false} FamilyReported(family: Line, ps: seq<string>, pin: string, line: Line, p: string, repeated: bool)
    ensures KeypadLine(line, p, repeated) in LineFindings(family, ps, pin) <==>
      line == family && p in ps && (if repeated then DoubledLineFound(pin, p) else LineFound(pin, p))
  {
    if ps != [] {
      var e := KeypadLine(line, p, repeated);
      var n := |ps| - 1;
      FamilyReported(family, ps[..n], pin, line, p, repeated);
      LineHitsMembers(family, ps[n], pin, e);
      LineFindingsLast(family, ps, pin, e);
      InLast(ps, p);
    }
  }

  /**
   * `is_keypad_pattern` reports a line of a family exactly when it occurs in
   * the PIN forwards or backwards, and reports it again, as repeated, exactly
   * when it occurs doubled.
   */
  lemma KeypadLineReported(pin: string, line: Line, p: string, repeated: bool)
    ensures KeypadLine(line, p, repeated) in KeypadFindings(pin) <==>
      p in LinesOf(line) && (if repeated then DoubledLineFound(pin, p) else LineFound(pin, p))
  {
    FamilyReported(Horizontal, HorizontalLines, pin, line, p, repeated);
    FamilyReported(Vertical, VerticalLines, pin, line, p, repeated);
    FamilyReported(Diagonal, DiagonalLines, pin, line, p, repeated);
  }

  /** A keypad line is reported, plain or doubled, only if every one of its digits occurs in the PIN. */
  lemma LineHitsNeedEveryDigit(line: Line, p: string, pin: string, k: nat)
    requires k < |p| && p[k] !in pin
    ensures LineHits(line, p, pin) == []
  {
    var j := |p| - 1 - k;
    ReverseAt(p, j);
    if Contains(pin, p) { ContainsKeepsChars(pin, p, k); }
    if Contains(pin, Reverse(p)) { ContainsKeepsChars(pin, Reverse(p), j); }
    if Contains(pin, Repeat(p, 2)) {
      RepeatPrefix(p, 2, k);
      ContainsKeepsChars(pin, Repeat(p, 2), k);
    }
    if Contains(pin, Repeat(Reverse(p), 2)) {
      RepeatPrefix(Reverse(p), 2, j);
      ContainsKeepsChars(pin, Repeat(Reverse(p), 2), j);
    }
  }

  /** A repeated line needs six characters, so only a 6-digit PIN can carry one. */
  lemma RepeatedLineNeedsSixDigits(pin: string, line: Line, p: string)
    requires KeypadLine(line, p, true) in KeypadFindings(pin)
    ensures |pin| >= 6
    ensures KeypadLine(line, p, false) in KeypadFindings(pin)
  {
    KeypadLineReported(pin, line, p, true);
    KeypadLineReported(pin, line, p, false);
    assert |p| == 3;
    if Contains(pin, Repeat(p, 2)) {
      ContainsNotLonger(pin, Repeat(p, 2));
      ContainsPrefix(pin, p, Repeat(p, 1));
    } else {
      ContainsNotLonger(pin, Repeat(Reverse(p), 2));
      ContainsPrefix(pin, Reverse(p), Repeat(Reverse(p), 1));
    }
  }

  lemma {:induction false} NoCornerOnLines(family: Line, ps: seq<string>, pin: string, used: set<char>)
    ensures KeypadCorners(used) !in LineFindings(family, ps, pin)
  {
    if ps != [] {
      var n := |ps| - 1;
      NoCornerOnLines(family, ps[..n], pin, used);
      LineHitsMembers(family, ps[n], pin, KeypadCorners(used));
    }
  }

  /**
   * The corner finding is made exactly when every digit is a corner key and
   * two to four distinct corners are used; it names the corners used.
   */
  lemma CornerReported(pin: string, used: set<char>)
    ensures KeypadCorners(used) in KeypadFindings(pin) <==>
      && used == (set c | c in pin)
      && (forall i :: 0 <= i < |pin| ==> pin[i] in CornerDigits)
      && 2 <= |used| <= 4
  {
    var e := KeypadCorners(used);
    NoCornerOnLines(Horizontal, HorizontalLines, pin, used);
    NoCornerOnLines(Vertical, VerticalLines, pin, used);
    NoCornerOnLines(Diagonal, DiagonalLines, pin, used);
  }

  /**
   * A PIN of one repeated digit fires every order and progression check:
   * difference 0, ratio 1 unless the digit is 0, repetitive, ascending and
   * descending.
   */
  lemma ConstantPinFiresOrderChecks(pin: string)
    requires AllDigits(pin) && |pin| >= 2 && forall i :: 0 <= i < |pin| ==> pin[i] == pin[0]
    ensures ArithmeticDifference(pin) == Some(0)
    ensures pin[0] != '0' ==> GeometricRatio(pin) == Some(1.0)
    ensures RepeatedDigit(pin) == Some(pin[0])
    ensures IsAscending(pin) && IsDescending(pin)
  {
    RepeatedDigitIff(pin);
    ConstantPinSteps(pin);
  }

  /** The progression checks of a PIN of one repeated digit: every step is 0, every ratio 1. */
  lemma ConstantPinSteps(pin: string)
    requires AllDigits(pin) && |pin| >= 2 && forall i :: 0 <= i < |pin| ==> pin[i] == pin[0]
    ensures ArithmeticDifference(pin) == Some(0)
    ensures pin[0] != '0' ==> GeometricRatio(pin) == Some(1.0)
  {
    var ds := Values(pin);
    assert forall i :: 0 <= i < |ds| ==> ds[i] == ds[0];
    if pin[0] != '0' {
      assert 0 !in ds;
      assert ds[1] as real / ds[0] as real == 1.0;
    }
  }

  /**
   * A PIN of one repeated digit also fires the repeated pair and a repeated
   * sequence for every block length up to half the PIN that divides its length.
   */
  lemma ConstantPinFiresRepeats(pin: string)
    requires |pin| >= 4 && forall i :: 0 <= i < |pin| ==> pin[i] == pin[0]
    ensures RepeatedPair(pin) == Some(pin[..2])
    ensures forall i :: 1 <= i <= |pin| / 2 && |pin| % i == 0 ==> RepeatedSequence(pin[..i]) in SequenceFindings(pin)
  {
    var ps := Pairs(pin);
    SingletonSet(ps);
    assert forall k :: 0 <= k < |ps| ==> ps[k] == ps[0];
    forall i | 1 <= i <= |pin| / 2 && |pin| % i == 0 ensures RepeatedSequence(pin[..i]) in SequenceFindings(pin) {
      assert HasPeriod(pin, i);
      RepeatedSequenceReported(pin, pin[..i]);
    }
  }
}
