/**
 * `is_subsequence`: does a pattern occur in the PIN in order, not necessarily
 * contiguously? The source scans the PIN once, advancing through the pattern
 * on every match; `Greedy` is that scan written as a recursion.
 */
module Subsequence {

  function Greedy(p: string, s: string): bool
    decreases |s|
  {
    if p == [] then true
    else if s == [] then false
    else if s[0] == p[0] then Greedy(p[1..], s[1..])
    else Greedy(p, s[1..])
  }

  /** `is_subsequence(p, s)`: patterns shorter than two characters never match. */
  predicate IsSubsequence(p: string, s: string) {
    |p| > 1 && Greedy(p, s)
  }

  /** `idx` places the characters of `p` at strictly increasing positions of `s`. */
  ghost predicate Embedding(p: string, s: string, idx: seq<int>) {
    && |idx| == |p|
    && (forall k :: 0 <= k < |idx| ==> 0 <= idx[k] < |s| && s[idx[k]] == p[k])
    && (forall j, k :: 0 <= j < k < |idx| ==> idx[j] < idx[k])
  }

  function Shift(idx: seq<int>, delta: int): (r: seq<int>)
    ensures |r| == |idx| && forall k :: 0 <= k < |idx| ==> r[k] == idx[k] + delta
  {
    seq(|idx|, k requires 0 <= k < |idx| => idx[k] + delta)
  }

  /** A match of the first characters extends an embedding of the rest. */
  lemma EmbedAfterMatch(p: string, s: string, idx: seq<int>)
    requires p != [] && s != [] && s[0] == p[0] && Embedding(p[1..], s[1..], idx)
    ensures Embedding(p, s, [0] + Shift(idx, 1))
  {
    var e := [0] + Shift(idx, 1);
    assert forall k :: 1 <= k < |e| ==> e[k] == idx[k - 1] + 1;
    forall k | 0 <= k < |e| ensures 0 <= e[k] < |s| && s[e[k]] == p[k] {
      if k > 0 {
        assert s[e[k]] == s[1..][idx[k - 1]] && p[k] == p[1..][k - 1];
      }
    }
    forall j, k | 0 <= j < k < |e| ensures e[j] < e[k] {
      if j > 0 {
        assert idx[j - 1] < idx[k - 1];
      }
    }
  }

  /** An embedding into the tail of `s` is one into `s`. */
  lemma EmbedAfterSkip(p: string, s: string, idx: seq<int>)
    requires s != [] && Embedding(p, s[1..], idx)
    ensures Embedding(p, s, Shift(idx, 1))
  {
    var e := Shift(idx, 1);
    forall k | 0 <= k < |e| ensures 0 <= e[k] < |s| && s[e[k]] == p[k] {
      assert s[e[k]] == s[1..][idx[k]];
    }
  }

  /** Whatever the scan accepts is a subsequence. */
  lemma {:induction false} GreedySound(p: string, s: string)
    requires Greedy(p, s)
    ensures exists idx :: Embedding(p, s, idx)
    decreases |s|
  {
    if p == [] {
      assert Embedding(p, s, []);
    } else if s[0] == p[0] {
      GreedySound(p[1..], s[1..]);
      var idx :| Embedding(p[1..], s[1..], idx);
      EmbedAfterMatch(p, s, idx);
    } else {
      GreedySound(p, s[1..]);
      var idx :| Embedding(p, s[1..], idx);
      EmbedAfterSkip(p, s, idx);
    }
  }

  /** The scan misses no subsequence: taking the first match is never wrong. */
  lemma {:induction false} GreedyComplete(p: string, s: string, idx: seq<int>)
    requires Embedding(p, s, idx)
    ensures Greedy(p, s)
    decreases |s|
  {
    if p != [] {
      assert 0 <= idx[0] < |s|;
      if s[0] == p[0] {
        var idx' := Shift(idx[1..], -1);
        forall k | 0 <= k < |idx'| ensures 0 <= idx'[k] < |s[1..]| && s[1..][idx'[k]] == p[1..][k] {
          assert idx[0] < idx[k + 1];
        }
        assert Embedding(p[1..], s[1..], idx');
        GreedyComplete(p[1..], s[1..], idx');
      } else {
        assert idx[0] != 0;
        var idx' := Shift(idx, -1);
        forall k | 0 <= k < |idx'| ensures 0 <= idx'[k] < |s[1..]| && s[1..][idx'[k]] == p[k] {
          if k > 0 {
            assert idx[0] < idx[k];
          }
        }
        assert Embedding(p, s[1..], idx');
        GreedyComplete(p, s[1..], idx');
      }
    }
  }

  /** `is_subsequence` holds exactly of patterns of two or more characters that occur in order. */
  lemma IsSubsequenceIff(p: string, s: string)
    ensures IsSubsequence(p, s) <==> |p| > 1 && exists idx :: Embedding(p, s, idx)
  {
    if Greedy(p, s) {
      GreedySound(p, s);
    }
    if idx :| Embedding(p, s, idx) {
      GreedyComplete(p, s, idx);
    }
  }

  /** A subsequence is never longer than the string it occurs in. */
  lemma {:induction false} GreedyNotLonger(p: string, s: string)
    requires Greedy(p, s)
    ensures |p| <= |s|
    decreases |s|
  {
    if p != [] {
      if s[0] == p[0] {
        GreedyNotLonger(p[1..], s[1..]);
      } else {
        GreedyNotLonger(p, s[1..]);
      }
    }
  }

  /** A subsequence as long as the string is the string itself. */
  lemma {:induction false} GreedySameLength(p: string, s: string)
    requires |p| == |s| && Greedy(p, s)
    ensures p == s
    decreases |s|
  {
    if p != [] {
      if s[0] == p[0] {
        GreedySameLength(p[1..], s[1..]);
        assert p == [p[0]] + p[1..] && s == [s[0]] + s[1..];
      } else {
        GreedyNotLonger(p, s[1..]);
      }
    }
  }

  /** Every character of a pattern found by the scan occurs in the scanned string. */
  lemma {:induction false} GreedyKeepsChars(p: string, s: string, k: nat)
    requires Greedy(p, s) && k < |p|
    ensures p[k] in s
    decreases |s|
  {
    if s[0] == p[0] {
      if k > 0 {
        GreedyKeepsChars(p[1..], s[1..], k - 1);
      }
    } else {
      GreedyKeepsChars(p, s[1..], k);
    }
  }
}
