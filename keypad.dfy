/**
 * The 12-key phone pad: its grid, the position of every key, the 8-direction
 * neighbourhood of a key, and the line and corner pattern tables.
 */
module Keypad {
  import opened Wrappers
  import opened Text
  import opened Findings

  /** The grid, top row first. */
  const Rows: seq<seq<char>> := [['1', '2', '3'], ['4', '5', '6'], ['7', '8', '9'], ['*', '0', '#']]

  /** The eight offsets to the surrounding cells, in the order they are tried. */
  const Directions: seq<(int, int)> :=
    [(-1, -1), (-1, 0), (-1, 1), (0, -1), (0, 1), (1, -1), (1, 0), (1, 1)]

  /** Row and column of each key; the table the validator's constructor builds. */
  function Locate(c: char): Option<(nat, nat)> {
    match c
    case '1' => Some((0, 0)) case '2' => Some((0, 1)) case '3' => Some((0, 2))
    case '4' => Some((1, 0)) case '5' => Some((1, 1)) case '6' => Some((1, 2))
    case '7' => Some((2, 0)) case '8' => Some((2, 1)) case '9' => Some((2, 2))
    case '*' => Some((3, 0)) case '0' => Some((3, 1)) case '#' => Some((3, 2))
    case _ => None
  }

  /** Every cell of the grid is found where it is. */
  lemma LocateCell(i: nat, j: nat)
    requires i < |Rows| && j < |Rows[i]|
    ensures Locate(Rows[i][j]) == Some((i, j))
  {
  }

  /** Every located key is the symbol in its cell. */
  lemma LocateSound(c: char)
    requires Locate(c).Some?
    ensures Locate(c).value.0 < |Rows| && Locate(c).value.1 < |Rows[Locate(c).value.0]|
    ensures Rows[Locate(c).value.0][Locate(c).value.1] == c
  {
  }

  /** The digit in cell (i, j), or nothing when the cell is off the grid or a `*`/`#` key. */
  function Cell(i: int, j: int): (r: seq<char>)
    ensures |r| <= 1 && forall k :: 0 <= k < |r| ==> IsDigit(r[k])
  {
    if 0 <= i < |Rows| && 0 <= j < |Rows[0]| && IsDigit(Rows[i][j]) then [Rows[i][j]] else []
  }

  function Step(i: int, j: int, d: (int, int)): seq<char> {
    Cell(i + d.0, j + d.1)
  }

  function NeighborsAlong(i: int, j: int, ds: seq<(int, int)>): seq<char> {
    if ds == [] then [] else NeighborsAlong(i, j, ds[..|ds| - 1]) + Step(i, j, ds[|ds| - 1])
  }

  /** One more direction adds its step's key, if any, at the end. */
  lemma NeighborsAlongSnoc(i: int, j: int, ds: seq<(int, int)>, k: nat)
    requires k < |ds|
    ensures NeighborsAlong(i, j, ds[..k + 1]) == NeighborsAlong(i, j, ds[..k]) + Step(i, j, ds[k])
  {
    assert ds[..k + 1][..k] == ds[..k];
  }

  /** `get_keypad_neighbors`: the digit keys around a key, direction by direction. */
  function Neighbors(c: char): seq<char> {
    match Locate(c)
    case None => []
    case Some(p) => NeighborsAlong(p.0, p.1, Directions)
  }

  /** The neighbours of a located key are those along every direction from its cell. */
  lemma NeighborsOfLocated(c: char, i: int, j: int)
    requires Locate(c) == Some((i, j))
    ensures Neighbors(c) == NeighborsAlong(i, j, Directions)
  {
  }

  /** A key off the grid has no neighbours. */
  lemma NeighborsOfUnlocated(c: char)
    requires Locate(c).None?
    ensures Neighbors(c) == []
  {
  }

  /** Two distinct cells that touch, sides or corners. */
  predicate Adjacent(p: (nat, nat), q: (nat, nat)) {
    p != q && -1 <= p.0 - q.0 <= 1 && -1 <= p.1 - q.1 <= 1
  }

  lemma {:induction false} NeighborsAlongMembers(i: int, j: int, ds: seq<(int, int)>, b: char)
    ensures b in NeighborsAlong(i, j, ds) <==> exists k :: 0 <= k < |ds| && Step(i, j, ds[k]) == [b]
  {
    if ds != [] {
      var n := |ds| - 1;
      var prefix, last := ds[..n], Step(i, j, ds[n]);
      NeighborsAlongMembers(i, j, prefix, b);
      assert NeighborsAlong(i, j, ds) == NeighborsAlong(i, j, prefix) + last;
      if b in NeighborsAlong(i, j, prefix) {
        var k :| 0 <= k < n && Step(i, j, prefix[k]) == [b];
        assert prefix[k] == ds[k];
      } else if b in last {
        assert last == [b];
      }
      if k :| 0 <= k < |ds| && Step(i, j, ds[k]) == [b] {
        if k < n {
          assert prefix[k] == ds[k];
        }
      }
    }
  }

  /** The direction table holds each non-zero offset of at most one step, at a known index. */
  function DirectionIndex(di: int, dj: int): (k: nat)
    requires -1 <= di <= 1 && -1 <= dj <= 1 && (di, dj) != (0, 0)
    ensures k < |Directions| && Directions[k] == (di, dj)
  {
    var k := (di + 1) * 3 + (dj + 1);
    if k < 4 then k else k - 1
  }

  /** Every entry of the direction table is a non-zero offset of at most one step. */
  lemma DirectionsAreSteps(k: nat)
    requires k < |Directions|
    ensures Directions[k] != (0, 0) && -1 <= Directions[k].0 <= 1 && -1 <= Directions[k].1 <= 1
  {
  }

  lemma StepIsAdjacentDigit(i: nat, j: nat, k: nat, b: char)
    requires k < |Directions| && Step(i, j, Directions[k]) == [b]
    ensures IsDigit(b) && Locate(b).Some? && Adjacent((i, j), Locate(b).value)
  {
    var (ni, nj) := (i + Directions[k].0, j + Directions[k].1);
    assert 0 <= ni < |Rows| && 0 <= nj < |Rows[0]| && Rows[ni][nj] == b;
    LocateCell(ni, nj);
    DirectionsAreSteps(k);
  }

  lemma AdjacentDigitIsStep(i: nat, j: nat, b: char)
    requires IsDigit(b) && Locate(b).Some? && Adjacent((i, j), Locate(b).value)
    ensures b in NeighborsAlong(i, j, Directions)
  {
    var (bi, bj) := Locate(b).value;
    LocateSound(b);
    var k := DirectionIndex(bi - i, bj - j);
    assert Step(i, j, Directions[k]) == [b];
    NeighborsAlongMembers(i, j, Directions, b);
  }

  /**
   * A key's neighbours are exactly the digit keys in the cells touching its
   * own: the neighbour relation is grid adjacency restricted to digits.
   */
  lemma NeighborsAreAdjacentDigits(a: char, b: char)
    ensures b in Neighbors(a) <==>
      IsDigit(b) && Locate(a).Some? && Locate(b).Some? && Adjacent(Locate(a).value, Locate(b).value)
  {
    if Locate(a).Some? {
      var p := Locate(a).value;
      assert Neighbors(a) == NeighborsAlong(p.0, p.1, Directions);
      if b in Neighbors(a) {
        NeighborsAlongMembers(p.0, p.1, Directions, b);
        var k :| 0 <= k < |Directions| && Step(p.0, p.1, Directions[k]) == [b];
        StepIsAdjacentDigit(p.0, p.1, k, b);
      }
      if IsDigit(b) && Locate(b).Some? && Adjacent(p, Locate(b).value) {
        AdjacentDigitIsStep(p.0, p.1, b);
      }
    }
  }

  /** Between digit keys the neighbour relation is symmetric. */
  lemma NeighborsSymmetric(a: char, b: char)
    requires IsDigit(a) && IsDigit(b)
    ensures b in Neighbors(a) <==> a in Neighbors(b)
  {
    NeighborsAreAdjacentDigits(a, b);
    NeighborsAreAdjacentDigits(b, a);
  }

  /** Every neighbour is a digit key. */
  lemma NeighborsAreDigits(c: char)
    ensures forall k :: 0 <= k < |Neighbors(c)| ==> IsDigit(Neighbors(c)[k])
  {
    forall k | 0 <= k < |Neighbors(c)| ensures IsDigit(Neighbors(c)[k]) {
      NeighborsAreAdjacentDigits(c, Neighbors(c)[k]);
    }
  }

  /** The `0` key sits between `*` and `#`, below 7, 8 and 9. */
  lemma ZeroNeighbors()
    ensures Neighbors('0') == ['7', '8', '9']
  {
    NeighborsOfLocated('0', 3, 1);
    ZeroStepsAbove();
    forall k | 3 <= k < |Directions| ensures Step(3, 1, Directions[k]) == [] {
      ZeroStepsBeside(k);
    }
    NeighborsAlongEmptyTail(3, 1, Directions, 3);
  }

  /** Directions that reach no digit key add nothing. */
  lemma {:induction false} NeighborsAlongEmptyTail(i: int, j: int, ds: seq<(int, int)>, m: nat)
    requires m <= |ds| && forall k :: m <= k < |ds| ==> Step(i, j, ds[k]) == []
    ensures NeighborsAlong(i, j, ds) == NeighborsAlong(i, j, ds[..m])
    decreases |ds|
  {
    if m < |ds| {
      var n := |ds| - 1;
      var prefix := ds[..n];
      assert forall k :: m <= k < |prefix| ==> prefix[k] == ds[k];
      NeighborsAlongEmptyTail(i, j, prefix, m);
      assert prefix[..m] == ds[..m];
      assert Step(i, j, ds[n]) == [];
      assert NeighborsAlong(i, j, ds) == NeighborsAlong(i, j, prefix) + [];
    } else {
      assert ds[..m] == ds;
    }
  }

  /** Beside and below the `0` key lie only `*`, `#` and cells off the grid. */
  lemma ZeroStepsBeside(k: nat)
    requires 3 <= k < |Directions|
    ensures Step(3, 1, Directions[k]) == []
  {
    var (di, dj) := Directions[k];
    assert 0 <= di;
    if di == 0 {
      assert Rows[3][1 + dj] in {'*', '#'};
    }
  }

  /** Above the `0` key, in direction order, lie 7, 8 and 9. */
  lemma ZeroStepsAbove()
    ensures NeighborsAlong(3, 1, Directions[..3]) == ['7', '8', '9']
  {
    var ds := Directions[..3];
    assert ds == [(-1, -1), (-1, 0), (-1, 1)];
    NeighborsAlongSnoc(3, 1, ds, 0);
    NeighborsAlongSnoc(3, 1, ds, 1);
    NeighborsAlongSnoc(3, 1, ds, 2);
    assert ds[..0] == [] && ds[..3] == ds;
    assert Step(3, 1, ds[0]) == ['7'] && Step(3, 1, ds[1]) == ['8'] && Step(3, 1, ds[2]) == ['9'];
  }

  const HorizontalLines: seq<string> := ["123", "456", "789"]
  const VerticalLines: seq<string> := ["147", "258", "369"]
  const DiagonalLines: seq<string> := ["159", "357"]
  const CornerDigits: set<char> := {'1', '3', '7', '9'}

  function LinesOf(line: Line): seq<string> {
    match line
    case Horizontal => HorizontalLines
    case Vertical => VerticalLines
    case Diagonal => DiagonalLines
  }

  /** The pattern tables are the rows, columns, diagonals and corners of the digit block. */
  lemma LinesFollowTheGrid()
    ensures forall k :: 0 <= k < 3 ==> HorizontalLines[k] == Rows[k]
    ensures forall k :: 0 <= k < 3 ==> VerticalLines[k] == [Rows[0][k], Rows[1][k], Rows[2][k]]
    ensures DiagonalLines == [[Rows[0][0], Rows[1][1], Rows[2][2]], [Rows[0][2], Rows[1][1], Rows[2][0]]]
    ensures CornerDigits == {Rows[0][0], Rows[0][2], Rows[2][0], Rows[2][2]}
  {
  }
}
