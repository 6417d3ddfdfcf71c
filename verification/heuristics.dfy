/**
 * Heuristics.swift: the positional weight of every square and the direction
 * pre-pass of `isStable`.
 */
module Heuristics {
  import opened Wrappers
  import opened Geometry

  /** _weights: indexed first by file, then by rank. */
  const WeightTable: seq<seq<int>> := [
    [ 4, -3,  2,  2,  2,  2, -3,  4],
    [-3, -4, -1, -1, -1, -1, -4, -3],
    [ 2, -1,  1,  0,  0,  1, -1,  2],
    [ 2, -1,  0,  1,  1,  0, -1,  2],
    [ 2, -1,  0,  1,  1,  0, -1,  2],
    [ 2, -1,  1,  0,  0,  1, -1,  2],
    [-3, -4, -1, -1, -1, -1, -4, -3],
    [ 4, -3,  2,  2,  2,  2, -3,  4]
  ]

  /** The table is eight rows of eight entries. */
  lemma WeightTableShape()
    ensures |WeightTable| == 8
    ensures forall i :: 0 <= i < 8 ==> |WeightTable[i]| == 8
  {
  }

  /** The weight of square c: entry [c.x][c.y] of the table. */
  function Weight(c: Coordinate): int {
    WeightTableShape();
    WeightTable[c.x][c.y]
  }

  /**
   * The static `weights` dictionary, filled file by file and rank by rank:
   * it has an entry for every square, equal to that square's table entry.
   */
  method BuildWeights() returns (w: map<Coordinate, int>)
    ensures forall c: Coordinate :: c in w && w[c] == Weight(c)
  {
    w := map[];
    var x := 0;
    while x < 8
      invariant 0 <= x <= 8
      invariant forall c: Coordinate :: c in w <==> c.x < x
      invariant forall c :: c in w ==> w[c] == Weight(c)
    {
      w := FillFile(w, x);
      x := x + 1;
    }
  }

  /** The inner loop of the `weights` initialiser: the eight squares of file x. */
  method FillFile(w0: map<Coordinate, int>, x: Index) returns (w: map<Coordinate, int>)
    requires forall c :: c in w0 ==> w0[c] == Weight(c)
    ensures forall c :: c in w <==> c in w0 || c.x == x
    ensures forall c :: c in w ==> w[c] == Weight(c)
  {
    WeightTableShape();
    w := w0;
    var y := 0;
    while y < 8
      invariant 0 <= y <= 8
      invariant forall c :: c in w <==> c in w0 || (c.x == x && c.y < y)
      invariant forall c :: c in w ==> w[c] == Weight(c)
    {
      w := w[Coordinate(x, y) := WeightTable[x][y]];
      y := y + 1;
    }
  }

  /** A square's weight equals that of its mirror image across the main diagonal. */
  lemma WeightTranspose(c: Coordinate)
    ensures Weight(c) == Weight(Coordinate(c.y, c.x))
  {
  }

  /** ... and across the two centre lines. */
  lemma WeightReflections(c: Coordinate)
    ensures Weight(c) == Weight(Coordinate(7 - c.x, c.y))
    ensures Weight(c) == Weight(Coordinate(c.x, 7 - c.y))
  {
  }

  /** Every weight lies in -4..4; corners weigh 4 and the squares diagonally inside them -4. */
  lemma WeightBounds(c: Coordinate)
    ensures -4 <= Weight(c) <= 4
    ensures IsCorner(c) ==> Weight(c) == 4
    ensures (c.x == 1 || c.x == 6) && (c.y == 1 || c.y == 6) ==> Weight(c) == -4
  {
  }

  /**
   * The `initialPass` of isStable: in Direction.allCases order, every
   * direction that leaves the board from `coordinate`, and, when
   * `coordinate` itself is one of `stableSquares`, every other direction too.
   */
  method InitialPass(coordinate: Coordinate, stableSquares: set<Coordinate>) returns (partialResult: seq<Direction>)
    ensures forall d :: d in partialResult <==> Next(d, coordinate).None? || coordinate in stableSquares
    ensures forall i, j :: 0 <= i < j < |partialResult| ==> Angle(partialResult[i]) < Angle(partialResult[j])
  {
    partialResult := [];
    for i := 0 to |AllDirections|
      invariant forall d :: d in partialResult <==>
                  Angle(d) < i && (Next(d, coordinate).None? || coordinate in stableSquares)
      invariant forall k :: 0 <= k < |partialResult| ==> Angle(partialResult[k]) < i
      invariant forall k, j :: 0 <= k < j < |partialResult| ==> Angle(partialResult[k]) < Angle(partialResult[j])
    {
      var direction := AllDirections[i];
      if Next(direction, coordinate).Some? {
        if coordinate in stableSquares {
          partialResult := partialResult + [direction];
        }
      } else {
        partialResult := partialResult + [direction];
      }
    }
  }
}
