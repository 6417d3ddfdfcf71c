/**
 * Board geometry: disc colours, squares, the 8x8 coordinate system and the
 * eight ray directions (Reversi/Board.swift).
 */
module Geometry {
  import opened Wrappers

  datatype Coin = Black | White

  /** The other colour. */
  function Opposite(c: Coin): (r: Coin)
    ensures r != c
  {
    if c == White then Black else White
  }

  lemma OppositeInvolution(c: Coin)
    ensures Opposite(Opposite(c)) == c
  {
  }

  /** A square of the board: empty or holding a disc. */
  datatype Tile = Occupied(coin: Coin) | Empty

  /** A file (XPos a..h) or a rank (YPos 1..8), as its raw value 0..7. */
  type Index = i: int | 0 <= i < 8

  /** Index 0 or 7 (files a and h, ranks 1 and 8). */
  predicate IsEdge(i: Index) {
    i == 0 || i == 7
  }

  datatype Coordinate = Coordinate(x: Index, y: Index)

  /** The four corner squares. */
  predicate IsCorner(c: Coordinate) {
    c in {Coordinate(0, 0), Coordinate(0, 7), Coordinate(7, 0), Coordinate(7, 7)}
  }

  /** Coordinate.getColumn: the eight squares of file x, from rank 1 up. */
  function ColumnCoordinates(x: Index): (r: seq<Coordinate>)
    ensures |r| == 8
    ensures forall c :: c in r <==> c.x == x
    ensures forall i :: 0 <= i < 8 ==> r[i].y == i
  {
    var r := seq(8, (i: int) requires 0 <= i < 8 => Coordinate(x, i));
    assert forall c: Coordinate | c.x == x :: r[c.y] == c;
    r
  }

  /** Coordinate.getRow: the eight squares of rank y, from file a right. */
  function RowCoordinates(y: Index): (r: seq<Coordinate>)
    ensures |r| == 8
    ensures forall c :: c in r <==> c.y == y
    ensures forall i :: 0 <= i < 8 ==> r[i].x == i
  {
    var r := seq(8, (i: int) requires 0 <= i < 8 => Coordinate(i, y));
    assert forall c: Coordinate | c.y == y :: r[c.x] == c;
    r
  }

  /** Position of c in AllCoordinates: files outermost, as in the nested XPos/YPos loops. */
  function IndexOf(c: Coordinate): (i: nat)
    ensures i < 64
  {
    c.x * 8 + c.y
  }

  /** Coordinate.all(), enumerated file by file. */
  function AllCoordinates(): (r: seq<Coordinate>)
    ensures |r| == 64
    ensures forall c :: r[IndexOf(c)] == c
  {
    seq(64, (i: int) requires 0 <= i < 64 => Coordinate(i / 8, i % 8))
  }

  /** Coordinate.all() lists no square twice. */
  lemma AllCoordinatesDistinct()
    ensures NoDup(AllCoordinates())
  {
  }

  lemma AllCoordinatesComplete(c: Coordinate)
    ensures c in AllCoordinates()
  {
    assert AllCoordinates()[IndexOf(c)] == c;
  }

  /** s lists squares in the order of Coordinate.all(), each at most once. */
  predicate ScanOrdered(s: seq<Coordinate>) {
    forall i, j :: 0 <= i < j < |s| ==> IndexOf(s[i]) < IndexOf(s[j])
  }

  /** Coordinate.all() is in scan order: square i of the listing has index i. */
  lemma AllCoordinatesScanOrdered()
    ensures ScanOrdered(AllCoordinates())
  {
    var r := AllCoordinates();
    forall i | 0 <= i < 64
      ensures IndexOf(r[i]) == i
    {
    }
  }

  /** Distinct squares have distinct scan indices. */
  lemma IndexOfInjective(c: Coordinate, d: Coordinate)
    requires IndexOf(c) == IndexOf(d)
    ensures c == d
  {
    assert AllCoordinates()[IndexOf(c)] == c;
    assert AllCoordinates()[IndexOf(d)] == d;
  }

  datatype Direction = North | NorthEast | East | SouthEast | South | SouthWest | West | NorthWest

  /** Direction.allCases, in declaration order. */
  const AllDirections: seq<Direction> :=
    [North, NorthEast, East, SouthEast, South, SouthWest, West, NorthWest]

  /** Compass position in steps of 45 degrees, clockwise from north. */
  function Angle(d: Direction): (a: nat)
    ensures a < 8 && AllDirections[a] == d
  {
    match d
    case North => 0
    case NorthEast => 1
    case East => 2
    case SouthEast => 3
    case South => 4
    case SouthWest => 5
    case West => 6
    case NorthWest => 7
  }

  /** Direction.allCases lists every direction exactly once. */
  lemma AllDirectionsComplete()
    ensures forall d :: d in AllDirections
    ensures NoDup(AllDirections)
  {
    forall d ensures d in AllDirections {
      assert AllDirections[Angle(d)] == d;
    }
  }

  /** First component of the unit vector. */
  function DX(d: Direction): int {
    match d
    case North => 0
    case NorthEast => 1
    case East => 1
    case SouthEast => 1
    case South => 0
    case SouthWest => -1
    case West => -1
    case NorthWest => -1
  }

  /** Second component of the unit vector. */
  function DY(d: Direction): int {
    match d
    case North => 1
    case NorthEast => 1
    case East => 0
    case SouthEast => -1
    case South => -1
    case SouthWest => -1
    case West => 0
    case NorthWest => 1
  }

  /** Direction.opposite: the direction half a turn away, with the negated vector. */
  function OppositeDirection(d: Direction): (r: Direction)
    ensures Angle(r) == (Angle(d) + 4) % 8
    ensures DX(r) == -DX(d) && DY(r) == -DY(d)
  {
    match d
    case North => South
    case NorthEast => SouthWest
    case East => West
    case SouthEast => NorthWest
    case South => North
    case SouthWest => NorthEast
    case West => East
    case NorthWest => SouthEast
  }

  lemma OppositeDirectionInvolution(d: Direction)
    ensures OppositeDirection(OppositeDirection(d)) == d
  {
  }

  datatype Legs = Legs(left: Direction, right: Direction)

  /** Direction.legs: the two directions 45 degrees to either side, anticlockwise one first. */
  function DirectionLegs(d: Direction): (r: Legs)
    ensures Angle(r.left) == (Angle(d) + 7) % 8
    ensures Angle(r.right) == (Angle(d) + 1) % 8
  {
    match d
    case North => Legs(NorthWest, NorthEast)
    case NorthEast => Legs(North, East)
    case East => Legs(NorthEast, SouthEast)
    case SouthEast => Legs(East, South)
    case South => Legs(SouthEast, SouthWest)
    case SouthWest => Legs(South, West)
    case West => Legs(SouthWest, NorthWest)
    case NorthWest => Legs(West, North)
  }

  /** Direction.next(from:): one step along d, or None when the step leaves the board. */
  function Next(d: Direction, c: Coordinate): (r: Option<Coordinate>)
    ensures r.None? <==> !(0 <= c.x + DX(d) < 8 && 0 <= c.y + DY(d) < 8)
    ensures r.Some? ==> r.value.x == c.x + DX(d) && r.value.y == c.y + DY(d)
  {
    var x := c.x + DX(d);
    var y := c.y + DY(d);
    if 0 <= x < 8 && 0 <= y < 8 then Some(Coordinate(x, y)) else None
  }

  /** A step along d followed by a step along its opposite returns to the start. */
  lemma NextBack(d: Direction, c: Coordinate)
    ensures Next(d, c).Some? ==> Next(OppositeDirection(d), Next(d, c).value) == Some(c)
  {
  }

  /** Steps left before a walk along d from c leaves the board (summed over both axes). */
  function Remaining(d: Direction, c: Coordinate): nat {
    (if DX(d) > 0 then 7 - c.x else if DX(d) < 0 then c.x else 0) +
    (if DY(d) > 0 then 7 - c.y else if DY(d) < 0 then c.y else 0)
  }

  lemma NextDecreases(d: Direction, c: Coordinate)
    ensures Next(d, c).Some? ==> Remaining(d, Next(d, c).value) < Remaining(d, c)
  {
  }
}
