/**
 * The stable-disc cache of Board.swift: `getStableOrthogonal`, which marks
 * every full row or column reached from an edge through full lines, and
 * `setStable`, which grows the stable set ring by ring from the corners.
 */
module Stability {
  import opened Wrappers
  import opened Geometry
  import opened Tiles
  import opened Flips
  import opened Boards

  /** Which kind of line `setRowCol` walks: files (XPos) or ranks (YPos). */
  datatype Axis = Columns | Rows

  /** The index of the line of the given kind through c. */
  function LineIndex(axis: Axis, c: Coordinate): Index {
    if axis == Columns then c.x else c.y
  }

  /** The tG getter: the tiles of line i. */
  function LineTiles(g: Grid, axis: Axis, i: Index): (r: seq<Tile>)
    ensures |r| == 8
    ensures forall c :: LineIndex(axis, c) == i ==> r[LineIndex(OtherAxis(axis), c)] == At(g, c)
  {
    if axis == Columns then ColumnTiles(g, i) else RowTiles(g, i)
  }

  function OtherAxis(axis: Axis): Axis {
    if axis == Columns then Rows else Columns
  }

  /** The cG getter: the squares of line i. */
  function LineCoordinates(axis: Axis, i: Index): (r: seq<Coordinate>)
    ensures forall c :: c in r <==> LineIndex(axis, c) == i
  {
    if axis == Columns then ColumnCoordinates(i) else RowCoordinates(i)
  }

  /** How many lines a walk from the starting edge passes before reaching line i. */
  function Depth(positiveVector: bool, i: int): int {
    if positiveVector then i else 7 - i
  }

  /**
   * Line i and every line between it and the starting edge (index 0 for a
   * positive walk, 7 otherwise) are fully occupied.
   */
  ghost predicate RunFromEdge(g: Grid, axis: Axis, positiveVector: bool, i: Index) {
    forall j: Index :: Depth(positiveVector, j) <= Depth(positiveVector, i) ==> AllOccupied(LineTiles(g, axis, j))
  }

  /** c lies on a full row or column joined to an edge of the board by full lines. */
  ghost predicate OrthogonallyStable(g: Grid, c: Coordinate) {
    || RunFromEdge(g, Columns, true, c.x)
    || RunFromEdge(g, Columns, false, c.x)
    || RunFromEdge(g, Rows, true, c.y)
    || RunFromEdge(g, Rows, false, c.y)
  }

  /** A square on a line joined to an edge by full lines holds a disc. */
  lemma RunFromEdgeOccupied(g: Grid, axis: Axis, positiveVector: bool, c: Coordinate)
    requires RunFromEdge(g, axis, positiveVector, LineIndex(axis, c))
    ensures At(g, c) != Empty
  {
    var i := LineIndex(axis, c);
    assert AllOccupied(LineTiles(g, axis, i));
    assert LineTiles(g, axis, i)[LineIndex(OtherAxis(axis), c)] == At(g, c);
  }

  /**
   * setRowCol: starting at one edge, collects the squares of every line up
   * to the first line that is not fully occupied.
   */
  method SetRowCol(g: Grid, axis: Axis, positiveVector: bool) returns (result: set<Coordinate>)
    ensures forall c :: c in result <==> RunFromEdge(g, axis, positiveVector, LineIndex(axis, c))
  {
    var index: int := if positiveVector then 0 else 7;
    var vector := if positiveVector then 1 else -1;
    result := {};
    while true
      invariant 0 <= Depth(positiveVector, index) <= 8
      invariant FullBefore(g, axis, positiveVector, index)
      invariant forall c :: c in result <==> Depth(positiveVector, LineIndex(axis, c)) < Depth(positiveVector, index)
      decreases 8 - Depth(positiveVector, index)
    {
      if !(0 <= index < 8) {
        RunReached(g, axis, positiveVector, index);
        break;
      }
      if AllOccupied(LineTiles(g, axis, index)) {
        var line := LineCoordinates(axis, index);
        RunExtends(axis, positiveVector, index, result);
        FullExtends(g, axis, positiveVector, index);
        result := result + set c | c in line;
        index := index + vector;
      } else {
        RunStops(g, axis, positiveVector, index);
        RunReached(g, axis, positiveVector, index);
        return;
      }
    }
  }

  /** Adding the squares of line index to the squares before it gives the squares up to it. */
  lemma RunExtends(axis: Axis, positiveVector: bool, index: Index, result: set<Coordinate>)
    requires forall c :: c in result <==> Depth(positiveVector, LineIndex(axis, c)) < Depth(positiveVector, index)
    ensures forall c :: c in result + (set c | c in LineCoordinates(axis, index)) <==>
                          Depth(positiveVector, LineIndex(axis, c)) < Depth(positiveVector, index) + 1
  {
  }

  /** Every line the walk passed before reaching index is full. */
  ghost predicate FullBefore(g: Grid, axis: Axis, positiveVector: bool, index: int) {
    forall j: Index :: Depth(positiveVector, j) < Depth(positiveVector, index) ==> AllOccupied(LineTiles(g, axis, j))
  }

  /** Passing a full line keeps every passed line full. */
  lemma FullExtends(g: Grid, axis: Axis, positiveVector: bool, index: Index)
    requires FullBefore(g, axis, positiveVector, index)
    requires AllOccupied(LineTiles(g, axis, index))
    ensures FullBefore(g, axis, positiveVector, index + (if positiveVector then 1 else -1))
  {
  }

  /** Every line before depth `depth` of index is reached when all of them are full. */
  lemma RunReached(g: Grid, axis: Axis, positiveVector: bool, index: int)
    requires FullBefore(g, axis, positiveVector, index)
    ensures forall c :: Depth(positiveVector, LineIndex(axis, c)) < Depth(positiveVector, index) ==>
                          RunFromEdge(g, axis, positiveVector, LineIndex(axis, c))
  {
  }

  /** A line that is not full ends every run from the edge: no line at its depth or beyond is reached. */
  lemma RunStops(g: Grid, axis: Axis, positiveVector: bool, stop: Index)
    requires !AllOccupied(LineTiles(g, axis, stop))
    ensures forall c :: Depth(positiveVector, stop) <= Depth(positiveVector, LineIndex(axis, c)) ==>
                          !RunFromEdge(g, axis, positiveVector, LineIndex(axis, c))
  {
  }

  /** getStableOrthogonal: the union of the four edge walks. */
  method StableOrthogonal(g: Grid) returns (newStables: set<Coordinate>)
    ensures forall c :: c in newStables <==> OrthogonallyStable(g, c)
    ensures forall c :: c in newStables ==> At(g, c) != Empty
  {
    newStables := {};
    var leading := SetRowCol(g, Columns, true);
    var trailing := SetRowCol(g, Columns, false);
    var top := SetRowCol(g, Rows, true);
    var bottom := SetRowCol(g, Rows, false);
    newStables := newStables + leading;
    newStables := newStables + trailing;
    newStables := newStables + top;
    newStables := newStables + bottom;
    forall c | c in newStables
      ensures At(g, c) != Empty
    {
      if c in leading {
        RunFromEdgeOccupied(g, Columns, true, c);
      } else if c in trailing {
        RunFromEdgeOccupied(g, Columns, false, c);
      } else if c in top {
        RunFromEdgeOccupied(g, Rows, true, c);
      } else {
        RunFromEdgeOccupied(g, Rows, false, c);
      }
    }
  }

  /** e points back over the half-plane behind d: its reverse or one of the reverse's legs. */
  predicate IsBehind(e: Direction, d: Direction) {
    var turn := (Angle(e) + 8 - Angle(d)) % 8;
    3 <= turn <= 5
  }

  /** The three directions behind d are d.opposite and the two legs of d.opposite. */
  lemma BehindDirections(d: Direction)
    ensures var o := OppositeDirection(d);
            forall e :: IsBehind(e, d) <==> e == o || e == DirectionLegs(o).left || e == DirectionLegs(o).right
  {
  }

  /** The compactMap of `next(from: c)` over ds: the on-board neighbours of c along ds. */
  function NeighboursAlong(ds: seq<Direction>, c: Coordinate): (r: seq<Coordinate>)
    ensures forall n :: n in r <==> exists i :: 0 <= i < |ds| && Next(ds[i], c) == Some(n)
  {
    if ds == [] then []
    else
      var rest := NeighboursAlong(ds[1..], c);
      assert forall i :: 1 <= i < |ds| ==> ds[1..][i - 1] == ds[i];
      match Next(ds[0], c)
      case Some(n) => [n] + rest
      case None => rest
  }

  /**
   * The nested isStable of setStable: c is already stable, or it holds a disc
   * and each of its on-board neighbours behind d is newly stable or holds the
   * same tile.
   */
  function IsStable(b: Board, newStables: set<Coordinate>, d: Direction, c: Coordinate): (r: bool)
    ensures r <==>
      || c in b.stableCoins
      || c in newStables
      || (&& At(b.tiles, c) != Empty
          && forall e :: IsBehind(e, d) && Next(e, c).Some? ==>
               Next(e, c).value in newStables || At(b.tiles, Next(e, c).value) == At(b.tiles, c))
  {
    if c in b.stableCoins then true
    else if c in newStables then true
    else if At(b.tiles, c) == Empty then false
    else
      var o := OppositeDirection(d);
      var opposites := [o, DirectionLegs(o).left, DirectionLegs(o).right];
      var oppositeCs := NeighboursAlong(opposites, c);
      BehindDirections(d);
      assert forall e :: IsBehind(e, d) <==> e in opposites;
      if oppositeCs == [] then true
      else forall n :: n in oppositeCs ==> n in newStables || At(b.tiles, n) == At(b.tiles, c)
  }

  /** c lies on the ray from start along leg, start itself excluded. */
  ghost predicate OnLeg(leg: Direction, start: Coordinate, c: Coordinate) {
    exists i: nat :: 1 <= i && RayCoord(leg, start, i) == Some(c)
  }

  /**
   * The set leftLoop / rightLoop leave behind, starting from ns at c: the next
   * square along leg is added, and the walk goes on from it, unless it is off
   * the board, already in the set, or fails isStable against the set so far.
   */
  function LegWalk(b: Board, ns: set<Coordinate>, leg: Direction, c: Coordinate): set<Coordinate>
    decreases Remaining(leg, c)
  {
    match Next(leg, c)
    case None => ns
    case Some(n) =>
      NextDecreases(leg, c);
      if n in ns || !IsStable(b, ns, leg, n) then ns
      else LegWalk(b, ns + {n}, leg, n)
  }

  /**
   * leftLoop / rightLoop: walks from start along leg, adding each square that
   * is not yet newly stable and passes isStable, and stops at the first that
   * fails, is already newly stable, or lies off the board.
   */
  method WalkLeg(b: Board, newStables0: set<Coordinate>, leg: Direction, start: Coordinate)
    returns (newStables: set<Coordinate>)
    ensures newStables == LegWalk(b, newStables0, leg, start)
    ensures newStables0 <= newStables
    ensures forall c :: c in newStables && c !in newStables0 ==>
              (c in b.stableCoins || At(b.tiles, c) != Empty) && OnLeg(leg, start, c)
  {
    newStables := newStables0;
    var coordinate := start;
    ghost var steps: nat := 0;
    while true
      invariant LegWalk(b, newStables, leg, coordinate) == LegWalk(b, newStables0, leg, start)
      invariant newStables0 <= newStables
      invariant RayCoord(leg, start, steps) == Some(coordinate)
      invariant forall c :: c in newStables && c !in newStables0 ==>
                  (c in b.stableCoins || At(b.tiles, c) != Empty) && OnLeg(leg, start, c)
      decreases Remaining(leg, coordinate)
    {
      var next := Next(leg, coordinate);
      if next.None? {
        break;
      }
      NextDecreases(leg, coordinate);
      RayAdvance(leg, start, steps, coordinate, next.value);
      coordinate := next.value;
      steps := steps + 1;
      if coordinate in newStables {
        break;
      }
      if !IsStable(b, newStables, leg, coordinate) {
        break;
      }
      assert OnLeg(leg, start, coordinate) by {
        assert 1 <= steps && RayCoord(leg, start, steps) == Some(coordinate);
      }
      newStables := newStables + {coordinate};
    }
  }

  /** The corner squares of ring `depth`, keyed by the direction that points into the board. */
  function CornerSquares(depth: nat): (r: map<Direction, Coordinate>)
    requires depth < 4
    ensures forall d :: d in r <==> d in {NorthEast, SouthEast, SouthWest, NorthWest}
    ensures forall d :: d in r ==> r[d].x in {depth, 7 - depth} && r[d].y in {depth, 7 - depth}
  {
    map[
      NorthEast := Coordinate(depth, depth),
      SouthEast := Coordinate(depth, 7 - depth),
      SouthWest := Coordinate(7 - depth, 7 - depth),
      NorthWest := Coordinate(7 - depth, depth)
    ]
  }

  /** An iteration order of the corner dictionary: each of its four keys once. */
  predicate IsCornerOrder(order: seq<Direction>) {
    && |order| == 4
    && forall d :: d in order <==> d in {NorthEast, SouthEast, SouthWest, NorthWest}
  }

  /** The keys of the outer ring lead to exactly the four corners of the board. */
  lemma OuterCorners(c: Coordinate)
    ensures IsCorner(c) <==> exists d :: d in CornerSquares(0) && CornerSquares(0)[d] == c
  {
    var r := CornerSquares(0);
    if IsCorner(c) {
      if c == Coordinate(0, 0) {
        assert r[NorthEast] == c;
      } else if c == Coordinate(0, 7) {
        assert r[SouthEast] == c;
      } else if c == Coordinate(7, 7) {
        assert r[SouthWest] == c;
      } else {
        assert r[NorthWest] == c;
      }
    }
  }

  /** From an outer corner, every direction behind its key leaves the board. */
  lemma OuterCornerBacks(d: Direction)
    requires d in CornerSquares(0)
    ensures forall e :: IsBehind(e, d) ==> Next(e, CornerSquares(0)[d]).None?
  {
    var c := CornerSquares(0)[d];
    forall e | IsBehind(e, d)
      ensures Next(e, c).None?
    {
      BehindDirections(d);
    }
  }

  /** On the outer ring an occupied corner always passes isStable: nothing lies behind it. */
  lemma OuterCornerStable(b: Board, newStables: set<Coordinate>, d: Direction)
    requires d in CornerSquares(0)
    requires At(b.tiles, CornerSquares(0)[d]) != Empty
    ensures IsStable(b, newStables, d, CornerSquares(0)[d])
  {
    OuterCornerBacks(d);
  }

  /**
   * The set one iteration of the corner loop leaves behind: unchanged when the
   * corner fails isStable, otherwise the corner added and both legs walked,
   * the left one first.
   */
  function CornerGrowth(b: Board, ns: set<Coordinate>, direction: Direction, start: Coordinate): set<Coordinate> {
    if !IsStable(b, ns, direction, start) then ns
    else
      var legs := DirectionLegs(direction);
      LegWalk(b, LegWalk(b, ns + {start}, legs.left, start), legs.right, start)
  }

  /**
   * The body of the corner loop: a corner that passes isStable becomes newly
   * stable, and so do the runs that pass isStable along its two legs.
   */
  method GrowFromCorner(b: Board, newStables0: set<Coordinate>, direction: Direction, startingCoordinate: Coordinate)
    returns (newStables: set<Coordinate>)
    ensures newStables == CornerGrowth(b, newStables0, direction, startingCoordinate)
    ensures newStables0 <= newStables
    ensures forall c :: c in newStables && c !in newStables0 ==> c in b.stableCoins || At(b.tiles, c) != Empty
    ensures startingCoordinate in newStables <==> IsStable(b, newStables0, direction, startingCoordinate)
    ensures !IsStable(b, newStables0, direction, startingCoordinate) ==> newStables == newStables0
  {
    newStables := newStables0;
    var legs := DirectionLegs(direction);
    if !IsStable(b, newStables, direction, startingCoordinate) {
      return;
    }
    newStables := newStables + {startingCoordinate};
    newStables := WalkLeg(b, newStables, legs.left, startingCoordinate);
    newStables := WalkLeg(b, newStables, legs.right, startingCoordinate);
  }

  /** Every occupied corner keyed by a direction in ds is in ns. */
  ghost predicate CornersDone(b: Board, corners: map<Direction, Coordinate>, ds: seq<Direction>, ns: set<Coordinate>) {
    forall j :: 0 <= j < |ds| && ds[j] in corners && At(b.tiles, corners[ds[j]]) != Empty ==> corners[ds[j]] in ns
  }

  lemma CornersDoneStep(b: Board, corners: map<Direction, Coordinate>, ds: seq<Direction>, d: Direction,
                        ns: set<Coordinate>, ns': set<Coordinate>)
    requires CornersDone(b, corners, ds, ns)
    requires ns <= ns'
    requires d in corners && At(b.tiles, corners[d]) != Empty ==> corners[d] in ns'
    ensures CornersDone(b, corners, ds + [d], ns')
  {
    var ds' := ds + [d];
    forall j | 0 <= j < |ds'| && ds'[j] in corners && At(b.tiles, corners[ds'[j]]) != Empty
      ensures corners[ds'[j]] in ns'
    {
      if j < |ds| {
        assert ds'[j] == ds[j];
      }
    }
  }

  /** At depth 0, every occupied corner is reached through some key of the iteration order. */
  lemma OuterCornerVisited(b: Board, order: seq<Direction>, c: Coordinate)
    requires IsCornerOrder(order)
    requires IsCorner(c)
    ensures exists j :: 0 <= j < |order| && order[j] in CornerSquares(0) && CornerSquares(0)[order[j]] == c
  {
    OuterCorners(c);
    var corners := CornerSquares(0);
    var d :| d in corners && corners[d] == c;
    assert d in order;
    var j :| 0 <= j < |order| && order[j] == d;
    assert order[j] in corners;
  }

  /** The squares getStableOrthogonal collects. */
  ghost function OrthogonalSquares(g: Grid): (r: set<Coordinate>)
    ensures forall c :: c in r <==> OrthogonallyStable(g, c)
  {
    set x: Index, y: Index | OrthogonallyStable(g, Coordinate(x, y)) :: Coordinate(x, y)
  }

  /** The corner loop over the keys ds, in that order, starting from ns. */
  function CornerLoop(b: Board, corners: map<Direction, Coordinate>, ds: seq<Direction>, ns: set<Coordinate>): set<Coordinate>
    requires forall d :: d in ds ==> d in corners
  {
    if ds == [] then ns
    else
      var d := ds[|ds| - 1];
      CornerGrowth(b, CornerLoop(b, corners, ds[..|ds| - 1], ns), d, corners[d])
  }

  /** The newStables of one pass: the orthogonal lines on ring 0, then the corner loop. */
  ghost function PassSquares(b: Board, order: seq<Direction>, depth: nat): set<Coordinate>
    requires depth < 4
    requires IsCornerOrder(order)
  {
    CornerLoop(b, CornerSquares(depth), order, if depth == 0 then OrthogonalSquares(b.tiles) else {})
  }

  /** A leg walk only adds squares, each holding a disc or stable already. */
  lemma {:induction false} LegWalkGrows(b: Board, ns: set<Coordinate>, leg: Direction, c: Coordinate)
    ensures ns <= LegWalk(b, ns, leg, c)
    ensures forall x :: x in LegWalk(b, ns, leg, c) && x !in ns ==> x in b.stableCoins || At(b.tiles, x) != Empty
    decreases Remaining(leg, c)
  {
    match Next(leg, c)
    case None =>
    case Some(n) =>
      NextDecreases(leg, c);
      if n !in ns && IsStable(b, ns, leg, n) {
        LegWalkGrows(b, ns + {n}, leg, n);
      }
  }

  /**
   * One corner step only adds squares, each holding a disc or stable already,
   * and adds the corner whenever it passes isStable.
   */
  lemma CornerGrowthGrows(b: Board, ns: set<Coordinate>, direction: Direction, start: Coordinate)
    ensures ns <= CornerGrowth(b, ns, direction, start)
    ensures forall x :: x in CornerGrowth(b, ns, direction, start) && x !in ns ==>
                          x in b.stableCoins || At(b.tiles, x) != Empty
    ensures IsStable(b, ns, direction, start) ==> start in CornerGrowth(b, ns, direction, start)
  {
    if IsStable(b, ns, direction, start) {
      var legs := DirectionLegs(direction);
      var ns1 := ns + {start};
      LegWalkGrows(b, ns1, legs.left, start);
      LegWalkGrows(b, LegWalk(b, ns1, legs.left, start), legs.right, start);
    }
  }

  /** The corner loop only adds squares, each holding a disc or stable already. */
  lemma {:induction false} CornerLoopGrows(b: Board, corners: map<Direction, Coordinate>, ds: seq<Direction>, ns: set<Coordinate>)
    requires forall d :: d in ds ==> d in corners
    ensures ns <= CornerLoop(b, corners, ds, ns)
    ensures forall x :: x in CornerLoop(b, corners, ds, ns) && x !in ns ==> x in b.stableCoins || At(b.tiles, x) != Empty
  {
    if ds != [] {
      var d := ds[|ds| - 1];
      var prefix := ds[..|ds| - 1];
      assert forall e :: e in prefix ==> e in ds;
      CornerLoopGrows(b, corners, prefix, ns);
      CornerGrowthGrows(b, CornerLoop(b, corners, prefix, ns), d, corners[d]);
    }
  }

  /** A corner step on the outer ring keeps the set and adds the corner when it holds a disc. */
  lemma OuterCornerStep(b: Board, ns: set<Coordinate>, d: Direction)
    requires d in CornerSquares(0)
    ensures ns <= CornerGrowth(b, ns, d, CornerSquares(0)[d])
    ensures At(b.tiles, CornerSquares(0)[d]) != Empty ==> CornerSquares(0)[d] in CornerGrowth(b, ns, d, CornerSquares(0)[d])
  {
    CornerGrowthGrows(b, ns, d, CornerSquares(0)[d]);
    if At(b.tiles, CornerSquares(0)[d]) != Empty {
      OuterCornerStable(b, ns, d);
    }
  }

  /** On the outer ring, the corner loop over ds makes every occupied corner keyed in ds stable. */
  lemma {:induction false} CornerLoopCorners(b: Board, ds: seq<Direction>, ns: set<Coordinate>)
    requires forall d :: d in ds ==> d in CornerSquares(0)
    ensures CornersDone(b, CornerSquares(0), ds, CornerLoop(b, CornerSquares(0), ds, ns))
  {
    var corners := CornerSquares(0);
    if ds != [] {
      var d := ds[|ds| - 1];
      var prefix := ds[..|ds| - 1];
      assert forall e :: e in prefix ==> e in ds;
      var before := CornerLoop(b, corners, prefix, ns);
      CornerLoopCorners(b, prefix, ns);
      OuterCornerStep(b, before, d);
      assert ds == prefix + [d];
      CornersDoneStep(b, corners, prefix, d, before, CornerLoop(b, corners, ds, ns));
    }
  }

  /**
   * One pass of setStable at ring `depth`: the orthogonal lines on the outer
   * ring, then each corner of the ring that passes isStable together with the
   * runs along its two legs.
   */
  method StablePass(b: Board, order: seq<Direction>, depth: nat) returns (newStables: set<Coordinate>)
    requires depth < 4
    requires IsCornerOrder(order)
    ensures newStables == PassSquares(b, order, depth)
    ensures forall c :: c in newStables ==> c in b.stableCoins || At(b.tiles, c) != Empty
    ensures depth == 0 ==> forall c :: OrthogonallyStable(b.tiles, c) ==> c in newStables
    ensures depth == 0 ==> forall c :: IsCorner(c) && At(b.tiles, c) != Empty ==> c in newStables
  {
    newStables := {};
    if depth == 0 {
      var orthogonal := StableOrthogonal(b.tiles);
      newStables := newStables + orthogonal;
      assert newStables == OrthogonalSquares(b.tiles);
    }
    ghost var init := newStables;
    var corners := CornerSquares(depth);
    for i := 0 to |order|
      invariant forall d :: d in order[..i] ==> d in corners
      invariant newStables == CornerLoop(b, corners, order[..i], init)
    {
      var direction := order[i];
      assert direction in order;
      var startingCoordinate := corners[direction];
      newStables := GrowFromCorner(b, newStables, direction, startingCoordinate);
      assert order[..i + 1] == order[..i] + [direction];
      assert order[..i + 1][..i] == order[..i];
    }
    assert order[..|order|] == order;
    CornerLoopGrows(b, corners, order, init);
    if depth == 0 {
      CornerLoopCorners(b, order, init);
      forall c | IsCorner(c) && At(b.tiles, c) != Empty
        ensures c in newStables
      {
        OuterCornerVisited(b, order, c);
      }
    }
  }

  /**
   * The board setStable(depth:) returns: the board itself from depth 4 on or
   * when a pass finds nothing, otherwise the result of the next depth on the
   * board with the pass merged into its stable set.
   */
  ghost function StableBoard(b: Board, order: seq<Direction>, depth: nat): Board
    requires IsCornerOrder(order)
    decreases 4 - depth
  {
    if depth >= 4 then b
    else
      var ns := PassSquares(b, order, depth);
      if ns == {} then b
      else StableBoard(Board(b.tiles, b.stableCoins + ns), order, depth + 1)
  }

  /**
   * setStable(depth:): passes over rings depth, depth + 1, ... until depth 4
   * or until a pass finds nothing, merging each pass into the stable set.
   * The tiles never change, the stable set only grows, everything it gains
   * holds a disc, and from depth 0 it gains every full line joined to an edge
   * and every occupied corner.
   */
  method SetStable(b: Board, order: seq<Direction>, depth: nat) returns (r: Board)
    requires IsCornerOrder(order)
    ensures r == StableBoard(b, order, depth)
    ensures r.tiles == b.tiles
    ensures b.stableCoins <= r.stableCoins
    ensures depth >= 4 ==> r == b
    ensures forall c :: c in r.stableCoins && c !in b.stableCoins ==> At(b.tiles, c) != Empty
    ensures depth == 0 ==> forall c :: OrthogonallyStable(b.tiles, c) ==> c in r.stableCoins
    ensures depth == 0 ==> forall c :: IsCorner(c) && At(b.tiles, c) != Empty ==> c in r.stableCoins
    decreases 4 - depth
  {
    if depth >= 4 {
      return b;
    }
    var newStables := StablePass(b, order, depth);
    if newStables == {} {
      return b;
    }
    var mergedStables := b.stableCoins + newStables;
    r := SetStable(Board(b.tiles, mergedStables), order, depth + 1);
  }
}
