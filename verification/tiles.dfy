/**
 * The tile grid of a board and the helpers Board.swift puts on `[[Tile]]`:
 * subscripting by coordinate, rows and columns, `allOccupied` and `getCount`.
 */
module Tiles {
  import opened Geometry

  /** Eight rows (ranks 1..8) of eight tiles (files a..h): tiles[y][x]. */
  predicate IsGrid(g: seq<seq<Tile>>) {
    |g| == 8 && forall y :: 0 <= y < 8 ==> |g[y]| == 8
  }

  type Grid = g: seq<seq<Tile>> | IsGrid(g) witness EmptyGrid()

  /** Board(): every square empty. */
  function EmptyGrid(): (g: seq<seq<Tile>>)
    ensures IsGrid(g)
    ensures forall y, x :: 0 <= y < 8 && 0 <= x < 8 ==> g[y][x] == Empty
  {
    seq(8, _ => seq(8, _ => Empty))
  }

  /** The subscript tiles[c]: row c.y, column c.x. */
  function At(g: Grid, c: Coordinate): Tile {
    g[c.y][c.x]
  }

  /** The setter tiles[c] = t. */
  function Update(g: Grid, c: Coordinate, t: Tile): (r: Grid)
    ensures At(r, c) == t
    ensures forall c' :: c' != c ==> At(r, c') == At(g, c')
  {
    g[c.y := g[c.y][c.x := t]]
  }

  /** tiles.getColumn(x): the tiles of file x from rank 1 up. */
  function ColumnTiles(g: Grid, x: Index): (r: seq<Tile>)
    ensures |r| == 8
    ensures forall y: Index :: r[y] == At(g, Coordinate(x, y))
  {
    seq(8, (y: int) requires 0 <= y < 8 => At(g, Coordinate(x, y)))
  }

  /** tiles.getRow(y): the tiles of rank y from file a right. */
  function RowTiles(g: Grid, y: Index): (r: seq<Tile>)
    ensures |r| == 8
    ensures forall x: Index :: r[x] == At(g, Coordinate(x, y))
  {
    seq(8, (x: int) requires 0 <= x < 8 => At(g, Coordinate(x, y)))
  }

  /** Array<Tile>.allOccupied: no tile of the line is empty, so the line counts no empty tile. */
  predicate AllOccupied(line: seq<Tile>)
    ensures AllOccupied(line) <==> CountRow(line, Empty) == 0
  {
    CountRowNone(line, Empty);
    forall i :: 0 <= i < |line| ==> line[i] != Empty
  }

  /** A row counts no tile t exactly when none of its tiles is t. */
  lemma {:induction false} CountRowNone(row: seq<Tile>, t: Tile)
    ensures CountRow(row, t) == 0 <==> forall i :: 0 <= i < |row| ==> row[i] != t
  {
    if row != [] {
      var init := row[..|row| - 1];
      CountRowNone(init, t);
      assert forall i :: 0 <= i < |init| ==> init[i] == row[i];
    }
  }

  /** Tiles equal to t in a row. */
  function CountRow(row: seq<Tile>, t: Tile): (n: nat)
    ensures n <= |row|
  {
    if row == [] then 0
    else CountRow(row[..|row| - 1], t) + (if row[|row| - 1] == t then 1 else 0)
  }

  /** Tiles equal to t in all rows: what getCount(ofType:) returns. */
  function CountTiles(rows: seq<seq<Tile>>, t: Tile): nat {
    if rows == [] then 0
    else CountTiles(rows[..|rows| - 1], t) + CountRow(rows[|rows| - 1], t)
  }

  /** getCount(ofType:): a counter incremented over every tile, row by row. */
  method GetCount(rows: seq<seq<Tile>>, t: Tile) returns (count: nat)
    ensures count == CountTiles(rows, t)
  {
    count := 0;
    var i := 0;
    while i < |rows|
      invariant 0 <= i <= |rows|
      invariant count == CountTiles(rows[..i], t)
    {
      var row := rows[i];
      var j := 0;
      ghost var before := count;
      while j < |row|
        invariant 0 <= j <= |row|
        invariant count == before + CountRow(row[..j], t)
      {
        if row[j] == t {
          count := count + 1;
        }
        assert row[..j + 1][..j] == row[..j];
        j := j + 1;
      }
      assert row[..j] == row;
      assert rows[..i + 1][..i] == rows[..i];
      i := i + 1;
    }
    assert rows[..i] == rows;
  }

  /** The squares of rank y before file n that hold t. */
  function RowSquares(g: Grid, y: Index, n: nat, t: Tile): set<Coordinate> {
    set x: int | 0 <= x < n && x < 8 && g[y][x] == t :: Coordinate(x, y)
  }

  /** The squares of the ranks below m that hold t. */
  function LowerSquares(g: Grid, m: nat, t: Tile): set<Coordinate> {
    set x: int, y: int | 0 <= x < 8 && 0 <= y < m && y < 8 && g[y][x] == t :: Coordinate(x, y)
  }

  /** The squares holding t (getPositionsFor(square:) of the later board type). */
  function Positions(g: Grid, t: Tile): (r: set<Coordinate>)
    ensures forall c :: c in r <==> At(g, c) == t
  {
    LowerSquares(g, 8, t)
  }

  lemma RowSquaresStep(g: Grid, y: Index, n: nat, t: Tile)
    requires 0 < n <= 8
    ensures RowSquares(g, y, n, t) ==
            RowSquares(g, y, n - 1, t) + (if g[y][n - 1] == t then {Coordinate(n - 1, y)} else {})
    ensures Coordinate(n - 1, y) !in RowSquares(g, y, n - 1, t)
  {
  }

  lemma {:induction false} RowSquaresCount(g: Grid, y: Index, n: nat, t: Tile)
    requires n <= 8
    ensures |RowSquares(g, y, n, t)| == CountRow(g[y][..n], t)
  {
    if n == 0 {
      assert RowSquares(g, y, 0, t) == {};
    } else {
      RowSquaresCount(g, y, n - 1, t);
      RowSquaresStep(g, y, n, t);
      assert g[y][..n][..n - 1] == g[y][..n - 1];
    }
  }

  lemma LowerSquaresStep(g: Grid, m: nat, t: Tile)
    requires 0 < m <= 8
    ensures LowerSquares(g, m, t) == LowerSquares(g, m - 1, t) + RowSquares(g, m - 1, 8, t)
    ensures LowerSquares(g, m - 1, t) * RowSquares(g, m - 1, 8, t) == {}
  {
  }

  lemma {:induction false} LowerSquaresCount(g: Grid, m: nat, t: Tile)
    requires m <= 8
    ensures |LowerSquares(g, m, t)| == CountTiles(g[..m], t)
  {
    if m == 0 {
      assert LowerSquares(g, 0, t) == {};
    } else {
      LowerSquaresCount(g, m - 1, t);
      RowSquaresCount(g, m - 1, 8, t);
      LowerSquaresStep(g, m, t);
      assert g[..m][..m - 1] == g[..m - 1];
      assert g[m - 1][..8] == g[m - 1];
    }
  }

  /** As many squares hold t as getCount(ofType: t) counts. */
  lemma PositionsCount(g: Grid, t: Tile)
    ensures |Positions(g, t)| == CountTiles(g, t)
  {
    LowerSquaresCount(g, 8, t);
    assert g[..8] == g;
  }

  /** The count of t is the size of any set holding exactly the squares that hold t. */
  lemma CountBySquares(g: Grid, t: Tile, squares: set<Coordinate>)
    requires forall c :: At(g, c) == t <==> c in squares
    ensures CountTiles(g, t) == |squares|
  {
    assert Positions(g, t) == squares;
    PositionsCount(g, t);
  }

  /** Replacing one tile of a row changes its count of t by at most the two tiles involved. */
  lemma {:induction false} CountRowUpdate(row: seq<Tile>, x: nat, v: Tile, t: Tile)
    requires x < |row|
    ensures CountRow(row[x := v], t) ==
            CountRow(row, t) - (if row[x] == t then 1 else 0) + (if v == t then 1 else 0)
  {
    var n := |row|;
    var row' := row[x := v];
    if x == n - 1 {
      assert row'[..n - 1] == row[..n - 1];
    } else {
      assert row'[..n - 1] == row[..n - 1][x := v];
      CountRowUpdate(row[..n - 1], x, v, t);
    }
  }

  lemma {:induction false} CountTilesReplaceRow(rows: seq<seq<Tile>>, y: nat, r: seq<Tile>, t: Tile)
    requires y < |rows|
    ensures CountTiles(rows[y := r], t) == CountTiles(rows, t) - CountRow(rows[y], t) + CountRow(r, t)
  {
    var n := |rows|;
    var rows' := rows[y := r];
    if y == n - 1 {
      assert rows'[..n - 1] == rows[..n - 1];
    } else {
      assert rows'[..n - 1] == rows[..n - 1][y := r];
      CountTilesReplaceRow(rows[..n - 1], y, r, t);
    }
  }

  /** Setting one square changes the count of t by the old and the new tile only. */
  lemma CountUpdate(g: Grid, c: Coordinate, v: Tile, t: Tile)
    ensures CountTiles(Update(g, c, v), t) ==
            CountTiles(g, t) - (if At(g, c) == t then 1 else 0) + (if v == t then 1 else 0)
  {
    CountRowUpdate(g[c.y], c.x, v, t);
    CountTilesReplaceRow(g, c.y, g[c.y][c.x := v], t);
  }

  /** Each tile is empty, black or white, so the three counts add up to the number of squares. */
  lemma {:induction false} CountRowPartition(row: seq<Tile>)
    ensures CountRow(row, Empty) + CountRow(row, Occupied(Black)) + CountRow(row, Occupied(White)) == |row|
  {
    if row != [] {
      CountRowPartition(row[..|row| - 1]);
      assert row[|row| - 1] == Empty || row[|row| - 1].coin == Black || row[|row| - 1].coin == White;
    }
  }

  lemma {:induction false} CountTilesPartition(rows: seq<seq<Tile>>)
    requires forall i :: 0 <= i < |rows| ==> |rows[i]| == 8
    ensures CountTiles(rows, Empty) + CountTiles(rows, Occupied(Black)) + CountTiles(rows, Occupied(White)) == 8 * |rows|
  {
    if rows != [] {
      CountTilesPartition(rows[..|rows| - 1]);
      CountRowPartition(rows[|rows| - 1]);
    }
  }

  lemma {:induction false} CountUniformRow(row: seq<Tile>, u: Tile, t: Tile)
    requires forall i :: 0 <= i < |row| ==> row[i] == u
    ensures CountRow(row, t) == if u == t then |row| else 0
  {
    if row != [] {
      CountUniformRow(row[..|row| - 1], u, t);
    }
  }

  lemma {:induction false} CountEmptyRows(rows: seq<seq<Tile>>, t: Tile)
    requires forall y :: 0 <= y < |rows| ==> |rows[y]| == 8 && forall x :: 0 <= x < 8 ==> rows[y][x] == Empty
    ensures CountTiles(rows, t) == if t == Empty then 8 * |rows| else 0
  {
    if rows != [] {
      CountEmptyRows(rows[..|rows| - 1], t);
      CountUniformRow(rows[|rows| - 1], Empty, t);
    }
  }

  /** The empty board holds 64 empty squares and no disc. */
  lemma EmptyGridCounts(t: Tile)
    ensures CountTiles(EmptyGrid(), t) == if t == Empty then 64 else 0
  {
    CountEmptyRows(EmptyGrid(), t);
  }

  /** Sets every square of cs to t, one after another (the `forEach` of Board.set). */
  function ApplyAll(g: Grid, cs: seq<Coordinate>, t: Tile): (r: Grid)
    ensures forall c :: At(r, c) == if c in cs then t else At(g, c)
  {
    if cs == [] then g
    else Update(ApplyAll(g, cs[..|cs| - 1], t), cs[|cs| - 1], t)
  }

  /**
   * Recolouring distinct squares that all held `from` moves exactly |cs| tiles
   * from `from` to `to` and leaves every other count alone.
   */
  lemma {:induction false} ApplyAllCounts(g: Grid, cs: seq<Coordinate>, from: Tile, to: Tile, u: Tile)
    requires from != to
    requires forall i, j :: 0 <= i < j < |cs| ==> cs[i] != cs[j]
    requires forall c :: c in cs ==> At(g, c) == from
    ensures CountTiles(ApplyAll(g, cs, to), to) == CountTiles(g, to) + |cs|
    ensures CountTiles(ApplyAll(g, cs, to), from) == CountTiles(g, from) - |cs|
    ensures u != from && u != to ==> CountTiles(ApplyAll(g, cs, to), u) == CountTiles(g, u)
  {
    if cs != [] {
      var n := |cs|;
      var prefix := cs[..n - 1];
      var last := cs[n - 1];
      ApplyAllCounts(g, prefix, from, to, u);
      var h := ApplyAll(g, prefix, to);
      assert last !in prefix;
      assert At(h, last) == from;
      CountUpdate(h, last, to, to);
      CountUpdate(h, last, to, from);
      CountUpdate(h, last, to, u);
    }
  }
}
