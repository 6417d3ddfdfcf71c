/**
 * The turn controller of Game.swift: whose turn it is, the game state, the
 * end-of-game verdict, the pass rule and the greedy computer player.
 */
module Games {
  import opened Wrappers
  import opened Geometry
  import opened Tiles
  import opened Flips
  import opened Boards

  /** Game.GameState; the error case carries the placement error that was thrown. */
  datatype GameState = Normal | Error(error: PlaceError) | End(winner: Coin)

  /**
   * The state queryTotals leaves behind, given the disc counts. The game ends
   * when the board is full or nobody can move, black winning only with strictly
   * more discs; a side without discs loses whatever was decided before, the
   * white-less check coming last.
   */
  function Verdict(black: nat, white: nat, empty: nat, noMovesLeft: bool, s: GameState): (r: GameState)
    ensures white == 0 ==> r == End(Black)
    ensures black == 0 && white > 0 ==> r == End(White)
    ensures black > 0 && white > 0 && (empty == 0 || noMovesLeft) ==>
              r.End? && (r.winner == Black <==> black > white)
    ensures black > 0 && white > 0 && !(empty == 0 || noMovesLeft) ==> r == s
  {
    var r := if empty == 0 || noMovesLeft then End(if black > white then Black else White) else s;
    var r := if black == 0 then End(White) else r;
    if white == 0 then End(Black) else r
  }

  /** The verdict for the discs on the tiles g. */
  function TotalsOf(g: Grid, noMovesLeft: bool, s: GameState): GameState {
    Verdict(CountTiles(g, Occupied(Black)), CountTiles(g, Occupied(White)), CountTiles(g, Empty), noMovesLeft, s)
  }

  /** Asked to end the game, queryTotals always ends it. */
  lemma NoMovesLeftEnds(g: Grid, s: GameState)
    ensures TotalsOf(g, true, s).End?
  {
  }

  /** A full board ends the game; with both colours present a draw goes to white. */
  lemma {:induction false} FullBoardTieGoesToWhite(g: Grid, s: GameState)
    requires CountTiles(g, Empty) == 0
    requires CountTiles(g, Occupied(Black)) == CountTiles(g, Occupied(White))
    ensures TotalsOf(g, false, s) == End(White)
  {
    CountTilesPartition(g);
  }

  /** The side to move after coin has moved: the opponent, unless the opponent must pass. */
  function NextMover(g: Grid, coin: Coin): (r: Coin)
    ensures r == Opposite(coin) <==> HasLegalMoves(g, Opposite(coin))
  {
    if HasLegalMoves(g, Opposite(coin)) then Opposite(coin) else coin
  }

  /** Neither colour has a legal move. */
  predicate Stalemate(g: Grid) {
    !HasLegalMoves(g, Black) && !HasLegalMoves(g, White)
  }

  /** edgeCornerScore(position:): one point for an edge file, one for an edge rank. */
  function EdgeCornerScore(c: Coordinate): (r: nat)
    ensures r <= 2
    ensures r == 2 <==> IsCorner(c)
    ensures r == 0 <==> !IsEdge(c.x) && !IsEdge(c.y)
  {
    (if IsEdge(c.x) then 1 else 0) + (if IsEdge(c.y) then 1 else 0)
  }

  /** Ordered by edgeCornerScore, best first. */
  predicate ScoreDescending(s: seq<Coordinate>) {
    forall i, j :: 0 <= i < j < |s| ==> EdgeCornerScore(s[i]) >= EdgeCornerScore(s[j])
  }

  /** A square scoring at least as much as every square of a descending list can lead it. */
  lemma ConsDescending(h: Coordinate, rest: seq<Coordinate>)
    requires ScoreDescending(rest)
    requires forall x :: x in rest ==> EdgeCornerScore(x) <= EdgeCornerScore(h)
    ensures ScoreDescending([h] + rest)
  {
    var r := [h] + rest;
    forall i, j | 0 <= i < j < |r|
      ensures EdgeCornerScore(r[i]) >= EdgeCornerScore(r[j])
    {
      assert r[j] == rest[j - 1];
      if i > 0 {
        assert r[i] == rest[i - 1];
      }
    }
  }

  /** The squares of s scoring k, in the order of s. */
  function ScoreFilter(s: seq<Coordinate>, k: nat): (r: seq<Coordinate>)
    ensures forall c :: c in r <==> c in s && EdgeCornerScore(c) == k
  {
    if s == [] then []
    else
      var rest := ScoreFilter(s[1..], k);
      assert forall c :: c in s <==> c == s[0] || c in s[1..];
      if EdgeCornerScore(s[0]) == k then [s[0]] + rest else rest
  }

  /** Filtering a list in scan order keeps it in scan order. */
  lemma {:induction false} ScoreFilterScanOrdered(s: seq<Coordinate>, k: nat)
    requires ScanOrdered(s)
    ensures ScanOrdered(ScoreFilter(s, k))
  {
    if s != [] {
      var rest := ScoreFilter(s[1..], k);
      assert ScanOrdered(s[1..]);
      ScoreFilterScanOrdered(s[1..], k);
      forall c | c in rest
        ensures IndexOf(s[0]) < IndexOf(c)
      {
        var i :| 0 <= i < |s[1..]| && s[1..][i] == c;
        assert s[i + 1] == c;
      }
    }
  }

  /** Filtering a list with a head: the head, when it scores k, then the filtered tail. */
  lemma ScoreFilterCons(h: Coordinate, t: seq<Coordinate>, k: nat)
    ensures EdgeCornerScore(h) == k ==> ScoreFilter([h] + t, k) == [h] + ScoreFilter(t, k)
    ensures EdgeCornerScore(h) != k ==> ScoreFilter([h] + t, k) == ScoreFilter(t, k)
  {
    assert ([h] + t)[0] == h;
    assert ([h] + t)[1..] == t;
  }

  /** A list with no square scoring k filters to nothing. */
  lemma {:induction false} ScoreFilterNone(s: seq<Coordinate>, k: nat)
    requires forall c :: c in s ==> EdgeCornerScore(c) != k
    ensures ScoreFilter(s, k) == []
  {
    if s != [] {
      assert s == [s[0]] + s[1..];
      assert forall c :: c in s[1..] ==> c in s;
      ScoreFilterNone(s[1..], k);
      ScoreFilterCons(s[0], s[1..], k);
    }
  }

  /** Filtering distributes over concatenation. */
  lemma {:induction false} ScoreFilterAppend(a: seq<Coordinate>, b: seq<Coordinate>)
    ensures forall k :: ScoreFilter(a + b, k) == ScoreFilter(a, k) + ScoreFilter(b, k)
  {
    if a == [] {
      assert a + b == b;
    } else {
      assert a + b == [a[0]] + (a[1..] + b);
      assert a == [a[0]] + a[1..];
      ScoreFilterAppend(a[1..], b);
      forall k
        ensures ScoreFilter(a + b, k) == ScoreFilter(a, k) + ScoreFilter(b, k)
      {
        ScoreFilterCons(a[0], a[1..] + b, k);
        ScoreFilterCons(a[0], a[1..], k);
      }
    }
  }

  /** The tail of a descending list is descending and scores no more than its head. */
  lemma DescendingTail(r: seq<Coordinate>)
    requires ScoreDescending(r)
    requires r != []
    ensures ScoreDescending(r[1..])
    ensures forall c :: c in r[1..] ==> EdgeCornerScore(c) <= EdgeCornerScore(r[0])
  {
    var t := r[1..];
    forall i, j | 0 <= i < j < |t|
      ensures EdgeCornerScore(t[i]) >= EdgeCornerScore(t[j])
    {
      assert t[i] == r[i + 1] && t[j] == r[j + 1];
    }
    forall c | c in t
      ensures EdgeCornerScore(c) <= EdgeCornerScore(r[0])
    {
      var i :| 0 <= i < |t| && t[i] == c;
      assert r[i + 1] == c;
    }
  }

  /** A list in descending score order is its squares scoring 2, then 1, then 0. */
  lemma {:induction false} DescendingSplit(r: seq<Coordinate>)
    requires ScoreDescending(r)
    ensures r == ScoreFilter(r, 2) + ScoreFilter(r, 1) + ScoreFilter(r, 0)
  {
    if r != [] {
      var h, t := r[0], r[1..];
      assert r == [h] + t;
      DescendingTail(r);
      DescendingSplit(t);
      SplitCons(h, t);
    }
  }

  /** A head scoring at least as much as every square of a split tail joins the split at its class. */
  lemma SplitCons(h: Coordinate, t: seq<Coordinate>)
    requires t == ScoreFilter(t, 2) + ScoreFilter(t, 1) + ScoreFilter(t, 0)
    requires forall c :: c in t ==> EdgeCornerScore(c) <= EdgeCornerScore(h)
    ensures [h] + t == ScoreFilter([h] + t, 2) + ScoreFilter([h] + t, 1) + ScoreFilter([h] + t, 0)
  {
    ScoreFilterCons(h, t, 0);
    ScoreFilterCons(h, t, 1);
    ScoreFilterCons(h, t, 2);
    if EdgeCornerScore(h) < 2 {
      ScoreFilterNone(t, 2);
    }
    if EdgeCornerScore(h) < 1 {
      ScoreFilterNone(t, 1);
    }
    ConsJoin(h, ScoreFilter(t, 2), ScoreFilter(t, 1), ScoreFilter(t, 0));
  }

  /** The head joins the first, second or third part of a three-part list. */
  lemma ConsJoin(h: Coordinate, a: seq<Coordinate>, b: seq<Coordinate>, c: seq<Coordinate>)
    ensures [h] + (a + b + c) == ([h] + a) + b + c
    ensures a == [] ==> [h] + (a + b + c) == a + ([h] + b) + c
    ensures a == [] && b == [] ==> [h] + (a + b + c) == a + b + ([h] + c)
  {
  }

  /** Puts c after every square of a descending list that scores at least as much as c. */
  function InsertByScore(c: Coordinate, s: seq<Coordinate>): (r: seq<Coordinate>)
    requires ScoreDescending(s)
    ensures multiset(r) == multiset(s) + multiset{c}
    ensures ScoreDescending(r)
  {
    if s == [] then [c]
    else if EdgeCornerScore(c) > EdgeCornerScore(s[0]) then
      ConsDescending(c, s);
      [c] + s
    else
      assert s == [s[0]] + s[1..];
      DescendingTail(s);
      var rest := InsertByScore(c, s[1..]);
      assert forall x :: x in rest ==> EdgeCornerScore(x) <= EdgeCornerScore(s[0]) by {
        forall x | x in rest
          ensures EdgeCornerScore(x) <= EdgeCornerScore(s[0])
        {
          assert x in multiset(rest);
          assert x == c || x in multiset(s[1..]);
        }
      }
      ConsDescending(s[0], rest);
      [s[0]] + rest
  }

  /** Insertion is stable: each score class gains c at its end and keeps its order. */
  lemma InsertByScoreStable(c: Coordinate, s: seq<Coordinate>)
    requires ScoreDescending(s)
    ensures forall k :: ScoreFilter(InsertByScore(c, s), k) ==
                          ScoreFilter(s, k) + (if EdgeCornerScore(c) == k then [c] else [])
  {
    forall k
      ensures ScoreFilter(InsertByScore(c, s), k) == ScoreFilter(s, k) + (if EdgeCornerScore(c) == k then [c] else [])
    {
      InsertByScoreStableAt(c, s, k);
    }
  }

  /** Score class k of an insertion: class k of s, followed by c when c scores k. */
  lemma {:induction false} InsertByScoreStableAt(c: Coordinate, s: seq<Coordinate>, k: nat)
    requires ScoreDescending(s)
    ensures ScoreFilter(InsertByScore(c, s), k) == ScoreFilter(s, k) + (if EdgeCornerScore(c) == k then [c] else [])
  {
    if s == [] {
      assert [c] == [c] + [];
      ScoreFilterCons(c, [], k);
    } else if EdgeCornerScore(c) > EdgeCornerScore(s[0]) {
      DescendingTail(s);
      assert forall x :: x in s ==> x == s[0] || x in s[1..];
      InsertInFront(c, s, k);
    } else {
      DescendingTail(s);
      assert s == [s[0]] + s[1..];
      InsertByScoreStableAt(c, s[1..], k);
      InsertBehind(s[0], s[1..], InsertByScore(c, s[1..]), if EdgeCornerScore(c) == k then [c] else [], k);
    }
  }

  /** Putting c in front of squares that all score less adds c at the end of its class. */
  lemma InsertInFront(c: Coordinate, s: seq<Coordinate>, k: nat)
    requires forall x :: x in s ==> EdgeCornerScore(x) < EdgeCornerScore(c)
    ensures ScoreFilter([c] + s, k) == ScoreFilter(s, k) + (if EdgeCornerScore(c) == k then [c] else [])
  {
    ScoreFilterCons(c, s, k);
    if EdgeCornerScore(c) == k {
      ScoreFilterNone(s, k);
    }
  }

  /** A head kept in front of both sides of a class equation keeps it. */
  lemma InsertBehind(h: Coordinate, t: seq<Coordinate>, rest: seq<Coordinate>, extra: seq<Coordinate>, k: nat)
    requires ScoreFilter(rest, k) == ScoreFilter(t, k) + extra
    ensures ScoreFilter([h] + rest, k) == ScoreFilter([h] + t, k) + extra
  {
    ScoreFilterCons(h, rest, k);
    ScoreFilterCons(h, t, k);
    Assoc([h], ScoreFilter(t, k), extra);
  }

  lemma Assoc(a: seq<Coordinate>, b: seq<Coordinate>, c: seq<Coordinate>)
    ensures a + (b + c) == (a + b) + c
  {
  }

  /**
   * sortBest(positions:): the positions reordered so that edgeCornerScore
   * never increases, keeping the input order among equal scores as Swift's
   * stable `sorted(by:)` does: the squares scoring 2, then 1, then 0.
   */
  function SortBest(positions: seq<Coordinate>): (r: seq<Coordinate>)
    ensures multiset(r) == multiset(positions)
    ensures ScoreDescending(r)
    ensures forall k :: ScoreFilter(r, k) == ScoreFilter(positions, k)
    ensures r == ScoreFilter(positions, 2) + ScoreFilter(positions, 1) + ScoreFilter(positions, 0)
  {
    if positions == [] then []
    else
      var prefix := positions[..|positions| - 1];
      var last := positions[|positions| - 1];
      assert positions == prefix + [last];
      var sorted := SortBest(prefix);
      InsertByScoreStable(last, sorted);
      ScoreFilterAppend(prefix, [last]);
      assert forall k :: ScoreFilter([last], k) == (if EdgeCornerScore(last) == k then [last] else []) by {
        assert [last] == [last] + [];
        forall k
          ensures ScoreFilter([last], k) == (if EdgeCornerScore(last) == k then [last] else [])
        {
          ScoreFilterCons(last, [], k);
        }
      }
      var r := InsertByScore(last, sorted);
      DescendingSplit(r);
      r
  }

  /** A list whose squares all score k is its own class k. */
  lemma {:induction false} ScoreFilterAll(s: seq<Coordinate>, k: nat)
    requires forall c :: c in s ==> EdgeCornerScore(c) == k
    ensures ScoreFilter(s, k) == s
  {
    if s != [] {
      assert s == [s[0]] + s[1..];
      ScoreFilterAll(s[1..], k);
      ScoreFilterCons(s[0], s[1..], k);
    }
  }

  /** Squares that all score the same come out of sortBest in their input order. */
  lemma SortBestTied(s: seq<Coordinate>, k: nat)
    requires forall c :: c in s ==> EdgeCornerScore(c) == k
    ensures SortBest(s) == s
  {
    ScoreFilterAll(s, k);
    if k != 0 { ScoreFilterNone(s, 0); }
    if k != 1 { ScoreFilterNone(s, 1); }
    if k != 2 { ScoreFilterNone(s, 2); }
    if k > 2 {
      assert |multiset(SortBest(s))| == |s|;
    }
  }

  /**
   * m is a move the computer may pick: legal, flipping as many discs as any
   * legal move, and scoring best on edges and corners among those.
   */
  ghost predicate IsBestMove(g: Grid, coin: Coin, m: Coordinate) {
    && IsLegalMove(g, coin, m)
    && (forall c :: IsLegalMove(g, coin, c) ==> |TileFlips(g, coin, c)| <= |TileFlips(g, coin, m)|)
    && (forall c :: IsLegalMove(g, coin, c) && |TileFlips(g, coin, c)| == |TileFlips(g, coin, m)| ==>
                      EdgeCornerScore(c) <= EdgeCornerScore(m))
  }

  /**
   * m is the move computerCalculateMove plays: a best move, and the first one
   * in the order of Coordinate.all() among all best moves.
   */
  ghost predicate IsChosenMove(g: Grid, coin: Coin, m: Coordinate) {
    IsBestMove(g, coin, m) && forall c :: IsBestMove(g, coin, c) ==> IndexOf(m) <= IndexOf(c)
  }

  /** At most one square is the chosen move. */
  lemma ChosenMoveUnique(g: Grid, coin: Coin, m: Coordinate, m': Coordinate)
    requires IsChosenMove(g, coin, m) && IsChosenMove(g, coin, m')
    ensures m == m'
  {
    IndexOfInjective(m, m');
  }

  /** The state after queryTotals() and then nextTurn() on the tiles g. */
  function Settle(g: Grid, s: GameState): GameState {
    var s1 := TotalsOf(g, false, s);
    if Stalemate(g) then TotalsOf(g, true, s1) else s1
  }

  /**
   * The turns the computer plays from board b0 with t to move, the human
   * playing h and the state s, when it plays the squares moves in that order
   * and ends with board b, side to move t1 and state s1. With no legal move
   * it only ends the game. Otherwise each square is a best move; after each
   * one queryTotals and nextTurn run, and the computer goes on until the
   * human is to move.
   */
  ghost predicate ComputerRun(b0: Board, t: Coin, h: Coin, s: GameState, moves: seq<Coordinate>,
                              b: Board, t1: Coin, s1: GameState)
    decreases |moves|
  {
    if moves == [] then
      !HasLegalMoves(b0.tiles, t) && b == b0 && t1 == t && s1 == TotalsOf(b0.tiles, true, s)
    else
      var g := Placed(b0.tiles, t, moves[0]);
      && IsChosenMove(b0.tiles, t, moves[0])
      && if NextMover(g, t) == h then
           moves[1..] == [] && b == Board(g, {}) && t1 == h && s1 == Settle(g, s)
         else
           ComputerRun(Board(g, {}), NextMover(g, t), h, Settle(g, s), moves[1..], b, t1, s1)
  }

  /** A computer run hands the move to the human or ends the game. */
  lemma {:induction false} ComputerRunEnds(b0: Board, t: Coin, h: Coin, s: GameState, moves: seq<Coordinate>,
                                           b: Board, t1: Coin, s1: GameState)
    requires ComputerRun(b0, t, h, s, moves, b, t1, s1)
    ensures t1 == h || s1.End?
    decreases |moves|
  {
    if moves == [] {
      NoMovesLeftEnds(b0.tiles, s);
    } else {
      var g := Placed(b0.tiles, t, moves[0]);
      if NextMover(g, t) != h {
        ComputerRunEnds(Board(g, {}), NextMover(g, t), h, Settle(g, s), moves[1..], b, t1, s1);
      }
    }
  }

  /** Every move of a computer run fills one empty square. */
  lemma {:induction false} ComputerRunEmpties(b0: Board, t: Coin, h: Coin, s: GameState, moves: seq<Coordinate>,
                                              b: Board, t1: Coin, s1: GameState)
    requires ComputerRun(b0, t, h, s, moves, b, t1, s1)
    ensures CountTiles(b.tiles, Empty) + |moves| == CountTiles(b0.tiles, Empty)
    decreases |moves|
  {
    if moves != [] {
      var g := Placed(b0.tiles, t, moves[0]);
      PlacedCounts(b0.tiles, t, moves[0]);
      if NextMover(g, t) != h {
        ComputerRunEmpties(Board(g, {}), NextMover(g, t), h, Settle(g, s), moves[1..], b, t1, s1);
      }
    }
  }

  /**
   * The start decides the whole computer run: the squares played and the
   * final board, turn and state.
   */
  lemma {:induction false} ComputerRunDeterministic(b0: Board, t: Coin, h: Coin, s: GameState,
                                                    moves: seq<Coordinate>, b: Board, t1: Coin, s1: GameState,
                                                    moves': seq<Coordinate>, b': Board, t1': Coin, s1': GameState)
    requires ComputerRun(b0, t, h, s, moves, b, t1, s1)
    requires ComputerRun(b0, t, h, s, moves', b', t1', s1')
    ensures moves == moves' && b == b' && t1 == t1' && s1 == s1'
    decreases |moves|
  {
    if moves != [] {
      ChosenMoveUnique(b0.tiles, t, moves[0], moves'[0]);
      var g := Placed(b0.tiles, t, moves[0]);
      if NextMover(g, t) != h {
        ComputerRunDeterministic(Board(g, {}), NextMover(g, t), h, Settle(g, s),
                                 moves[1..], b, t1, s1, moves'[1..], b', t1', s1');
      }
      HeadTailEqual(moves, moves');
    }
  }

  lemma HeadTailEqual(a: seq<Coordinate>, b: seq<Coordinate>)
    requires a != [] && b != [] && a[0] == b[0] && a[1..] == b[1..]
    ensures a == b
  {
    assert a == [a[0]] + a[1..] && b == [b[0]] + b[1..];
  }

  /**
   * The choice computerCalculateMove makes: the largest key of
   * computerMoveSearch, then the first of its bucket after sortBest.
   * Found exactly when coin can move; the move flips as many discs as any
   * legal move, has the best edgeCornerScore among those, and comes first in
   * the order of Coordinate.all() among the squares that tie on both.
   */
  method BestMove(g: Grid, coin: Coin) returns (found: bool, best: Coordinate)
    ensures found <==> HasLegalMoves(g, coin)
    ensures found ==> IsChosenMove(g, coin, best)
  {
    var moves := ComputerMoveSearch(g, coin);
    var bestKey;
    found, bestKey := MaxKey(moves.Keys);
    best := Coordinate(0, 0);
    if !found {
      return;
    }
    var bestMoves := moves[bestKey];
    var sorted := SortBest(bestMoves);
    assert bestMoves[0] in multiset(sorted);
    best := sorted[0];
    TopBucketHeadChosen(g, coin, bestKey);
  }

  /** The first square of the largest bucket after sortBest is the chosen move. */
  lemma TopBucketHeadChosen(g: Grid, coin: Coin, top: int)
    requires forall k :: Bucket(g, coin, k, AllCoordinates()) != [] ==> k <= top
    requires SortBest(Bucket(g, coin, top, AllCoordinates())) != []
    ensures IsChosenMove(g, coin, SortBest(Bucket(g, coin, top, AllCoordinates()))[0])
  {
    var bucket := Bucket(g, coin, top, AllCoordinates());
    var sorted := SortBest(bucket);
    var best := sorted[0];
    assert best in multiset(bucket);
    forall c | c in bucket
      ensures EdgeCornerScore(c) <= EdgeCornerScore(best)
    {
      assert c in multiset(sorted);
    }
    BestOfTopBucket(g, coin, top, best);
    FirstOfSorted(bucket, sorted);
    AllCoordinatesScanOrdered();
    BucketScanOrdered(g, coin, top, AllCoordinates());
    ScoreFilterScanOrdered(bucket, EdgeCornerScore(best));
    FirstBestIsChosen(g, coin, top, best);
  }

  /** The head of the 2/1/0 arrangement is the first square of its own score class. */
  lemma FirstOfSorted(s: seq<Coordinate>, r: seq<Coordinate>)
    requires r == ScoreFilter(s, 2) + ScoreFilter(s, 1) + ScoreFilter(s, 0)
    requires r != []
    ensures ScoreFilter(s, EdgeCornerScore(r[0])) != []
    ensures r[0] == ScoreFilter(s, EdgeCornerScore(r[0]))[0]
  {
    var f2, f1, f0 := ScoreFilter(s, 2), ScoreFilter(s, 1), ScoreFilter(s, 0);
    if f2 != [] {
      assert r[0] == f2[0] && f2[0] in f2;
    } else if f1 != [] {
      assert r == f1 + f0;
      assert r[0] == f1[0] && f1[0] in f1;
    } else {
      assert r == f0;
      assert r[0] in f0;
    }
  }

  /**
   * A best move that heads its score class within the largest bucket, that
   * class listed in scan order, comes first in scan order among all best moves.
   */
  lemma FirstBestIsChosen(g: Grid, coin: Coin, top: int, best: Coordinate)
    requires forall k :: Bucket(g, coin, k, AllCoordinates()) != [] ==> k <= top
    requires IsBestMove(g, coin, best)
    requires best in Bucket(g, coin, top, AllCoordinates())
    requires ScoreFilter(Bucket(g, coin, top, AllCoordinates()), EdgeCornerScore(best)) != []
    requires best == ScoreFilter(Bucket(g, coin, top, AllCoordinates()), EdgeCornerScore(best))[0]
    requires ScanOrdered(ScoreFilter(Bucket(g, coin, top, AllCoordinates()), EdgeCornerScore(best)))
    ensures IsChosenMove(g, coin, best)
  {
    var f := ScoreFilter(Bucket(g, coin, top, AllCoordinates()), EdgeCornerScore(best));
    forall c | IsBestMove(g, coin, c)
      ensures IndexOf(best) <= IndexOf(c)
    {
      AllCoordinatesComplete(c);
      assert c in f;
      var i :| 0 <= i < |f| && f[i] == c;
    }
  }

  /**
   * A square of the largest non-empty bucket that scores at least as much as
   * every other square of that bucket is a legal move, flips as many discs as
   * any legal move, and wins every tie on the edge and corner score.
   */
  lemma BestOfTopBucket(g: Grid, coin: Coin, top: int, best: Coordinate)
    requires forall k :: Bucket(g, coin, k, AllCoordinates()) != [] ==> k <= top
    requires best in Bucket(g, coin, top, AllCoordinates())
    requires forall c :: c in Bucket(g, coin, top, AllCoordinates()) ==> EdgeCornerScore(c) <= EdgeCornerScore(best)
    ensures IsLegalMove(g, coin, best)
    ensures forall c :: IsLegalMove(g, coin, c) ==> |TileFlips(g, coin, c)| <= |TileFlips(g, coin, best)|
    ensures forall c :: IsLegalMove(g, coin, c) && |TileFlips(g, coin, c)| == |TileFlips(g, coin, best)| ==>
                          EdgeCornerScore(c) <= EdgeCornerScore(best)
  {
    forall c | IsLegalMove(g, coin, c)
      ensures |TileFlips(g, coin, c)| <= |TileFlips(g, coin, best)|
      ensures |TileFlips(g, coin, c)| == |TileFlips(g, coin, best)| ==> EdgeCornerScore(c) <= EdgeCornerScore(best)
    {
      AllCoordinatesComplete(c);
      assert c in Bucket(g, coin, |TileFlips(g, coin, c)|, AllCoordinates());
    }
  }

  /**
   * The largest key, if any (the `sorted().reversed().first` of
   * computerCalculateMove, which is nil for an empty dictionary).
   */
  method MaxKey(keys: set<int>) returns (found: bool, m: int)
    ensures found <==> exists k :: k in keys
    ensures found ==> m in keys && forall k :: k in keys ==> k <= m
  {
    found, m := false, 0;
    var rest := keys;
    while true
      invariant rest <= keys
      invariant found ==> m in keys
      invariant forall k :: k in keys && k !in rest ==> found && k <= m
      decreases |rest|
    {
      if k :| k in rest {
        if !found || k > m {
          found, m := true, k;
        }
        rest := rest - {k};
      } else {
        break;
      }
    }
  }

  /** A dictionary is empty (`isEmpty`) exactly when no key is in it. */
  lemma MapEmpty(m: map<int, seq<Coordinate>>)
    ensures m == map[] <==> !exists k :: k in m
  {
    if k :| k in m {
    } else {
      assert forall k :: k !in m;
    }
  }

  /** Game: the board, the game state, the side to move and the human's colour. */
  class Game {
    var board: Board
    var state: GameState
    var turn: Coin
    var human: Coin

    /** init(human:): the opening position with black to move. */
    constructor(human: Coin := Black)
      ensures board == DefaultBoard() && state == Normal && turn == Black && this.human == human
    {
      board := DefaultBoard();
      state := Normal;
      turn := Black;
      this.human := human;
    }

    /** init(customBoard:): the given board, black to move and black played by the human. */
    constructor WithCustomBoard(customBoard: Board)
      ensures board == customBoard && state == Normal && turn == Black && human == Black
    {
      board := customBoard;
      state := Normal;
      turn := Black;
      human := Black;
    }

    /** reset(): back to the opening position, black to move, state normal. */
    method Reset()
      modifies this
      ensures board == DefaultBoard() && turn == Black && state == Normal && human == old(human)
    {
      board := DefaultBoard();
      turn := Black;
      state := Normal;
    }

    /** queryTotals(noMovesLeft:): counts the tiles and records the verdict. */
    method QueryTotals(noMovesLeft: bool)
      modifies this
      ensures state == TotalsOf(board.tiles, noMovesLeft, old(state))
      ensures board == old(board) && turn == old(turn) && human == old(human)
    {
      var empty := GetCount(board.tiles, Empty);
      var black := GetCount(board.tiles, Occupied(Black));
      var white := GetCount(board.tiles, Occupied(White));
      if empty == 0 || noMovesLeft {
        var winner := if black > white then Black else White;
        state := End(winner);
      }
      if black == 0 {
        state := End(White);
      }
      if white == 0 {
        state := End(Black);
      }
    }

    /**
     * nextTurn(): hands the move to the opponent, back to the mover when the
     * opponent has no move, and ends the game when neither side can move.
     */
    method NextTurn()
      modifies this
      ensures turn == NextMover(board.tiles, old(turn))
      ensures state == if Stalemate(board.tiles) then TotalsOf(board.tiles, true, old(state)) else old(state)
      ensures board == old(board) && human == old(human)
    {
      turn := Opposite(turn);
      var possibleMoves := ComputerMoveSearch(board.tiles, turn);
      MapEmpty(possibleMoves);
      if possibleMoves == map[] {
        OppositeInvolution(turn);
        turn := Opposite(turn);
        var nextPossibleMoves := ComputerMoveSearch(board.tiles, turn);
        MapEmpty(nextPossibleMoves);
        if nextPossibleMoves == map[] {
          QueryTotals(true);
        }
      }
    }

    /** moveIsLegal(at:): the side to move may play at pos. */
    function MoveIsLegal(pos: Coordinate): (r: bool)
      reads this
      ensures r <==> Outflanks(board.tiles, turn, pos)
    {
      IsLegalMove(board.tiles, turn, pos)
    }

    /**
     * executeMove(at:): plays pos for the side to move. A failed placement
     * records the error and changes nothing else. A legal one is followed by
     * queryTotals and nextTurn; when the human is then to move the call
     * returns with that position, otherwise the computer replies, so on
     * return the human is to move or the game is over. The ghost result
     * replies lists the squares of the computer's reply.
     */
    method ExecuteMove(pos: Coordinate) returns (ghost replies: seq<Coordinate>)
      modifies this
      decreases CountTiles(board.tiles, Empty), 1
      ensures human == old(human)
      ensures At(old(board.tiles), pos) != Empty ==>
                state == Error(TileAlreadyOccupied) && board == old(board) && turn == old(turn)
      ensures At(old(board.tiles), pos) == Empty && !IsLegalMove(old(board.tiles), old(turn), pos) ==>
                state == Error(IllegalMove) && board == old(board) && turn == old(turn)
      ensures IsLegalMove(old(board.tiles), old(turn), pos) ==>
                && CountTiles(board.tiles, Empty) < old(CountTiles(board.tiles, Empty))
                && (turn == human || state.End?)
      ensures var g := Placed(old(board.tiles), old(turn), pos);
              IsLegalMove(old(board.tiles), old(turn), pos) && NextMover(g, old(turn)) == human ==>
                && replies == []
                && board == Board(g, {})
                && turn == human
                && state == Settle(g, old(state))
      ensures var g := Placed(old(board.tiles), old(turn), pos);
              var c := NextMover(g, old(turn));
              IsLegalMove(old(board.tiles), old(turn), pos) && c != human ==>
                ComputerRun(Board(g, {}), c, human, Settle(g, old(state)), replies, board, turn, state)
      ensures !IsLegalMove(old(board.tiles), old(turn), pos) ==> replies == []
    {
      replies := [];
      var r := Place(board, turn, pos);
      if r.Failure? {
        state := Error(r.error);
        return;
      }
      PlacedCounts(board.tiles, turn, pos);
      board := r.value;
      QueryTotals(false);
      NextTurn();
      if turn != human {
        replies := ComputerCalculateMove();
      }
    }

    /**
     * computerCalculateMove(): plays the move BestMove chooses for the side to
     * move, or, when there is none, ends the game through queryTotals. The
     * ghost result replies lists the squares the computer played, through
     * executeMove, until the human was to move.
     */
    method ComputerCalculateMove() returns (ghost replies: seq<Coordinate>)
      modifies this
      decreases CountTiles(board.tiles, Empty), 2
      ensures human == old(human)
      ensures !HasLegalMoves(old(board.tiles), old(turn)) ==>
                && board == old(board) && turn == old(turn)
                && state == TotalsOf(board.tiles, true, old(state))
      ensures HasLegalMoves(old(board.tiles), old(turn)) ==>
                CountTiles(board.tiles, Empty) < old(CountTiles(board.tiles, Empty))
      ensures ComputerRun(old(board), old(turn), human, old(state), replies, board, turn, state)
      ensures turn == human || state.End?
    {
      var found, bestMove := BestMove(board.tiles, turn);
      if !found {
        QueryTotals(true);
        return [];
      }
      var rest := ExecuteMove(bestMove);
      replies := [bestMove] + rest;
      assert replies[1..] == rest;
    }

    /** dismissError(): back to the normal state. */
    method DismissError()
      modifies this
      ensures state == Normal
      ensures board == old(board) && turn == old(turn) && human == old(human)
    {
      state := Normal;
    }
  }
}
