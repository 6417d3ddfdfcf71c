/**
 * The positions the repository's tests are built on (ReversiTestHelpers.swift)
 * and the outcomes its tests expect of them, derived from the model.
 */
module Fixtures {
  import opened Wrappers
  import opened Geometry
  import opened Tiles
  import opened Flips
  import opened Boards
  import opened Games
  import opened TextBoard

  const C4 := Coordinate(2, 3)
  const H4 := Coordinate(7, 3)

  const E := Empty
  const B := Occupied(Black)
  const W := Occupied(White)

  /** The tiles of testAccumulationString, rank 1 first (the text's last line). */
  const AccumulationGrid: Grid := [
    [E, E, E, E, E, E, E, E],
    [E, E, E, E, B, E, E, E],
    [E, E, E, W, B, E, E, E],
    [E, E, E, W, B, E, E, E],
    [E, E, W, B, B, B, E, E],
    [E, E, B, E, E, E, E, E],
    [E, E, E, E, E, E, E, E],
    [E, E, E, E, E, E, E, E]
  ]

  /** testAccumulationString holds 3 white discs: c5, d4 and d3. */
  lemma AccumulationWhiteCount()
    ensures CountTiles(AccumulationGrid, Occupied(White)) == 3
  {
    assert Positions(AccumulationGrid, W) == {Coordinate(2, 4), Coordinate(3, 3), Coordinate(3, 2)};
    PositionsCount(AccumulationGrid, W);
  }

  /** The black discs of testAccumulationString: c6, d5, e5, f5, e4, e3 and e2. */
  const AccumulationBlack: set<Coordinate> :=
    {Coordinate(2, 5), Coordinate(3, 4), Coordinate(4, 4), Coordinate(5, 4),
     Coordinate(4, 3), Coordinate(4, 2), Coordinate(4, 1)}

  /** Every black disc of testAccumulationString is one of the seven. */
  lemma AccumulationBlackSquare(c: Coordinate)
    requires At(AccumulationGrid, c) == B
    ensures c in AccumulationBlack
  {
  }

  /** testAccumulationString holds 7 black discs. */
  lemma AccumulationBlackCount()
    ensures CountTiles(AccumulationGrid, Occupied(Black)) == 7
  {
    forall c
      ensures At(AccumulationGrid, c) == B <==> c in AccumulationBlack
    {
      if At(AccumulationGrid, c) == B {
        AccumulationBlackSquare(c);
      }
    }
    CountBySquares(AccumulationGrid, B, AccumulationBlack);
  }

  /** ... and so 54 empty squares. */
  lemma AccumulationCounts()
    ensures CountTiles(AccumulationGrid, Occupied(Black)) == 7
    ensures CountTiles(AccumulationGrid, Occupied(White)) == 3
    ensures CountTiles(AccumulationGrid, Empty) == 54
  {
    AccumulationWhiteCount();
    AccumulationBlackCount();
    CountTilesPartition(AccumulationGrid);
  }

  /** A walk that meets one opposing disc and then one of coin's captures exactly that disc. */
  lemma CaptureOne(g: Grid, coin: Coin, d: Direction, pos: Coordinate, n: Coordinate)
    requires Next(d, pos) == Some(n) && At(g, n) == Occupied(Opposite(coin))
    requires Accumulate(g, coin, d, n) == Some([])
    ensures Accumulate(g, coin, d, pos) == Some([n])
  {
    var none: seq<Coordinate> := [];
    assert none + [n] == [n];
  }

  /** The flatMap of getTileFlips, one direction at a time. */
  lemma FlipsAlongStep(g: Grid, coin: Coin, pos: Coordinate, ds: seq<Direction>, i: nat)
    requires i < |ds|
    ensures FlipsAlong(g, coin, pos, ds[i..]) == Accumulate(g, coin, ds[i], pos).GetOr([]) + FlipsAlong(g, coin, pos, ds[i + 1..])
  {
    assert ds[i..][1..] == ds[i + 1..];
  }

  /** getTileFlips written out: the captures of the eight walks, in Direction.allCases order. */
  lemma FlipsOfEight(g: Grid, coin: Coin, pos: Coordinate)
    ensures TileFlips(g, coin, pos) ==
              Accumulate(g, coin, North, pos).GetOr([]) + (Accumulate(g, coin, NorthEast, pos).GetOr([]) +
              (Accumulate(g, coin, East, pos).GetOr([]) + (Accumulate(g, coin, SouthEast, pos).GetOr([]) +
              (Accumulate(g, coin, South, pos).GetOr([]) + (Accumulate(g, coin, SouthWest, pos).GetOr([]) +
              (Accumulate(g, coin, West, pos).GetOr([]) + Accumulate(g, coin, NorthWest, pos).GetOr([])))))))
  {
    var ds := AllDirections;
    var f0 := FlipsAlong(g, coin, pos, ds[0..]);
    var f1 := FlipsAlong(g, coin, pos, ds[1..]);
    var f2 := FlipsAlong(g, coin, pos, ds[2..]);
    var f3 := FlipsAlong(g, coin, pos, ds[3..]);
    var f4 := FlipsAlong(g, coin, pos, ds[4..]);
    var f5 := FlipsAlong(g, coin, pos, ds[5..]);
    var f6 := FlipsAlong(g, coin, pos, ds[6..]);
    var f7 := FlipsAlong(g, coin, pos, ds[7..]);
    assert f7 == Accumulate(g, coin, NorthWest, pos).GetOr([]) by {
      FlipsAlongStep(g, coin, pos, ds, 7);
      assert ds[8..] == [];
    }
    assert f6 == Accumulate(g, coin, West, pos).GetOr([]) + f7 by {
      FlipsAlongStep(g, coin, pos, ds, 6);
    }
    assert f5 == Accumulate(g, coin, SouthWest, pos).GetOr([]) + f6 by {
      FlipsAlongStep(g, coin, pos, ds, 5);
    }
    assert f4 == Accumulate(g, coin, South, pos).GetOr([]) + f5 by {
      FlipsAlongStep(g, coin, pos, ds, 4);
    }
    assert f3 == Accumulate(g, coin, SouthEast, pos).GetOr([]) + f4 by {
      FlipsAlongStep(g, coin, pos, ds, 3);
    }
    assert f2 == Accumulate(g, coin, East, pos).GetOr([]) + f3 by {
      FlipsAlongStep(g, coin, pos, ds, 2);
    }
    assert f1 == Accumulate(g, coin, NorthEast, pos).GetOr([]) + f2 by {
      FlipsAlongStep(g, coin, pos, ds, 1);
    }
    assert f0 == Accumulate(g, coin, North, pos).GetOr([]) + f1 by {
      FlipsAlongStep(g, coin, pos, ds, 0);
    }
    assert TileFlips(g, coin, pos) == f0 by {
      assert ds[0..] == ds;
    }
  }

  /** Walking north from c4, black captures c5 (closed by c6). */
  lemma C4North()
    ensures Accumulate(AccumulationGrid, Black, North, C4) == Some([Coordinate(2, 4)])
  {
    assert Accumulate(AccumulationGrid, Black, North, Coordinate(2, 4)) == Some([]);
    CaptureOne(AccumulationGrid, Black, North, C4, Coordinate(2, 4));
  }

  /** Walking east from c4, black captures d4 (closed by e4). */
  lemma C4East()
    ensures Accumulate(AccumulationGrid, Black, East, C4) == Some([Coordinate(3, 3)])
  {
    assert Accumulate(AccumulationGrid, Black, East, Coordinate(3, 3)) == Some([]);
    CaptureOne(AccumulationGrid, Black, East, C4, Coordinate(3, 3));
  }

  /** Walking south-east from c4, black captures d3 (closed by e2). */
  lemma C4SouthEast()
    ensures Accumulate(AccumulationGrid, Black, SouthEast, C4) == Some([Coordinate(3, 2)])
  {
    assert Accumulate(AccumulationGrid, Black, SouthEast, Coordinate(3, 2)) == Some([]);
    CaptureOne(AccumulationGrid, Black, SouthEast, C4, Coordinate(3, 2));
  }

  /** ... the north-east walk from c4 meets a black disc at once ... */
  lemma C4NorthEast()
    ensures Accumulate(AccumulationGrid, Black, NorthEast, C4) == Some([])
  {
  }

  /** ... the south and south-west walks from c4 meet an empty square ... */
  lemma C4SouthWalks()
    ensures Accumulate(AccumulationGrid, Black, South, C4) == None
    ensures Accumulate(AccumulationGrid, Black, SouthWest, C4) == None
  {
  }

  /** ... and so do the west and north-west walks. */
  lemma C4WestWalks()
    ensures Accumulate(AccumulationGrid, Black, West, C4) == None
    ensures Accumulate(AccumulationGrid, Black, NorthWest, C4) == None
  {
  }

  /** black c4 on testAccumulationString captures c5 (north), d4 (east) and d3 (south-east). */
  lemma C4Flips()
    ensures TileFlips(AccumulationGrid, Black, C4) == [Coordinate(2, 4), Coordinate(3, 3), Coordinate(3, 2)]
  {
    C4North();
    C4NorthEast();
    C4East();
    C4SouthEast();
    C4SouthWalks();
    C4WestWalks();
    NorthEastSouthEastFlips(AccumulationGrid, Black, C4, Coordinate(2, 4), Coordinate(3, 3), Coordinate(3, 2));
  }

  /** The flips of a move that captures one disc north, one east and one south-east, and nothing else. */
  lemma NorthEastSouthEastFlips(g: Grid, coin: Coin, pos: Coordinate, n: Coordinate, e: Coordinate, se: Coordinate)
    requires Accumulate(g, coin, North, pos) == Some([n])
    requires Accumulate(g, coin, NorthEast, pos) == Some([])
    requires Accumulate(g, coin, East, pos) == Some([e])
    requires Accumulate(g, coin, SouthEast, pos) == Some([se])
    requires Accumulate(g, coin, South, pos) == None && Accumulate(g, coin, SouthWest, pos) == None
    requires Accumulate(g, coin, West, pos) == None && Accumulate(g, coin, NorthWest, pos) == None
    ensures TileFlips(g, coin, pos) == [n, e, se]
  {
    FlipsOfEight(g, coin, pos);
  }

  /**
   * testPlacementChanges: black c4 is legal on testAccumulationString and
   * leaves no white disc, 11 black discs and 53 empty squares.
   */
  lemma C4Placement()
    ensures IsLegalMove(AccumulationGrid, Black, C4)
    ensures var p := Placed(AccumulationGrid, Black, C4);
            && CountTiles(p, Occupied(White)) == 0
            && CountTiles(p, Occupied(Black)) == 11
            && CountTiles(p, Empty) == 53
  {
    C4Flips();
    AccumulationCounts();
    PlacedCounts(AccumulationGrid, Black, C4);
  }

  /**
   * testComputerMoveSearch: for black on testAccumulationString the largest
   * flip count is 3, and c4 is in that bucket.
   */
  lemma AccumulationSearch()
    ensures C4 in Bucket(AccumulationGrid, Black, 3, AllCoordinates())
    ensures forall k :: Bucket(AccumulationGrid, Black, k, AllCoordinates()) != [] ==> k <= 3
  {
    C4Placement();
    C4Flips();
    AllCoordinatesComplete(C4);
    AccumulationWhiteCount();
    forall k | Bucket(AccumulationGrid, Black, k, AllCoordinates()) != []
      ensures k <= 3
    {
      var c := Bucket(AccumulationGrid, Black, k, AllCoordinates())[0];
      assert c in Bucket(AccumulationGrid, Black, k, AllCoordinates());
      FlipsAtMostOpponentDiscs(AccumulationGrid, Black, c);
    }
  }

  /**
   * Whichever move the computer picks for black on testAccumulationString
   * (one flipping as many discs as any legal move), the result has no white
   * disc, 11 black discs and 53 empty squares.
   */
  lemma AccumulationComputerMove(best: Coordinate)
    requires IsLegalMove(AccumulationGrid, Black, best)
    requires forall c :: IsLegalMove(AccumulationGrid, Black, c) ==>
                           |TileFlips(AccumulationGrid, Black, c)| <= |TileFlips(AccumulationGrid, Black, best)|
    ensures var p := Placed(AccumulationGrid, Black, best);
            && CountTiles(p, Occupied(White)) == 0
            && CountTiles(p, Occupied(Black)) == 11
            && CountTiles(p, Empty) == 53
  {
    C4Placement();
    C4Flips();
    AccumulationCounts();
    FlipsAtMostOpponentDiscs(AccumulationGrid, Black, best);
    PlacedCounts(AccumulationGrid, Black, best);
  }

  /**
   * testComputerMove: a game on testAccumulationString with black to move;
   * after computerCalculateMove the board totals are 0 white, 11 black and
   * 53 empty. White is then left without discs, so the turn returns to the
   * human (black) and no further move is made.
   */
  method ComputerMoveTotals() returns (white: nat, black: nat, empty: nat)
    ensures white == 0 && black == 11 && empty == 53
  {
    var sut := new Game.WithCustomBoard(Board(AccumulationGrid, {}));
    sut.turn := Black;
    C4Placement();
    ghost var replies := sut.ComputerCalculateMove();
    assert replies != [];
    ghost var m := replies[0];
    AccumulationComputerMove(m);
    NoDiscsNoMoves(Placed(AccumulationGrid, Black, m), White);
    white := GetCount(sut.board.tiles, Occupied(White));
    black := GetCount(sut.board.tiles, Occupied(Black));
    empty := GetCount(sut.board.tiles, Empty);
  }

  /** When no walk from pos captures anything, nothing flips along any list of directions. */
  lemma {:induction false} NoCapturesNoFlips(g: Grid, coin: Coin, pos: Coordinate, ds: seq<Direction>)
    requires forall d :: Accumulate(g, coin, d, pos).GetOr([]) == []
    ensures FlipsAlong(g, coin, pos, ds) == []
  {
    if ds != [] {
      NoCapturesNoFlips(g, coin, pos, ds[1..]);
    }
  }

  /** Every walk from h4 for black on testAccumulationString ends off the board or on an empty square. */
  lemma H4Walks(d: Direction)
    ensures Accumulate(AccumulationGrid, Black, d, H4) == None
  {
  }

  /** Every walk from c4 for white on testAccumulationString meets a white disc first or captures nothing. */
  lemma C4WhiteWalks(d: Direction)
    ensures Accumulate(AccumulationGrid, White, d, C4).GetOr([]) == []
  {
  }

  /** testMoveLegality: neither black h4 nor white c4 is legal on testAccumulationString. */
  lemma AccumulationIllegalMoves()
    ensures !IsLegalMove(AccumulationGrid, Black, H4)
    ensures !IsLegalMove(AccumulationGrid, White, C4)
  {
    forall d ensures Accumulate(AccumulationGrid, Black, d, H4).GetOr([]) == [] {
      H4Walks(d);
    }
    NoCapturesNoFlips(AccumulationGrid, Black, H4, AllDirections);
    forall d ensures Accumulate(AccumulationGrid, White, d, C4).GetOr([]) == [] {
      C4WhiteWalks(d);
    }
    NoCapturesNoFlips(AccumulationGrid, White, C4, AllDirections);
  }

  /** On the standard opening no walk for black from a1 captures anything. */
  lemma StandardWalksA1(d: Direction)
    ensures Accumulate(DefaultBoard().tiles, Black, d, Coordinate(0, 0)).GetOr([]) == []
  {
  }

  /** ... nor any walk for white from f5 ... */
  lemma StandardWalksF5(d: Direction)
    ensures Accumulate(DefaultBoard().tiles, White, d, Coordinate(5, 4)).GetOr([]) == []
  {
  }

  /** ... nor any walk for black from f6 ... */
  lemma StandardWalksF6(d: Direction)
    ensures Accumulate(DefaultBoard().tiles, Black, d, Coordinate(5, 5)).GetOr([]) == []
  {
  }

  /** ... nor any walk for black from f4. */
  lemma StandardWalksF4(d: Direction)
    ensures Accumulate(DefaultBoard().tiles, Black, d, Coordinate(5, 3)).GetOr([]) == []
  {
  }

  /**
   * testPlacementErrors: on the standard opening black a1, white f5, black f6
   * and black f4 are all rejected (so `set` fails on each).
   */
  lemma StandardIllegalMoves()
    ensures !IsLegalMove(DefaultBoard().tiles, Black, Coordinate(0, 0))
    ensures !IsLegalMove(DefaultBoard().tiles, White, Coordinate(5, 4))
    ensures !IsLegalMove(DefaultBoard().tiles, Black, Coordinate(5, 5))
    ensures !IsLegalMove(DefaultBoard().tiles, Black, Coordinate(5, 3))
  {
    var g := DefaultBoard().tiles;
    forall d ensures Accumulate(g, Black, d, Coordinate(0, 0)).GetOr([]) == [] {
      StandardWalksA1(d);
    }
    NoCapturesNoFlips(g, Black, Coordinate(0, 0), AllDirections);
    forall d ensures Accumulate(g, White, d, Coordinate(5, 4)).GetOr([]) == [] {
      StandardWalksF5(d);
    }
    NoCapturesNoFlips(g, White, Coordinate(5, 4), AllDirections);
    forall d ensures Accumulate(g, Black, d, Coordinate(5, 5)).GetOr([]) == [] {
      StandardWalksF6(d);
    }
    NoCapturesNoFlips(g, Black, Coordinate(5, 5), AllDirections);
    forall d ensures Accumulate(g, Black, d, Coordinate(5, 3)).GetOr([]) == [] {
      StandardWalksF4(d);
    }
    NoCapturesNoFlips(g, Black, Coordinate(5, 3), AllDirections);
  }

  /** The lines of testStrStandardSetup, rank 8 first. */
  const EmptyLine: string := [EmptyGlyph, EmptyGlyph, EmptyGlyph, EmptyGlyph, EmptyGlyph, EmptyGlyph, EmptyGlyph, EmptyGlyph]
  const Rank5Line: string := [EmptyGlyph, EmptyGlyph, EmptyGlyph, BlackGlyph, WhiteGlyph, EmptyGlyph, EmptyGlyph, EmptyGlyph]
  const Rank4Line: string := [EmptyGlyph, EmptyGlyph, EmptyGlyph, WhiteGlyph, BlackGlyph, EmptyGlyph, EmptyGlyph, EmptyGlyph]
  const StandardSetupLines: seq<string> :=
    [EmptyLine, EmptyLine, EmptyLine, Rank5Line, Rank4Line, EmptyLine, EmptyLine, EmptyLine]

  /** Each rank of the standard opening renders as the matching line of testStrStandardSetup. */
  lemma StandardRank(i: nat)
    requires i < 8
    ensures RowString(DefaultBoard().tiles[7 - i]) == StandardSetupLines[i]
  {
    var row := DefaultBoard().tiles[7 - i];
    forall j | 0 <= j < 8
      ensures TileRaw(row[j]) == [StandardSetupLines[i][j]]
    {
      assert row[j] == At(DefaultBoard().tiles, Coordinate(j, 7 - i));
    }
    RowStringMatches(row, StandardSetupLines[i]);
  }

  /** testDebugPrint: the standard opening renders as testStrStandardSetup. */
  lemma StandardRender()
    ensures Render(DefaultBoard().tiles) == Join(StandardSetupLines)
  {
    var lines := RenderLines(DefaultBoard().tiles);
    forall i | 0 <= i < 8
      ensures lines[i] == StandardSetupLines[i]
    {
      StandardRank(i);
    }
    assert lines == StandardSetupLines;
  }

  /** testInitFromString's first board: an empty board with white discs set on b1 and c1. */
  function SetupGrid(): (g: Grid)
    ensures forall c :: At(g, c) == if c == Coordinate(1, 0) || c == Coordinate(2, 0) then W else E
  {
    Update(Update(EmptyGrid(), Coordinate(1, 0), W), Coordinate(2, 0), W)
  }

  /** The lines of testStrSetup, rank 8 first. */
  const Rank1Line: string := [EmptyGlyph, WhiteGlyph, WhiteGlyph, EmptyGlyph, EmptyGlyph, EmptyGlyph, EmptyGlyph, EmptyGlyph]
  const SetupLines: seq<string> :=
    [EmptyLine, EmptyLine, EmptyLine, EmptyLine, EmptyLine, EmptyLine, EmptyLine, Rank1Line]

  /** Each rank of SetupGrid renders as the matching line of testStrSetup. */
  lemma SetupRank(i: nat)
    requires i < 8
    ensures RowString(SetupGrid()[7 - i]) == SetupLines[i]
  {
    var row := SetupGrid()[7 - i];
    forall j | 0 <= j < 8
      ensures TileRaw(row[j]) == [SetupLines[i][j]]
    {
      assert row[j] == At(SetupGrid(), Coordinate(j, 7 - i));
    }
    RowStringMatches(row, SetupLines[i]);
  }

  /** testInitFromString: the board with b1 and c1 set renders as testStrSetup. */
  lemma SetupRender()
    ensures Render(SetupGrid()) == Join(SetupLines)
  {
    var lines := RenderLines(SetupGrid());
    forall i | 0 <= i < 8
      ensures lines[i] == SetupLines[i]
    {
      SetupRank(i);
    }
    assert lines == SetupLines;
  }

  /** The lines of testAccumulationString, rank 8 first. */
  const AccumulationLines: seq<string> := [
    EmptyLine,
    EmptyLine,
    [EmptyGlyph, EmptyGlyph, BlackGlyph, EmptyGlyph, EmptyGlyph, EmptyGlyph, EmptyGlyph, EmptyGlyph],
    [EmptyGlyph, EmptyGlyph, WhiteGlyph, BlackGlyph, BlackGlyph, BlackGlyph, EmptyGlyph, EmptyGlyph],
    Rank4Line,
    [EmptyGlyph, EmptyGlyph, EmptyGlyph, WhiteGlyph, BlackGlyph, EmptyGlyph, EmptyGlyph, EmptyGlyph],
    [EmptyGlyph, EmptyGlyph, EmptyGlyph, EmptyGlyph, BlackGlyph, EmptyGlyph, EmptyGlyph, EmptyGlyph],
    EmptyLine
  ]

  /** Each rank of AccumulationGrid renders as the matching line of testAccumulationString. */
  lemma AccumulationRank(i: nat)
    requires i < 8
    ensures RowString(AccumulationGrid[7 - i]) == AccumulationLines[i]
  {
    RowStringMatches(AccumulationGrid[7 - i], AccumulationLines[i]);
  }

  /**
   * testInitFromString: testAccumulationString parses to AccumulationGrid,
   * and that grid's debugString is the text itself.
   */
  lemma AccumulationParse()
    ensures FromText(Join(AccumulationLines)) == Some(AccumulationGrid)
    ensures Render(AccumulationGrid) == Join(AccumulationLines)
  {
    var lines := RenderLines(AccumulationGrid);
    forall i | 0 <= i < 8
      ensures lines[i] == AccumulationLines[i]
    {
      AccumulationRank(i);
    }
    assert lines == AccumulationLines;
    RenderParse(AccumulationGrid);
  }
}
