/**
 * The Board value of Board.swift: its tiles and its cache of stable discs,
 * the opening position, placement with its two errors, and the move queries
 * built on the capture rule.
 */
module Boards {
  import opened Wrappers
  import opened Geometry
  import opened Tiles
  import opened Flips

  datatype Board = Board(tiles: Grid, stableCoins: set<Coordinate>)

  /** Board.GameError. */
  datatype PlaceError = IllegalMove | TileAlreadyOccupied

  /** The squares d4, e5, d5 and e4 of the opening position. */
  const D4 := Coordinate(3, 3)
  const E5 := Coordinate(4, 4)
  const D5 := Coordinate(3, 4)
  const E4 := Coordinate(4, 3)

  /** defaultBoard(): white on d4 and e5, black on d5 and e4, everything else empty, nothing stable. */
  function DefaultBoard(): (b: Board)
    ensures At(b.tiles, D4) == Occupied(White) && At(b.tiles, E5) == Occupied(White)
    ensures At(b.tiles, D5) == Occupied(Black) && At(b.tiles, E4) == Occupied(Black)
    ensures forall c :: c !in {D4, E5, D5, E4} ==> At(b.tiles, c) == Empty
    ensures b.stableCoins == {}
  {
    var g := EmptyGrid();
    var g := Update(g, D4, Occupied(White));
    var g := Update(g, E5, Occupied(White));
    var g := Update(g, D5, Occupied(Black));
    var g := Update(g, E4, Occupied(Black));
    Board(g, {})
  }

  /** The opening position has 60 empty squares, two black and two white discs. */
  lemma DefaultBoardCounts()
    ensures CountTiles(DefaultBoard().tiles, Empty) == 60
    ensures CountTiles(DefaultBoard().tiles, Occupied(Black)) == 2
    ensures CountTiles(DefaultBoard().tiles, Occupied(White)) == 2
  {
    var g0 := EmptyGrid();
    var g1 := Update(g0, D4, Occupied(White));
    var g2 := Update(g1, E5, Occupied(White));
    var g3 := Update(g2, D5, Occupied(Black));
    var g4 := Update(g3, E4, Occupied(Black));
    assert g4 == DefaultBoard().tiles;
    forall t: Tile
      ensures CountTiles(g4, t) ==
              (if t == Empty then 60 else if t == Occupied(Black) || t == Occupied(White) then 2 else 0)
    {
      EmptyGridCounts(t);
      CountUpdate(g0, D4, Occupied(White), t);
      CountUpdate(g1, E5, Occupied(White), t);
      CountUpdate(g2, D5, Occupied(Black), t);
      CountUpdate(g3, E4, Occupied(Black), t);
    }
  }

  /** The tiles after coin is placed at pos: the target and every flipped disc become coin's. */
  function Placed(g: Grid, coin: Coin, pos: Coordinate): (p: Grid)
    ensures forall c :: At(p, c) ==
                        (if c == pos || c in TileFlips(g, coin, pos) then Occupied(coin) else At(g, c))
  {
    ApplyAll(Update(g, pos, Occupied(coin)), TileFlips(g, coin, pos), Occupied(coin))
  }

  /** The flipping loop of set(coin:at:): every square of flips becomes coin's, in order. */
  method FlipAll(start: Grid, flips: seq<Coordinate>, coin: Coin) returns (copyTiles: Grid)
    ensures copyTiles == ApplyAll(start, flips, Occupied(coin))
  {
    copyTiles := start;
    var i := 0;
    while i < |flips|
      invariant 0 <= i <= |flips|
      invariant copyTiles == ApplyAll(start, flips[..i], Occupied(coin))
    {
      assert flips[..i + 1][..i] == flips[..i];
      copyTiles := Update(copyTiles, flips[i], Occupied(coin));
      i := i + 1;
    }
    assert flips[..i] == flips;
  }

  /**
   * set(coin:at:): fails with tileAlreadyOccupied on a non-empty square and
   * with illegalMove when nothing would flip; otherwise returns the new tiles
   * with an empty stable set.
   */
  method Place(b: Board, coin: Coin, pos: Coordinate) returns (r: Result<Board, PlaceError>)
    ensures At(b.tiles, pos) != Empty ==> r == Failure(TileAlreadyOccupied)
    ensures At(b.tiles, pos) == Empty && !IsLegalMove(b.tiles, coin, pos) ==> r == Failure(IllegalMove)
    ensures r.Success? <==> IsLegalMove(b.tiles, coin, pos)
    ensures r.Success? ==> r.value == Board(Placed(b.tiles, coin, pos), {})
  {
    if At(b.tiles, pos) != Empty {
      return Failure(TileAlreadyOccupied);
    }
    var legalTileFlips := TileFlips(b.tiles, coin, pos);
    if legalTileFlips == [] {
      return Failure(IllegalMove);
    }
    var copyTiles := FlipAll(Update(b.tiles, pos, Occupied(coin)), legalTileFlips, coin);
    return Success(Board(copyTiles, {}));
  }

  /**
   * A legal placement empties one square less, gives coin the target plus
   * every flipped disc and takes exactly the flipped discs from the opponent.
   */
  lemma PlacedCounts(g: Grid, coin: Coin, pos: Coordinate)
    requires IsLegalMove(g, coin, pos)
    ensures var p := Placed(g, coin, pos);
            var n := |TileFlips(g, coin, pos)|;
            && n >= 1
            && CountTiles(p, Empty) == CountTiles(g, Empty) - 1
            && CountTiles(p, Occupied(coin)) == CountTiles(g, Occupied(coin)) + 1 + n
            && CountTiles(p, Occupied(Opposite(coin))) == CountTiles(g, Occupied(Opposite(coin))) - n
  {
    var flips := TileFlips(g, coin, pos);
    var start := Update(g, pos, Occupied(coin));
    var me, them := Occupied(coin), Occupied(Opposite(coin));
    CountUpdate(g, pos, me, Empty);
    CountUpdate(g, pos, me, me);
    CountUpdate(g, pos, me, them);
    assert forall c :: c in flips ==> At(start, c) == them;
    ApplyAllCounts(start, flips, them, me, Empty);
  }

  /** A placement never flips more discs than the opponent has on the board. */
  lemma FlipsAtMostOpponentDiscs(g: Grid, coin: Coin, pos: Coordinate)
    ensures |TileFlips(g, coin, pos)| <= CountTiles(g, Occupied(Opposite(coin)))
  {
    ApplyAllCounts(g, TileFlips(g, coin, pos), Occupied(Opposite(coin)), Empty, Empty);
  }

  /** A colour with no disc on the board has no legal move: no run can be closed. */
  lemma NoDiscsNoMoves(g: Grid, coin: Coin)
    requires CountTiles(g, Occupied(coin)) == 0
    ensures !HasLegalMoves(g, coin)
  {
    PositionsCount(g, Occupied(coin));
    forall c ensures !IsLegalMove(g, coin, c) {
      forall d, k: nat | 1 <= k
        ensures !Flanked(g, coin, d, c, k)
      {
        var o := RayCoord(d, c, k + 1);
        if o.Some? {
          assert o.value !in Positions(g, Occupied(coin));
        }
      }
    }
  }

  /** The `reduce(into: false)` of hasLegalMoves over the squares cs. */
  function AnyLegal(g: Grid, coin: Coin, cs: seq<Coordinate>): (r: bool)
    ensures r <==> exists i :: 0 <= i < |cs| && IsLegalMove(g, coin, cs[i])
  {
    if cs == [] then false
    else
      var r := AnyLegal(g, coin, cs[..|cs| - 1]) || IsLegalMove(g, coin, cs[|cs| - 1]);
      assert forall i :: 0 <= i < |cs| - 1 ==> cs[..|cs| - 1][i] == cs[i];
      r
  }

  /** hasLegalMoves(for:): some square is a legal move for coin. */
  function HasLegalMoves(g: Grid, coin: Coin): (r: bool)
    ensures r <==> exists c :: IsLegalMove(g, coin, c)
  {
    var all := AllCoordinates();
    AnyLegalEverywhere(g, coin);
    AnyLegal(g, coin, all)
  }

  lemma AnyLegalEverywhere(g: Grid, coin: Coin)
    ensures AnyLegal(g, coin, AllCoordinates()) <==> exists c :: IsLegalMove(g, coin, c)
  {
    var all := AllCoordinates();
    if c :| IsLegalMove(g, coin, c) {
      assert all[IndexOf(c)] == c;
    }
  }

  /** The squares of cs that are legal moves flipping exactly k discs, in the order of cs. */
  function Bucket(g: Grid, coin: Coin, k: int, cs: seq<Coordinate>): (r: seq<Coordinate>)
    ensures forall c :: c in r <==> c in cs && IsLegalMove(g, coin, c) && |TileFlips(g, coin, c)| == k
    ensures NoDup(cs) ==> NoDup(r)
    ensures r != [] ==> k >= 1
  {
    if cs == [] then []
    else
      var prefix := cs[..|cs| - 1];
      var last := cs[|cs| - 1];
      var earlier := Bucket(g, coin, k, prefix);
      assert forall c :: c in cs <==> c in prefix || c == last;
      assert NoDup(cs) ==> NoDup(prefix) && last !in prefix;
      if IsLegalMove(g, coin, last) && |TileFlips(g, coin, last)| == k then
        FlipsNonEmpty(g, coin, last, TileFlips(g, coin, last));
        earlier + [last]
      else
        earlier
  }

  /** A bucket keeps the scan order of the squares it is taken from. */
  lemma {:induction false} BucketScanOrdered(g: Grid, coin: Coin, k: int, cs: seq<Coordinate>)
    requires ScanOrdered(cs)
    ensures ScanOrdered(Bucket(g, coin, k, cs))
  {
    if cs != [] {
      var prefix := cs[..|cs| - 1];
      var last := cs[|cs| - 1];
      assert ScanOrdered(prefix);
      BucketScanOrdered(g, coin, k, prefix);
      var earlier := Bucket(g, coin, k, prefix);
      forall c | c in earlier
        ensures IndexOf(c) < IndexOf(last)
      {
        var i :| 0 <= i < |prefix| && prefix[i] == c;
      }
    }
  }

  /** One visit of computerMoveSearch: a legal move c is appended to the bucket of its flip count. */
  function TallyVisit(g: Grid, coin: Coin, score: map<int, seq<Coordinate>>, c: Coordinate): map<int, seq<Coordinate>> {
    if At(g, c) == Empty && TileFlips(g, coin, c) != [] then
      var n := |TileFlips(g, coin, c)|;
      score[n := (if n in score then score[n] else []) + [c]]
    else
      score
  }

  /** The tally computerMoveSearch builds after visiting the squares cs in order. */
  function Tally(g: Grid, coin: Coin, cs: seq<Coordinate>): map<int, seq<Coordinate>> {
    if cs == [] then map[]
    else TallyVisit(g, coin, Tally(g, coin, cs[..|cs| - 1]), cs[|cs| - 1])
  }

  /** Visiting the i-th square of cs after the ones before it. */
  lemma TallyPrefix(g: Grid, coin: Coin, cs: seq<Coordinate>, i: nat)
    requires i < |cs|
    ensures Tally(g, coin, cs[..i + 1]) == TallyVisit(g, coin, Tally(g, coin, cs[..i]), cs[i])
  {
    assert cs[..i + 1][..i] == cs[..i];
  }

  /** Visiting square (x, y) after the squares before it in Coordinate.all(). */
  lemma TallyStep(g: Grid, coin: Coin, x: Index, y: Index)
    ensures var all := AllCoordinates();
            Tally(g, coin, all[..x * 8 + y + 1]) == TallyVisit(g, coin, Tally(g, coin, all[..x * 8 + y]), Coordinate(x, y))
  {
    var c := Coordinate(x, y);
    assert AllCoordinates()[IndexOf(c)] == c;
    TallyPrefix(g, coin, AllCoordinates(), IndexOf(c));
  }

  /** The tally holds, under each key k, exactly the non-empty bucket of k. */
  lemma {:induction false} TallyBuckets(g: Grid, coin: Coin, cs: seq<Coordinate>)
    ensures forall k :: k in Tally(g, coin, cs) <==> Bucket(g, coin, k, cs) != []
    ensures forall k :: k in Tally(g, coin, cs) ==> Tally(g, coin, cs)[k] == Bucket(g, coin, k, cs)
  {
    if cs != [] {
      TallyBuckets(g, coin, cs[..|cs| - 1]);
    }
  }

  /** Every bucket is empty exactly when coin has no legal move. */
  lemma BucketsEmptyIff(g: Grid, coin: Coin)
    ensures (exists k :: Bucket(g, coin, k, AllCoordinates()) != []) <==> HasLegalMoves(g, coin)
  {
    var all := AllCoordinates();
    if HasLegalMoves(g, coin) {
      var c :| IsLegalMove(g, coin, c);
      AllCoordinatesComplete(c);
      assert c in Bucket(g, coin, |TileFlips(g, coin, c)|, all);
    }
    if k :| Bucket(g, coin, k, all) != [] {
      assert Bucket(g, coin, k, all)[0] in Bucket(g, coin, k, all);
    }
  }

  /** The body of computerMoveSearch's inner loop for square c. */
  method Visit(g: Grid, coin: Coin, score0: map<int, seq<Coordinate>>, c: Coordinate)
    returns (score: map<int, seq<Coordinate>>)
    ensures score == TallyVisit(g, coin, score0, c)
  {
    score := score0;
    if At(g, c) == Empty {
      var result := TileFlips(g, coin, c);
      if result != [] {
        var n := |result|;
        score := score[n := (if n in score then score[n] else []) + [c]];
      }
    }
  }

  /** The inner loop of computerMoveSearch: visits file x from rank 1 up. */
  method ScanFile(g: Grid, coin: Coin, x: Index, score0: map<int, seq<Coordinate>>)
    returns (score: map<int, seq<Coordinate>>)
    requires score0 == Tally(g, coin, AllCoordinates()[..x * 8])
    ensures score == Tally(g, coin, AllCoordinates()[..x * 8 + 8])
  {
    score := score0;
    var y := 0;
    while y < 8
      invariant 0 <= y <= 8
      invariant score == Tally(g, coin, AllCoordinates()[..x * 8 + y])
    {
      TallyStep(g, coin, x, y);
      score := Visit(g, coin, score, Coordinate(x, y));
      y := y + 1;
    }
  }

  /**
   * computerMoveSearch(for:): every legal move of coin, bucketed by the number
   * of discs it flips; each bucket lists its squares file by file.
   */
  method ComputerMoveSearch(g: Grid, coin: Coin) returns (score: map<int, seq<Coordinate>>)
    ensures forall k :: k in score <==> Bucket(g, coin, k, AllCoordinates()) != []
    ensures forall k :: k in score ==> score[k] == Bucket(g, coin, k, AllCoordinates())
    ensures (exists k :: k in score) <==> HasLegalMoves(g, coin)
  {
    score := map[];
    var x := 0;
    while x < 8
      invariant 0 <= x <= 8
      invariant score == Tally(g, coin, AllCoordinates()[..x * 8])
    {
      score := ScanFile(g, coin, x, score);
      x := x + 1;
    }
    assert AllCoordinates()[..64] == AllCoordinates();
    TallyBuckets(g, coin, AllCoordinates());
    BucketsEmptyIff(g, coin);
  }
}
