/**
 * Minimax.swift: the end-of-turn classifier and the minimax stub that only
 * scores finished positions.
 */
module Minimax {
  import opened Wrappers
  import opened Geometry
  import opened Tiles
  import opened Boards

  datatype GameResult = Win | Tie | InPlay

  /** PlayersSet: the colour to move and the colour of its opponent. */
  datatype PlayersSet = PlayersSet(turn: Coin, turnOpponent: Coin)

  /** Int.max and Int.min, the scores of a won position. */
  const IntMax: int := 0x7FFF_FFFF_FFFF_FFFF
  const IntMin: int := -0x8000_0000_0000_0000

  /**
   * checkEndTurnGameState(set:board:): a win when the opponent has no disc
   * left; in play while either side can still move; otherwise a win when the
   * mover has strictly more discs, and a tie in every other case.
   */
  function CheckEndTurnGameState(players: PlayersSet, g: Grid): (r: GameResult)
    ensures (forall c :: At(g, c) != Occupied(players.turnOpponent)) ==> r == Win
    ensures (exists c :: At(g, c) == Occupied(players.turnOpponent)) ==>
              (r == InPlay <==> HasLegalMoves(g, players.turnOpponent) || HasLegalMoves(g, players.turn))
    ensures && (exists c :: At(g, c) == Occupied(players.turnOpponent))
            && !HasLegalMoves(g, players.turnOpponent) && !HasLegalMoves(g, players.turn) ==>
              && r != InPlay
              && (r == Win <==> CountTiles(g, Occupied(players.turn)) > CountTiles(g, Occupied(players.turnOpponent)))
  {
    var opponentPositions := Positions(g, Occupied(players.turnOpponent));
    if opponentPositions == {} then Win
    else if HasLegalMoves(g, players.turnOpponent) then InPlay
    else if HasLegalMoves(g, players.turn) then InPlay
    else
      var turnPositions := Positions(g, Occupied(players.turn));
      PositionsCount(g, Occupied(players.turn));
      PositionsCount(g, Occupied(players.turnOpponent));
      if |turnPositions| > |opponentPositions| then Win
      else Tie
  }

  /**
   * A blocked position in which the mover has fewer discs than the opponent is
   * reported as a tie, not as a loss.
   */
  lemma BlockedLossIsTie(players: PlayersSet, g: Grid)
    requires !HasLegalMoves(g, players.turnOpponent) && !HasLegalMoves(g, players.turn)
    requires CountTiles(g, Occupied(players.turn)) < CountTiles(g, Occupied(players.turnOpponent))
    ensures CheckEndTurnGameState(players, g) == Tie
  {
    PositionsCount(g, Occupied(players.turnOpponent));
    assert Positions(g, Occupied(players.turnOpponent)) != {};
  }

  /**
   * minimax(maximizingPlayer:set:board:depth:): the players set back
   * unchanged, scored Int.max for a win of the maximising side, Int.min for a
   * win of the other side, and 0 for a tie or a game still in play.
   */
  function Minimax(maximizingPlayer: Coin, players: PlayersSet, g: Grid, depth: nat): (r: (PlayersSet, int))
    ensures r.0 == players
    ensures r.1 in {IntMax, IntMin, 0}
    ensures r.1 != 0 <==> CheckEndTurnGameState(players, g) == Win
    ensures r.1 > 0 <==> CheckEndTurnGameState(players, g) == Win && players.turn == maximizingPlayer
  {
    var result := CheckEndTurnGameState(players, g);
    match result
    case Win =>
      var score := if players.turn == maximizingPlayer then IntMax else IntMin;
      (players, score)
    case Tie => (players, 0)
    case InPlay => (players, 0)
  }
}
