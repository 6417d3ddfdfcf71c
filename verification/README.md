# Reversi rules engine in Dafny

A model of the core of a Swift Reversi (Othello) app: the 8×8 board and its
rules (`Board.swift`), the emoji text codec the tests use to describe
positions (`Board+TestExtensions.swift`), the turn controller with its greedy
computer player (`Game.swift`), the positional weight table and the direction
pre-pass of the stability heuristic (`Heuristics.swift`), and the end-of-turn
classifier with its minimax stub (`Minimax.swift`). The positions and outcomes
pinned by the repository's tests are stated as lemmas about the model.

Modules, one per source concern:

- `Geometry`: coins, files and ranks, coordinates, the eight directions with
  their vectors, `opposite`, `legs` and bounds-checked `next`.
- `Tiles`: the tile grid (`tiles[y][x]`), its subscript, rows, columns,
  `getCount`, and the set of squares holding a tile.
- `Flips`: `accumulate` and `getTileFlips`, proved against a reference rule:
  a disc is captured when it lies on a straight run of opposing discs closed
  by one of the mover's.
- `Boards`: `defaultBoard`, placement `set`, `isLegalMove`,
  `hasLegalMoves`, `computerMoveSearch`.
- `Stability`: `getStableOrthogonal` and the ring-by-ring `setStable`.
- `TextBoard`: the glyph `rawValue`s, `init?(from:)` and `debugString`.
- `Games`: the `Game` class and its `sortBest` / `edgeCornerScore` helpers.
- `Heuristics`, `Minimax`.
- `Fixtures`: the test positions and the outcomes the tests expect of them.

`Game.swift` keeps the states `normal`/`error`/`end(winner:)`, awards a drawn
full board to white, and picks the computer move greedily.
`checkEndTurnGameState` reports a blocked position the mover is losing as a
tie, not a loss, and the model keeps that (`Minimax.BlockedLossIsTie`).

Calls made outside `Board.swift` target a later board type that is not part
of this model. They are mapped onto `Board.swift`:

- `setupStandardBoard` is `Boards.DefaultBoard`.
- `playerSet(player:at:)` is `Boards.Place`.
- `totals` is `Tiles.CountTiles` per tile kind.
- `getPositionsFor(square:)` is `Tiles.Positions`.
- `checkCanMove` is `Boards.HasLegalMoves`.
- A `(XPos, YPos)` tuple is a `Coordinate`.
- `PlayersSet` is a pair of colours.

## Model

| member | source | states |
|---|---|---|
| Geometry.Opposite | Reversi/Board.swift:12-14 | the opposite colour differs from the colour |
| Geometry.OppositeInvolution | Reversi/Board.swift:12-14 | taking the opposite colour twice gives the colour back |
| Geometry.ColumnCoordinates | Reversi/Board.swift:38-40 | `getColumn`: the eight squares of the file, exactly those with that x, rank 1 first |
| Geometry.RowCoordinates | Reversi/Board.swift:42-44 | `getRow`: the eight squares of the rank, exactly those with that y, file a first |
| Geometry.AllCoordinates | Reversi/Board.swift:46-53 | `Coordinate.all`: 64 squares, file by file, each at its index |
| Geometry.AllCoordinatesDistinct | Reversi/Board.swift:46-53 | no square is listed twice |
| Geometry.AllCoordinatesComplete | Reversi/Board.swift:46-53 | every square is listed |
| Geometry.AllCoordinatesScanOrdered | Reversi/Board.swift:46-53 | the listing is strictly increasing in scan order (file, then rank) |
| Geometry.IndexOfInjective | Reversi/Board.swift:46-53 | two squares at the same scan position are the same square |
| Geometry.AllDirectionsComplete | Reversi/Board.swift:278-279 | `Direction.allCases` lists each of the eight directions once |
| Geometry.OppositeDirection | Reversi/Board.swift:294-305 | `opposite` is half a turn away in compass order and negates the vector |
| Geometry.OppositeDirectionInvolution | Reversi/Board.swift:294-305 | the opposite of the opposite is the direction itself |
| Geometry.DirectionLegs | Reversi/Board.swift:307-318 | the left leg is 45° anticlockwise and the right leg 45° clockwise of the direction |
| Geometry.Next | Reversi/Board.swift:320-330 | `next` is nil exactly when x+dx or y+dy leaves 0..7, and otherwise is the square one step along the vector |
| Geometry.NextBack | Reversi/Board.swift:320-330 | stepping back along the opposite direction returns to the start |
| Geometry.NextDecreases | Reversi/Board.swift:139-146 | each step shortens the distance to the edge, so `accumulate` terminates |
| Tiles.EmptyGrid | Reversi/Board.swift:66-70 | `Board()`: eight rows of eight empty tiles |
| Tiles.Update | Reversi/Board.swift:381-384 | the subscript setter changes the one square and no other |
| Tiles.ColumnTiles | Reversi/Board.swift:373-375 | `getColumn`: entry y is the tile on file x, rank y |
| Tiles.RowTiles | Reversi/Board.swift:377-379 | `getRow`: entry x is the tile on file x, rank y |
| Tiles.AllOccupied | Reversi/Board.swift:366-368 | `allOccupied` holds exactly when the line counts no empty tile |
| Tiles.GetCount | Reversi/Board.swift:396-404 | the nested counter loop returns the reference count of tiles of that kind |
| Tiles.Positions | Reversi/Board.swift:381-384 | a square belongs to the set exactly when it holds the tile |
| Tiles.PositionsCount | Reversi/Board.swift:396-404 | the counted number equals the number of squares holding the tile |
| Tiles.CountBySquares | Reversi/Board.swift:396-404 | any set holding exactly the squares of a tile kind has the counted size |
| Tiles.CountUpdate | Reversi/Board.swift:381-384 | setting one square moves one unit between the old and the new kind's counts |
| Tiles.CountTilesPartition | Reversi/Board.swift:396-404 | empty, black and white counts add up to the number of squares |
| Tiles.EmptyGridCounts | Reversi/Board.swift:66-70 | the empty board has 64 empty squares and no discs |
| Tiles.ApplyAll | Reversi/Board.swift:97-99 | writing a tile over a list of squares changes exactly those squares |
| Tiles.ApplyAllCounts | Reversi/Board.swift:97-99 | flipping n distinct opposing discs moves n from the opponent's count to the mover's |
| Flips.FlankedUnique | Reversi/Board.swift:134-149 | along one direction at most one run of opposing discs is closed by a mover's disc |
| Flips.NothingFlanked | Reversi/Board.swift:139-140 | off-board or empty next square: nothing is flanked that way |
| Flips.FlankedShift | Reversi/Board.swift:145-148 | over an opposing disc, a run seen from pos is one longer than the run seen from the next square |
| Flips.Accumulate | Reversi/Board.swift:134-149 | `accumulate`: nil exactly when no run is closed; otherwise the opposing discs of the run, farthest first, closed by a mover's disc |
| Flips.RunCaptures | Reversi/Board.swift:134-149 | a square is in the returned run exactly when the reference rule captures it along that direction |
| Flips.CapturedIsOpponent | Reversi/Board.swift:143-147 | every captured square holds an opposing disc |
| Flips.RaysDisjoint | Reversi/Board.swift:128-132 | rays in different directions from one square share no square, so runs never overlap |
| Flips.ConcatFlips | Reversi/Board.swift:128-132 | appending one direction's run to the flips of the others gives the flips of all |
| Flips.FlipsAlong | Reversi/Board.swift:128-132 | the concatenated runs are the captured squares along the listed directions, all opposing, without repeats |
| Flips.TileFlips | Reversi/Board.swift:128-132 | `getTileFlips`: exactly the squares captured in some direction, each an opposing disc, none twice |
| Flips.FlipsNonEmpty | Reversi/Board.swift:128-132 | the flips are non-empty exactly when some direction has a closed run |
| Flips.IsLegalMove | Reversi/Board.swift:109-112 | legal exactly when the square is empty and outflanks at least one opposing disc |
| Boards.DefaultBoard | Reversi/Board.swift:78-86 | white on d4 and e5, black on d5 and e4, every other square empty, no stable squares |
| Boards.DefaultBoardCounts | Reversi/Board.swift:78-86 | the opening has 60 empty squares and two discs of each colour |
| Boards.Placed | Reversi/Board.swift:95-100 | after the move the target and every flipped square hold the mover's disc, and every other square is unchanged |
| Boards.FlipAll | Reversi/Board.swift:97-99 | the `forEach` loop writes the mover's disc on every flipped square |
| Boards.Place | Reversi/Board.swift:88-101 | `set`: occupied throws tileAlreadyOccupied, empty without flips throws illegalMove, success iff legal, and a success returns the placed tiles with an empty stable set |
| Boards.PlacedCounts | Reversi/Board.swift:88-100 | a legal move flips at least one disc, removes one empty square, adds 1 + flips to the mover and removes the flips from the opponent |
| Boards.FlipsAtMostOpponentDiscs | Reversi/Board.swift:128-132 | a move never flips more discs than the opponent has |
| Boards.NoDiscsNoMoves | Reversi/Board.swift:103-150 | a colour with no disc on the board has no legal move |
| Boards.AnyLegal | Reversi/Board.swift:103-107 | the fold is true exactly when some listed square is a legal move |
| Boards.HasLegalMoves | Reversi/Board.swift:103-107 | `hasLegalMoves` is true exactly when some square is a legal move |
| Boards.AnyLegalEverywhere | Reversi/Board.swift:103-107 | folding over all squares decides whether any legal move exists |
| Boards.Bucket | Reversi/Board.swift:118-121 | a bucket holds exactly the legal moves with that flip count, each once, and only counts ≥ 1 are filled |
| Boards.BucketScanOrdered | Reversi/Board.swift:114-126 | squares are appended to a bucket in the order they are visited, so a bucket filled from `Coordinate.all()` is in scan order |
| Boards.TallyBuckets | Reversi/Board.swift:114-126 | after visiting a list of squares, a key is present exactly when its bucket is non-empty, and maps to that bucket |
| Boards.BucketsEmptyIff | Reversi/Board.swift:114-126 | some bucket is filled exactly when the colour has a legal move |
| Boards.Visit | Reversi/Board.swift:118-122 | the inner-loop body appends an empty square with flips to the bucket of its flip count |
| Boards.ScanFile | Reversi/Board.swift:117-123 | the rank loop extends the tally from the squares before file x to file x included |
| Boards.ComputerMoveSearch | Reversi/Board.swift:114-126 | `computerMoveSearch`: keys are exactly the flip counts of legal moves, each mapped to all legal moves with that count; empty iff no legal move |
| Stability.LineTiles | Reversi/Board.swift:373-379 | the tile getter of `setRowCol` returns the tiles of the column or row |
| Stability.LineCoordinates | Reversi/Board.swift:38-44 | the coordinate getter of `setRowCol` returns exactly the squares of the line |
| Stability.RunFromEdgeOccupied | Reversi/Board.swift:159-174 | every square of a full line joined to the edge by full lines holds a disc |
| Stability.SetRowCol | Reversi/Board.swift:154-176 | `setRowCol`: a square is collected exactly when its line and every line between it and the starting edge are full |
| Stability.StableOrthogonal | Reversi/Board.swift:151-188 | `getStableOrthogonal`: the squares on a full row or column joined to some edge by full lines, all occupied |
| Stability.BehindDirections | Reversi/Board.swift:214-218 | the opposite and its two legs are exactly the three directions pointing back from d |
| Stability.NeighboursAlong | Reversi/Board.swift:220 | the `compactMap` keeps exactly the on-board neighbours along the given directions |
| Stability.IsStable | Reversi/Board.swift:206-228 | `isStable`: already stable, newly stable, or occupied with every on-board square behind it newly stable or of the same tile |
| Stability.WalkLeg | Reversi/Board.swift:242-264 | `leftLoop`/`rightLoop` leave exactly the set `LegWalk` defines: each next square on the leg is added until one is off the board, already newly stable, or fails `isStable`; the added squares lie on the leg and hold a disc or were stable already |
| Stability.LegWalkGrows | Reversi/Board.swift:242-264 | a leg walk keeps every square it started with and adds only squares that hold a disc or were stable already |
| Stability.CornerSquares | Reversi/Board.swift:199-204 | the corner dictionary has the four diagonal keys and squares on ring `depth` |
| Stability.OuterCorners | Reversi/Board.swift:199-204 | at depth 0 the dictionary reaches exactly the four corners |
| Stability.OuterCornerBacks | Reversi/Board.swift:214-221 | behind each outer corner every direction leaves the board |
| Stability.OuterCornerStable | Reversi/Board.swift:206-228 | an occupied outer corner always passes `isStable` |
| Stability.GrowFromCorner | Reversi/Board.swift:230-264 | one corner step leaves exactly `CornerGrowth`: nothing when the corner fails `isStable`, otherwise the corner and then the left and right leg walks; the corner is added exactly when it passes, and only occupied or stable squares are added |
| Stability.CornerGrowthGrows | Reversi/Board.swift:230-264 | a corner step keeps the set, adds only occupied or stable squares, and adds the corner whenever it passes `isStable` |
| Stability.CornerLoopGrows | Reversi/Board.swift:230-265 | the corner loop, in any key order, keeps the set and adds only occupied or stable squares |
| Stability.CornerLoopCorners | Reversi/Board.swift:230-265 | on the outer ring the corner loop makes every occupied corner it visits stable |
| Stability.OuterCornerVisited | Reversi/Board.swift:230 | whatever order the corners are visited in, each corner is visited |
| Stability.StablePass | Reversi/Board.swift:193-265 | one pass leaves exactly `PassSquares`: the orthogonal lines on ring 0, then the corner loop in the given order; it marks only occupied or stable squares, and at depth 0 every full line joined to an edge and every occupied corner |
| Stability.SetStable | Reversi/Board.swift:190-271 | `setStable` returns exactly `StableBoard`: the board itself at depth 4 or when a pass finds nothing, else the next depth on the merged stable set; tiles unchanged, stable set only grows, depth ≥ 4 returns the board, new stable squares are occupied, and from depth 0 every orthogonal run and occupied corner is stable |
| TextBoard.CoinRaw | ReversiTests/Board+TestExtensions.swift:12-17 | each colour is one disc glyph |
| TextBoard.CoinFromRaw | ReversiTests/Board+TestExtensions.swift:19-23 | accepts exactly the two disc glyphs, and decodes to the colour that encodes back to the input |
| TextBoard.CoinRawRoundTrip | ReversiTests/Board+TestExtensions.swift:11-24 | decoding an encoded colour gives it back |
| TextBoard.TileRaw | ReversiTests/Board+TestExtensions.swift:62-68 | each tile is one glyph; an occupied tile uses its colour's glyph |
| TextBoard.TileFromRaw | ReversiTests/Board+TestExtensions.swift:70-75 | accepts exactly the three one-glyph strings, nil for any other string, and decodes to the tile that encodes back to the input |
| TextBoard.TileRawRoundTrip | ReversiTests/Board+TestExtensions.swift:61-76 | decoding an encoded tile gives it back |
| TextBoard.Split | ReversiTests/Board+TestExtensions.swift:135 | `split(separator: "\n")` gives only non-empty, newline-free pieces, and a newline-free text is its own single piece |
| TextBoard.SplitJoin | ReversiTests/Board+TestExtensions.swift:135 | splitting joined non-empty newline-free lines gives the lines back |
| TextBoard.DecodeLine | ReversiTests/Board+TestExtensions.swift:142-144 | `compactMap` drops unknown glyphs: the row is as long as the line exactly when every character is a glyph, and then encodes back to the line |
| TextBoard.FromText | ReversiTests/Board+TestExtensions.swift:134-146 | `init?(from:)` succeeds exactly when the text splits into 8 lines of 8 characters, and row y then decodes line 8 − y from the top |
| TextBoard.FromLines | ReversiTests/Board+TestExtensions.swift:134-146 | accepted exactly for 8 lines of 8 characters; the first line becomes row 7 and the last row 0 |
| TextBoard.DecodeRows | ReversiTests/Board+TestExtensions.swift:141-145 | `reversed().map`: row y decodes line count-1-y |
| TextBoard.RowString | ReversiTests/Board+TestExtensions.swift:152-156 | a row string has one glyph per tile, file a first |
| TextBoard.RenderLines | ReversiTests/Board+TestExtensions.swift:149-159 | one line per row, top row first |
| TextBoard.JoinAppend | ReversiTests/Board+TestExtensions.swift:160-165 | appending line and newline, then dropping the last newline, joins the lines with separators |
| TextBoard.RowText | ReversiTests/Board+TestExtensions.swift:152-156 | the `rowStr` loop builds the row string |
| TextBoard.JoinLines | ReversiTests/Board+TestExtensions.swift:160-165 | the output loop with `removeLast` joins the lines with newlines and no trailing newline |
| TextBoard.Render | ReversiTests/Board+TestExtensions.swift:148-167 | the `debugString` text: for rows of eight tiles, 9·rows − 1 characters with a newline exactly at every ninth place and none at the end |
| TextBoard.DebugString | ReversiTests/Board+TestExtensions.swift:148-167 | `debugString` renders the tiles, top row first, newline-separated |
| TextBoard.RowStringDecodes | ReversiTests/Board+TestExtensions.swift:142-156 | decoding a rendered row gives the row back |
| TextBoard.RowStringNoNewline | ReversiTests/Board+TestExtensions.swift:152-156 | a rendered row contains no newline |
| TextBoard.RenderSplits | ReversiTests/Board+TestExtensions.swift:135-165 | splitting a rendered board gives its lines |
| TextBoard.RenderLinesParse | ReversiTests/Board+TestExtensions.swift:136-145 | parsing a board's lines gives the board back |
| TextBoard.RenderParse | ReversiTests/Board+TestExtensions.swift:134-167 | `init?(from:)` of a board's `debugString` is that board |
| TextBoard.LineRoundTrip | ReversiTests/Board+TestExtensions.swift:142-156 | a line of glyphs decodes to a full row that renders back to the line |
| TextBoard.ParseRender | ReversiTests/Board+TestExtensions.swift:134-167 | well-formed text (8 lines of 8 glyphs) parses to a board whose `debugString` is the text |
| Games.Verdict | Reversi/Game.swift:49-59 | a full board or no moves left ends the game with black winning iff black > white; no black discs then white wins; no white discs then black wins, whatever came before |
| Games.NoMovesLeftEnds | Reversi/Game.swift:51-54 | with `noMovesLeft` the game always ends |
| Games.FullBoardTieGoesToWhite | Reversi/Game.swift:51-53 | a full board with equal disc counts is won by white |
| Games.NextMover | Reversi/Game.swift:61-66 | the turn passes to the opponent exactly when the opponent has a legal move |
| Games.EdgeCornerScore | Reversi/Game.swift:113-117 | the score is at most 2, is 2 exactly on corners and 0 exactly off the edges |
| Games.ConsDescending | Reversi/Game.swift:107-111 | a square scoring at least as much as all of a descending list can lead it |
| Games.ScoreFilter | Reversi/Game.swift:107-117 | the squares of a list with a given `edgeCornerScore`, in list order: exactly the list's squares with that score |
| Games.ScoreFilterScanOrdered | Reversi/Game.swift:107-117 | a score class of a scan-ordered list is scan-ordered |
| Games.ScoreFilterAppend | Reversi/Game.swift:107-117 | the score class of a concatenation is the concatenation of the classes |
| Games.DescendingSplit | Reversi/Game.swift:107-111 | a list in descending score order is its squares scoring 2, then 1, then 0, each class in list order |
| Games.InsertByScore | Reversi/Game.swift:107-111 | insertion adds the square to the list and keeps it in descending score order |
| Games.InsertByScoreStable | Reversi/Game.swift:107-111 | insertion puts the square after every square of its own score: each score class gains it at the end and keeps its order |
| Games.SortBest | Reversi/Game.swift:107-111 | `sortBest` permutes the positions into descending `edgeCornerScore` order and is stable like `sorted(by:)`: the result is the squares scoring 2, then 1, then 0, each class in input order |
| Games.SortBestTied | Reversi/Game.swift:107-111 | squares that all score the same come back unchanged (black's opening moves c4, d3, e6, f5 stay in that order) |
| Games.ChosenMoveUnique | Reversi/Game.swift:90-99 | at most one square is the chosen move |
| Games.BestMove | Reversi/Game.swift:90-99 | a move is found iff one is legal; it is `IsChosenMove`: legal, flips the most discs, scores highest among the moves flipping as many, and is the first such square in scan order |
| Games.BestOfTopBucket | Reversi/Game.swift:92-99 | the best-scoring square of the highest bucket is a legal move of maximum flips and highest score among those |
| Games.TopBucketHeadChosen | Reversi/Game.swift:92-99 | the first square of the highest bucket after `sortBest` is the chosen move |
| Games.FirstOfSorted | Reversi/Game.swift:99 | the head of the `sortBest` result heads its own score class of the bucket |
| Games.FirstBestIsChosen | Reversi/Game.swift:92-99 | a best move heading its scan-ordered score class in the highest bucket precedes every other best move in scan order |
| Games.MaxKey | Reversi/Game.swift:92 | `sorted().reversed().first`: found iff there is a key, and then the largest key |
| Games.MapEmpty | Reversi/Game.swift:92-93 | a dictionary is empty exactly when it has no key |
| Games.Game.constructor | Reversi/Game.swift:30-35 | a new game has the standard opening, black to move, a normal state and the given human colour, black by default |
| Games.Game.WithCustomBoard | Reversi/Game.swift:37-41 | a game on a custom board keeps that board, black to move, black human |
| Games.Game.Reset | Reversi/Game.swift:43-47 | `reset` restores the standard opening, black to move and a normal state |
| Games.Game.QueryTotals | Reversi/Game.swift:49-59 | `queryTotals` sets the verdict for the current counts and changes nothing else |
| Games.Game.NextTurn | Reversi/Game.swift:61-71 | `nextTurn` hands the turn to the opponent unless they must pass, and ends the game when neither side can move |
| Games.Game.MoveIsLegal | Reversi/Game.swift:73-75 | the move is legal for the side to move exactly when it outflanks |
| Games.Game.ExecuteMove | Reversi/Game.swift:77-88 | a failed placement sets the error state and leaves board and turn, with no reply; a legal move fills a square and leaves the human to move or the game over; when the human moves next the board, turn and state are exactly the placed tiles, the human and the verdict; when the computer moves next, the final board, turn and state are those of the `ComputerRun` of the replies it plays, each the chosen move |
| Games.ComputerRunEnds | Reversi/Game.swift:77-101 | a computer run ends with the human to move or the game over |
| Games.ComputerRunEmpties | Reversi/Game.swift:77-101 | each computer reply fills exactly one empty square |
| Games.ComputerRunDeterministic | Reversi/Game.swift:77-101 | the start decides the whole run: the squares played and the final board, turn and state |
| Games.Game.ComputerCalculateMove | Reversi/Game.swift:90-101 | with no legal move the game ends with board and turn unchanged; otherwise the squares it plays (the ghost `replies`) form a `ComputerRun`: each is the `IsChosenMove` square for the board it is played on, followed by queryTotals and nextTurn, until the human is to move; afterwards it is the human's turn or the game is over |
| Games.Game.DismissError | Reversi/Game.swift:103-105 | the state returns to normal and nothing else changes |
| Heuristics.WeightTableShape | Reversi/Heuristics.swift:21-30 | `_weights` has eight rows of eight entries |
| Heuristics.BuildWeights | Reversi/Heuristics.swift:11-19 | `weights` has an entry for every square, equal to `_weights[x][y]` |
| Heuristics.FillFile | Reversi/Heuristics.swift:14-16 | the inner loop adds the eight squares of file x with their table weights |
| Heuristics.WeightTranspose | Reversi/Heuristics.swift:21-30 | the table is symmetric under transposition |
| Heuristics.WeightReflections | Reversi/Heuristics.swift:21-30 | the table is symmetric under both centre-line reflections |
| Heuristics.WeightBounds | Reversi/Heuristics.swift:21-30 | weights lie in -4..4, corners weigh 4 and the diagonal neighbours of corners -4 |
| Heuristics.InitialPass | Reversi/Heuristics.swift:36-44 | off-board directions are always kept, on-board ones exactly when the square is stable, in `allCases` order |
| Minimax.CheckEndTurnGameState | Reversi/Minimax.swift:38-54 | win when the opponent has no disc; otherwise in play iff either side can move; otherwise win iff the mover has strictly more discs, else tie |
| Minimax.BlockedLossIsTie | Reversi/Minimax.swift:47-53 | a blocked position the mover is losing is reported as a tie |
| Minimax.Minimax | Reversi/Minimax.swift:11-32 | the set comes back unchanged; the score is Int.max for a win of the maximising side, Int.min for the other side's win, 0 otherwise |
| Fixtures.AccumulationCounts | ReversiTests/ReversiTestHelpers.swift:55-64 | the accumulation position has 7 black, 3 white and 54 empty squares |
| Fixtures.FlipsOfEight | Reversi/Board.swift:128-132 | the flips are the eight runs concatenated in `allCases` order |
| Fixtures.C4Flips | ReversiTests/ReversiTests.swift:61-74 | black on c4 flips c5, d4 and d3 in that order |
| Fixtures.C4Placement | ReversiTests/ReversiTests.swift:76-86 | black c4 is legal and leaves 0 white, 11 black, 53 empty |
| Fixtures.AccumulationSearch | ReversiTests/ReversiTests.swift:61-74 | c4 is in bucket 3 and no bucket above 3 is filled |
| Fixtures.AccumulationComputerMove | ReversiTests/GameTests.swift:23-31 | any legal black move of maximum flips leaves 0 white, 11 black, 53 empty |
| Fixtures.ComputerMoveTotals | ReversiTests/GameTests.swift:23-31 | a `Game` on testAccumulationString with black to move, after `ComputerCalculateMove`, has board totals 0 white, 11 black, 53 empty |
| Fixtures.NoCapturesNoFlips | Reversi/Board.swift:128-132 | with no run in any direction the flips are empty |
| Fixtures.AccumulationIllegalMoves | ReversiTests/ReversiTests.swift:46-52 | black on h4 and white on c4 are illegal |
| Fixtures.StandardIllegalMoves | ReversiTests/ReversiTests.swift:54-59 | on the opening, black a1, white f5, black f6 and black f4 are illegal, so placement throws |
| Fixtures.StandardRender | ReversiTests/ReversiTests.swift:27-30 | the opening renders as testStrStandardSetup |
| Fixtures.SetupGrid | ReversiTests/ReversiTests.swift:34-36 | white set on b1 and c1 of an empty board, every other square empty |
| Fixtures.SetupRender | ReversiTests/ReversiTests.swift:32-37 | that board renders as testStrSetup |
| Fixtures.AccumulationParse | ReversiTests/ReversiTests.swift:39-43 | testAccumulationString parses to the accumulation position, whose `debugString` is the text |

## Left out

- `GameView.swift`, `ReversiApp.swift` and `GameViewModel.swift`: SwiftUI rendering, app start-up and view-model glue, not rules.
- `asyncSetState`: the main-queue dispatch is modelled as an immediate assignment, in call order.
- `twoSideStability`, `ReversiBoard`, `Square` and `ReversiPlayer` are not part of this model. `Heuristics.isStable` is modelled up to its `initialPass`.
- Only the `Board` text codec is modelled. The `ReversiBoard` variant encodes `Square`s and ends `debugString` with `trimmingCharacters(in: .newlines)` instead of `removeLast()`, and it is not part of this model. The tuple `Direction.next` is the same as the `Coordinate` one and is modelled once.
- `Game.board` is a reference in the source, and its setup mutates it in place. The model holds the board as a value field that the methods reassign, so it does not capture aliasing of one board between games.
- Each emoji glyph is one character (U+1F7E9, U+26AB, U+26AA). Grapheme clustering and the U+FE0F variation selector are not modelled.
- `Int.max` and `Int.min` are the 64-bit constants. No arithmetic is done on them.
- `setStable` walks a dictionary whose iteration order Swift leaves unspecified. The corner order is a parameter (any order of the four corners). The same order is used at every depth, where the source builds a new dictionary per depth whose order may differ. The exact results are stated for the given order, and the bounds and corner properties hold for every order.
- A parsed line with unknown glyphs gives a row shorter than 8 and is not a valid grid. `TextBoard.FromLines` therefore returns rows (`seq<seq<Tile>>`) rather than a grid.
- `GameError.noMovesLeft` is never thrown by the code and is not modelled.
- `testSearchMoves` uses a board string `testMoveSearch` that is not part of this model. `testPerformanceExample` is empty.
