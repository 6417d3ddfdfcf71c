/**
 * The text form of a board used by the test suite
 * (ReversiTests/Board+TestExtensions.swift): one glyph per square, one line
 * per rank, the top rank (8) first. Each emoji glyph is one abstract
 * character: U+1F7E9 for an empty square, U+26AB for black, U+26AA for white.
 */
module TextBoard {
  import opened Wrappers
  import opened Geometry
  import opened Tiles

  const EmptyGlyph: char := '\U{1F7E9}'
  const BlackGlyph: char := '\U{26AB}'
  const WhiteGlyph: char := '\U{26AA}'
  const Newline: char := '\n'

  predicate IsGlyph(ch: char) {
    ch == EmptyGlyph || ch == BlackGlyph || ch == WhiteGlyph
  }

  /** Coin.rawValue. */
  function CoinRaw(c: Coin): (s: string)
    ensures |s| == 1 && IsGlyph(s[0]) && s[0] != EmptyGlyph
  {
    match c
    case Black => [BlackGlyph]
    case White => [WhiteGlyph]
  }

  /** Coin.init?(rawValue:): the inverse of CoinRaw, and nil on every other string. */
  function CoinFromRaw(s: string): (r: Option<Coin>)
    ensures r.Some? <==> s == [BlackGlyph] || s == [WhiteGlyph]
    ensures r.Some? ==> CoinRaw(r.value) == s
  {
    if s == [BlackGlyph] then Some(Black)
    else if s == [WhiteGlyph] then Some(White)
    else None
  }

  lemma CoinRawRoundTrip(c: Coin)
    ensures CoinFromRaw(CoinRaw(c)) == Some(c)
  {
  }

  /** Tile.rawValue. */
  function TileRaw(t: Tile): (s: string)
    ensures |s| == 1 && IsGlyph(s[0])
    ensures t.Occupied? ==> s == CoinRaw(t.coin)
  {
    match t
    case Empty => [EmptyGlyph]
    case Occupied(c) => CoinRaw(c)
  }

  /** Tile.init?(rawValue:): the inverse of TileRaw on the three glyphs, nil on every other string. */
  function TileFromRaw(s: string): (r: Option<Tile>)
    ensures r.Some? <==> |s| == 1 && IsGlyph(s[0])
    ensures r.Some? ==> TileRaw(r.value) == s
  {
    if s == [EmptyGlyph] then Some(Empty)
    else if s == [BlackGlyph] then Some(Occupied(Black))
    else if s == [WhiteGlyph] then Some(Occupied(White))
    else None
  }

  lemma TileRawRoundTrip(t: Tile)
    ensures TileFromRaw(TileRaw(t)) == Some(t)
  {
  }

  /** The number of characters before the first newline of s. */
  function LineLength(s: string): (n: nat)
    ensures n <= |s|
    ensures forall i :: 0 <= i < n ==> s[i] != Newline
    ensures n < |s| ==> s[n] == Newline
  {
    if s == [] || s[0] == Newline then 0 else 1 + LineLength(s[1..])
  }

  /**
   * String.split(separator: "\n") with its defaults: the maximal runs of
   * non-newline characters, in order; empty runs are omitted.
   */
  function Split(s: string): (r: seq<string>)
    ensures forall i :: 0 <= i < |r| ==> |r[i]| > 0 && Newline !in r[i]
    ensures Newline !in s ==> r == (if s == [] then [] else [s])
    decreases |s|
  {
    if s == [] then []
    else if s[0] == Newline then Split(s[1..])
    else
      var n := LineLength(s);
      assert forall i :: 0 <= i < n ==> s[..n][i] == s[i];
      assert Newline !in s ==> s[..n] == s && Split(s[n..]) == [] by {
        if Newline !in s {
          assert forall i :: 0 <= i < |s| ==> s[i] != Newline;
          assert s[n..] == [];
        }
      }
      [s[..n]] + Split(s[n..])
  }

  /** The lines separated by single newlines, with no newline at the end. */
  function Join(lines: seq<string>): string {
    if lines == [] then []
    else if |lines| == 1 then lines[0]
    else lines[0] + [Newline] + Join(lines[1..])
  }

  /** A non-empty line followed by nothing or by a newline splits off as the first piece. */
  lemma SplitFirst(l: string, tail: string)
    requires |l| > 0 && Newline !in l
    requires tail == [] || tail[0] == Newline
    ensures Split(l + tail) == [l] + Split(tail)
  {
    var s := l + tail;
    LineLengthOf(l, tail);
    assert s[0] == l[0];
    assert s[..|l|] == l;
    assert s[|l|..] == tail;
  }

  /** Joining non-empty newline-free lines and splitting the result gives the lines back. */
  lemma {:induction false} SplitJoin(lines: seq<string>)
    requires forall i :: 0 <= i < |lines| ==> |lines[i]| > 0 && Newline !in lines[i]
    ensures Split(Join(lines)) == lines
  {
    if |lines| == 1 {
      SplitFirst(lines[0], []);
      assert lines[0] + [] == lines[0];
    } else if |lines| > 1 {
      var rest := Join(lines[1..]);
      var tail := [Newline] + rest;
      assert Join(lines) == lines[0] + tail;
      SplitFirst(lines[0], tail);
      assert tail[1..] == rest;
      SplitJoin(lines[1..]);
    }
  }

  lemma {:induction false} LineLengthOf(l: string, tail: string)
    requires Newline !in l
    requires tail == [] || tail[0] == Newline
    ensures LineLength(l + tail) == |l|
  {
    if l != [] {
      assert (l + tail)[1..] == l[1..] + tail;
      LineLengthOf(l[1..], tail);
    }
  }

  /** The `reduce(true) { $0 && $1.count == 8 }` check: every line has eight characters. */
  function AllOfLength(lines: seq<string>, n: nat): (r: bool)
    ensures r <==> forall i :: 0 <= i < |lines| ==> |lines[i]| == n
  {
    if lines == [] then true
    else
      assert forall i :: 1 <= i < |lines| ==> lines[1..][i - 1] == lines[i];
      AllOfLength(lines[1..], n) && |lines[0]| == n
  }

  /**
   * The `compactMap { Tile(rawValue: "\($0)") }` of one line: the decoded
   * glyphs in order, with unknown characters dropped.
   */
  function DecodeLine(line: string): (row: seq<Tile>)
    ensures |row| <= |line|
    ensures |row| == |line| <==> forall i :: 0 <= i < |line| ==> IsGlyph(line[i])
    ensures (forall i :: 0 <= i < |line| ==> IsGlyph(line[i])) ==>
              forall i :: 0 <= i < |line| ==> TileRaw(row[i]) == [line[i]]
  {
    if line == [] then []
    else
      var rest := DecodeLine(line[1..]);
      assert forall i :: 1 <= i < |line| ==> line[1..][i - 1] == line[i];
      match TileFromRaw([line[0]])
      case Some(t) => [t] + rest
      case None => rest
  }

  /**
   * The body of Board.init?(from:) after splitting: nil unless there are
   * exactly eight lines of exactly eight characters; otherwise the decoded
   * lines, the last line becoming row 0 (rank 1) and the first row 7 (rank 8).
   */
  function FromLines(arys: seq<string>): (r: Option<seq<seq<Tile>>>)
    ensures r.Some? <==> |arys| == 8 && forall i :: 0 <= i < 8 ==> |arys[i]| == 8
    ensures r.Some? ==> |r.value| == 8 && forall y :: 0 <= y < 8 ==> r.value[y] == DecodeLine(arys[7 - y])
  {
    if |arys| != 8 then None
    else if !AllOfLength(arys, 8) then None
    else Some(DecodeRows(arys))
  }

  /** The `reversed().map { compactMap ... }`: the decoded lines, last line first. */
  function DecodeRows(arys: seq<string>): (rows: seq<seq<Tile>>)
    ensures |rows| == |arys|
    ensures forall y :: 0 <= y < |arys| ==> rows[y] == DecodeLine(arys[|arys| - 1 - y])
  {
    var decoded := seq(|arys|, (i: int) requires 0 <= i < |arys| => DecodeLine(arys[i]));
    Reversed(decoded)
  }

  /**
   * Board.init?(from:): split the text on newlines and decode the lines. It
   * succeeds exactly when the text has eight non-empty lines of eight
   * characters, and row y then decodes line 8 - y from the top.
   */
  function FromText(s: string): (r: Option<seq<seq<Tile>>>)
    ensures r.Some? <==> |Split(s)| == 8 && forall i :: 0 <= i < 8 ==> |Split(s)[i]| == 8
    ensures r.Some? ==> |r.value| == 8 && forall y :: 0 <= y < 8 ==> r.value[y] == DecodeLine(Split(s)[7 - y])
  {
    FromLines(Split(s))
  }

  /** The row string: the glyphs of one row, file a first. */
  function RowString(row: seq<Tile>): (s: string)
    ensures |s| == |row|
    ensures forall i :: 0 <= i < |row| ==> [s[i]] == TileRaw(row[i])
  {
    if row == [] then []
    else RowString(row[..|row| - 1]) + TileRaw(row[|row| - 1])
  }

  /** The rows in reverse order: the top rank first. */
  function Reversed<T>(s: seq<T>): (r: seq<T>)
    ensures |r| == |s|
    ensures forall i :: 0 <= i < |s| ==> r[i] == s[|s| - 1 - i]
  {
    if s == [] then [] else [s[|s| - 1]] + Reversed(s[..|s| - 1])
  }

  /** The row strings, top rank first. */
  function RenderLines(rows: seq<seq<Tile>>): (lines: seq<string>)
    ensures |lines| == |rows|
    ensures forall i :: 0 <= i < |rows| ==> lines[i] == RowString(rows[|rows| - 1 - i])
  {
    Reversed(seq(|rows|, (i: int) requires 0 <= i < |rows| => RowString(rows[i])))
  }

  /**
   * The text debugString produces: one row string per rank, top rank first,
   * joined by newlines. For rows of eight tiles every ninth character is a
   * newline and there is no newline at the end.
   */
  function Render(rows: seq<seq<Tile>>): (r: string)
    ensures (forall y :: 0 <= y < |rows| ==> |rows[y]| == 8) ==>
              && |r| == (if rows == [] then 0 else 9 * |rows| - 1)
              && forall k :: 0 <= k < |r| ==> (r[k] == Newline <==> k % 9 == 8)
  {
    var lines := RenderLines(rows);
    RenderLinesShape(rows);
    JoinLayout(lines);
    Join(lines)
  }

  /** Rows of eight tiles give newline-free lines of eight glyphs. */
  lemma RenderLinesShape(rows: seq<seq<Tile>>)
    ensures (forall y :: 0 <= y < |rows| ==> |rows[y]| == 8) ==>
              forall i :: 0 <= i < |rows| ==> |RenderLines(rows)[i]| == 8 && Newline !in RenderLines(rows)[i]
  {
    var lines := RenderLines(rows);
    forall i | 0 <= i < |rows|
      ensures Newline !in lines[i]
    {
      RowStringNoNewline(rows[|rows| - 1 - i]);
    }
  }

  /** Joining newline-free lines of eight characters puts a newline at every ninth place. */
  lemma {:induction false} JoinLayout(lines: seq<string>)
    ensures (forall i :: 0 <= i < |lines| ==> |lines[i]| == 8 && Newline !in lines[i]) ==>
              && |Join(lines)| == (if lines == [] then 0 else 9 * |lines| - 1)
              && forall k :: 0 <= k < |Join(lines)| ==> (Join(lines)[k] == Newline <==> k % 9 == 8)
  {
    if |lines| > 1 && forall i :: 0 <= i < |lines| ==> |lines[i]| == 8 && Newline !in lines[i] {
      var rest := Join(lines[1..]);
      JoinLayout(lines[1..]);
      assert forall i :: 0 <= i < |lines[1..]| ==> lines[1..][i] == lines[i + 1];
      var j := Join(lines);
      assert j == lines[0] + [Newline] + rest;
      forall k | 0 <= k < |j|
        ensures j[k] == Newline <==> k % 9 == 8
      {
        if k < 8 {
          assert j[k] == lines[0][k];
        } else if k > 8 {
          assert j[k] == rest[k - 9];
        }
      }
    }
  }

  /** Appending each line and a newline, then dropping the final character, joins the lines. */
  lemma {:induction false} JoinAppend(lines: seq<string>, line: string)
    requires lines != []
    ensures Join(lines + [line]) == Join(lines) + [Newline] + line
  {
    if |lines| == 1 {
      assert (lines + [line])[1..] == [line];
    } else {
      assert (lines + [line])[1..] == lines[1..] + [line];
      JoinAppend(lines[1..], line);
    }
  }

  /** The inner `row.forEach` of debugString: appends the glyph of each tile. */
  method RowText(row: seq<Tile>) returns (rowStr: string)
    ensures rowStr == RowString(row)
  {
    rowStr := "";
    for e := 0 to |row|
      invariant rowStr == RowString(row[..e])
    {
      assert row[..e + 1][..e] == row[..e];
      rowStr := rowStr + TileRaw(row[e]);
    }
    assert row[..|row|] == row;
  }

  /**
   * The last `forEach` of debugString and its `removeLast()`: appends every
   * line followed by a newline, then drops the final newline.
   */
  method JoinLines(stringArys: seq<string>) returns (outputString: string)
    requires |stringArys| > 0
    ensures outputString == Join(stringArys)
  {
    outputString := "";
    for k := 0 to |stringArys|
      invariant k > 0 ==> outputString == Join(stringArys[..k]) + [Newline]
      invariant k == 0 ==> outputString == []
    {
      if k > 0 {
        JoinAppend(stringArys[..k], stringArys[k]);
        assert stringArys[..k + 1] == stringArys[..k] + [stringArys[k]];
      } else {
        assert stringArys[..1] == [stringArys[0]];
      }
      outputString := outputString + stringArys[k];
      outputString := outputString + [Newline];
    }
    assert stringArys[..|stringArys|] == stringArys;
    outputString := outputString[..|outputString| - 1];
  }

  /**
   * debugString: builds each row string, reverses the list in place, appends
   * each line followed by a newline, and removes the last newline.
   */
  method DebugString(tiles: seq<seq<Tile>>) returns (outputString: string)
    requires |tiles| > 0
    ensures outputString == Render(tiles)
  {
    var stringArys: seq<string> := [];
    for r := 0 to |tiles|
      invariant |stringArys| == r
      invariant forall i :: 0 <= i < r ==> stringArys[i] == RowString(tiles[i])
    {
      var rowStr := RowText(tiles[r]);
      stringArys := stringArys + [rowStr];
    }
    stringArys := Reversed(stringArys);
    assert stringArys == RenderLines(tiles);
    outputString := JoinLines(stringArys);
  }

  /** A line holding the glyph of each tile of row, in order, is the row string of row. */
  lemma RowStringMatches(row: seq<Tile>, line: string)
    requires |row| == |line|
    requires forall j :: 0 <= j < |row| ==> TileRaw(row[j]) == [line[j]]
    ensures RowString(row) == line
  {
    var s := RowString(row);
    forall j | 0 <= j < |row|
      ensures s[j] == line[j]
    {
      assert [s[j]] == TileRaw(row[j]);
    }
  }

  /** A row string decodes to its row. */
  lemma RowStringDecodes(row: seq<Tile>)
    ensures DecodeLine(RowString(row)) == row
  {
    var s := RowString(row);
    assert forall i :: 0 <= i < |s| ==> IsGlyph(s[i]) by {
      forall i | 0 <= i < |s|
        ensures IsGlyph(s[i])
      {
        assert [s[i]] == TileRaw(row[i]);
      }
    }
    var d := DecodeLine(s);
    forall i | 0 <= i < |row|
      ensures d[i] == row[i]
    {
      assert TileRaw(d[i]) == [s[i]] == TileRaw(row[i]);
      TileRawRoundTrip(d[i]);
      TileRawRoundTrip(row[i]);
    }
  }

  /** A row string holds no newline. */
  lemma RowStringNoNewline(row: seq<Tile>)
    ensures Newline !in RowString(row)
  {
    var s := RowString(row);
    forall j | 0 <= j < |s|
      ensures s[j] != Newline
    {
      assert [s[j]] == TileRaw(row[j]);
    }
  }

  /** The rendered text splits back into the eight row strings. */
  lemma RenderSplits(g: Grid)
    ensures Split(Render(g)) == RenderLines(g)
  {
    var lines := RenderLines(g);
    forall i | 0 <= i < 8
      ensures |lines[i]| == 8 && Newline !in lines[i]
    {
      RowStringNoNewline(g[7 - i]);
    }
    SplitJoin(lines);
  }

  /** The eight row strings of a grid decode to that grid. */
  lemma RenderLinesParse(g: Grid)
    ensures FromLines(RenderLines(g)) == Some(g)
  {
    var r := FromLines(RenderLines(g));
    forall y | 0 <= y < 8
      ensures r.value[y] == g[y]
    {
      RowStringDecodes(g[y]);
    }
    assert r.value == g;
  }

  /** Rendering a grid and parsing the text gives the grid back. */
  lemma RenderParse(g: Grid)
    ensures FromText(Render(g)) == Some(g)
  {
    RenderSplits(g);
    RenderLinesParse(g);
  }

  /** A line of known glyphs decodes to a row whose row string is the line. */
  lemma LineRoundTrip(line: string)
    requires forall j :: 0 <= j < |line| ==> IsGlyph(line[j])
    ensures |DecodeLine(line)| == |line|
    ensures RowString(DecodeLine(line)) == line
  {
    var row := DecodeLine(line);
    var s := RowString(row);
    forall j | 0 <= j < |line|
      ensures s[j] == line[j]
    {
      assert [s[j]] == TileRaw(row[j]) == [line[j]];
    }
  }

  /** Lines of known glyphs survive joining and splitting. */
  lemma GlyphLinesSplit(lines: seq<string>)
    requires forall i :: 0 <= i < |lines| ==> |lines[i]| > 0 && forall j :: 0 <= j < |lines[i]| ==> IsGlyph(lines[i][j])
    ensures Split(Join(lines)) == lines
  {
    forall i | 0 <= i < |lines|
      ensures Newline !in lines[i]
    {
      assert forall j :: 0 <= j < |lines[i]| ==> lines[i][j] != Newline;
    }
    SplitJoin(lines);
  }

  /** Eight lines of eight known glyphs decode to rows whose row strings are the lines. */
  lemma DecodedRowsRender(lines: seq<string>)
    requires |lines| == 8
    requires forall i :: 0 <= i < 8 ==> |lines[i]| == 8 && forall j :: 0 <= j < 8 ==> IsGlyph(lines[i][j])
    ensures FromLines(lines).Some?
    ensures RenderLines(FromLines(lines).value) == lines
  {
    var rows := FromLines(lines).value;
    forall i | 0 <= i < 8
      ensures RowString(rows[7 - i]) == lines[i]
    {
      LineRoundTrip(lines[i]);
    }
  }

  /** Eight lines of eight known glyphs decode to a full grid. */
  lemma DecodedRowsGrid(lines: seq<string>)
    requires |lines| == 8
    requires forall i :: 0 <= i < 8 ==> |lines[i]| == 8 && forall j :: 0 <= j < 8 ==> IsGlyph(lines[i][j])
    ensures FromLines(lines).Some?
    ensures IsGrid(FromLines(lines).value)
  {
    var rows := FromLines(lines).value;
    forall y | 0 <= y < 8
      ensures |rows[y]| == 8
    {
      assert rows[y] == DecodeLine(lines[7 - y]);
    }
  }

  /**
   * For eight lines of eight known glyphs, parsing gives a grid whose
   * rendering is the original text: the round trip the test suite asserts.
   */
  lemma ParseRender(lines: seq<string>)
    requires |lines| == 8
    requires forall i :: 0 <= i < 8 ==> |lines[i]| == 8 && forall j :: 0 <= j < 8 ==> IsGlyph(lines[i][j])
    ensures FromText(Join(lines)).Some?
    ensures IsGrid(FromText(Join(lines)).value)
    ensures Render(FromText(Join(lines)).value) == Join(lines)
  {
    GlyphLinesSplit(lines);
    DecodedRowsRender(lines);
    DecodedRowsGrid(lines);
  }
}
