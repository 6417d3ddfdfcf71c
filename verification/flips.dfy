/**
 * The capture rule of Board.swift: the per-direction walk `accumulate`, the
 * union `getTileFlips` and `isLegalMove`, each proved against a closed-form
 * description of a flanked run of discs.
 */
module Flips {
  import opened Wrappers
  import opened Geometry
  import opened Tiles

  /** p moved i steps by the unit component delta. */
  function Shift(p: int, delta: int, i: nat): int {
    if delta > 0 then p + i else if delta < 0 then p - i else p
  }

  /** The square i steps from pos along d, or None when that is off the board. */
  function RayCoord(d: Direction, pos: Coordinate, i: nat): Option<Coordinate> {
    var x := Shift(pos.x, DX(d), i);
    var y := Shift(pos.y, DY(d), i);
    if 0 <= x < 8 && 0 <= y < 8 then Some(Coordinate(x, y)) else None
  }

  /** oc is a square of the board holding t. */
  ghost predicate Holds(g: Grid, oc: Option<Coordinate>, t: Tile) {
    oc.Some? && At(g, oc.value) == t
  }

  /**
   * Reference rule: walking from pos along d, the first k squares hold the
   * opponent's discs and square k + 1 holds one of coin's.
   */
  ghost predicate Flanked(g: Grid, coin: Coin, d: Direction, pos: Coordinate, k: nat) {
    && (forall i :: 1 <= i <= k ==> Holds(g, RayCoord(d, pos, i), Occupied(Opposite(coin))))
    && Holds(g, RayCoord(d, pos, k + 1), Occupied(coin))
  }

  /** c is one of the discs a coin placed at pos captures along d. */
  ghost predicate Captures(g: Grid, coin: Coin, pos: Coordinate, d: Direction, c: Coordinate) {
    exists k: nat, i: nat :: 1 <= i <= k && Flanked(g, coin, d, pos, k) && RayCoord(d, pos, i) == Some(c)
  }

  /** Reference rule for a legal move: an empty square that flanks at least one opposing disc. */
  ghost predicate Outflanks(g: Grid, coin: Coin, pos: Coordinate) {
    At(g, pos) == Empty && exists d: Direction, k: nat :: 1 <= k && Flanked(g, coin, d, pos, k)
  }

  lemma RayStep(d: Direction, pos: Coordinate, n: Coordinate)
    requires Next(d, pos) == Some(n)
    ensures RayCoord(d, pos, 1) == Some(n)
    ensures forall i: nat :: RayCoord(d, n, i) == RayCoord(d, pos, i + 1)
  {
  }

  /** One more step along the ray from start is the next square after the current one. */
  lemma RayAdvance(d: Direction, start: Coordinate, i: nat, c: Coordinate, n: Coordinate)
    requires RayCoord(d, start, i) == Some(c) && Next(d, c) == Some(n)
    ensures RayCoord(d, start, i + 1) == Some(n)
  {
  }

  /** Once a ray has left the board it stays off it. */
  lemma OffBoardStays(d: Direction, pos: Coordinate, i: nat, j: nat)
    requires 1 <= i <= j && RayCoord(d, pos, i).None?
    ensures RayCoord(d, pos, j).None?
  {
  }

  /** From the square n one step along d, a flanked run is one disc shorter. */
  lemma FlankedShift(g: Grid, coin: Coin, d: Direction, pos: Coordinate, n: Coordinate)
    requires Next(d, pos) == Some(n)
    requires At(g, n) == Occupied(Opposite(coin))
    ensures forall k: nat :: Flanked(g, coin, d, pos, k) <==> 1 <= k && Flanked(g, coin, d, n, k - 1)
  {
    RayStep(d, pos, n);
    forall k: nat
      ensures Flanked(g, coin, d, pos, k) <==> 1 <= k && Flanked(g, coin, d, n, k - 1)
    {
      if k >= 1 {
        if Flanked(g, coin, d, n, k - 1) {
          forall i | 1 <= i <= k
            ensures Holds(g, RayCoord(d, pos, i), Occupied(Opposite(coin)))
          {
            if i > 1 {
              assert RayCoord(d, pos, i) == RayCoord(d, n, i - 1);
            }
          }
          assert RayCoord(d, pos, k + 1) == RayCoord(d, n, k);
        }
        if Flanked(g, coin, d, pos, k) {
          forall i | 1 <= i <= k - 1
            ensures Holds(g, RayCoord(d, n, i), Occupied(Opposite(coin)))
          {
            assert RayCoord(d, n, i) == RayCoord(d, pos, i + 1);
          }
          assert RayCoord(d, n, k) == RayCoord(d, pos, k + 1);
        }
      }
    }
  }

  /** The next square is off the board or empty: nothing is flanked along d. */
  lemma NothingFlanked(g: Grid, coin: Coin, d: Direction, pos: Coordinate)
    requires Next(d, pos).None? || At(g, Next(d, pos).value) == Empty
    ensures forall k: nat :: !Flanked(g, coin, d, pos, k)
  {
    forall k: nat
      ensures !Flanked(g, coin, d, pos, k)
    {
      if Next(d, pos).None? {
        assert RayCoord(d, pos, 1).None?;
        OffBoardStays(d, pos, 1, k + 1);
      } else {
        RayStep(d, pos, Next(d, pos).value);
        assert !Holds(g, RayCoord(d, pos, 1), Occupied(coin));
        assert !Holds(g, RayCoord(d, pos, 1), Occupied(Opposite(coin)));
      }
    }
  }

  /**
   * What accumulate returns along d from pos: when Some, the run is flanked
   * and lists the squares of the ray farthest first; when None, no run along d
   * is flanked at all.
   */
  ghost predicate FlankedRun(g: Grid, coin: Coin, d: Direction, pos: Coordinate, r: Option<seq<Coordinate>>) {
    && (r.Some? ==> Flanked(g, coin, d, pos, |r.value|))
    && (r.Some? ==> forall i :: 1 <= i <= |r.value| ==> RayCoord(d, pos, i) == Some(r.value[|r.value| - i]))
    && (r.None? ==> forall k: nat :: !Flanked(g, coin, d, pos, k))
  }

  /** A run seen from the next square, extended by that square, is the run seen from pos. */
  lemma ExtendRun(d: Direction, pos: Coordinate, n: Coordinate, rs: seq<Coordinate>)
    requires Next(d, pos) == Some(n)
    requires forall i :: 1 <= i <= |rs| ==> RayCoord(d, n, i) == Some(rs[|rs| - i])
    ensures var r := rs + [n];
            forall i :: 1 <= i <= |r| ==> RayCoord(d, pos, i) == Some(r[|r| - i])
  {
    RayStep(d, pos, n);
    var r := rs + [n];
    forall i | 1 <= i <= |r|
      ensures RayCoord(d, pos, i) == Some(r[|r| - i])
    {
      if i > 1 {
        assert RayCoord(d, n, i - 1) == Some(rs[|rs| - (i - 1)]);
      }
    }
  }

  /**
   * accumulate(for:heading:from:): the opponent discs between pos and the
   * nearest disc of coin along d, farthest first, or None when the walk meets
   * an empty square or the edge first.
   */
  function Accumulate(g: Grid, coin: Coin, d: Direction, pos: Coordinate): (r: Option<seq<Coordinate>>)
    decreases Remaining(d, pos)
    ensures FlankedRun(g, coin, d, pos, r)
  {
    match Next(d, pos)
    case None =>
      NothingFlanked(g, coin, d, pos);
      None
    case Some(n) =>
      if At(g, n) == Empty then
        NothingFlanked(g, coin, d, pos);
        None
      else if At(g, n) == Occupied(coin) then
        RayStep(d, pos, n);
        Some([])
      else
        NextDecreases(d, pos);
        FlankedShift(g, coin, d, pos, n);
        match Accumulate(g, coin, d, n)
        case None => None
        case Some(rs) =>
          ExtendRun(d, pos, n, rs);
          Some(rs + [n])
  }

  /** At most one run length is flanked along a direction. */
  lemma FlankedUnique(g: Grid, coin: Coin, d: Direction, pos: Coordinate, k: nat, m: nat)
    requires Flanked(g, coin, d, pos, k) && Flanked(g, coin, d, pos, m)
    ensures k == m
  {
    if k < m {
      assert false;
    } else if m < k {
      assert false;
    }
  }

  /** Distinct distances along one ray are distinct squares. */
  lemma RayInjective(d: Direction, pos: Coordinate, i: nat, j: nat)
    requires i != j && RayCoord(d, pos, i).Some?
    ensures RayCoord(d, pos, i) != RayCoord(d, pos, j)
  {
  }

  /** Rays in two different directions from one square never meet again. */
  lemma RaysDisjoint(d: Direction, e: Direction, pos: Coordinate, i: nat, j: nat)
    requires d != e && 1 <= i && 1 <= j && RayCoord(d, pos, i).Some?
    ensures RayCoord(d, pos, i) != RayCoord(e, pos, j)
  {
  }

  /** The squares of a flanked run are exactly the discs captured along d. */
  lemma RunCaptures(g: Grid, coin: Coin, d: Direction, pos: Coordinate, r: Option<seq<Coordinate>>, c: Coordinate)
    requires FlankedRun(g, coin, d, pos, r)
    ensures c in r.GetOr([]) <==> Captures(g, coin, pos, d, c)
  {
    if c in r.GetOr([]) {
      var rs := r.value;
      var j :| 0 <= j < |rs| && rs[j] == c;
      assert RayCoord(d, pos, |rs| - j) == Some(rs[|rs| - (|rs| - j)]);
    }
    if Captures(g, coin, pos, d, c) {
      var k: nat, i: nat :| 1 <= i <= k && Flanked(g, coin, d, pos, k) && RayCoord(d, pos, i) == Some(c);
      var rs := r.value;
      FlankedUnique(g, coin, d, pos, k, |rs|);
      assert RayCoord(d, pos, i) == Some(rs[|rs| - i]);
    }
  }

  /** A captured disc holds the opponent's colour. */
  lemma CapturedIsOpponent(g: Grid, coin: Coin, d: Direction, pos: Coordinate, c: Coordinate)
    requires Captures(g, coin, pos, d, c)
    ensures At(g, c) == Occupied(Opposite(coin))
  {
    var k: nat, i: nat :| 1 <= i <= k && Flanked(g, coin, d, pos, k) && RayCoord(d, pos, i) == Some(c);
    assert Holds(g, RayCoord(d, pos, i), Occupied(Opposite(coin)));
  }

  /** A captured disc lies on the ray at distance 1 or more. */
  lemma CapturedOnRay(g: Grid, coin: Coin, d: Direction, pos: Coordinate, c: Coordinate) returns (i: nat)
    requires Captures(g, coin, pos, d, c)
    ensures 1 <= i && RayCoord(d, pos, i) == Some(c)
  {
    var k: nat, i' :| 1 <= i' <= k && Flanked(g, coin, d, pos, k) && RayCoord(d, pos, i') == Some(c);
    i := i';
  }

  /** What getTileFlips promises for the directions ds. */
  ghost predicate FlipsOf(g: Grid, coin: Coin, pos: Coordinate, ds: seq<Direction>, r: seq<Coordinate>) {
    && (forall c :: c in r <==> exists d :: d in ds && Captures(g, coin, pos, d, c))
    && (forall c :: c in r ==> At(g, c) == Occupied(Opposite(coin)))
    && (NoDup(ds) ==> NoDup(r))
  }

  /** Prepending the run of the first direction to the flips of the others gives the flips of all. */
  lemma ConcatFlips(g: Grid, coin: Coin, pos: Coordinate, ds: seq<Direction>,
                    r0: Option<seq<Coordinate>>, rest: seq<Coordinate>)
    requires ds != []
    requires FlankedRun(g, coin, ds[0], pos, r0)
    requires FlipsOf(g, coin, pos, ds[1..], rest)
    ensures FlipsOf(g, coin, pos, ds, r0.GetOr([]) + rest)
  {
    var here := r0.GetOr([]);
    var r := here + rest;
    forall c
      ensures c in here <==> Captures(g, coin, pos, ds[0], c)
    {
      RunCaptures(g, coin, ds[0], pos, r0, c);
    }
    assert forall d :: d in ds <==> d == ds[0] || d in ds[1..];
    forall c | c in here
      ensures At(g, c) == Occupied(Opposite(coin))
    {
      CapturedIsOpponent(g, coin, ds[0], pos, c);
    }
    if NoDup(ds) {
      assert NoDup(ds[1..]);
      forall i, j | 0 <= i < j < |r|
        ensures r[i] != r[j]
      {
        if j < |here| {
          var rs := r0.value;
          assert RayCoord(ds[0], pos, |rs| - i) == Some(rs[|rs| - (|rs| - i)]);
          assert RayCoord(ds[0], pos, |rs| - j) == Some(rs[|rs| - (|rs| - j)]);
          RayInjective(ds[0], pos, |rs| - i, |rs| - j);
        } else if i < |here| {
          assert r[i] in here && r[j] in rest;
          var m := CapturedOnRay(g, coin, ds[0], pos, r[i]);
          var e :| e in ds[1..] && Captures(g, coin, pos, e, r[j]);
          var m' := CapturedOnRay(g, coin, e, pos, r[j]);
          assert ds[0] != e;
          RaysDisjoint(ds[0], e, pos, m, m');
        }
      }
    }
  }

  /** The flatMap of getTileFlips over the directions ds. */
  function FlipsAlong(g: Grid, coin: Coin, pos: Coordinate, ds: seq<Direction>): (r: seq<Coordinate>)
    ensures FlipsOf(g, coin, pos, ds, r)
  {
    if ds == [] then []
    else
      var r0 := Accumulate(g, coin, ds[0], pos);
      var rest := FlipsAlong(g, coin, pos, ds[1..]);
      ConcatFlips(g, coin, pos, ds, r0, rest);
      r0.GetOr([]) + rest
  }

  /** getTileFlips(for:at:): the discs a coin placed at pos would capture. */
  function TileFlips(g: Grid, coin: Coin, pos: Coordinate): (r: seq<Coordinate>)
    ensures forall c :: c in r <==> exists d :: Captures(g, coin, pos, d, c)
    ensures forall c :: c in r ==> At(g, c) == Occupied(Opposite(coin))
    ensures NoDup(r)
  {
    AllDirectionsComplete();
    FlipsAlong(g, coin, pos, AllDirections)
  }

  /** Some disc is flipped exactly when some direction flanks a run of one disc or more. */
  lemma FlipsNonEmpty(g: Grid, coin: Coin, pos: Coordinate, flips: seq<Coordinate>)
    requires forall c :: c in flips <==> exists d :: Captures(g, coin, pos, d, c)
    ensures flips != [] <==> exists d: Direction, k: nat :: 1 <= k && Flanked(g, coin, d, pos, k)
  {
    if flips != [] {
      assert flips[0] in flips;
      var d :| Captures(g, coin, pos, d, flips[0]);
      var k: nat, i: nat :| 1 <= i <= k && Flanked(g, coin, d, pos, k) && RayCoord(d, pos, i) == Some(flips[0]);
    }
    if exists d: Direction, k: nat :: 1 <= k && Flanked(g, coin, d, pos, k) {
      var d: Direction, k: nat :| 1 <= k && Flanked(g, coin, d, pos, k);
      assert Holds(g, RayCoord(d, pos, 1), Occupied(Opposite(coin)));
      assert Captures(g, coin, pos, d, RayCoord(d, pos, 1).value);
      assert RayCoord(d, pos, 1).value in flips;
    }
  }

  /** isLegalMove(for:at:): the square is empty and the placement flips something. */
  function IsLegalMove(g: Grid, coin: Coin, pos: Coordinate): (r: bool)
    ensures r <==> Outflanks(g, coin, pos)
  {
    if At(g, pos) != Empty then false
    else
      var flips := TileFlips(g, coin, pos);
      FlipsNonEmpty(g, coin, pos, flips);
      flips != []
  }
}
