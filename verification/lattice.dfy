/** The honeycomb lattice: which entries of the style grid become cells,
    in what order, and where each cell is placed. */
module Lattice {
  import opened Csg

  /** One emitted cell: its column x, its row y and its style code. */
  datatype Placement = Placement(col: nat, row: nat, style: int)

  /** `p` records a nonzero entry of the (possibly ragged) grid. */
  predicate IsEntry(rows: seq<seq<int>>, p: Placement) {
    p.row < |rows| && p.col < |rows[p.row]| && rows[p.row][p.col] == p.style && p.style != 0
  }

  /** Row-major order: by row, then by column. */
  predicate Before(p: Placement, q: Placement) {
    p.row < q.row || (p.row == q.row && p.col < q.col)
  }

  /** The inner loop over one row `y`: every nonzero entry, left to right.
      A zero entry is skipped as falsy; negative codes are truthy and
      are kept. */
  function RowPlacements(row: seq<int>, y: nat): seq<Placement>
    decreases |row|
  {
    if |row| == 0 then []
    else
      var x := |row| - 1;
      RowPlacements(row[..x], y) + (if row[x] != 0 then [Placement(x, y, row[x])] else [])
  }

  /** Both loops: the rows' placements, top to bottom. */
  function Placements(rows: seq<seq<int>>): seq<Placement>
    decreases |rows|
  {
    if |rows| == 0 then []
    else
      var y := |rows| - 1;
      Placements(rows[..y]) + RowPlacements(rows[y], y)
  }

  /** The coordinates (x, y) of the nonzero entries, as a set. */
  function NonzeroCells(rows: seq<seq<int>>): set<(nat, nat)> {
    set y: nat, x: nat | y < |rows| && x < |rows[y]| && rows[y][x] != 0 :: (x, y)
  }

  /** The coordinates of a list of placements, as a set. */
  function Coordinates(ps: seq<Placement>): set<(nat, nat)> {
    set i | 0 <= i < |ps| :: (ps[i].col, ps[i].row)
  }

  /** The placements are strictly in row-major order. */
  predicate RowMajor(ps: seq<Placement>) {
    forall i, j | 0 <= i < j < |ps| :: Before(ps[i], ps[j])
  }

  /** A row yields exactly its nonzero entries, tagged with the row index,
      in increasing column order and never beyond the row's own length. */
  lemma {:induction false} RowPlacementsSpec(row: seq<int>, y: nat)
    ensures forall p :: p in RowPlacements(row, y) <==>
      p.row == y && p.col < |row| && row[p.col] == p.style && p.style != 0
    ensures forall i, j | 0 <= i < j < |RowPlacements(row, y)| ::
      RowPlacements(row, y)[i].col < RowPlacements(row, y)[j].col
    decreases |row|
  {
    if |row| > 0 {
      var x := |row| - 1;
      RowPlacementsSpec(row[..x], y);
      var init := RowPlacements(row[..x], y);
      assert forall p | p in init :: p.col < x;
    }
  }

  /** The placements are exactly the nonzero entries of the grid. */
  lemma {:induction false} PlacementsMembership(rows: seq<seq<int>>)
    ensures forall p :: p in Placements(rows) <==> IsEntry(rows, p)
    decreases |rows|
  {
    if |rows| > 0 {
      var y := |rows| - 1;
      PlacementsMembership(rows[..y]);
      RowPlacementsSpec(rows[y], y);
      forall p
        ensures p in Placements(rows) <==> IsEntry(rows, p)
      {
        if p.row < y {
          assert rows[..y][p.row] == rows[p.row];
        }
      }
    }
  }

  /** The placements come out in strict row-major order: y, then x. */
  lemma {:induction false} PlacementsRowMajor(rows: seq<seq<int>>)
    ensures RowMajor(Placements(rows))
    decreases |rows|
  {
    if |rows| > 0 {
      var y := |rows| - 1;
      var init := Placements(rows[..y]);
      var last := RowPlacements(rows[y], y);
      PlacementsRowMajor(rows[..y]);
      PlacementsMembership(rows[..y]);
      RowPlacementsSpec(rows[y], y);
      forall i | 0 <= i < |init|
        ensures init[i].row < y
      {
        assert init[i] in init;
      }
      forall j | 0 <= j < |last|
        ensures last[j].row == y
      {
        assert last[j] in last;
      }
      var ps := init + last;
      forall i, j | 0 <= i < j < |ps|
        ensures Before(ps[i], ps[j])
      {
        if j < |init| {
        } else if i >= |init| {
          assert ps[i] == last[i - |init|] && ps[j] == last[j - |init|];
        } else {
          assert ps[i] == init[i] && ps[j] == last[j - |init|];
        }
      }
    }
  }

  /** Placements in strict row-major order have distinct coordinates. */
  lemma {:induction false} RowMajorCoordinates(ps: seq<Placement>)
    requires RowMajor(ps)
    ensures |Coordinates(ps)| == |ps|
    decreases |ps|
  {
    if |ps| > 0 {
      var n := |ps| - 1;
      var init := ps[..n];
      assert RowMajor(init);
      RowMajorCoordinates(init);
      var key := (ps[n].col, ps[n].row);
      assert Coordinates(ps) == Coordinates(init) + {key};
      forall i | 0 <= i < n
        ensures (init[i].col, init[i].row) != key
      {
        assert Before(ps[i], ps[n]);
      }
    }
  }

  /** One placement per nonzero entry: the count is the number of nonzero
      entries, however ragged the rows. */
  lemma PlacementsCount(rows: seq<seq<int>>)
    ensures |Placements(rows)| == |NonzeroCells(rows)|
  {
    var ps := Placements(rows);
    PlacementsMembership(rows);
    PlacementsRowMajor(rows);
    RowMajorCoordinates(ps);
    forall c | c in NonzeroCells(rows)
      ensures c in Coordinates(ps)
    {
      var p := Placement(c.0, c.1, rows[c.1][c.0]);
      assert IsEntry(rows, p);
      var i :| 0 <= i < |ps| && ps[i] == p;
    }
    forall c | c in Coordinates(ps)
      ensures c in NonzeroCells(rows)
    {
      var i :| 0 <= i < |ps| && c == (ps[i].col, ps[i].row);
      assert ps[i] in ps;
    }
    assert Coordinates(ps) == NonzeroCells(rows);
  }

  /** Setting one entry to zero removes exactly the placement of that entry. */
  lemma ClearingAnEntry(rows: seq<seq<int>>, x: nat, y: nat)
    requires y < |rows| && x < |rows[y]|
    ensures var cleared := rows[y := rows[y][x := 0]];
      && (forall p :: p in Placements(cleared) <==> p in Placements(rows) && !(p.col == x && p.row == y))
      && NonzeroCells(cleared) == NonzeroCells(rows) - {(x, y)}
      && |Placements(cleared)| == |Placements(rows)| - (if rows[y][x] != 0 then 1 else 0)
  {
    var cleared := rows[y := rows[y][x := 0]];
    PlacementsMembership(rows);
    PlacementsMembership(cleared);
    PlacementsCount(rows);
    PlacementsCount(cleared);
    assert NonzeroCells(cleared) == NonzeroCells(rows) - {(x, y)};
    if rows[y][x] != 0 {
      assert (x, y) in NonzeroCells(rows);
    } else {
      assert (x, y) !in NonzeroCells(rows);
    }
  }

  /** The same placements, one row further down the grid. */
  function Lowered(ps: seq<Placement>): (r: seq<Placement>)
    ensures |r| == |ps|
  {
    seq(|ps|, i requires 0 <= i < |ps| => ps[i].(row := ps[i].row + 1))
  }

  lemma {:induction false} RowPlacementsLowered(row: seq<int>, y: nat)
    ensures RowPlacements(row, y + 1) == Lowered(RowPlacements(row, y))
    decreases |row|
  {
    if |row| > 0 {
      RowPlacementsLowered(row[..|row| - 1], y);
    }
  }

  lemma ZeroRowPlacements(z: seq<int>, y: nat)
    requires forall x | 0 <= x < |z| :: z[x] == 0
    ensures RowPlacements(z, y) == []
  {
    RowPlacementsSpec(z, y);
    if RowPlacements(z, y) != [] {
      assert RowPlacements(z, y)[0] in RowPlacements(z, y);
    }
  }

  /** Putting a row with no cells on top of the grid moves every placement
      one row down and changes nothing else. */
  lemma {:induction false} PrependedEmptyRow(z: seq<int>, rows: seq<seq<int>>)
    requires forall x | 0 <= x < |z| :: z[x] == 0
    ensures Placements([z] + rows) == Lowered(Placements(rows))
    decreases |rows|
  {
    if |rows| == 0 {
      assert ([z] + rows)[..0] == [];
      ZeroRowPlacements(z, 0);
    } else {
      var y := |rows| - 1;
      PrependedEmptyRow(z, rows[..y]);
      assert ([z] + rows)[..y + 1] == [z] + rows[..y];
      assert ([z] + rows)[y + 1] == rows[y];
      RowPlacementsLowered(rows[y], y);
      assert Lowered(Placements(rows[..y]) + RowPlacements(rows[y], y))
        == Lowered(Placements(rows[..y])) + Lowered(RowPlacements(rows[y], y));
    }
  }

  /** Where the cell of column x, row y goes, for pitch `ratio`:
      (0.75·x·ratio, √3·0.5·ratio·((x mod 2)·0.5 + y), 0). Odd columns sit
      half a row higher. Columns are never negative, so the source's `%`
      and Dafny's agree. */
  function Position(col: nat, row: int, ratio: real, sqrt3: real): Vec3 {
    Vec3(0.75 * (col as real) * ratio,
         sqrt3 * 0.5 * ratio * (((col % 2) as real) * 0.5 + row as real),
         0.0)
  }

  /** The row step √3·0.5·ratio. */
  function RowStep(ratio: real, sqrt3: real): real {
    sqrt3 * 0.5 * ratio
  }

  /** The y of a position is the row step times (x mod 2)·0.5 + y. */
  lemma PositionY(col: nat, row: int, ratio: real, sqrt3: real)
    ensures Position(col, row, ratio, sqrt3).y
      == RowStep(ratio, sqrt3) * (((col % 2) as real) * 0.5 + row as real)
  {
  }

  lemma Distributes(u: real, t: real, d: real)
    ensures u * (t + d) == u * t + u * d
  {
  }

  /** One row further down is √3·0.5·ratio further along y, at the same x. */
  lemma PositionRowStep(col: nat, row: int, ratio: real, sqrt3: real)
    ensures Position(col, row + 1, ratio, sqrt3)
      == Position(col, row, ratio, sqrt3).Add(Vec3(0.0, sqrt3 * 0.5 * ratio, 0.0))
  {
    var t := ((col % 2) as real) * 0.5 + row as real;
    PositionY(col, row, ratio, sqrt3);
    PositionY(col, row + 1, ratio, sqrt3);
    assert ((col % 2) as real) * 0.5 + (row + 1) as real == t + 1.0;
    Distributes(RowStep(ratio, sqrt3), t, 1.0);
  }

  /** An odd column sits 0.75·ratio to the right of the even column before
      it and half a row step higher. */
  lemma PositionColumnStagger(k: nat, row: int, ratio: real, sqrt3: real)
    ensures Position(2 * k + 1, row, ratio, sqrt3)
      == Position(2 * k, row, ratio, sqrt3).Add(Vec3(0.75 * ratio, sqrt3 * 0.25 * ratio, 0.0))
  {
    assert (2 * k + 1) % 2 == 1 && (2 * k) % 2 == 0;
    PositionY(2 * k, row, ratio, sqrt3);
    PositionY(2 * k + 1, row, ratio, sqrt3);
    Distributes(RowStep(ratio, sqrt3), row as real, 0.5);
    assert 0.75 * ((2 * k + 1) as real) * ratio == 0.75 * ((2 * k) as real) * ratio + 0.75 * ratio;
  }

  /** The squares behind `NeighbourSpacing`: a row step u = √3·0.5·ratio
      has u² = 0.75·ratio², and so does the diagonal step (0.75·ratio, u/2). */
  lemma StepSquares(ratio: real, sqrt3: real)
    requires IsSqrt3(sqrt3)
    ensures var u := RowStep(ratio, sqrt3);
      && 0.0 * 0.0 + u * u + 0.0 * 0.0 == 0.75 * ratio * ratio
      && (0.75 * ratio) * (0.75 * ratio) + (0.5 * u) * (0.5 * u) + 0.0 * 0.0 == 0.75 * ratio * ratio
      && (0.75 * ratio) * (0.75 * ratio) + (-0.5 * u) * (-0.5 * u) + 0.0 * 0.0 == 0.75 * ratio * ratio
  {
    var u := RowStep(ratio, sqrt3);
    assert u * u == 0.25 * (sqrt3 * sqrt3) * (ratio * ratio);
  }

  /** The offset from column `col` to column `col + 1` in row `row2`, when
      column `col` is in row `row`. */
  lemma ColumnOffset(col: nat, row: int, row2: int, ratio: real, sqrt3: real)
    ensures var u := RowStep(ratio, sqrt3);
      var lift := if col % 2 == 0 then 0.5 else -0.5;
      Position(col + 1, row2, ratio, sqrt3).Sub(Position(col, row, ratio, sqrt3))
        == Vec3(0.75 * ratio, u * (lift + (row2 - row) as real), 0.0)
  {
    var u := RowStep(ratio, sqrt3);
    var m := (col % 2) as real;
    var m2 := ((col + 1) % 2) as real;
    assert m2 == 1.0 - m;
    PositionY(col, row, ratio, sqrt3);
    PositionY(col + 1, row2, ratio, sqrt3);
    var lift := if col % 2 == 0 then 0.5 else -0.5;
    assert m2 * 0.5 + row2 as real == (m * 0.5 + row as real) + (lift + (row2 - row) as real);
    Distributes(u, m * 0.5 + row as real, lift + (row2 - row) as real);
    assert 0.75 * ((col + 1) as real) * ratio == 0.75 * (col as real) * ratio + 0.75 * ratio;
  }

  /** The lattice is a hexagonal one: the six neighbours of every cell —
      above and below, and the two on each side — are all √3/2·ratio away,
      the flat-to-flat width of a hexagon whose corner-to-corner span is
      `ratio`. */
  lemma NeighbourSpacing(col: nat, row: int, ratio: real, sqrt3: real)
    requires IsSqrt3(sqrt3)
    ensures var here := Position(col, row, ratio, sqrt3);
      var side := if col % 2 == 0 then row - 1 else row + 1;
      && Position(col, row + 1, ratio, sqrt3).Sub(here).NormSq() == 0.75 * ratio * ratio
      && Position(col + 1, row, ratio, sqrt3).Sub(here).NormSq() == 0.75 * ratio * ratio
      && Position(col + 1, side, ratio, sqrt3).Sub(here).NormSq() == 0.75 * ratio * ratio
  {
    var u := RowStep(ratio, sqrt3);
    StepSquares(ratio, sqrt3);
    PositionRowStep(col, row, ratio, sqrt3);
    var side := if col % 2 == 0 then row - 1 else row + 1;
    ColumnOffset(col, row, row, ratio, sqrt3);
    ColumnOffset(col, row, side, ratio, sqrt3);
    if col % 2 == 0 {
      assert u * (0.5 + 0.0) == 0.5 * u;
      assert u * (0.5 + -1.0) == -0.5 * u;
    } else {
      assert u * (-0.5 + 0.0) == -0.5 * u;
      assert u * (-0.5 + 1.0) == 0.5 * u;
    }
  }
}
