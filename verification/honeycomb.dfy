/** `honeycomb(rows, s, thickness, height, radius, keyholeCoords)`: the cells
    of the grid placed on the lattice, fused with two keyhole plugs, with
    the two keyholes cut out. */
module Honeycomb {
  import opened Wrappers
  import opened Csg
  import opened Profiles
  import opened Cells
  import opened Keyholes
  import opened Lattice

  /** `keyholeCoords` is typed as possibly `undefined` but is indexed
      unconditionally, which throws. */
  datatype HoneycombError = KeyholeCoordsUndefined

  datatype KeyholeCoords = KeyholeCoords(first: Point2, second: Point2)

  /** Keyhole coordinate k (0 or 1). */
  function Coord(c: KeyholeCoords, k: nat): Point2 {
    if k == 0 then c.first else c.second
  }

  /** The size handed to `cell`: `s + thickness / 2`. */
  function CellSize(s: real, thickness: real): real {
    s + thickness / 2.0
  }

  /** The lattice pitch, `size - thickness / 2`: it undoes the widening of
      `CellSize`, so the pitch is exactly `s`. */
  function Pitch(s: real, thickness: real): (ratio: real)
    ensures ratio == s
    ensures CellSize(s, thickness) - ratio == thickness / 2.0
  {
    CellSize(s, thickness) - thickness / 2.0
  }

  /** The cells overlap by thickness/2 corner to corner, yet their walls do
      not overlap partly: the wall strip along the top flat of a cell, from
      the cavity's flat to the outer flat, is exactly the wall strip along
      the bottom flat of the cell one row further, and each strip is
      √3·thickness/4 wide. */
  lemma SharedWalls(col: nat, row: int, s: real, thickness: real, sqrt3: real)
    ensures var size := CellSize(s, thickness);
      var outer := HexagonPoints(size, sqrt3);
      var inner := HexagonPoints(size - thickness, sqrt3);
      var here := Position(col, row, Pitch(s, thickness), sqrt3).y;
      var next := Position(col, row + 1, Pitch(s, thickness), sqrt3).y;
      && next + outer[4].y == here + inner[1].y
      && next + inner[4].y == here + outer[1].y
      && outer[1].y - inner[1].y == sqrt3 * thickness / 4.0
  {
    var size := CellSize(s, thickness);
    PositionRowStep(col, row, Pitch(s, thickness), sqrt3);
    Distributes(sqrt3, s, thickness / 2.0);
    Distributes(sqrt3, s, -thickness / 2.0);
    assert size - thickness == s + -thickness / 2.0;
    Distributes(sqrt3, s + -thickness / 2.0, thickness);
  }

  /** The part the loop pushes for one placement. */
  function PlaceCell(p: Placement, s: real, thickness: real, height: real, radius: real, sqrt3: real): Solid {
    Translate(Position(p.col, p.row, Pitch(s, thickness), sqrt3),
      Cell(CellSize(s, thickness), height, thickness, radius, p.style, sqrt3))
  }

  function PlaceAll(ps: seq<Placement>, s: real, thickness: real, height: real, radius: real, sqrt3: real): (r: seq<Solid>)
    ensures |r| == |ps|
  {
    seq(|ps|, i requires 0 <= i < |ps| => PlaceCell(ps[i], s, thickness, height, radius, sqrt3))
  }

  /** `parts` once both loops have run. */
  function Parts(rows: seq<seq<int>>, s: real, thickness: real, height: real, radius: real, sqrt3: real): seq<Solid> {
    PlaceAll(Placements(rows), s, thickness, height, radius, sqrt3)
  }

  /** The whole panel. Without keyhole coordinates the source throws
      after building the parts; no solid is returned. */
  function Honeycomb(rows: seq<seq<int>>, s: real, thickness: real, height: real, radius: real,
                     keyholeCoords: Option<KeyholeCoords>, sqrt3: real): (r: Result<Solid, HoneycombError>)
    ensures r.Failure? <==> keyholeCoords.None?
    ensures r.Failure? ==> r.error == KeyholeCoordsUndefined
  {
    match keyholeCoords
    case None => Failure(KeyholeCoordsUndefined)
    case Some(c) =>
      Success(Subtract(
        Union(Parts(rows, s, thickness, height, radius, sqrt3)
              + [Mount(c.first, KeyholeBox()), Mount(c.second, KeyholeBox())]),
        Union([Mount(c.first, Keyhole()), Mount(c.second, Keyhole())])))
  }

  /** The two nested loops that fill `parts`, as the source writes them. */
  method CollectParts(rows: seq<seq<int>>, s: real, thickness: real, height: real, radius: real, sqrt3: real)
    returns (parts: seq<Solid>)
    ensures parts == Parts(rows, s, thickness, height, radius, sqrt3)
  {
    var size := s + thickness / 2.0;
    parts := [];
    var y := 0;
    while y < |rows|
      invariant 0 <= y <= |rows|
      invariant parts == PlaceAll(Placements(rows[..y]), s, thickness, height, radius, sqrt3)
    {
      var x := 0;
      while x < |rows[y]|
        invariant 0 <= x <= |rows[y]|
        invariant parts == PlaceAll(Placements(rows[..y]) + RowPlacements(rows[y][..x], y),
                                    s, thickness, height, radius, sqrt3)
      {
        var style := rows[y][x];
        assert rows[y][..x + 1][..x] == rows[y][..x];
        if style != 0 {
          var ratio := size - thickness / 2.0;
          parts := parts + [Translate(Position(x, y, ratio, sqrt3), Cell(size, height, thickness, radius, style, sqrt3))];
        }
        x := x + 1;
      }
      assert rows[y][..|rows[y]|] == rows[y];
      assert rows[..y + 1][..y] == rows[..y];
      y := y + 1;
    }
    assert rows[..|rows|] == rows;
  }

  /** The cell parts, one per nonzero entry of the grid and in row-major
      order: the part for entry (x, y) is the cell of that entry's style,
      of size s + thickness/2, translated to the lattice position for pitch
      s. Zero entries yield nothing. */
  lemma PartsSpec(rows: seq<seq<int>>, s: real, thickness: real, height: real, radius: real, sqrt3: real)
    ensures var parts := Parts(rows, s, thickness, height, radius, sqrt3);
      var ps := Placements(rows);
      && |parts| == |NonzeroCells(rows)|
      && RowMajor(ps)
      && (forall i | 0 <= i < |parts| ::
            && IsEntry(rows, ps[i])
            && parts[i] == Translate(Position(ps[i].col, ps[i].row, s, sqrt3),
                             Cell(s + thickness / 2.0, height, thickness, radius, ps[i].style, sqrt3)))
      && (forall y: nat, x: nat | y < |rows| && x < |rows[y]| ::
            rows[y][x] != 0 <==> Placement(x, y, rows[y][x]) in ps)
  {
    var ps := Placements(rows);
    PlacementsCount(rows);
    PlacementsRowMajor(rows);
    PlacementsMembership(rows);
    forall y: nat, x: nat | y < |rows| && x < |rows[y]|
      ensures rows[y][x] != 0 <==> Placement(x, y, rows[y][x]) in ps
    {
      assert IsEntry(rows, Placement(x, y, rows[y][x])) <==> rows[y][x] != 0;
    }
    forall i | 0 <= i < |ps|
      ensures IsEntry(rows, ps[i])
    {
      assert ps[i] in ps;
    }
  }

  /** With keyhole coordinates the panel is: the union of the cell parts
      followed by one plug per coordinate, minus the union of one keyhole
      per coordinate. Plug and keyhole k share one placement: centred at
      coordinate k, z = 3.5 (half the mounting height 7), halved in x and y. */
  lemma HoneycombComposition(rows: seq<seq<int>>, s: real, thickness: real, height: real, radius: real,
                             c: KeyholeCoords, sqrt3: real)
    ensures var t := Honeycomb(rows, s, thickness, height, radius, Some(c), sqrt3).value;
      var n := |NonzeroCells(rows)|;
      && t.Subtract? && t.minuend.Union? && t.subtrahend.Union?
      && |t.minuend.parts| == n + 2
      && t.minuend.parts[..n] == Parts(rows, s, thickness, height, radius, sqrt3)
      && |t.subtrahend.parts| == 2
      && (forall k | 0 <= k < 2 ::
            && t.minuend.parts[n + k]
               == Translate(Vec3(Coord(c, k).x, Coord(c, k).y, 3.5), Scale(0.5, 0.5, 1.0, KeyholeBox()))
            && t.subtrahend.parts[k]
               == Translate(Vec3(Coord(c, k).x, Coord(c, k).y, 3.5), Scale(0.5, 0.5, 1.0, Keyhole())))
  {
    PartsSpec(rows, s, thickness, height, radius, sqrt3);
  }

  /** Adding an empty row on top of the grid moves every cell part one row
      step (√3·0.5·s) along y and leaves each cell itself unchanged; the
      keyholes, placed by explicit coordinates, do not move. */
  lemma PrependedEmptyRowShiftsCells(z: seq<int>, rows: seq<seq<int>>, s: real, thickness: real,
                                     height: real, radius: real, c: KeyholeCoords, sqrt3: real)
    requires forall x | 0 <= x < |z| :: z[x] == 0
    ensures var before := Parts(rows, s, thickness, height, radius, sqrt3);
      var after := Parts([z] + rows, s, thickness, height, radius, sqrt3);
      && |after| == |before|
      && (forall i | 0 <= i < |before| ::
            && before[i].Translate? && after[i].Translate?
            && after[i].solid == before[i].solid
            && after[i].offset == before[i].offset.Add(Vec3(0.0, sqrt3 * 0.5 * s, 0.0)))
    ensures var a := Honeycomb(rows, s, thickness, height, radius, Some(c), sqrt3).value;
      var b := Honeycomb([z] + rows, s, thickness, height, radius, Some(c), sqrt3).value;
      && b.subtrahend == a.subtrahend
      && b.minuend.parts[|b.minuend.parts| - 2..] == a.minuend.parts[|a.minuend.parts| - 2..]
  {
    var ps := Placements(rows);
    PrependedEmptyRow(z, rows);
    var before := Parts(rows, s, thickness, height, radius, sqrt3);
    var after := Parts([z] + rows, s, thickness, height, radius, sqrt3);
    forall i | 0 <= i < |before|
      ensures after[i].offset == before[i].offset.Add(Vec3(0.0, sqrt3 * 0.5 * s, 0.0))
    {
      PositionRowStep(ps[i].col, ps[i].row, s, sqrt3);
    }
  }
}
