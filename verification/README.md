# Honeycomb panel generator — a Dafny model

This project models the core of `src/honeycomb.ts`, the module that turns a grid of
cell style codes into one 3D-printable honeycomb panel with two keyhole mounts. The
geometry itself is built by the JSCAD modeling library. Here every library call is a
constructor of a symbolic CSG term (`Csg.Solid`). Each function of the source becomes
a pure Dafny function that returns the term the source would build. The proofs are
about the logic that decides which geometry is built and where:

- `Lattice`: which grid entries become cells, in which order, and where each cell goes.
- `Cells`: the mode dispatch of `cell` (cavity shift, infill only for mode 3).
- `Profiles`: the hexagon outline of `hexagon` and the three-slab construction of
  `roundedHexagon`.
- `Keyholes`: the fixed `keyhole_box`/`keyhole` terms and how they are mounted.
- `Honeycomb`: `honeycomb` itself, both as a function and as the source's nested loops.

Numbers are exact reals. `Math.sqrt(3)` is a library call, so it is the parameter
`sqrt3`. Every property that depends on it assumes only `sqrt3 > 0` and
`sqrt3 * sqrt3 == 3` (`Csg.IsSqrt3`). Angles are multiples of π (`Csg.Angle`).
`Csg.ZExtent` is the one piece of library meaning the model uses: the vertical extent
of the shapes whose extent JSCAD documents. `extrudeLinear` sweeps from z = 0 to its
height, `cylinder` and `cuboid` are centred on the origin, translations shift, and a
union spans the hull of its parts. This is what gives the cell modes their meaning,
open frame versus frame with a floor.

## Notes on the source

- The lattice pitch is `ratio = (s + thickness/2) - thickness/2`, which is exactly `s`
  (`Honeycomb.Pitch`).
- The `size` of `hexagon` is the corner-to-corner span. The corners lie at ±size/2
  on the x axis, and the flats are √3·size/2 apart (`Profiles.HexagonFlatToFlat`).
- Each cell is drawn with size `s + thickness/2`, so its corner-to-corner span exceeds
  the pitch by thickness/2. Walls still meet exactly: the wall strip along the top flat
  of a cell and the one along the bottom flat of the next cell in the column are the
  same strip, √3·thickness/4 wide (`Honeycomb.SharedWalls`).
- The cavity is shifted down by `thickness` for mode 1 and up by `thickness/2` for
  every other mode. Mode 1 is therefore an open frame, and all other modes keep a
  floor thickness/2 thick (`Cells.CellModes`).
- In mode 3, a size × size × height box, centred on the origin, is subtracted from the
  infill.
- Prepending an empty row moves every cell by one row step. The keyholes, which are
  placed by explicit coordinates, stay where they are
  (`Honeycomb.PrependedEmptyRowShiftsCells`).
- A missing `keyholeCoords` throws a TypeError after the cells are built. The model
  returns `Failure(KeyholeCoordsUndefined)` and no solid.

## Model

| member | source | states |
|---|---|---|
| Lattice.Placements | src/honeycomb.ts:147-153 | the two loops' choice of cells as a function of the grid; what it yields is stated by `Lattice.PlacementsMembership`, `Lattice.PlacementsRowMajor` and `Lattice.PlacementsCount` |
| Lattice.Position | src/honeycomb.ts:159-163 | the translation of the cell at column x, row y; its lattice geometry is stated by `Lattice.PositionRowStep`, `Lattice.PositionColumnStagger` and `Lattice.NeighbourSpacing` |
| Lattice.RowPlacementsSpec | src/honeycomb.ts:148-153 | a row yields a placement exactly for each nonzero entry, negative codes included, tagged with the row index and never beyond the row's own length; columns strictly increase |
| Lattice.PlacementsMembership | src/honeycomb.ts:147-153 | a placement (x, y, style) is emitted if and only if y and x are in range of the ragged grid and `rows[y][x]` is the nonzero style |
| Lattice.PlacementsRowMajor | src/honeycomb.ts:147-168 | placements come out in strict row-major order, by row y and then by column x |
| Lattice.PlacementsCount | src/honeycomb.ts:147-166 | the number of placements equals the number of nonzero entries of the grid |
| Lattice.ClearingAnEntry | src/honeycomb.ts:149-153 | setting one entry to 0 removes exactly that entry's placement and nothing else, and the count drops by one when the entry was nonzero |
| Lattice.PrependedEmptyRow | src/honeycomb.ts:147-168 | prepending a row of zeros yields the same placements with every row index raised by one |
| Lattice.PositionRowStep | src/honeycomb.ts:159-163 | moving a cell one row down keeps its x and raises its y by √3·0.5·ratio |
| Lattice.PositionColumnStagger | src/honeycomb.ts:160-161 | an odd column sits 0.75·ratio right of the even column before it and half a row step higher |
| Lattice.NeighbourSpacing | src/honeycomb.ts:159-163 | the cell above, the cell beside, and the diagonal neighbour are all at squared distance 0.75·ratio², i.e. √3/2·ratio away; the placement formula is a hexagonal lattice |
| Profiles.Hexagon | src/honeycomb.ts:34-50 | the prism stands on z = 0 and reaches z = height (no extent for a negative height); its profile is described by the three lemmas below |
| Profiles.HexagonProfileSymmetry | src/honeycomb.ts:40-47 | the profile has six corners, corner i+3 is the negation of corner i, and it is symmetric in the x axis |
| Profiles.HexagonProfileIsRegular | src/honeycomb.ts:34-47 | every corner lies size/2 from the centre and every edge is size/2 long: a regular hexagon of circumradius size/2 |
| Profiles.HexagonFlatToFlat | src/honeycomb.ts:35-47 | the two flat edges lie √3·size/2 apart, so `size` is the corner-to-corner span |
| Profiles.RoundedHexagon | src/honeycomb.ts:10-32 | the `roundedHexagon` term; its structure is stated by `Profiles.RoundedHexagonIsThreeTurnedSlabs` |
| Profiles.RoundedHexagonIsThreeTurnedSlabs | src/honeycomb.ts:10-32 | the rounded hexagon is the intersection of one centred slab turned by 0, π/3 and 2π/3 about y; the slab's rounded rectangle is s wide overall and is swept 2·(s − radius) long |
| Cells.Cell | src/honeycomb.ts:52-85 | the `cell` term; what each mode builds is stated by `Cells.CellModes` and `Cells.UnknownModesFallBack` |
| Cells.CellModes | src/honeycomb.ts:52-85 | every cell is the hexagon minus a hexagon `thickness` narrower and 2·thickness taller, moved along z only so it stays centred; infill is added iff mode = 3, with the rounded hexagon of size (size−thickness)·0.8658 turned [π/2, 0, π/6], lifted by (height − radius)/2 − thickness/4, minus a centred size × size × height box spanning z from −height/2 to height/2; the cavity always clears the top, and it pierces the bottom iff mode = 1; otherwise it leaves a floor thickness/2 thick; exactly, the cavity spans z from the shift (−thickness for mode 1, thickness/2 otherwise) to the shift plus height + 2·thickness |
| Cells.UnknownModesFallBack | src/honeycomb.ts:62-84 | every code other than 1 and 3 builds the same cell as code 2: the plain wall with a floor |
| Keyholes.KeyholeBox | src/honeycomb.ts:87-100 | the `keyhole_box` plug term; its extent is stated by `Keyholes.KeyholeBoxExtent` and `Keyholes.MountedExtents` |
| Keyholes.Keyhole | src/honeycomb.ts:102-133 | the `keyhole` cut term; its extent is stated by `Keyholes.KeyholeExtent` and `Keyholes.MountedExtents` |
| Keyholes.KeyholeBoxExtent | src/honeycomb.ts:89-100 | the plug spans z from −3.5 to 3.5 before placement |
| Keyholes.KeyholeExtent | src/honeycomb.ts:102-133 | the keyhole spans z from −6 to 2.25 before placement |
| Keyholes.MountedExtents | src/honeycomb.ts:173-190 | once placed at z = h/2, the plug fills z from 0 to 7, and the keyhole pierces the back (down to −2.5) while leaving 1.25 under the plug's top |
| Honeycomb.Pitch | src/honeycomb.ts:143-155 | the pitch `ratio` equals `s` exactly, and the cell size exceeds it by thickness/2 |
| Honeycomb.Honeycomb | src/honeycomb.ts:135-192 | the panel fails, with the undefined-coordinates error, exactly when no keyhole coordinates are given |
| Honeycomb.SharedWalls | src/honeycomb.ts:143-164 | with cell size s + thickness/2 and pitch s, the wall strip along the top flat of a cell equals the wall strip along the bottom flat of the next cell in the column, each √3·thickness/4 wide |
| Honeycomb.CollectParts | src/honeycomb.ts:145-168 | the nested loops build exactly the placed cells of the grid's placements, in order |
| Honeycomb.PartsSpec | src/honeycomb.ts:143-166 | one part per nonzero entry, in row-major order; the part for (x, y) is the cell of that style, of size s + thickness/2, translated to the lattice position for pitch s; zero entries give no part |
| Honeycomb.HoneycombComposition | src/honeycomb.ts:170-192 | the panel is the union of the cell parts and one plug per coordinate, minus the union of one keyhole per coordinate; plug and keyhole k share one placement: at coordinate k, z = 3.5, scaled [0.5, 0.5, 1] |
| Honeycomb.PrependedEmptyRowShiftsCells | src/honeycomb.ts:147-192 | prepending an empty row translates every cell part by (0, √3·0.5·s, 0) and leaves the cells themselves and the keyhole plugs and cuts unchanged |

## Left out

- The meaning of the JSCAD operations (`extrudeLinear`, `offset` with round corners,
  `rotate`, `scale`, `union`, `subtract`, `intersect`). They are uninterpreted term
  constructors. Volumes, watertightness and bounding boxes are not modelled, apart
  from the vertical extents of `Csg.ZExtent`.
- Volume and idempotence claims about the result, such as A − B − B = A − B for two
  coinciding keyholes. These need the boolean semantics that is left out.
- Floating-point rounding and the `segments: 100` tessellation. Positions are exact reals.
- `Math.sqrt(3)`: a library call, so it is the parameter `sqrt3`. Properties assume
  only that it is a positive square root of 3.
- Style codes are integers. JavaScript `NaN` and fractional codes are not modelled,
  and neither is `!style` treating `NaN` as false.
- Keyhole placement derived from the bounding box, radius clamping and the keychain
  medallion. None of them appears in `src/honeycomb.ts`.
- Module import/export plumbing and the `Geom3` type.
