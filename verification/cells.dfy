/** One honeycomb cell, `cell(size, height, thickness, radius, mode)`: a
    hexagonal wall, and for mode 3 a decorative rounded-hexagon infill. */
module Cells {
  import opened Wrappers
  import opened Csg
  import opened Profiles

  /** How far the cavity is moved along z: down by the wall thickness for
      mode 1, up by half of it for every other mode. */
  function CavityShift(thickness: real, mode: int): real {
    if mode == 1 then -thickness else thickness / 2.0
  }

  /** The wall: the outer hexagon minus a hexagon `thickness` narrower and
      2·thickness taller, shifted along z by `CavityShift`. */
  function CellWall(size: real, height: real, thickness: real, mode: int, sqrt3: real): Solid {
    Subtract(
      Hexagon(size, height, sqrt3),
      TranslateZ(CavityShift(thickness, mode), Hexagon(size - thickness, height + thickness * 2.0, sqrt3)))
  }

  /** The decorative infill: a rounded hexagon (size − thickness)·0.8658
      across, turned π/2 about x and π/6 about z, lifted, with a
      size × size × height box centred on the origin cut away. */
  function CellInfill(size: real, height: real, thickness: real, radius: real): Solid {
    Subtract(
      TranslateZ((height - radius) / 2.0 - thickness / 4.0,
        Rotate(PiTimes(0.5), PiTimes(0.0), PiTimes(1.0 / 6.0),
          RoundedHexagon((size - thickness) * 0.8658, height, radius))),
      TranslateZ(0.0, Cuboid(size, size, height)))
  }

  /** `cell(size, height, thickness, radius, mode)`. */
  function Cell(size: real, height: real, thickness: real, radius: real, mode: int, sqrt3: real): Solid {
    var a := CellWall(size, height, thickness, mode, sqrt3);
    if mode == 3 then Union([a, CellInfill(size, height, thickness, radius)]) else a
  }

  /** What each mode builds. Every cell is a wall — the hexagon of the given
      size and height minus a hexagon `thickness` narrower, moved along z
      only, so it stays centred in the wall — and the infill is added
      exactly for mode 3: the turned rounded hexagon lifted by
      (height − radius)/2 − thickness/4, minus a centred size × size ×
      height box. With a positive thickness the cavity
      always rises above the top of the wall, and it reaches below the
      bottom (an open frame) exactly for mode 1; every other mode keeps a
      floor thickness/2 thick. */
  lemma CellModes(size: real, height: real, thickness: real, radius: real, mode: int, sqrt3: real)
    requires thickness > 0.0 && height >= 0.0
    ensures var c := Cell(size, height, thickness, radius, mode, sqrt3);
      var wall := if c.Union? then c.parts[0] else c;
      && (c.Union? <==> mode == 3)
      && (c.Union? ==>
            && |c.parts| == 2
            && c.parts[1].Subtract?
            && c.parts[1].minuend.Translate?
            && c.parts[1].minuend.solid
              == Rotate(PiTimes(0.5), PiTimes(0.0), PiTimes(1.0 / 6.0),
                   RoundedHexagon((size - thickness) * 0.8658, height, radius))
            && c.parts[1].minuend.offset == Vec3(0.0, 0.0, (height - radius) / 2.0 - thickness / 4.0)
            && c.parts[1].subtrahend.Translate?
            && c.parts[1].subtrahend.offset == Vec3(0.0, 0.0, 0.0)
            && c.parts[1].subtrahend.solid == Cuboid(size, size, height)
            && ZExtent(c.parts[1].subtrahend) == Some(Span(-height / 2.0, height / 2.0)))
      && wall.Subtract?
      && wall.minuend == Hexagon(size, height, sqrt3)
      && wall.subtrahend.Translate?
      && wall.subtrahend.offset == Vec3(0.0, 0.0, CavityShift(thickness, mode))
      && wall.subtrahend.solid == Hexagon(size - thickness, height + 2.0 * thickness, sqrt3)
      && ZExtent(wall.minuend) == Some(Span(0.0, height))
      && ZExtent(wall.subtrahend).Some?
      && ZExtent(wall.subtrahend).value.hi > height
      && (ZExtent(wall.subtrahend).value.lo < 0.0 <==> mode == 1)
      && (mode != 1 ==> ZExtent(wall.subtrahend).value.lo == thickness / 2.0)
      && ZExtent(wall.subtrahend)
           == Some(Span(CavityShift(thickness, mode), CavityShift(thickness, mode) + height + 2.0 * thickness))
  {
  }

  /** Codes other than 1 and 3 are not rejected: each builds exactly the
      cell code 2 builds, a wall with a floor and no infill. */
  lemma UnknownModesFallBack(size: real, height: real, thickness: real, radius: real, mode: int, sqrt3: real)
    requires mode != 1 && mode != 3
    ensures Cell(size, height, thickness, radius, mode, sqrt3) == Cell(size, height, thickness, radius, 2, sqrt3)
    ensures Cell(size, height, thickness, radius, mode, sqrt3) == CellWall(size, height, thickness, mode, sqrt3)
  {
  }
}
