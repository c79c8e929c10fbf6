/** The hexagonal profiles of src/honeycomb.ts: the sharp hexagon prism
    `hexagon` and the edge-rounded hexagon `roundedHexagon`. */
module Profiles {
  import opened Wrappers
  import opened Csg

  /** The six corners `hexagon(size, _)` hands to `polygon`, counter-clockwise
      from (size/2, 0), with b = √3·size/4. */
  function HexagonPoints(size: real, sqrt3: real): seq<Point2> {
    var b := sqrt3 * size / 4.0;
    [
      Point2(size / 2.0, 0.0),
      Point2(size / 4.0, b),
      Point2(-size / 4.0, b),
      Point2(-size / 2.0, 0.0),
      Point2(-size / 4.0, -b),
      Point2(size / 4.0, -b)
    ]
  }

  /** `hexagon(size, height)`: the hexagon profile swept up to `height`,
      so the prism stands on z = 0 and reaches z = height. */
  function Hexagon(size: real, height: real, sqrt3: real): (r: Solid)
    ensures height >= 0.0 ==> ZExtent(r) == Some(Span(0.0, height))
    ensures height < 0.0 ==> ZExtent(r).None?
  {
    ExtrudeLinear(height, Polygon(HexagonPoints(size, sqrt3)))
  }

  /** With q = size/4 and b = √3·q, the corners (2q, 0) and (q, b) both lie
      2q from the centre, and 2q from each other. */
  lemma CornerDistances(q: real, sqrt3: real)
    requires IsSqrt3(sqrt3)
    ensures var b := sqrt3 * q;
      && (2.0 * q) * (2.0 * q) == 4.0 * q * q
      && q * q + b * b == 4.0 * q * q
      && (2.0 * q - q) * (2.0 * q - q) + b * b == 4.0 * q * q
      && (2.0 * q) * (2.0 * q) + 0.0 * 0.0 == 4.0 * q * q
  {
    var b := sqrt3 * q;
    assert b * b == (sqrt3 * sqrt3) * (q * q);
  }

  /** The hexagon profile has six corners, is point-symmetric about the
      centre (corner i + 3 is the negation of corner i) and is mapped onto
      itself by reflection in the x axis. */
  lemma HexagonProfileSymmetry(size: real, sqrt3: real)
    ensures var p := HexagonPoints(size, sqrt3);
      && |p| == 6
      && (forall i | 0 <= i < 3 :: p[i + 3] == p[i].Neg())
      && p[0] == p[0].MirrorX() && p[3] == p[3].MirrorX()
      && (forall i | 1 <= i < 6 :: p[6 - i] == p[i].MirrorX())
  {
  }

  /** The hexagon profile is a regular hexagon of circumradius size/2:
      each corner lies size/2 from the centre and from both its
      neighbours. So `size` is the corner-to-corner span of the cell. */
  lemma HexagonProfileIsRegular(size: real, sqrt3: real)
    requires IsSqrt3(sqrt3)
    ensures var p := HexagonPoints(size, sqrt3);
      && (forall i | 0 <= i < 6 :: p[i].NormSq() == size * size / 4.0)
      && (forall i | 0 <= i < 5 :: p[i + 1].Sub(p[i]).NormSq() == size * size / 4.0)
      && p[0].Sub(p[5]).NormSq() == size * size / 4.0
  {
    var p := HexagonPoints(size, sqrt3);
    var q := size / 4.0;
    var b := sqrt3 * q;
    assert sqrt3 * size / 4.0 == b;
    assert size / 2.0 == 2.0 * q;
    assert 4.0 * q * q == size * size / 4.0;
    CornerDistances(q, sqrt3);
    assert p == [Point2(2.0 * q, 0.0), Point2(q, b), Point2(-q, b),
                 Point2(-2.0 * q, 0.0), Point2(-q, -b), Point2(q, -b)];
    assert p[1].Sub(p[0]).NormSq() == (q - 2.0 * q) * (q - 2.0 * q) + b * b;
    assert p[2].Sub(p[1]).NormSq() == (2.0 * q) * (2.0 * q) + 0.0 * 0.0;
  }

  /** The two edges of the profile parallel to the x axis lie √3·size/2
      apart: the flat-to-flat span is √3/2 of the corner-to-corner `size`. */
  lemma HexagonFlatToFlat(size: real, sqrt3: real)
    requires IsSqrt3(sqrt3)
    ensures var p := HexagonPoints(size, sqrt3);
      && p[1].y == p[2].y && p[4].y == p[5].y
      && p[1].y - p[5].y == sqrt3 * size / 2.0
      && (p[1].y - p[5].y) * (p[1].y - p[5].y) == 3.0 * size * size / 4.0
  {
    var w := sqrt3 * size / 2.0;
    assert w * w == (sqrt3 * sqrt3) * (size * size) / 4.0;
  }

  /** One of the three slabs `roundedHexagon` intersects: the rectangle
      `[size, height]` grown by `radius` with round corners, swept to
      length 2·(size + radius), moved down by size + radius, then turned
      by i·π/3 about the y axis. */
  function RoundedHexagonSlab(size: real, height: real, radius: real, i: nat): Solid {
    RotateY(PiTimes(i as real / 3.0),
      TranslateZ(-size - radius,
        ExtrudeLinear((size + radius) * 2.0,
          RoundOffset(radius, 100, Rectangle(size, height)))))
  }

  /** `roundedHexagon(s, h, radius)`: the three slabs intersected. */
  function RoundedHexagon(s: real, h: real, radius: real): Solid {
    var size := s - radius * 2.0;
    var height := h - radius;
    ReduceIntersect(seq(3, i requires 0 <= i < 3 => RoundedHexagonSlab(size, height, radius, i)))
  }

  /** `roundedHexagon` intersects three copies of one slab turned 0°, 60° and
      120° about the y axis. The slab's rectangle is s − 2·radius wide and
      h − radius deep, so after growing by `radius` it is s wide; and the
      sweep is centred on the origin, its shift being minus half its
      length. */
  lemma RoundedHexagonIsThreeTurnedSlabs(s: real, h: real, radius: real)
    ensures exists slab: Solid ::
      && RoundedHexagon(s, h, radius)
        == Intersect(Intersect(RotateY(PiTimes(0.0), slab), RotateY(PiTimes(1.0 / 3.0), slab)),
                     RotateY(PiTimes(2.0 / 3.0), slab))
      && slab.Translate? && slab.offset.x == 0.0 && slab.offset.y == 0.0
      && slab.solid.ExtrudeLinear?
      && slab.solid.height == 2.0 * (s - radius)
      && slab.offset.z == -slab.solid.height / 2.0
      && slab.solid.profile == RoundOffset(radius, 100, Rectangle(s - 2.0 * radius, h - radius))
      && slab.solid.profile.shape.width + 2.0 * slab.solid.profile.delta == s
  {
    var size := s - radius * 2.0;
    var height := h - radius;
    var slab := TranslateZ(-size - radius,
      ExtrudeLinear((size + radius) * 2.0, RoundOffset(radius, 100, Rectangle(size, height))));
    var ts := seq(3, i requires 0 <= i < 3 => RoundedHexagonSlab(size, height, radius, i));
    assert ts[..2][..1] == [ts[0]];
    assert ReduceIntersect(ts[..2][..1]) == ts[0];
    assert ReduceIntersect(ts[..2]) == Intersect(ts[0], ts[1]);
    assert ReduceIntersect(ts) == Intersect(Intersect(ts[0], ts[1]), ts[2]);
    assert ts[0] == RotateY(PiTimes(0.0), slab);
    assert ts[1] == RotateY(PiTimes(1.0 / 3.0), slab);
    assert ts[2] == RotateY(PiTimes(2.0 / 3.0), slab);
    assert RoundedHexagon(s, h, radius)
      == Intersect(Intersect(RotateY(PiTimes(0.0), slab), RotateY(PiTimes(1.0 / 3.0), slab)),
                   RotateY(PiTimes(2.0 / 3.0), slab));
  }
}
