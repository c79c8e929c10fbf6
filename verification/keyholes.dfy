/** The mounting hardware of src/honeycomb.ts: the solid plug
    `keyhole_box` and the negative space `keyhole`, both fixed shapes, and
    how the panel places them. */
module Keyholes {
  import opened Wrappers
  import opened Csg

  /** `h`: the height of the plug and the z at which both shapes are
      centred once placed (at h/2). */
  const MountHeight: real := 7.0

  /** `keyhole_box()`: two cylinders of radius 10 + m, 20 apart along y,
      joined by a (20 + 2m) × 20 box, all h tall; m = 2. */
  function KeyholeBox(): Solid {
    var m := 2.0;
    Union([
      Cylinder(MountHeight, 10.0 + m),
      TranslateY(-20.0, Cylinder(MountHeight, 10.0 + m)),
      TranslateY(-10.0, Cuboid(20.0 + 2.0 * m, 20.0, MountHeight))
    ])
  }

  /** `keyhole()`: a wide hole for a screw head, a second wide hole 20
      along −y, a narrow hole under it, and two slots joining them, stepped
      by d = 1.5 around a depth hh = 6. */
  function Keyhole(): Solid {
    var hh := 6.0;
    var d := 1.5;
    Union([
      Translate(Vec3(0.0, 0.0, -d), Cylinder(hh + d, 10.0)),
      Translate(Vec3(0.0, -20.0, 0.0), Cylinder(hh - d, 10.0)),
      Translate(Vec3(0.0, -20.0, -2.0 * d), Cylinder(2.0 * d, 5.0)),
      Translate(Vec3(0.0, -10.0, -2.0 * d), Cuboid(10.0, 20.0, hh)),
      Translate(Vec3(0.0, -10.0, 0.0), Cuboid(20.0, 20.0, hh - d))
    ])
  }

  /** How the panel places `t` at coordinate `c`: halved in x and y, then
      moved to (c.x, c.y, h/2). */
  function Mount(c: Point2, t: Solid): Solid {
    Translate(Vec3(c.x, c.y, MountHeight / 2.0), Scale(0.5, 0.5, 1.0, t))
  }

  /** Before placement the plug spans z from −3.5 to 3.5. */
  lemma KeyholeBoxExtent()
    ensures ZExtent(KeyholeBox()) == Some(Span(-3.5, 3.5))
  {
    var box := KeyholeBox();
    var es := seq(|box.parts|, i requires 0 <= i < |box.parts| => ZExtent(box.parts[i]));
    assert es == [Some(Span(-3.5, 3.5)), Some(Span(-3.5, 3.5)), Some(Span(-3.5, 3.5))];
    assert es[..2][..1] == es[..1];
    assert HullAll(es[..2]) == Some(Span(-3.5, 3.5));
  }

  /** Before placement the keyhole spans z from −6 (the bottom of the
      narrow slot) to 2.25 (the top of the wide holes). */
  lemma KeyholeExtent()
    ensures ZExtent(Keyhole()) == Some(Span(-6.0, 2.25))
  {
    var hole := Keyhole();
    var hs := seq(|hole.parts|, i requires 0 <= i < |hole.parts| => ZExtent(hole.parts[i]));
    assert hs == [Some(Span(-5.25, 2.25)), Some(Span(-2.25, 2.25)), Some(Span(-4.5, -1.5)),
                  Some(Span(-6.0, 0.0)), Some(Span(-2.25, 2.25))];
    HullOfPrefixes(hs);
  }

  lemma HullOfPrefixes(hs: seq<Option<Span>>)
    requires hs == [Some(Span(-5.25, 2.25)), Some(Span(-2.25, 2.25)), Some(Span(-4.5, -1.5)),
                    Some(Span(-6.0, 0.0)), Some(Span(-2.25, 2.25))]
    ensures HullAll(hs) == Some(Span(-6.0, 2.25))
  {
    assert hs[..2][..1] == hs[..1];
    assert HullAll(hs[..2]) == Some(Span(-5.25, 2.25));
    assert hs[..3][..2] == hs[..2];
    assert HullAll(hs[..3]) == Some(Span(-5.25, 2.25));
    assert hs[..4][..3] == hs[..3];
    assert HullAll(hs[..4]) == Some(Span(-6.0, 2.25));
  }

  /** Placed at any coordinate, the plug fills z from 0 to 7, the height
      `h`, while the keyhole reaches 2.5 below the plug's bottom and stops
      1.25 under its top: the cut opens through the back of the panel and
      never through the top of the plug. */
  lemma MountedExtents(c: Point2)
    ensures ZExtent(Mount(c, KeyholeBox())) == Some(Span(0.0, 7.0))
    ensures ZExtent(Mount(c, Keyhole())) == Some(Span(-2.5, 5.75))
  {
    KeyholeBoxExtent();
    KeyholeExtent();
    assert ZExtent(Scale(0.5, 0.5, 1.0, KeyholeBox())) == Some(Span(-3.5, 3.5));
    assert ZExtent(Scale(0.5, 0.5, 1.0, Keyhole())) == Some(Span(-6.0, 2.25));
  }
}
