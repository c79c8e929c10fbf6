/** Symbolic constructive-solid-geometry terms.

    Each constructor stands for one call into the JSCAD modeling library
    (`extrudeLinear`, `offset`, `polygon`, `rectangle`, `cuboid`,
    `cylinder`, `translate`, `rotate`, `scale`, `union`, `subtract`,
    `intersect`). The terms are left uninterpreted except for `ZExtent`,
    which gives the vertical extent of the few shapes whose extent the
    library documents (see there). */
module Csg {
  import opened Wrappers

  /** `Math.sqrt(3)` is a library call; the model takes its value as a
      parameter, and the properties that depend on it assume only this. */
  predicate IsSqrt3(r: real) {
    r > 0.0 && r * r == 3.0
  }

  /** An angle, written as a multiple of π radians. */
  datatype Angle = PiTimes(k: real)

  datatype Vec3 = Vec3(x: real, y: real, z: real) {

    function Add(o: Vec3): Vec3 {
      Vec3(x + o.x, y + o.y, z + o.z)
    }

    function Sub(o: Vec3): Vec3 {
      Vec3(x - o.x, y - o.y, z - o.z)
    }

    /** The squared Euclidean length. */
    function NormSq(): real {
      x * x + y * y + z * z
    }
  }

  datatype Point2 = Point2(x: real, y: real) {

    function Neg(): Point2 {
      Point2(-x, -y)
    }

    /** Reflection in the x axis. */
    function MirrorX(): Point2 {
      Point2(x, -y)
    }

    function Sub(o: Point2): Point2 {
      Point2(x - o.x, y - o.y)
    }

    /** The squared distance from the origin. */
    function NormSq(): real {
      x * x + y * y
    }
  }

  /** Flat profiles. */
  datatype Shape2 =
    | Polygon(points: seq<Point2>)
      /** A `width` × `depth` rectangle centred on the origin. */
    | Rectangle(width: real, depth: real)
      /** `offset({ delta, corners: "round", segments }, shape)`. */
    | RoundOffset(delta: real, segments: nat, shape: Shape2)

  datatype Solid =
      /** The profile swept along +z from z = 0 to z = height. */
    | ExtrudeLinear(height: real, profile: Shape2)
      /** A box centred on the origin. */
    | Cuboid(sx: real, sy: real, sz: real)
      /** A cylinder along z centred on the origin. */
    | Cylinder(height: real, radius: real)
    | Translate(offset: Vec3, solid: Solid)
      /** Rotation about x, then y, then z. */
    | Rotate(ax: Angle, ay: Angle, az: Angle, solid: Solid)
    | Scale(fx: real, fy: real, fz: real, solid: Solid)
    | Union(parts: seq<Solid>)
    | Subtract(minuend: Solid, subtrahend: Solid)
    | Intersect(left: Solid, right: Solid)

  /** `transforms.translateY(dy, t)`. */
  function TranslateY(dy: real, t: Solid): Solid {
    Translate(Vec3(0.0, dy, 0.0), t)
  }

  /** `transforms.translateZ(dz, t)`. */
  function TranslateZ(dz: real, t: Solid): Solid {
    Translate(Vec3(0.0, 0.0, dz), t)
  }

  /** `transforms.rotateY(a, t)`. */
  function RotateY(a: Angle, t: Solid): Solid {
    Rotate(PiTimes(0.0), a, PiTimes(0.0), t)
  }

  /** `ts.reduce((a, b) => booleans.intersect(a, b))`: a left fold with no
      initial value, so it needs at least one term. */
  function ReduceIntersect(ts: seq<Solid>): (r: Solid)
    requires |ts| > 0
    ensures |ts| == 1 ==> r == ts[0]
    ensures |ts| > 1 ==> r.Intersect? && r.right == ts[|ts| - 1]
  {
    if |ts| == 1 then ts[0] else Intersect(ReduceIntersect(ts[..|ts| - 1]), ts[|ts| - 1])
  }

  /** A closed interval [lo, hi] of heights. */
  datatype Span = Span(lo: real, hi: real)

  /** The smallest span containing both. */
  function Hull(a: Span, b: Span): Span {
    Span(if a.lo <= b.lo then a.lo else b.lo, if a.hi >= b.hi then a.hi else b.hi)
  }

  /** The smallest span containing every span of `es`, when all are known. */
  function HullAll(es: seq<Option<Span>>): (r: Option<Span>)
    ensures r.Some? ==> |es| > 0 && forall i | 0 <= i < |es| :: es[i].Some? && r.value.lo <= es[i].value.lo && es[i].value.hi <= r.value.hi
    ensures r.Some? ==> exists i | 0 <= i < |es| :: es[i].Some? && es[i].value.lo == r.value.lo
    ensures r.Some? ==> exists i | 0 <= i < |es| :: es[i].Some? && es[i].value.hi == r.value.hi
    ensures |es| > 0 && (forall i | 0 <= i < |es| :: es[i].Some?) ==> r.Some?
  {
    if |es| == 0 || es[|es| - 1].None? then None
    else if |es| == 1 then es[0]
    else
      var init := HullAll(es[..|es| - 1]);
      if init.None? then None else Some(Hull(init.value, es[|es| - 1].value))
  }

  /** The vertical extent of a term, where the library fixes it:
      `extrudeLinear` sweeps from z = 0 to its height, `cylinder` and
      `cuboid` are centred on the origin, translations by any z and
      scalings by a positive z factor move and stretch the extent, and a
      union spans the hull of its parts. Everything else is unknown here. */
  function ZExtent(t: Solid): Option<Span> {
    match t
    case ExtrudeLinear(h, _) => if h >= 0.0 then Some(Span(0.0, h)) else None
    case Cylinder(h, _) => if h >= 0.0 then Some(Span(-h / 2.0, h / 2.0)) else None
    case Cuboid(_, _, sz) => if sz >= 0.0 then Some(Span(-sz / 2.0, sz / 2.0)) else None
    case Translate(v, inner) =>
      var e := ZExtent(inner);
      if e.Some? then Some(Span(e.value.lo + v.z, e.value.hi + v.z)) else None
    case Scale(_, _, fz, inner) =>
      var e := ZExtent(inner);
      if fz > 0.0 && e.Some? then Some(Span(e.value.lo * fz, e.value.hi * fz)) else None
    case Union(ps) => HullAll(seq(|ps|, i requires 0 <= i < |ps| => ZExtent(ps[i])))
    case _ => None
  }
}
