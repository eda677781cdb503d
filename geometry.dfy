/** Vectors, axis-aligned rectangles, rectangle overlap and the single-axis
    push-out displacement used to resolve every contact in the three games.
    Positions and sizes are reals: nothing in this logic depends on f32 rounding. */
module Geometry {

  datatype Option<T> = None | Some(value: T)

  datatype Vec2 = Vec2(x: real, y: real) {
    function Plus(o: Vec2): Vec2 { Vec2(x + o.x, y + o.y) }
    function Times(k: real): Vec2 { Vec2(x * k, y * k) }
  }

  const ZERO_VEC := Vec2(0.0, 0.0)

  /** A rectangle: origin (x, y) and integer extents, as in geom.rs (`w`, `h` are u16 there). */
  datatype Rect = Rect(x: real, y: real, w: nat, h: nat) {
    function Translate(d: Vec2): Rect { Rect(x + d.x, y + d.y, w, h) }
  }

  /** `Rect::ZERO`, the sentinel collider of something that cannot touch anything. */
  const ZERO_RECT := Rect(0.0, 0.0, 0, 0)

  function Min(a: real, b: real): real { if a <= b then a else b }
  function Max(a: real, b: real): real { if a >= b then a else b }
  function Abs(a: real): real { if a < 0.0 then -a else a }

  /** Both axis intervals of `a` and `b` intersect in more than a point. */
  predicate Intersect(a: Rect, b: Rect) {
    a.w > 0 && a.h > 0 && b.w > 0 && b.h > 0 &&
    a.x < b.x + b.w as real && b.x < a.x + a.w as real &&
    a.y < b.y + b.h as real && b.y < a.y + a.h as real
  }

  /** `Rect::overlap`: the per-axis penetration depths when the rectangles intersect.
      geom.rs is not part of this model; this is the interval-intersection reading of it. */
  function Overlap(a: Rect, b: Rect): (r: Option<Vec2>)
    ensures r.Some? <==> Intersect(a, b)
    ensures r.Some? ==> 0.0 < r.value.x <= Min(a.w as real, b.w as real)
    ensures r.Some? ==> 0.0 < r.value.y <= Min(a.h as real, b.h as real)
  {
    var ox := Min(a.x + a.w as real, b.x + b.w as real) - Max(a.x, b.x);
    var oy := Min(a.y + a.h as real, b.y + b.h as real) - Max(a.y, b.y);
    if ox > 0.0 && oy > 0.0 then Some(Vec2(ox, oy)) else None
  }

  lemma OverlapSymmetric(a: Rect, b: Rect)
    ensures Overlap(a, b) == Overlap(b, a)
  {
  }

  /** The zero-size sentinel never overlaps anything. */
  lemma ZeroRectTouchesNothing(b: Rect)
    ensures Overlap(ZERO_RECT, b) == None && Overlap(b, ZERO_RECT) == None
  {
  }

  /** `compute_disp`: keep only the shallower axis of the overlap (on a tie the x
      axis is dropped), and point it away from `b`. */
  function ComputeDisp(a: Rect, b: Rect): (d: Vec2)
    ensures d.x == 0.0 || d.y == 0.0
    ensures Overlap(a, b).None? ==> d == ZERO_VEC
    ensures Overlap(a, b).Some? ==>
      var o := Overlap(a, b).value;
      (o.x < o.y ==> Abs(d.x) == o.x && d.y == 0.0) &&
      (o.x >= o.y ==> d.x == 0.0 && Abs(d.y) == o.y)
    ensures Overlap(a, b).Some? ==> (d.x == 0.0) != (d.y == 0.0)
    ensures d.x < 0.0 ==> a.x < b.x
    ensures d.x > 0.0 ==> a.x >= b.x
    ensures d.y < 0.0 ==> a.y < b.y
    ensures d.y > 0.0 ==> a.y >= b.y
  {
    var o := match Overlap(a, b) case Some(v) => v case None => ZERO_VEC;
    var kept := if o.x < o.y then Vec2(o.x, 0.0) else Vec2(0.0, o.y);
    Vec2(if a.x < b.x then -kept.x else kept.x, if a.y < b.y then -kept.y else kept.y)
  }

  /** `a` reaches past `b` on the side it is pushed toward along x: the usual
      situation of a collider that is not nested inside the tile on that axis. */
  predicate ReachesOutX(a: Rect, b: Rect) {
    if a.x < b.x then a.x + a.w as real <= b.x + b.w as real
    else a.x + a.w as real >= b.x + b.w as real
  }

  predicate ReachesOutY(a: Rect, b: Rect) {
    if a.y < b.y then a.y + a.h as real <= b.y + b.h as real
    else a.y + a.h as real >= b.y + b.h as real
  }

  /** Applying the push-out once separates the two rectangles whenever `a` is not
      nested inside `b` along the axis that was kept. */
  lemma ComputeDispSeparates(a: Rect, b: Rect)
    requires Intersect(a, b)
    requires ComputeDisp(a, b).x != 0.0 ==> ReachesOutX(a, b)
    requires ComputeDisp(a, b).y != 0.0 ==> ReachesOutY(a, b)
    ensures Overlap(a.Translate(ComputeDisp(a, b)), b) == None
  {
    var d := ComputeDisp(a, b);
    var o := Overlap(a, b).value;
    var a' := a.Translate(d);
    if d.x != 0.0 {
      assert d.y == 0.0;
      if a.x < b.x {
        assert o.x == a.x + a.w as real - b.x;
        assert a'.x + a'.w as real == b.x;
      } else {
        assert o.x == b.x + b.w as real - a.x;
        assert a'.x == b.x + b.w as real;
      }
      assert !Intersect(a', b);
    } else {
      assert d.y != 0.0;
      if a.y < b.y {
        assert o.y == a.y + a.h as real - b.y;
        assert a'.y + a'.h as real == b.y;
      } else {
        assert o.y == b.y + b.h as real - a.y;
        assert a'.y == b.y + b.h as real;
      }
      assert !Intersect(a', b);
    }
  }

  /** `f32::clamp`; the library panics when `lo > hi`, which callers here never allow. */
  function Clamp(v: real, lo: real, hi: real): (r: real)
    requires lo <= hi
    ensures lo <= r <= hi
    ensures lo <= v <= hi ==> r == v
    ensures v < lo ==> r == lo
    ensures v > hi ==> r == hi
  {
    if v < lo then lo else if v > hi then hi else v
  }

  /** The fixed 16x16 collider centred on a door or mud puddle position. */
  function TriggerRect(pos: Vec2): (r: Rect)
    ensures r.w == 16 && r.h == 16
    ensures r.x + 8.0 == pos.x && r.y + 8.0 == pos.y
  {
    Rect(pos.x - 8.0, pos.y - 8.0, 16, 16)
  }

  /** The trigger square around each of a list of positions, in order: the
      colliders of the mud puddles and of the doors. */
  function TriggerRects(ps: seq<Vec2>): (rs: seq<Rect>)
    ensures |rs| == |ps| && forall i :: 0 <= i < |ps| ==> rs[i] == TriggerRect(ps[i])
  {
    seq(|ps|, i requires 0 <= i < |ps| => TriggerRect(ps[i]))
  }
}
