/** The screen constants and the camera follow shared by the three games: four
    `while` loops that move the camera one unit at a time until the followed
    player is at least `SCREEN_FAST_MARGIN` inside the view, then a clamp that
    keeps the view on the level. */
module Camera {
  import opened Geometry

  const TILE_SZ: nat := 16
  /** View width and height in pixels: 16 by 12 tiles. */
  const W: nat := 16 * TILE_SZ
  const H: nat := 12 * TILE_SZ
  const SCREEN_FAST_MARGIN: real := 64.0

  /** The least integer not below `x`. */
  function Ceil(x: real): (r: int)
    ensures x <= r as real < x + 1.0
  {
    -((-x).Floor)
  }

  /** How many unit steps forward the first loop of an axis takes: the fewest
      that bring `p` within `size - SCREEN_FAST_MARGIN` of the camera. */
  function StepsForward(p: real, c0: real, size: real): (k: nat)
    ensures p <= c0 + k as real + size - SCREEN_FAST_MARGIN
    ensures k > 0 ==> c0 + (k - 1) as real + size - SCREEN_FAST_MARGIN < p
  {
    if p > c0 + size - SCREEN_FAST_MARGIN then Ceil(p - (c0 + size - SCREEN_FAST_MARGIN)) else 0
  }

  /** How many unit steps back the second loop takes: the fewest that put `p`
      at least `SCREEN_FAST_MARGIN` past the camera. */
  function StepsBack(p: real, c1: real): (k: nat)
    ensures c1 - k as real + SCREEN_FAST_MARGIN <= p
    ensures k > 0 ==> p < c1 - (k - 1) as real + SCREEN_FAST_MARGIN
  {
    if p < c1 + SCREEN_FAST_MARGIN then Ceil(c1 + SCREEN_FAST_MARGIN - p) else 0
  }

  /** Where the two loops on one axis leave the camera, for a view `size` long. */
  function FollowAxisSpec(p: real, c0: real, size: real): (c: real)
    ensures c + SCREEN_FAST_MARGIN <= p
    ensures size >= 2.0 * SCREEN_FAST_MARGIN + 1.0 ==> p <= c + size - SCREEN_FAST_MARGIN
    ensures c0 + SCREEN_FAST_MARGIN <= p <= c0 + size - SCREEN_FAST_MARGIN ==> c == c0
  {
    var c1 := c0 + StepsForward(p, c0, size) as real;
    c1 - StepsBack(p, c1) as real
  }

  /** The camera only ever moves by whole units. */
  lemma FollowAxisWholeSteps(p: real, c0: real, size: real)
    ensures var c := FollowAxisSpec(p, c0, size); (c - c0).Floor as real == c - c0
  {
    var c1 := c0 + StepsForward(p, c0, size) as real;
    var n: int := StepsForward(p, c0, size) - StepsBack(p, c1);
    assert FollowAxisSpec(p, c0, size) - c0 == n as real;
    assert (n as real).Floor == n;
  }

  /** The view never moves further than needed: whenever the camera ends up
      ahead of where it started the player sits within one unit of the far
      margin, and whenever it ends up behind, within one unit of the near one. */
  lemma FollowAxisMinimal(p: real, c0: real, size: real)
    ensures var c := FollowAxisSpec(p, c0, size);
      (size >= 2.0 * SCREEN_FAST_MARGIN + 1.0 && c > c0 ==> c - 1.0 + size - SCREEN_FAST_MARGIN < p) &&
      (c < c0 ==> p < c + 1.0 + SCREEN_FAST_MARGIN)
  {
  }

  /** The two loops of one axis, stepping by one unit. */
  method FollowAxis(p: real, c0: real, size: real) returns (c: real)
    ensures c == FollowAxisSpec(p, c0, size)
  {
    c := c0;
    ghost var k: int := 0;
    while p > c + size - SCREEN_FAST_MARGIN
      invariant c == c0 + k as real && k >= 0
      invariant k > 0 ==> p > c - 1.0 + size - SCREEN_FAST_MARGIN
      decreases (p - (c + size - SCREEN_FAST_MARGIN)).Floor
    {
      c := c + 1.0;
      k := k + 1;
    }
    assert k == StepsForward(p, c0, size);
    ghost var c1 := c;
    k := 0;
    while p < c + SCREEN_FAST_MARGIN
      invariant c == c1 - k as real && k >= 0
      invariant k > 0 ==> p < c + 1.0 + SCREEN_FAST_MARGIN
      decreases (c + SCREEN_FAST_MARGIN - p).Floor
    {
      c := c - 1.0;
      k := k + 1;
    }
    assert k == StepsBack(p, c1);
  }

  /** The closing clamp of one axis, for a level `tiles` tiles long and a view
      `view` pixels long: `clamp(0, max(tiles * TILE_SZ, view) - view)`. */
  function ClampAxis(c: real, tiles: nat, view: nat): (r: real)
    ensures 0.0 <= r <= (if tiles * TILE_SZ > view then tiles * TILE_SZ - view else 0) as real
    ensures tiles * TILE_SZ <= view ==> r == 0.0
    ensures 0.0 <= c && c as real + view as real <= (tiles * TILE_SZ) as real ==> r == c
  {
    var hi := if tiles * TILE_SZ >= view then tiles * TILE_SZ else view;
    Clamp(c, 0.0, (hi - view) as real)
  }

  /** The whole camera update of one tick: follow the player at `p` on both
      axes, then clamp to a level of `lw` by `lh` tiles. */
  method Follow(p: Vec2, cam: Vec2, lw: nat, lh: nat) returns (r: Vec2)
    ensures r == FollowSpec(p, cam, lw, lh)
  {
    var x := FollowAxis(p.x, cam.x, W as real);
    var y := FollowAxis(p.y, cam.y, H as real);
    r := Vec2(ClampAxis(x, lw, W), ClampAxis(y, lh, H));
  }

  function FollowSpec(p: Vec2, cam: Vec2, lw: nat, lh: nat): (r: Vec2)
    ensures 0.0 <= r.x <= (if lw * TILE_SZ > W then lw * TILE_SZ - W else 0) as real
    ensures 0.0 <= r.y <= (if lh * TILE_SZ > H then lh * TILE_SZ - H else 0) as real
  {
    Vec2(ClampAxis(FollowAxisSpec(p.x, cam.x, W as real), lw, W),
         ClampAxis(FollowAxisSpec(p.y, cam.y, H as real), lh, H))
  }

  /** Away from the level edges the clamp does nothing and the followed player
      ends inside the margins of the view on both axes. */
  lemma FollowKeepsPlayerInView(p: Vec2, cam: Vec2, lw: nat, lh: nat)
    requires var x := FollowAxisSpec(p.x, cam.x, W as real);
      0.0 <= x && x + W as real <= (lw * TILE_SZ) as real
    requires var y := FollowAxisSpec(p.y, cam.y, H as real);
      0.0 <= y && y + H as real <= (lh * TILE_SZ) as real
    ensures var r := FollowSpec(p, cam, lw, lh);
      r.x + SCREEN_FAST_MARGIN <= p.x <= r.x + W as real - SCREEN_FAST_MARGIN &&
      r.y + SCREEN_FAST_MARGIN <= p.y <= r.y + H as real - SCREEN_FAST_MARGIN
  {
  }
}
