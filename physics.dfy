/** The player record and the per-tick player rules the three games share:
    jump start and jump timer, horizontal acceleration with braking, gravity and
    the clamp into the level, the provisional grounded test, and the sequential
    resolution of tile contacts. */
module Physics {
  import opened Geometry
  import opened Animation
  import opened Contacts
  import Camera

  const WALK_ACC: real := 180.0
  const MAX_SPEED: real := 90.0
  const BRAKE_DAMP: real := 0.9

  datatype Dir = E | W

  /** `Dir::to_vec2().x`. */
  function DirSign(d: Dir): (s: real)
    ensures s == 1.0 || s == -1.0
    ensures s > 0.0 <==> d == E
  {
    match d
    case E => 1.0
    case W => -1.0
  }

  /** A player. `touching` is `touching_mud` in MudFight and `touching_door` in
      the other two games; `attackTimer` exists only in MudFight and the other
      games leave it alone. The `controls` key list becomes the per-game input
      record. */
  datatype Player = Player(
    pos: Vec2,
    vel: Vec2,
    dir: Dir,
    touching: bool,
    anim: AnimationState,
    jumping: bool,
    jumpTimer: real,
    grounded: bool,
    attackTimer: real)

  /** `Player::rect`: a 16x24 collider 12 units below the position, offset 8
      to the right when facing east and 12 when facing west. */
  function PlayerRect(p: Player): (r: Rect)
    ensures r.w == 16 && r.h == 24 && r.y == p.pos.y - 12.0
    ensures r.x - p.pos.x == (if p.dir == E then 8.0 else 12.0)
  {
    Rect(p.pos.x + (match p.dir case E => 8.0 case W => 12.0), p.pos.y - 12.0, 16, 24)
  }

  // ---------------------------------------------------------------------------
  // Facing and animation

  /** The direction keys of BrawlingCrocs and GameEngine: the right key wins and
      faces east with the walk animation, otherwise the left key faces west;
      with neither nothing changes. */
  function Steer(p: Player, left: bool, right: bool): (q: Player)
    ensures right ==> q == p.(dir := E, anim := p.anim.Play(PlayerRightWalk, false))
    ensures !right && left ==> q == p.(dir := W, anim := p.anim.Play(PlayerLeftWalk, false))
    ensures !right && !left ==> q == p
  {
    if right then p.(dir := E, anim := p.anim.Play(PlayerRightWalk, false))
    else if left then p.(dir := W, anim := p.anim.Play(PlayerLeftWalk, false))
    else p
  }

  /** The jump animation MudFight and BrawlingCrocs choose after moving: the
      rising frame while jumping, the idle one otherwise, facing `dir`. */
  function IdleOrRise(dir: Dir, jumping: bool): AnimationKey {
    match (jumping, dir)
    case (true, E) => PlayerRightJumpRise
    case (true, W) => PlayerLeftJumpRise
    case (false, E) => PlayerRightIdle
    case (false, W) => PlayerLeftIdle
  }

  // ---------------------------------------------------------------------------
  // Jumping

  /** The jump start: only a grounded player takes off, with `jumpVel` upward
      speed and a full jump timer; everything else stays. */
  function StartJump(p: Player, pressed: bool, jumpVel: real, jumpTimeMax: real): (q: Player)
    ensures pressed && p.grounded ==>
      q == p.(jumping := true, jumpTimer := jumpTimeMax, vel := Vec2(p.vel.x, jumpVel))
    ensures !(pressed && p.grounded) ==> q == p
  {
    if pressed && p.grounded then p.(jumping := true, jumpTimer := jumpTimeMax, vel := p.vel.(y := jumpVel))
    else p
  }

  /** The jump timer of MudFight and BrawlingCrocs: count down while jumping and
      stop jumping once the timer is no longer positive. */
  function CountDownJump(p: Player, dt: real): (q: Player)
    ensures p.jumping ==> q == p.(jumpTimer := p.jumpTimer - dt, jumping := p.jumpTimer - dt > 0.0)
    ensures !p.jumping ==> q == p
  {
    if p.jumping then
      var p1 := p.(jumpTimer := p.jumpTimer - dt);
      if p1.jumpTimer <= 0.0 then p1.(jumping := false) else p1
    else p
  }

  /** The jump timer as GameEngine writes it: `jumping = jump_timer > 0` after the
      countdown. */
  function CountDownJumpEngine(p: Player, dt: real): (q: Player)
    ensures p.jumping ==> q.jumping == (q.jumpTimer > 0.0) && q.jumpTimer == p.jumpTimer - dt
    ensures !p.jumping ==> q == p
  {
    if p.jumping then
      var p1 := p.(jumpTimer := p.jumpTimer - dt);
      p1.(jumping := p1.jumpTimer > 0.0)
    else p
  }

  /** The two ways the games write the jump countdown have the same effect. */
  lemma CountDownFormsAgree(p: Player, dt: real)
    ensures CountDownJump(p, dt) == CountDownJumpEngine(p, dt)
  {
  }

  /** `n` countdown ticks of length `dt` with no new jump. */
  function CountDownRun(p: Player, dt: real, n: nat): Player {
    if n == 0 then p else CountDownJump(CountDownRun(p, dt, n - 1), dt)
  }

  /** A jump with `T` left on its timer lasts exactly while the elapsed time is
      below `T`: after `n` ticks the player is jumping iff `T - n*dt > 0`, and
      while it lasts the timer has run down by exactly `n*dt`. */
  lemma {:induction false} JumpLasts(p: Player, dt: real, n: nat)
    requires p.jumping && p.jumpTimer > 0.0 && dt > 0.0
    ensures CountDownRun(p, dt, n).jumping == (p.jumpTimer - n as real * dt > 0.0)
    ensures CountDownRun(p, dt, n).jumping ==> CountDownRun(p, dt, n).jumpTimer == p.jumpTimer - n as real * dt
  {
    if n > 0 {
      JumpLasts(p, dt, n - 1);
      var prev := CountDownRun(p, dt, n - 1);
      assert CountDownRun(p, dt, n) == CountDownJump(prev, dt);
      assert p.jumpTimer - (n - 1) as real * dt - dt == p.jumpTimer - n as real * dt;
      if prev.jumping {
        assert prev.jumpTimer - dt == p.jumpTimer - n as real * dt;
      } else {
        assert p.jumpTimer - n as real * dt <= 0.0;
      }
    }
  }

  // ---------------------------------------------------------------------------
  // Horizontal motion

  /** `input.key_axis(neg, pos)` (frenderer's input module, not part of this
      model), read as `+1` for the positive key alone, `-1` for the negative key
      alone and `0` otherwise. */
  function KeyAxis(neg: bool, pos: bool): (a: real)
    ensures a == 0.0 <==> neg == pos
    ensures a > 0.0 <==> pos && !neg
  {
    (if pos then 1.0 else 0.0) - (if neg then 1.0 else 0.0)
  }

  /** `vel.x += acc.x * dt`, then braking by `BRAKE_DAMP` when `|acc.x| < 0.1`,
      then the clamp to `[-MAX_SPEED, MAX_SPEED]`. */
  function HorizontalVelocity(vx: real, accX: real, dt: real): (r: real)
    ensures -MAX_SPEED <= r <= MAX_SPEED
    ensures Abs(accX) >= 0.1 && -MAX_SPEED <= vx + accX * dt <= MAX_SPEED ==> r == vx + accX * dt
    ensures Abs(accX) < 0.1 ==> Abs(r) <= BRAKE_DAMP * Abs(vx + accX * dt)
    ensures Abs(accX) < 0.1 && Abs(vx + accX * dt) <= MAX_SPEED ==> r == BRAKE_DAMP * (vx + accX * dt)
    ensures Abs(accX) >= 0.1 && vx + accX * dt > MAX_SPEED ==> r == MAX_SPEED
    ensures Abs(accX) >= 0.1 && vx + accX * dt < -MAX_SPEED ==> r == -MAX_SPEED
    ensures Abs(accX) < 0.1 && BRAKE_DAMP * (vx + accX * dt) > MAX_SPEED ==> r == MAX_SPEED
    ensures Abs(accX) < 0.1 && BRAKE_DAMP * (vx + accX * dt) < -MAX_SPEED ==> r == -MAX_SPEED
  {
    var v := vx + accX * dt;
    var braked := if Abs(accX) < 0.1 then v * BRAKE_DAMP else v;
    Clamp(braked, -MAX_SPEED, MAX_SPEED)
  }

  /** With a walking key held the axis value is `±1`, and `acc.x = ±WALK_ACC`
      never brakes; braking happens exactly when neither or both keys are held. */
  lemma BrakesIffNoAxis(neg: bool, pos: bool)
    ensures Abs(WALK_ACC * KeyAxis(neg, pos)) < 0.1 <==> neg == pos
  {
  }

  /** One tick without acceleration shrinks the speed by at least `BRAKE_DAMP`. */
  lemma BrakeStep(v: real, dt: real)
    ensures Abs(HorizontalVelocity(v, 0.0, dt)) <= BRAKE_DAMP * Abs(v)
  {
    assert v + 0.0 * dt == v;
  }

  /** `n` ticks with no acceleration. */
  function Coast(vx: real, dt: real, n: nat): real {
    if n == 0 then vx else HorizontalVelocity(Coast(vx, dt, n - 1), 0.0, dt)
  }

  /** `x * BRAKE_DAMP^n`. */
  function Damped(x: real, n: nat): real {
    if n == 0 then x else BRAKE_DAMP * Damped(x, n - 1)
  }

  /** Braking is geometric: after `n` ticks without acceleration the speed is at
      most `BRAKE_DAMP^n` times the starting speed. */
  lemma {:induction false} CoastDecays(vx: real, dt: real, n: nat)
    ensures Abs(Coast(vx, dt, n)) <= Damped(Abs(vx), n)
  {
    if n > 0 {
      CoastDecays(vx, dt, n - 1);
      BrakeStep(Coast(vx, dt, n - 1), dt);
    }
  }

  // ---------------------------------------------------------------------------
  // Gravity, the level clamp and the provisional grounded test

  /** Gravity on `vel.y`, `pos += vel * dt`, the clamp to
      `[0, lw*TILE_SZ - rect.w/2] x [0, H - rect.h]`, then `grounded` from
      `pos.y <= floorY`, which also stops the fall. The horizontal speed is
      whatever the caller already set. */
  function Move(p: Player, dt: real, grav: real, floorY: real, lw: nat): (q: Player)
    requires lw >= 1
    ensures 0.0 <= q.pos.x <= (lw * Camera.TILE_SZ) as real - 8.0
    ensures 0.0 <= q.pos.y <= Camera.H as real - 24.0
    ensures q.grounded == (q.pos.y <= floorY)
    ensures q.grounded ==> q.vel.y == 0.0
    ensures !q.grounded ==> q.vel.y == p.vel.y - grav * dt
    ensures q.vel.x == p.vel.x
    ensures var x := p.pos.x + p.vel.x * dt;
      (0.0 <= x <= (lw * Camera.TILE_SZ) as real - 8.0 ==> q.pos.x == x) &&
      (x < 0.0 ==> q.pos.x == 0.0) &&
      (x > (lw * Camera.TILE_SZ) as real - 8.0 ==> q.pos.x == (lw * Camera.TILE_SZ) as real - 8.0)
    ensures var y := p.pos.y + (p.vel.y - grav * dt) * dt;
      (0.0 <= y <= Camera.H as real - 24.0 ==> q.pos.y == y) &&
      (y < 0.0 ==> q.pos.y == 0.0) &&
      (y > Camera.H as real - 24.0 ==> q.pos.y == Camera.H as real - 24.0)
    ensures q == p.(pos := q.pos, vel := q.vel, grounded := q.grounded)
  {
    var vel := p.vel.(y := p.vel.y - grav * dt);
    var pos := p.pos.Plus(vel.Times(dt));
    var r := PlayerRect(p);
    var x := Clamp(pos.x, 0.0, (lw * Camera.TILE_SZ) as real - r.w as real / 2.0);
    var y := Clamp(pos.y, 0.0, Camera.H as real - r.h as real);
    var grounded := y <= floorY;
    p.(pos := Vec2(x, y), vel := if grounded then vel.(y := 0.0) else vel, grounded := grounded)
  }

  // ---------------------------------------------------------------------------
  // Tile contact resolution

  /** One contact of the resolution loop: push the player's current collider
      out of tile `b`; a push upward lands the player. */
  function ResolveStep(p: Player, b: Rect): Player {
    var d := ComputeDisp(PlayerRect(p), b);
    var q := p.(pos := p.pos.Plus(d));
    if d.y > 0.0 then q.(grounded := true, vel := q.vel.(y := 0.0)) else q
  }

  /** The resolution of tiles `bs` in order, after `grounded := false`. */
  function ResolveAll(p: Player, bs: seq<Rect>): Player {
    if |bs| == 0 then p.(grounded := false)
    else ResolveStep(ResolveAll(p, bs[..|bs| - 1]), bs[|bs| - 1])
  }

  /** The displacement the `k`-th contact applies, from the collider as the
      earlier contacts left it. */
  function DispAt(p: Player, bs: seq<Rect>, k: nat): Vec2
    requires k < |bs|
  {
    ComputeDisp(PlayerRect(ResolveAll(p, bs[..k])), bs[k])
  }

  function TileRects(cs: seq<Contact>): (bs: seq<Rect>)
    ensures |bs| == |cs| && forall k :: 0 <= k < |cs| ==> bs[k] == cs[k].bRect
  {
    seq(|cs|, k requires 0 <= k < |cs| => cs[k].bRect)
  }

  /** The tile resolution loop: `grounded := false`, then for each contact the
      push-out of the player's current collider from the contact's tile. */
  method ResolveTileContacts(p: Player, contacts: seq<Contact>) returns (q: Player)
    ensures q == ResolveAll(p, TileRects(contacts))
  {
    ghost var bs := TileRects(contacts);
    q := p.(grounded := false);
    for i := 0 to |contacts|
      invariant q == ResolveAll(p, bs[..i])
    {
      assert bs[..i + 1][..i] == bs[..i];
      var disp := ComputeDisp(PlayerRect(q), contacts[i].bRect);
      q := q.(pos := q.pos.Plus(disp));
      if disp.y > 0.0 {
        q := q.(grounded := true, vel := q.vel.(y := 0.0));
      }
    }
    assert bs[..|contacts|] == bs;
  }

  lemma DispAtPrefix(p: Player, bs: seq<Rect>, k: nat)
    requires k < |bs| - 1
    ensures DispAt(p, bs, k) == DispAt(p, bs[..|bs| - 1], k)
  {
    assert bs[..|bs| - 1][..k] == bs[..k];
  }

  /** After the resolution the player is grounded iff some contact pushed it
      upward, and the fall is stopped exactly then. */
  lemma {:induction false} ResolveGrounded(p: Player, bs: seq<Rect>)
    ensures ResolveAll(p, bs).grounded <==> exists k :: 0 <= k < |bs| && DispAt(p, bs, k).y > 0.0
    ensures ResolveAll(p, bs).grounded ==> ResolveAll(p, bs).vel.y == 0.0
    ensures !ResolveAll(p, bs).grounded ==> ResolveAll(p, bs).vel.y == p.vel.y
  {
    if |bs| > 0 {
      var n := |bs| - 1;
      ResolveGrounded(p, bs[..n]);
      assert bs[..n] == bs[..n][..n];
      assert DispAt(p, bs, n) == ComputeDisp(PlayerRect(ResolveAll(p, bs[..n])), bs[n]);
      forall k | 0 <= k < n ensures DispAt(p, bs, k) == DispAt(p, bs[..n], k) {
        DispAtPrefix(p, bs, k);
      }
    }
  }

  /** The resolution moves only the position, the fall speed and `grounded`;
      each contact moves the player along one axis at most. */
  lemma {:induction false} ResolveFrame(p: Player, bs: seq<Rect>)
    ensures ResolveAll(p, bs) == p.(pos := ResolveAll(p, bs).pos, vel := ResolveAll(p, bs).vel,
                                   grounded := ResolveAll(p, bs).grounded)
    ensures ResolveAll(p, bs).vel.x == p.vel.x
  {
    if |bs| > 0 {
      ResolveFrame(p, bs[..|bs| - 1]);
    }
  }

  /** Summed displacements of the first `n` contacts. */
  function DispSum(p: Player, bs: seq<Rect>, n: nat): Vec2
    requires n <= |bs|
  {
    if n == 0 then ZERO_VEC else DispSum(p, bs, n - 1).Plus(DispAt(p, bs, n - 1))
  }

  /** The final position is the start plus every displacement applied in turn. */
  lemma {:induction false} ResolvePosition(p: Player, bs: seq<Rect>)
    ensures ResolveAll(p, bs).pos == p.pos.Plus(DispSum(p, bs, |bs|))
  {
    if |bs| > 0 {
      var n := |bs| - 1;
      var q := ResolveAll(p, bs[..n]);
      ResolvePosition(p, bs[..n]);
      DispSumPrefix(p, bs, n);
      var d := DispAt(p, bs, n);
      assert d == ComputeDisp(PlayerRect(q), bs[n]);
      assert ResolveAll(p, bs).pos == q.pos.Plus(d);
      assert DispSum(p, bs, |bs|) == DispSum(p, bs[..n], n).Plus(d);
    }
  }

  lemma {:induction false} DispSumPrefix(p: Player, bs: seq<Rect>, n: nat)
    requires n < |bs|
    ensures DispSum(p, bs, n) == DispSum(p, bs[..|bs| - 1], n)
  {
    if n > 0 {
      DispSumPrefix(p, bs, n - 1);
      DispAtPrefix(p, bs, n - 1);
    }
  }

  /** No contacts: the player only loses `grounded`. */
  lemma ResolveNothing(p: Player)
    ensures ResolveAll(p, []) == p.(grounded := false)
  {
  }

  // ---------------------------------------------------------------------------
  // Edge-triggered touching flags (mud puddles, doors)

  /** A trigger's effect fires on the tick the player is inside some trigger
      rectangle without having been inside on the previous tick. */
  predicate Fires(touching: bool, inside: bool) {
    inside && !touching
  }

  /** How many times the effect fires over a run of ticks: `insides[i]` says
      whether the player overlaps a trigger on tick `i`; the touching flag after
      each tick is that tick's `insides` value. */
  function FireCount(touching: bool, insides: seq<bool>): nat
    decreases |insides|
  {
    if |insides| == 0 then 0
    else (if Fires(touching, insides[0]) then 1 else 0) + FireCount(insides[0], insides[1..])
  }

  /** Staying inside fires at most once, and exactly once when the player was
      not touching at the start. */
  lemma {:induction false} StayingInsideFiresOnce(touching: bool, insides: seq<bool>)
    requires |insides| > 0 && forall i :: 0 <= i < |insides| ==> insides[i]
    ensures FireCount(touching, insides) == (if touching then 0 else 1)
    decreases |insides|
  {
    if |insides| > 1 {
      StayingInsideFiresOnce(true, insides[1..]);
    }
  }

  /** Between two firings the player must have left every trigger. */
  lemma {:induction false} FiringNeedsExit(touching: bool, insides: seq<bool>)
    requires FireCount(touching, insides) >= 2
    ensures exists i :: 0 <= i < |insides| && !insides[i]
    decreases |insides|
  {
    if insides[0] {
      if Fires(touching, insides[0]) {
        FireCountCleared(insides[1..]);
      } else {
        FiringNeedsExit(insides[0], insides[1..]);
      }
      var i :| 0 <= i < |insides[1..]| && !insides[1..][i];
      assert !insides[i + 1];
    } else {
      assert !insides[0];
    }
  }

  lemma {:induction false} FireCountCleared(insides: seq<bool>)
    requires FireCount(true, insides) >= 1
    ensures exists i :: 0 <= i < |insides| && !insides[i]
    decreases |insides|
  {
    if insides[0] {
      FireCountCleared(insides[1..]);
      var i :| 0 <= i < |insides[1..]| && !insides[1..][i];
      assert !insides[i + 1];
    } else {
      assert !insides[0];
    }
  }
}
