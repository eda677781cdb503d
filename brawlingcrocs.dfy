/** BrawlingCrocs (BrawlingCrocs/src/main.rs): two players walk, brake and
    jump on a level of solid tiles; player 1 alone uses the doors, which lead
    to a place in the same level or into another level. */
module BrawlingCrocs {
  import opened Geometry
  import opened Levels
  import opened Contacts
  import opened Animation
  import opened Physics
  import opened Doors
  import Camera

  const GRAV_ACC: real := 300.0
  const JUMP_VEL: real := 140.0
  const JUMP_TIME_MAX: real := 0.15
  /** The height at or below which a player is provisionally grounded. */
  const FLOOR: real := 0.0

  /** One player's `controls`: W/A/D for player 1 and I/J/L for player 2
      (the fourth key, S or K, is never read). */
  datatype PlayerKeys = PlayerKeys(up: bool, left: bool, right: bool)

  datatype BrawlInput = BrawlInput(p1: PlayerKeys, p2: PlayerKeys)

  /** One player's part of `simulate` before collision: direction keys, jump,
      jump timer, walking acceleration with braking and the speed clamp,
      gravity with the level clamp and the provisional grounded test, then the
      jump/idle animation. */
  function Airborne(p: Player, keys: PlayerKeys, dt: real, lw: nat): (q: Player)
    requires lw >= 1
    ensures q.dir == (if keys.right then E else if keys.left then W else p.dir)
    ensures -MAX_SPEED <= q.vel.x <= MAX_SPEED
    ensures 0.0 <= q.pos.x <= (lw * Camera.TILE_SZ) as real - 8.0
    ensures 0.0 <= q.pos.y <= Camera.H as real - 24.0
    ensures q.grounded == (q.pos.y <= FLOOR) && (q.grounded ==> q.vel.y == 0.0)
    ensures q.touching == p.touching
    ensures q.anim.animation == IdleOrRise(q.dir, q.jumping)
  {
    var a := Steer(p, keys.left, keys.right);
    var b := StartJump(a, keys.up, JUMP_VEL, JUMP_TIME_MAX);
    var c := CountDownJump(b, dt);
    var d := c.(vel := c.vel.(x := HorizontalVelocity(c.vel.x, WALK_ACC * KeyAxis(keys.left, keys.right), dt)));
    var e := Move(d, dt, GRAV_ACC, FLOOR, lw);
    e.(anim := e.anim.Play(IdleOrRise(e.dir, e.jumping), false).Tick(dt))
  }

  /** A jump starts only from the ground: an airborne player's `jumping` flag
      never turns on. */
  lemma JumpNeedsGround(p: Player, keys: PlayerKeys, dt: real, lw: nat)
    requires lw >= 1 && !p.grounded && !p.jumping
    ensures !Airborne(p, keys, dt, lw).jumping
  {
  }

  /** Neither walk key, or both, brake the player; one of them alone never does. */
  lemma BrakesWithoutWalkKey(keys: PlayerKeys)
    ensures Abs(WALK_ACC * KeyAxis(keys.left, keys.right)) < 0.1 <==> keys.left == keys.right
  {
    BrakesIffNoAxis(keys.left, keys.right);
  }

  /** The tile resolution of the collider the player has after moving. */
  function Resolved<E>(a: Player, level: Level<E>): Player {
    ResolveAll(a, TileRects(TileContacts([PlayerRect(a)], level, 1)))
  }

  /** Gathering one player's tile contacts and resolving them. */
  method ResolvePlayer<E>(a: Player, level: Level<E>) returns (q: Player)
    ensures q == Resolved(a, level)
    ensures q.touching == a.touching && q.vel.x == a.vel.x
  {
    var tileContacts := GatherContactsTiles([PlayerRect(a)], level, []);
    assert tileContacts == TileContacts([PlayerRect(a)], level, 1);
    q := ResolveTileContacts(a, tileContacts);
    ResolveFrame(a, TileRects(tileContacts));
  }

  /** Player 2 after player 1's door decision: a level switch runs
      `enter_level`, which puts player 2 on the same landing spot. */
  function Partner(o: DoorOutcome, p: Player): Player {
    if o.SwitchLevel? then p.(touching := true, pos := o.pos) else p
  }

  class Game {
    var levels: seq<Level<EntityType>>
    var currentLevel: nat
    var player1: Player
    var player2: Player
    var doors: seq<DoorEntry>
    /** `camera.screen_pos`; the screen size is always `(W, H)`. */
    var camera: Vec2

    predicate Valid()
      reads this
    {
      currentLevel < |levels| && AllWellFormed(levels)
    }

    function Current(): Level<EntityType>
      reads this
      requires Valid()
    {
      levels[currentLevel]
    }

    static function NewPlayer(pos: Vec2): (p: Player)
      ensures p.pos == pos && p.vel == ZERO_VEC && p.dir == E && !p.touching && p.grounded && !p.jumping
    {
      Player(pos, ZERO_VEC, E, false, AnimationState(PlayerRightIdle, 0.0), false, 0.0, true, 0.0)
    }

    /** `Game::new` once the first player start `start` of the first level is
        known: player 1 200 units above it, player 2 100 units right of it,
        then `enter_level`. */
    constructor (ls: seq<Level<EntityType>>, start: Vec2)
      requires |ls| >= 1 && AllWellFormed(ls)
      ensures Valid() && levels == ls && currentLevel == 0 && camera == ZERO_VEC
      ensures player1 == NewPlayer(start.Plus(Vec2(0.0, 200.0))).(touching := true)
      ensures player2 == NewPlayer(start.Plus(Vec2(100.0, 0.0))).(touching := true)
      ensures doors == DoorsOf(ls[0].starts)
    {
      levels := ls;
      currentLevel := 0;
      camera := ZERO_VEC;
      doors := [];
      var s1 := start.Plus(Vec2(0.0, 200.0));
      var s2 := start.Plus(Vec2(100.0, 0.0));
      player1 := NewPlayer(s1);
      player2 := NewPlayer(s2);
      new;
      EnterLevel(s1, s2);
    }

    /** `Game::new` over the loaded levels: fails, as the `expect` does, when
        the first level has no player start. */
    static method New(ls: seq<Level<EntityType>>) returns (g: Option<Game>)
      requires |ls| >= 1 && AllWellFormed(ls)
      ensures g.None? <==> FirstStart(ls[0].starts, PlayerStart).None?
      ensures g.Some? ==>
        (fresh(g.value) && g.value.Valid() && g.value.levels == ls && g.value.currentLevel == 0 &&
         g.value.player1.pos == FirstStart(ls[0].starts, PlayerStart).value.Plus(Vec2(0.0, 200.0)) &&
         g.value.player2.pos == FirstStart(ls[0].starts, PlayerStart).value.Plus(Vec2(100.0, 0.0)))
    {
      var start := FirstStart(ls[0].starts, PlayerStart);
      if start.None? {
        return None;
      }
      var game := new Game(ls, start.value);
      return Some(game);
    }

    /** `enter_level`: rebuild the door list from the current level's starts,
        place both players and mark them as touching a door, since they
        probably arrive on one. */
    method EnterLevel(p1pos: Vec2, p2pos: Vec2)
      modifies this
      requires Valid()
      ensures Valid() && levels == old(levels) && currentLevel == old(currentLevel) && camera == old(camera)
      ensures player1 == old(player1).(touching := true, pos := p1pos)
      ensures player2 == old(player2).(touching := true, pos := p2pos)
      ensures doors == DoorsOf(Current().starts)
    {
      doors := [];
      player1 := player1.(touching := true, pos := p1pos);
      player2 := player2.(touching := true, pos := p2pos);
      var starts := levels[currentLevel].starts;
      assert starts[..0] == [];
      for i := 0 to |starts|
        invariant levels == old(levels) && currentLevel == old(currentLevel) && camera == old(camera)
        invariant player1 == old(player1).(touching := true, pos := p1pos)
        invariant player2 == old(player2).(touching := true, pos := p2pos)
        invariant doors == DoorsOf(starts[..i])
      {
        assert starts[..i + 1][..i] == starts[..i];
        match starts[i].0 {
          case PlayerStart =>
          case Door(rm, x, y) =>
            doors := doors + [DoorEntry(rm, (x, y), starts[i].1)];
        }
      }
      assert starts[..|starts|] == starts;
    }

    /** The first part of `simulate`, statement block by statement block:
        directions, jumps, jump timers, movement of player 1 then player 2,
        then each player's animation. */
    method MovePlayers(input: BrawlInput, dt: real)
      modifies this
      requires Valid()
      ensures Valid() && levels == old(levels) && currentLevel == old(currentLevel)
      ensures doors == old(doors) && camera == old(camera)
      ensures player1 == Airborne(old(player1), input.p1, dt, Current().width)
      ensures player2 == Airborne(old(player2), input.p2, dt, Current().width)
    {
      var acc1 := WALK_ACC * KeyAxis(input.p1.left, input.p1.right);
      var acc2 := WALK_ACC * KeyAxis(input.p2.left, input.p2.right);
      var p1 := Steer(player1, input.p1.left, input.p1.right);
      var p2 := Steer(player2, input.p2.left, input.p2.right);
      p1 := StartJump(p1, input.p1.up, JUMP_VEL, JUMP_TIME_MAX);
      p2 := StartJump(p2, input.p2.up, JUMP_VEL, JUMP_TIME_MAX);
      p1 := CountDownJump(p1, dt);
      p2 := CountDownJump(p2, dt);
      var lw := levels[currentLevel].width;
      p1 := p1.(vel := p1.vel.(x := HorizontalVelocity(p1.vel.x, acc1, dt)));
      p1 := Move(p1, dt, GRAV_ACC, FLOOR, lw);
      p2 := p2.(vel := p2.vel.(x := HorizontalVelocity(p2.vel.x, acc2, dt)));
      p2 := Move(p2, dt, GRAV_ACC, FLOOR, lw);
      p1 := p1.(anim := p1.anim.Play(IdleOrRise(p1.dir, p1.jumping), false).Tick(dt));
      p2 := p2.(anim := p2.anim.Play(IdleOrRise(p2.dir, p2.jumping), false).Tick(dt));
      player1, player2 := p1, p2;
    }

    /** The door response loop for player 1, with its `break`. `fatal` is the
        panic of the `expect` when the door names no loaded level. */
    method DoorResponse(triggers: seq<Contact>) returns (fatal: bool)
      modifies this
      requires Valid()
      requires forall c :: c in triggers ==> c.bIndex < |doors|
      ensures var o := DoorDecision(old(levels), old(currentLevel), old(doors), old(player1).touching, triggers);
        (fatal <==> o.InvalidRoom?) && levels == old(levels) && camera == old(camera) &&
        (!fatal ==>
          Valid() &&
          player1 == DoorPlayer(o, old(player1)) &&
          player2 == Partner(o, old(player2)) &&
          currentLevel == DoorLevel(o, old(currentLevel)) &&
          doors == DoorsAfter(o, old(levels), old(doors)))
    {
      fatal := false;
      if |triggers| == 0 {
        player1 := player1.(touching := false);
      }
      var i := 0;
      while i < |triggers|
        invariant 0 <= i <= |triggers|
        invariant i > 0 ==> old(player1).touching
        invariant |triggers| > 0 ==> player1 == old(player1)
        invariant levels == old(levels) && currentLevel == old(currentLevel) && camera == old(camera)
        invariant player2 == old(player2) && doors == old(doors)
      {
        if !player1.touching {
          assert i == 0;
          player1 := player1.(touching := true);
          assert triggers[i] in triggers;
          var door := doors[triggers[i].bIndex];
          var dest := FindLevel(levels, door.to);
          if dest.None? {
            fatal := true;
            return;
          }
          if dest.value == currentLevel {
            player1 := player1.(pos := Landing(levels[currentLevel], door.target));
          } else {
            currentLevel := dest.value;
            var landing := Landing(levels[currentLevel], door.target);
            EnterLevel(landing, landing);
          }
          break;
        }
        i := i + 1;
      }
    }

    /** The door and camera part of `simulate`: player 1's trigger contacts
        for the collider `p1rect`, the door response, then the camera follow
        and the clamp to a level of `lw` by `lh` tiles. The camera is not
        moved when the door response panics. */
    method DoorsAndCamera(p1rect: Rect, lw: nat, lh: nat) returns (fatal: bool)
      modifies this
      requires Valid()
      ensures levels == old(levels)
      ensures var o := DecisionFor(old(levels), old(currentLevel), old(doors), old(player1).touching, p1rect);
        (fatal <==> o.InvalidRoom?) &&
        (!fatal ==>
          Valid() &&
          player1 == DoorPlayer(o, old(player1)) &&
          player2 == Partner(o, old(player2)) &&
          currentLevel == DoorLevel(o, old(currentLevel)) &&
          doors == DoorsAfter(o, old(levels), old(doors)) &&
          camera == Camera.FollowSpec(player1.pos, old(camera), lw, lh))
    {
      var doorRects := DoorRects(doors);
      var triggers := GatherContacts([p1rect], doorRects, []);
      assert triggers == PairContacts([p1rect], doorRects, 1);
      PairContactsSound([p1rect], doorRects, 1);
      fatal := DoorResponse(triggers);
      if fatal {
        return;
      }
      camera := Camera.Follow(player1.pos, camera, lw, lh);
    }

    /** `simulate`: one tick of length `dt`. Player 1's door trigger uses the
        collider taken before tile resolution, and the camera clamp uses the
        size of the level current at the start of the tick, even after a level
        switch. `fatal` is the panic on a door to a level that does not exist;
        the camera is not moved then. */
    method Simulate(input: BrawlInput, dt: real) returns (fatal: bool)
      modifies this
      requires Valid()
      ensures levels == old(levels)
      ensures var level := old(Current());
        var a1 := Airborne(old(player1), input.p1, dt, level.width);
        var r1 := Resolved(a1, level);
        var r2 := Resolved(Airborne(old(player2), input.p2, dt, level.width), level);
        var o := DecisionFor(old(levels), old(currentLevel), old(doors), old(player1).touching, PlayerRect(a1));
        (fatal <==> o.InvalidRoom?) &&
        (!fatal ==>
          Valid() &&
          player1 == DoorPlayer(o, r1) &&
          player2 == Partner(o, r2) &&
          currentLevel == DoorLevel(o, old(currentLevel)) &&
          doors == DoorsAfter(o, old(levels), old(doors)) &&
          camera == Camera.FollowSpec(player1.pos, old(camera), level.width, level.height))
    {
      var level := levels[currentLevel];
      assert WellFormed(level);
      MovePlayers(input, dt);
      var p1rect := PlayerRect(player1);
      player1 := ResolvePlayer(player1, level);
      player2 := ResolvePlayer(player2, level);

      fatal := DoorsAndCamera(p1rect, level.width, level.height);
    }
  }
}
