/** GameEngine (GameEngine/src/main.rs): one player on a single loaded level.
    The walking acceleration is fixed at `WALK_ACC` (the key axis is commented
    out), so the player is always pushed east; the arrow keys choose the
    facing, ArrowUp jumps. The door and camera code sits after the end of
    `simulate` in the file; it is modelled as its own step, `DoorsAndCamera`. */
module GameEngine {
  import opened Geometry
  import opened Levels
  import opened Contacts
  import opened Animation
  import opened Physics
  import opened Doors
  import Camera

  const GRAV_ACC: real := 300.0
  const JUMP_VEL: real := 140.0
  const JUMP_TIME_MAX: real := 0.25
  /** The height at or below which the player is grounded. */
  const FLOOR: real := 0.0

  /** The keys `simulate` reads. */
  datatype EngineInput = EngineInput(arrowLeft: bool, arrowRight: bool, arrowUp: bool)

  /** The animation chosen after moving: the right-facing rise or fall frame
      while jumping, whatever the facing, and the walk facing `dir` otherwise. */
  function JumpOrWalk(dir: Dir, jumping: bool, velY: real): (k: AnimationKey)
    ensures jumping ==> (k == PlayerRightJumpRise <==> velY > 0.0)
    ensures jumping ==> (k == PlayerRightJumpRise || k == PlayerRightJumpFall)
    ensures !jumping ==> k == (if dir == E then PlayerRightWalk else PlayerLeftWalk)
  {
    if jumping then (if velY > 0.0 then PlayerRightJumpRise else PlayerRightJumpFall)
    else match dir
      case E => PlayerRightWalk
      case W => PlayerLeftWalk
  }

  /** `simulate`: facing, jump start, jump timer, gravity, the fixed eastward
      acceleration with the speed clamp, the level clamp, grounding, then the
      animation. */
  function Step(p: Player, input: EngineInput, dt: real, lw: nat): (q: Player)
    requires lw >= 1
    ensures q.dir == (if input.arrowRight then E else if input.arrowLeft then W else p.dir)
    ensures -MAX_SPEED <= q.vel.x <= MAX_SPEED
    ensures 0.0 <= q.pos.x <= (lw * Camera.TILE_SZ) as real - 8.0
    ensures 0.0 <= q.pos.y <= Camera.H as real - 24.0
    ensures q.grounded == (q.pos.y <= FLOOR) && (q.grounded ==> q.vel.y == 0.0)
    ensures q.jumping ==> q.jumpTimer > 0.0
    ensures q.touching == p.touching
    ensures q.anim.animation == JumpOrWalk(q.dir, q.jumping, q.vel.y)
  {
    var a := Steer(p, input.arrowLeft, input.arrowRight);
    var b := StartJump(a, input.arrowUp, JUMP_VEL, JUMP_TIME_MAX);
    var c := CountDownJumpEngine(b, dt);
    var d := c.(vel := c.vel.(x := HorizontalVelocity(c.vel.x, WALK_ACC, dt)));
    var e := Move(d, dt, GRAV_ACC, FLOOR, lw);
    e.(anim := e.anim.Play(JumpOrWalk(e.dir, e.jumping, e.vel.y), false).Tick(dt))
  }

  /** With the acceleration fixed at `WALK_ACC` the brake never engages and
      the horizontal speed never decreases over a tick: the player runs east
      until the speed clamp, whichever arrow key is held. */
  lemma AlwaysPushedEast(p: Player, input: EngineInput, dt: real, lw: nat)
    requires lw >= 1 && dt >= 0.0 && -MAX_SPEED <= p.vel.x <= MAX_SPEED
    ensures p.vel.x <= Step(p, input, dt, lw).vel.x
    ensures p.vel.x + WALK_ACC * dt <= MAX_SPEED ==> Step(p, input, dt, lw).vel.x == p.vel.x + WALK_ACC * dt
  {
    var a := Steer(p, input.arrowLeft, input.arrowRight);
    var b := StartJump(a, input.arrowUp, JUMP_VEL, JUMP_TIME_MAX);
    var c := CountDownJumpEngine(b, dt);
    assert c.vel.x == p.vel.x;
    assert Abs(WALK_ACC) >= 0.1;
  }

  /** A jump lasts while its timer runs, and a player in the air cannot start one. */
  lemma JumpNeedsGround(p: Player, input: EngineInput, dt: real, lw: nat)
    requires lw >= 1 && !p.grounded && !p.jumping
    ensures !Step(p, input, dt, lw).jumping
  {
  }

  /** With only one level loaded, a door never switches levels: it either
      teleports within the level or names a level that does not exist. */
  lemma OneLevelNeverSwitches(levels: seq<Level<EntityType>>, doors: seq<DoorEntry>,
                              touching: bool, triggers: seq<Contact>)
    requires |levels| == 1
    requires forall c :: c in triggers ==> c.bIndex < |doors|
    ensures !DoorDecision(levels, 0, doors, touching, triggers).SwitchLevel?
  {
  }

  class Game {
    var levels: seq<Level<EntityType>>
    var currentLevel: nat
    var player: Player
    var doors: seq<DoorEntry>
    /** `camera.screen_pos`; the screen size is always `(W, H)`. */
    var camera: Vec2

    predicate Valid()
      reads this
    {
      currentLevel < |levels| && AllWellFormed(levels)
    }

    function Current(): Level<EntityType>
      reads this
      requires Valid()
    {
      levels[currentLevel]
    }

    static function NewPlayer(pos: Vec2): (p: Player)
      ensures p.pos == pos && p.vel == ZERO_VEC && p.dir == E && !p.touching && p.grounded && !p.jumping
    {
      Player(pos, ZERO_VEC, E, false, AnimationState(PlayerRightIdle, 0.0), false, 0.0, true, 0.0)
    }

    /** `Game::new` once the first player start `start` of `level1` is known:
        only `level1` is loaded, the player starts 200 units above the start,
        then `enter_level` puts it there. */
    constructor (level1: Level<EntityType>, start: Vec2)
      requires WellFormed(level1)
      ensures Valid() && levels == [level1] && currentLevel == 0 && camera == ZERO_VEC
      ensures player == NewPlayer(start.Plus(Vec2(0.0, 200.0))).(touching := true)
      ensures doors == DoorsOf(level1.starts)
    {
      levels := [level1];
      currentLevel := 0;
      camera := ZERO_VEC;
      doors := [];
      var s := start.Plus(Vec2(0.0, 200.0));
      player := NewPlayer(s);
      new;
      EnterLevel(s);
    }

    /** `Game::new`: fails, as the `expect` does, when the level has no player start. */
    static method New(level1: Level<EntityType>) returns (g: Option<Game>)
      requires WellFormed(level1)
      ensures g.None? <==> FirstStart(level1.starts, PlayerStart).None?
      ensures g.Some? ==>
        (fresh(g.value) && g.value.Valid() && g.value.levels == [level1] && g.value.currentLevel == 0 &&
         g.value.player.pos == FirstStart(level1.starts, PlayerStart).value.Plus(Vec2(0.0, 200.0)) &&
         g.value.player.touching)
    {
      var start := FirstStart(level1.starts, PlayerStart);
      if start.None? {
        return None;
      }
      var game := new Game(level1, start.value);
      return Some(game);
    }

    /** `enter_level`: rebuild the door list from the current level's starts,
        place the player and mark it as touching a door. */
    method EnterLevel(pos: Vec2)
      modifies this
      requires Valid()
      ensures Valid() && levels == old(levels) && currentLevel == old(currentLevel) && camera == old(camera)
      ensures player == old(player).(touching := true, pos := pos)
      ensures doors == DoorsOf(Current().starts)
    {
      doors := [];
      player := player.(touching := true, pos := pos);
      var starts := levels[currentLevel].starts;
      assert starts[..0] == [];
      for i := 0 to |starts|
        invariant levels == old(levels) && currentLevel == old(currentLevel) && camera == old(camera)
        invariant player == old(player).(touching := true, pos := pos)
        invariant doors == DoorsOf(starts[..i])
      {
        assert starts[..i + 1][..i] == starts[..i];
        match starts[i].0 {
          case PlayerStart =>
          case Door(rm, x, y) =>
            doors := doors + [DoorEntry(rm, (x, y), starts[i].1)];
        }
      }
      assert starts[..|starts|] == starts;
    }

    /** `simulate`, statement by statement. */
    method Simulate(input: EngineInput, dt: real)
      modifies this
      requires Valid()
      ensures Valid() && levels == old(levels) && currentLevel == old(currentLevel)
      ensures doors == old(doors) && camera == old(camera)
      ensures player == Step(old(player), input, dt, Current().width)
    {
      player := Steer(player, input.arrowLeft, input.arrowRight);
      player := StartJump(player, input.arrowUp, JUMP_VEL, JUMP_TIME_MAX);
      player := CountDownJumpEngine(player, dt);
      player := player.(vel := player.vel.(x := HorizontalVelocity(player.vel.x, WALK_ACC, dt)));
      var lw := levels[currentLevel].width;
      player := Move(player, dt, GRAV_ACC, FLOOR, lw);
      player := player.(anim := player.anim.Play(JumpOrWalk(player.dir, player.jumping, player.vel.y), false));
      player := player.(anim := player.anim.Tick(dt));
    }

    /** The door response loop, with its `break`. `fatal` is the panic of the
        `expect` when the door names no loaded level. */
    method DoorResponse(triggers: seq<Contact>) returns (fatal: bool)
      modifies this
      requires Valid()
      requires forall c :: c in triggers ==> c.bIndex < |doors|
      ensures var o := DoorDecision(old(levels), old(currentLevel), old(doors), old(player).touching, triggers);
        (fatal <==> o.InvalidRoom?) && levels == old(levels) && camera == old(camera) &&
        (!fatal ==>
          Valid() &&
          player == DoorPlayer(o, old(player)) &&
          currentLevel == DoorLevel(o, old(currentLevel)) &&
          doors == DoorsAfter(o, old(levels), old(doors)))
    {
      fatal := false;
      if |triggers| == 0 {
        player := player.(touching := false);
      }
      var i := 0;
      while i < |triggers|
        invariant 0 <= i <= |triggers|
        invariant i > 0 ==> old(player).touching
        invariant |triggers| > 0 ==> player == old(player)
        invariant levels == old(levels) && currentLevel == old(currentLevel) && camera == old(camera)
        invariant doors == old(doors)
      {
        if !player.touching {
          assert i == 0;
          player := player.(touching := true);
          assert triggers[i] in triggers;
          var door := doors[triggers[i].bIndex];
          var dest := FindLevel(levels, door.to);
          if dest.None? {
            fatal := true;
            return;
          }
          if dest.value == currentLevel {
            player := player.(pos := Landing(levels[currentLevel], door.target));
          } else {
            currentLevel := dest.value;
            EnterLevel(Landing(levels[currentLevel], door.target));
          }
          break;
        }
        i := i + 1;
      }
    }

    /** The door and camera block that follows `simulate`: the player's tile
        contact list is left empty, so resolution only clears `grounded`; the
        door trigger uses the collider at the start of the block; the camera
        clamp uses the size of the level current at the start of the block. */
    method DoorsAndCamera() returns (fatal: bool)
      modifies this
      requires Valid()
      ensures levels == old(levels)
      ensures var level := old(Current());
        var o := DecisionFor(old(levels), old(currentLevel), old(doors), old(player).touching, PlayerRect(old(player)));
        (fatal <==> o.InvalidRoom?) &&
        (!fatal ==>
          Valid() &&
          player == DoorPlayer(o, old(player).(grounded := false)) &&
          currentLevel == DoorLevel(o, old(currentLevel)) &&
          doors == DoorsAfter(o, old(levels), old(doors)) &&
          camera == Camera.FollowSpec(player.pos, old(camera), level.width, level.height))
    {
      var level := levels[currentLevel];
      assert WellFormed(level);
      var prect := PlayerRect(player);
      var playerTileContacts: seq<Contact> := [];
      player := ResolveTileContacts(player, playerTileContacts);
      assert TileRects(playerTileContacts) == [];
      ResolveNothing(old(player));

      var doorRects := DoorRects(doors);
      var triggers := GatherContacts([prect], doorRects, []);
      assert triggers == PairContacts([prect], doorRects, 1);
      PairContactsSound([prect], doorRects, 1);
      fatal := DoorResponse(triggers);
      if fatal {
        return;
      }
      camera := Camera.Follow(player.pos, camera, level.width, level.height);
    }
  }
}
