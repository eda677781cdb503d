/** MudFight (MudFight/src/main.rs): two players on one level with walking
    enemies and mud puddles. Player 1 jumps and attacks with Space; player 2
    jumps with ArrowUp and attacks with Enter. Mud halves a player's walking
    speed, debounced by `touching_mud`. */
module MudFight {
  import opened Geometry
  import opened Levels
  import opened Contacts
  import opened Animation
  import opened Physics
  import opened IndexRemoval
  import Camera

  const GRAV_ACC: real := 400.0
  const WALK_VEL: real := 90.0
  const MUD_COEFF: real := 0.5
  const JUMP_VEL: real := 120.0
  const JUMP_TIME_MAX: real := 0.15
  const ATTACK_COOLDOWN_TIME: real := 0.1
  /** The heights at or below which `simulate` provisionally grounds player 1 and player 2. */
  const P1_FLOOR: real := 140.0
  const P2_FLOOR: real := 44.0

  /** What a level start places (level.rs's `EntityType` for this game). */
  datatype EntityType = PlayerStart | EnemyStart | MudStart

  datatype Mud = Mud(pos: Vec2)

  datatype Enemy = Enemy(pos: Vec2, dir: Dir, vel: Vec2, dead: bool, changeDirTimer: real, anim: AnimationState)

  /** The keys `simulate` reads. */
  datatype MudInput = MudInput(space: bool, arrowUp: bool, enter: bool)

  /** `Enemy::rect`: `Rect::ZERO` once dead, otherwise 24x8 around the position. */
  function EnemyRect(e: Enemy): (r: Rect)
    ensures e.dead ==> r == ZERO_RECT
    ensures !e.dead ==> r.w == 24 && r.h == 8 && r.x == e.pos.x - 12.0 && r.y == e.pos.y - 8.0
  {
    if e.dead then ZERO_RECT else Rect(e.pos.x - 18.0 + 6.0, e.pos.y - 8.0, 24, 8)
  }

  /** A dead enemy cannot be touched by anything. */
  lemma DeadEnemyTouchesNothing(e: Enemy, b: Rect)
    requires e.dead
    ensures Overlap(EnemyRect(e), b) == None && Overlap(b, EnemyRect(e)) == None
  {
    ZeroRectTouchesNothing(b);
  }

  /** `Player::attack_rect`: 18x24 in front of the player while the attack timer
      exceeds the cooldown, and empty otherwise. */
  function AttackRect(p: Player): (r: Rect)
    ensures r.x == p.pos.x + (if p.dir == E then 16.0 else 0.0) && r.y == p.pos.y - 12.0
    ensures p.attackTimer > ATTACK_COOLDOWN_TIME ==> r.w == 18 && r.h == 24
    ensures p.attackTimer <= ATTACK_COOLDOWN_TIME ==> r.w == 0 && r.h == 0
  {
    Rect(p.pos.x + (match p.dir case E => 16.0 case W => 0.0), p.pos.y - 12.0,
         if p.attackTimer > ATTACK_COOLDOWN_TIME then 18 else 0,
         if p.attackTimer > ATTACK_COOLDOWN_TIME then 24 else 0)
  }

  /** While cooling down the attack hitbox reaches nothing. */
  lemma CoolingAttackHitsNothing(p: Player, b: Rect)
    requires p.attackTimer <= ATTACK_COOLDOWN_TIME
    ensures Overlap(AttackRect(p), b) == None
  {
  }

  function Flip(d: Dir): (f: Dir)
    ensures f != d
  {
    match d
    case E => W
    case W => E
  }

  function EnemyWalk(d: Dir): AnimationKey {
    match d
    case E => EnemyRightWalk
    case W => EnemyLeftWalk
  }

  /** One enemy's turn of the enemy loop. A dead enemy is skipped. A live one
      counts its direction timer down by `dt`; when it runs out the direction
      flips and the timer restarts from `roll`, the `gen_range(3.0..5.0)` draw.
      It then walks at `MAX_SPEED` in its direction, is clamped into the level
      and plays its walk animation. */
  function StepEnemy(e: Enemy, dt: real, roll: real, lw: nat, lh: nat): (f: Enemy)
    requires lw >= 1 && lh >= 1
    ensures e.dead ==> f == e
    ensures !e.dead ==>
      var t := e.changeDirTimer - dt;
      f.changeDirTimer == (if t <= 0.0 then roll else t) &&
      f.dir == (if t <= 0.0 then Flip(e.dir) else e.dir) &&
      f.vel == Vec2(MAX_SPEED * DirSign(f.dir), e.vel.y) &&
      0.0 <= f.pos.x <= (lw * Camera.TILE_SZ) as real - 12.0 &&
      0.0 <= f.pos.y <= (lh * Camera.TILE_SZ * Camera.H) as real - 4.0 &&
      f.anim == e.anim.Play(EnemyWalk(f.dir), false).Tick(dt) &&
      !f.dead
    ensures !e.dead ==>
      var x := e.pos.x + f.vel.x * dt;
      var xMax := (lw * Camera.TILE_SZ) as real - 12.0;
      (0.0 <= x <= xMax ==> f.pos.x == x) && (x < 0.0 ==> f.pos.x == 0.0) && (x > xMax ==> f.pos.x == xMax)
    ensures !e.dead ==>
      var y := e.pos.y + f.vel.y * dt;
      var yMax := (lh * Camera.TILE_SZ * Camera.H) as real - 4.0;
      (0.0 <= y <= yMax ==> f.pos.y == y) && (y < 0.0 ==> f.pos.y == 0.0) && (y > yMax ==> f.pos.y == yMax)
  {
    if e.dead then e
    else
      var e1 := e.(changeDirTimer := e.changeDirTimer - dt);
      var e2 := if e1.changeDirTimer <= 0.0 then e1.(dir := Flip(e1.dir), changeDirTimer := roll) else e1;
      var e3 := e2.(vel := e2.vel.(x := MAX_SPEED * DirSign(e2.dir)));
      var e4 := e3.(pos := e3.pos.Plus(e3.vel.Times(dt)));
      var x := Clamp(e4.pos.x, 0.0, (lw * Camera.TILE_SZ) as real - EnemyRect(e4).w as real / 2.0);
      var y := Clamp(e4.pos.y, 0.0, (lh * Camera.TILE_SZ) as real * Camera.H as real - EnemyRect(e4).h as real / 2.0);
      e4.(pos := Vec2(x, y), anim := e4.anim.Play(EnemyWalk(e4.dir), false).Tick(dt))
  }

  /** A live enemy's direction timer stays in `(0, 5)` once it starts there
      (as `enter_level` starts it, in `[3, 5)`), for any non-negative tick. */
  lemma EnemyTimerStaysInRange(e: Enemy, dt: real, roll: real, lw: nat, lh: nat)
    requires lw >= 1 && lh >= 1 && 3.0 <= roll < 5.0 && dt >= 0.0
    requires !e.dead && 0.0 < e.changeDirTimer < 5.0
    ensures var f := StepEnemy(e, dt, roll, lw, lh); 0.0 < f.changeDirTimer < 5.0
  {
  }

  /** The direction flips exactly on the ticks where the timer runs out. */
  lemma EnemyFlipsWhenTimerRunsOut(e: Enemy, dt: real, roll: real, lw: nat, lh: nat)
    requires lw >= 1 && lh >= 1 && !e.dead
    ensures StepEnemy(e, dt, roll, lw, lh).dir != e.dir <==> e.changeDirTimer - dt <= 0.0
  {
  }

  /** The box `simulate` uses for an enemy's tile contacts: 16x16 at its position. */
  function EnemyBoxes(es: seq<Enemy>): (rs: seq<Rect>)
    ensures |rs| == |es|
    ensures forall i :: 0 <= i < |es| ==> rs[i] == Rect(es[i].pos.x, es[i].pos.y, 16, 16)
  {
    seq(|es|, i requires 0 <= i < |es| => Rect(es[i].pos.x, es[i].pos.y, 16, 16))
  }

  /** Pushing enemies out of tiles: `enemies[a_index].pos += compute_disp(a_rect, b_rect)`
      for the contacts in order. Every enemy moves by exactly the displacements
      of its own contacts and nothing else about it changes. */
  function PushAll(es: seq<Enemy>, cs: seq<Contact>): (r: seq<Enemy>)
    requires forall c :: c in cs ==> c.aIndex < |es|
    ensures |r| == |es|
    ensures forall i :: 0 <= i < |es| ==> r[i] == es[i].(pos := es[i].pos.Plus(PushSum(cs, i)))
  {
    if |cs| == 0 then es
    else
      var init := cs[..|cs| - 1];
      assert forall c :: c in init ==> c in cs;
      var prev := PushAll(es, init);
      var c := cs[|cs| - 1];
      prev[c.aIndex := prev[c.aIndex].(pos := prev[c.aIndex].pos.Plus(ComputeDisp(c.aRect, c.bRect)))]
  }

  /** The sum of the displacements of the contacts that name enemy `i`. */
  function PushSum(cs: seq<Contact>, i: nat): Vec2 {
    if |cs| == 0 then ZERO_VEC
    else
      var c := cs[|cs| - 1];
      var rest := PushSum(cs[..|cs| - 1], i);
      if c.aIndex == i then rest.Plus(ComputeDisp(c.aRect, c.bRect)) else rest
  }

  // ---------------------------------------------------------------------------
  // Level entry

  function EnemyFromStart(pos: Vec2, coin: bool, roll: real): Enemy {
    Enemy(pos, if coin then E else W, ZERO_VEC, false, roll, AnimationState(EnemyLeftWalk, 0.0))
  }

  /** The enemies `enter_level` creates from `starts[..n]`: one per enemy start,
      in order, facing east on a `true` coin, with the direction timer `roll`. */
  function EnemiesOf(starts: seq<(EntityType, Vec2)>, coins: seq<bool>, rolls: seq<real>, n: nat): (r: seq<Enemy>)
    requires n <= |starts| && |coins| == |starts| && |rolls| == |starts|
    requires forall i :: 0 <= i < |rolls| ==> 3.0 <= rolls[i] < 5.0
    ensures |r| <= n
    ensures forall e :: e in r ==>
      !e.dead && e.vel == ZERO_VEC && 3.0 <= e.changeDirTimer < 5.0 && e.anim == AnimationState(EnemyLeftWalk, 0.0)
    ensures forall e :: e in r ==>
      exists i :: (0 <= i < n && starts[i] == (EnemyStart, e.pos) &&
                   e.dir == (if coins[i] then E else W) && e.changeDirTimer == rolls[i])
  {
    if n == 0 then []
    else
      var prev := EnemiesOf(starts, coins, rolls, n - 1);
      if starts[n - 1].0 == EnemyStart then prev + [EnemyFromStart(starts[n - 1].1, coins[n - 1], rolls[n - 1])]
      else prev
  }

  /** The mud puddles `enter_level` creates from `starts[..n]`. */
  function MudsOf(starts: seq<(EntityType, Vec2)>, n: nat): (r: seq<Mud>)
    requires n <= |starts|
    ensures |r| <= n
    ensures forall m :: m in r ==> (MudStart, m.pos) in starts
  {
    if n == 0 then []
    else
      var prev := MudsOf(starts, n - 1);
      if starts[n - 1].0 == MudStart then prev + [Mud(starts[n - 1].1)] else prev
  }

  /** The number of starts of kind `k` among `starts[..n]`. */
  function CountKind(starts: seq<(EntityType, Vec2)>, k: EntityType, n: nat): nat
    requires n <= |starts|
  {
    if n == 0 then 0 else CountKind(starts, k, n - 1) + (if starts[n - 1].0 == k then 1 else 0)
  }

  /** One enemy per enemy start and one puddle per mud start. */
  lemma {:induction false} EnterLevelCounts(starts: seq<(EntityType, Vec2)>, coins: seq<bool>, rolls: seq<real>, n: nat)
    requires n <= |starts| && |coins| == |starts| && |rolls| == |starts|
    requires forall i :: 0 <= i < |rolls| ==> 3.0 <= rolls[i] < 5.0
    ensures |EnemiesOf(starts, coins, rolls, n)| == CountKind(starts, EnemyStart, n)
    ensures |MudsOf(starts, n)| == CountKind(starts, MudStart, n)
  {
    if n > 0 {
      EnterLevelCounts(starts, coins, rolls, n - 1);
    }
  }

  /** The `k`-th enemy start (counting from zero) gives the `k`-th enemy, with
      the coin and the draw taken at that start; likewise for the puddles. */
  lemma {:induction false} EnterLevelOrder(starts: seq<(EntityType, Vec2)>, coins: seq<bool>, rolls: seq<real>, n: nat)
    requires n <= |starts| && |coins| == |starts| && |rolls| == |starts|
    requires forall i :: 0 <= i < |rolls| ==> 3.0 <= rolls[i] < 5.0
    ensures forall i :: 0 <= i < n && starts[i].0 == EnemyStart ==>
      CountKind(starts, EnemyStart, i) < |EnemiesOf(starts, coins, rolls, n)| &&
      EnemiesOf(starts, coins, rolls, n)[CountKind(starts, EnemyStart, i)] == EnemyFromStart(starts[i].1, coins[i], rolls[i])
    ensures forall i :: 0 <= i < n && starts[i].0 == MudStart ==>
      CountKind(starts, MudStart, i) < |MudsOf(starts, n)| &&
      MudsOf(starts, n)[CountKind(starts, MudStart, i)] == Mud(starts[i].1)
  {
    if n > 0 {
      EnterLevelOrder(starts, coins, rolls, n - 1);
      EnterLevelCounts(starts, coins, rolls, n - 1);
      var prevE := EnemiesOf(starts, coins, rolls, n - 1);
      var prevM := MudsOf(starts, n - 1);
      forall i | 0 <= i < n && starts[i].0 == EnemyStart
        ensures CountKind(starts, EnemyStart, i) < |EnemiesOf(starts, coins, rolls, n)| &&
          EnemiesOf(starts, coins, rolls, n)[CountKind(starts, EnemyStart, i)] == EnemyFromStart(starts[i].1, coins[i], rolls[i])
      {
        if i < n - 1 {
          assert EnemiesOf(starts, coins, rolls, n)[..|prevE|] == prevE;
        }
      }
      forall i | 0 <= i < n && starts[i].0 == MudStart
        ensures CountKind(starts, MudStart, i) < |MudsOf(starts, n)| &&
          MudsOf(starts, n)[CountKind(starts, MudStart, i)] == Mud(starts[i].1)
      {
        if i < n - 1 {
          assert MudsOf(starts, n)[..|prevM|] == prevM;
        }
      }
    }
  }

  // ---------------------------------------------------------------------------
  // Per-player rules of one tick

  /** The jump, the jump timer, gravity with the level clamp and the
      provisional grounded test, and the jump/idle animation of one player. */
  function Airborne(p: Player, jumpKey: bool, dt: real, floorY: real, lw: nat): (q: Player)
    requires lw >= 1
    ensures q.vel.x == p.vel.x && q.dir == p.dir && q.touching == p.touching && q.attackTimer == p.attackTimer
    ensures q.grounded == (q.pos.y <= floorY) && (q.grounded ==> q.vel.y == 0.0)
    ensures q.anim.animation == IdleOrRise(p.dir, q.jumping)
  {
    var a := CountDownJump(StartJump(p, jumpKey, JUMP_VEL, JUMP_TIME_MAX), dt);
    var b := Move(a, dt, GRAV_ACC, floorY, lw);
    b.(anim := b.anim.Play(IdleOrRise(b.dir, b.jumping), false).Tick(dt))
  }

  function AttackAnim(d: Dir): AnimationKey {
    match d
    case E => PlayerRightAttack
    case W => PlayerLeftAttack
  }

  /** The attack: with its key held and the timer past the cooldown the player
      plays its attack animation and the timer drops to zero. */
  function Attack(p: Player, key: bool): (q: Player)
    ensures key && p.attackTimer > ATTACK_COOLDOWN_TIME ==>
      q == p.(anim := p.anim.Play(AttackAnim(p.dir), false), attackTimer := 0.0)
    ensures !(key && p.attackTimer > ATTACK_COOLDOWN_TIME) ==> q == p
  {
    if key && p.attackTimer > ATTACK_COOLDOWN_TIME then
      p.(anim := p.anim.Play(AttackAnim(p.dir), false), attackTimer := 0.0)
    else p
  }

  /** The mud rule as a function of whether the player's collider touches any
      puddle: leaving every puddle restores walking speed, entering one halves
      it, and staying inside changes nothing. */
  function MudSpec(p: Player, inside: bool): (q: Player)
    ensures !inside ==> q == p.(touching := false, vel := p.vel.(x := WALK_VEL))
    ensures inside && !p.touching ==> q == p.(touching := true, vel := p.vel.(x := WALK_VEL * MUD_COEFF))
    ensures inside && p.touching ==> q == p
    ensures q.touching == inside
  {
    if !inside then p.(touching := false, vel := p.vel.(x := WALK_VEL))
    else if !p.touching then p.(touching := true, vel := p.vel.(x := WALK_VEL * MUD_COEFF))
    else p
  }

  /** The speed change happens exactly on the ticks where the mud trigger
      fires. */
  lemma MudSlowsOnEntry(p: Player, inside: bool)
    ensures MudSpec(p, inside).vel.x != p.vel.x && inside ==> Fires(p.touching, inside)
    ensures Fires(p.touching, inside) ==> MudSpec(p, inside).vel.x == WALK_VEL * MUD_COEFF
  {
  }

  /** The mud response loop over player-versus-puddle contacts, with its `break`. */
  method MudResponse(p: Player, triggers: seq<Contact>) returns (q: Player)
    ensures q == MudSpec(p, |triggers| > 0)
  {
    q := p;
    if |triggers| == 0 {
      q := q.(touching := false, vel := q.vel.(x := WALK_VEL));
    }
    var i := 0;
    while i < |triggers|
      invariant 0 <= i <= |triggers|
      invariant |triggers| > 0 ==> q == p
      invariant i > 0 ==> p.touching
    {
      if !q.touching {
        q := q.(touching := true, vel := q.vel.(x := WALK_VEL * MUD_COEFF));
        break;
      }
      i := i + 1;
    }
  }

  /** The trigger squares of the puddles, in puddle order. */
  function MudRects(ms: seq<Mud>): (rs: seq<Rect>)
    ensures |rs| == |ms| && forall i :: 0 <= i < |ms| ==> rs[i] == TriggerRect(ms[i].pos)
  {
    TriggerRects(seq(|ms|, i requires 0 <= i < |ms| => ms[i].pos))
  }

  /** The collision half of one player's tick, in `simulate`'s order: tile
      resolution of the collider `a` has after the airborne step, then the
      attack, then mud against that same collider. */
  function Collided<E>(a: Player, attackKey: bool, level: Level<E>, mud: seq<Rect>): Player {
    var r := PlayerRect(a);
    var b := ResolveAll(a, TileRects(TileContacts([r], level, 1)));
    var c := Attack(b, attackKey);
    MudSpec(c, PairContacts([r], mud, 1) != [])
  }

  /** Everything one tick does to one player. */
  function PlayerTick<E>(p: Player, jumpKey: bool, attackKey: bool, dt: real, floorY: real,
                         level: Level<E>, mud: seq<Rect>): Player
    requires level.width >= 1
  {
    Collided(Airborne(p, jumpKey, dt, floorY, level.width), attackKey, level, mud)
  }

  /** One player's collision steps: gather its tile contacts, resolve them,
      attack, then gather and answer its mud contacts. */
  method CollidePlayer<E>(a: Player, attackKey: bool, level: Level<E>, mud: seq<Rect>) returns (q: Player)
    ensures q == Collided(a, attackKey, level, mud)
  {
    var rect := PlayerRect(a);
    var tileContacts := GatherContactsTiles([rect], level, []);
    assert tileContacts == TileContacts([rect], level, 1);
    q := ResolveTileContacts(a, tileContacts);
    q := Attack(q, attackKey);
    var triggers := GatherContacts([rect], mud, []);
    assert triggers == PairContacts([rect], mud, 1);
    q := MudResponse(q, triggers);
  }

  /** Once a player has attacked the attack timer stays at zero: nothing in a
      tick raises it again, so every later attack is refused and the attack
      hitbox stays empty. */
  lemma AttackNeverRecharges<E>(p: Player, jumpKey: bool, attackKey: bool, dt: real, floorY: real,
                                level: Level<E>, mud: seq<Rect>)
    requires level.width >= 1 && p.attackTimer <= ATTACK_COOLDOWN_TIME
    ensures PlayerTick(p, jumpKey, attackKey, dt, floorY, level, mud).attackTimer == p.attackTimer
  {
    var a := Airborne(p, jumpKey, dt, floorY, level.width);
    var r := PlayerRect(a);
    ResolveFrame(a, TileRects(TileContacts([r], level, 1)));
  }

  /** Every enemy stepped once, in place. */
  function StepAll(es: seq<Enemy>, dt: real, rolls: seq<real>, lw: nat, lh: nat): (r: seq<Enemy>)
    requires |rolls| == |es| && lw >= 1 && lh >= 1
    ensures |r| == |es| && forall i :: 0 <= i < |es| ==> r[i] == StepEnemy(es[i], dt, rolls[i], lw, lh)
  {
    seq(|es|, i requires 0 <= i < |es| => StepEnemy(es[i], dt, rolls[i], lw, lh))
  }

  /** The enemies after one tick: each stepped, then pushed out of the tiles
      under its 16x16 box. */
  function EnemiesTick<E>(es: seq<Enemy>, dt: real, rolls: seq<real>, level: Level<E>): (r: seq<Enemy>)
    requires |rolls| == |es| && level.width >= 1 && level.height >= 1
    ensures |r| == |es|
    ensures forall i :: 0 <= i < |es| ==>
      var s := StepEnemy(es[i], dt, rolls[i], level.width, level.height);
      var cs := TileContacts(EnemyBoxes(StepAll(es, dt, rolls, level.width, level.height)), level, |es|);
      r[i] == s.(pos := s.pos.Plus(PushSum(cs, i)))
  {
    var stepped := StepAll(es, dt, rolls, level.width, level.height);
    TileContactsSound(EnemyBoxes(stepped), level, |stepped|);
    PushAll(stepped, TileContacts(EnemyBoxes(stepped), level, |stepped|))
  }

  function ContactTargets(cs: seq<Contact>): (r: seq<nat>)
    ensures |r| == |cs| && forall i :: 0 <= i < |cs| ==> r[i] == cs[i].bIndex
  {
    seq(|cs|, i requires 0 <= i < |cs| => cs[i].bIndex)
  }

  // ---------------------------------------------------------------------------

  class Game {
    var levels: seq<Level<EntityType>>
    var currentLevel: nat
    var player1: Player
    var player2: Player
    var enemies: seq<Enemy>
    var mudPuddles: seq<Mud>
    /** `camera.screen_pos`; the screen size is always `(W, H)`. */
    var camera: Vec2

    predicate Valid()
      reads this
    {
      currentLevel < |levels| && AllWellFormed(levels)
    }

    function Current(): Level<EntityType>
      reads this
      requires Valid()
    {
      levels[currentLevel]
    }

    /** `Game::new` once the first player start `start` is known: level 1 only,
        camera at the origin, both players idle facing east at walking speed
        with a charged attack, then `enter_level`. */
    constructor (level1: Level<EntityType>, start: Vec2, coins: seq<bool>, rolls: seq<real>)
      requires WellFormed(level1)
      requires |coins| == |level1.starts| && |rolls| == |level1.starts|
      requires forall i :: 0 <= i < |rolls| ==> 3.0 <= rolls[i] < 5.0
      ensures Valid() && levels == [level1] && currentLevel == 0 && camera == ZERO_VEC
      ensures player1 == NewPlayer(start.Plus(Vec2(0.0, 200.0)))
      ensures player2 == NewPlayer(start)
      ensures enemies == EnemiesOf(level1.starts, coins, rolls, |level1.starts|)
      ensures mudPuddles == MudsOf(level1.starts, |level1.starts|)
    {
      levels := [level1];
      currentLevel := 0;
      camera := ZERO_VEC;
      enemies := [];
      mudPuddles := [];
      var s1 := start.Plus(Vec2(0.0, 200.0));
      var s2 := start.Plus(Vec2(0.0, 0.0));
      player1 := NewPlayer(s1);
      player2 := NewPlayer(s2);
      new;
      EnterLevel(s1, s2, coins, rolls);
    }

    static function NewPlayer(pos: Vec2): (p: Player)
      ensures p.pos == pos && !p.touching && p.grounded && !p.jumping
      ensures p.vel == Vec2(WALK_VEL, 0.0) && p.dir == E && p.attackTimer > ATTACK_COOLDOWN_TIME
    {
      Player(pos, Vec2(WALK_VEL, 0.0), E, false, AnimationState(PlayerRightIdle, 0.0), false, 0.0, true, 0.2)
    }

    /** `Game::new`: fails, as the `expect` does, when level 1 has no player start. */
    static method New(level1: Level<EntityType>, coins: seq<bool>, rolls: seq<real>) returns (g: Option<Game>)
      requires WellFormed(level1)
      requires |coins| == |level1.starts| && |rolls| == |level1.starts|
      requires forall i :: 0 <= i < |rolls| ==> 3.0 <= rolls[i] < 5.0
      ensures g.None? <==> FirstStart(level1.starts, PlayerStart).None?
      ensures g.Some? ==>
        (fresh(g.value) && g.value.Valid() && g.value.levels == [level1] &&
         g.value.player1.pos == FirstStart(level1.starts, PlayerStart).value.Plus(Vec2(0.0, 200.0)) &&
         g.value.player2.pos == FirstStart(level1.starts, PlayerStart).value)
    {
      var start := FirstStart(level1.starts, PlayerStart);
      if start.None? {
        return None;
      }
      var game := new Game(level1, start.value, coins, rolls);
      return Some(game);
    }

    /** `enter_level`: forget the puddles and enemies, place both players off
        any puddle, then create one enemy per enemy start and one puddle per mud
        start. `coins[i]` and `rolls[i]` are the random draws for start `i`. */
    method EnterLevel(p1pos: Vec2, p2pos: Vec2, coins: seq<bool>, rolls: seq<real>)
      modifies this
      requires Valid()
      requires |coins| == |Current().starts| && |rolls| == |Current().starts|
      requires forall i :: 0 <= i < |rolls| ==> 3.0 <= rolls[i] < 5.0
      ensures Valid() && levels == old(levels) && currentLevel == old(currentLevel) && camera == old(camera)
      ensures player1 == old(player1).(touching := false, pos := p1pos)
      ensures player2 == old(player2).(touching := false, pos := p2pos)
      ensures enemies == EnemiesOf(Current().starts, coins, rolls, |Current().starts|)
      ensures mudPuddles == MudsOf(Current().starts, |Current().starts|)
    {
      mudPuddles := [];
      enemies := [];
      player1 := player1.(touching := false, pos := p1pos);
      player2 := player2.(touching := false, pos := p2pos);
      var starts := levels[currentLevel].starts;
      for i := 0 to |starts|
        invariant levels == old(levels) && currentLevel == old(currentLevel) && camera == old(camera)
        invariant player1 == old(player1).(touching := false, pos := p1pos)
        invariant player2 == old(player2).(touching := false, pos := p2pos)
        invariant enemies == EnemiesOf(starts, coins, rolls, i)
        invariant mudPuddles == MudsOf(starts, i)
      {
        match starts[i].0 {
          case PlayerStart =>
          case EnemyStart =>
            enemies := enemies + [EnemyFromStart(starts[i].1, coins[i], rolls[i])];
          case MudStart =>
            mudPuddles := mudPuddles + [Mud(starts[i].1)];
        }
      }
    }

    /** The per-player part of `simulate` before collision: jumps, jump timers,
        gravity and clamping, then the jump/idle animations, in that order. */
    method MovePlayers(input: MudInput, dt: real)
      modifies this
      requires Valid()
      ensures Valid() && levels == old(levels) && currentLevel == old(currentLevel)
      ensures enemies == old(enemies) && mudPuddles == old(mudPuddles) && camera == old(camera)
      ensures player1 == Airborne(old(player1), input.space, dt, P1_FLOOR, Current().width)
      ensures player2 == Airborne(old(player2), input.arrowUp, dt, P2_FLOOR, Current().width)
    {
      player1 := StartJump(player1, input.space, JUMP_VEL, JUMP_TIME_MAX);
      player2 := StartJump(player2, input.arrowUp, JUMP_VEL, JUMP_TIME_MAX);
      player1 := CountDownJump(player1, dt);
      player2 := CountDownJump(player2, dt);
      var lw := levels[currentLevel].width;
      player1 := Move(player1, dt, GRAV_ACC, P1_FLOOR, lw);
      player2 := Move(player2, dt, GRAV_ACC, P2_FLOOR, lw);
      player1 := player1.(anim := player1.anim.Play(IdleOrRise(player1.dir, player1.jumping), false));
      player1 := player1.(anim := player1.anim.Tick(dt));
      player2 := player2.(anim := player2.anim.Play(IdleOrRise(player2.dir, player2.jumping), false));
      player2 := player2.(anim := player2.anim.Tick(dt));
    }

    /** The enemy loop of `simulate`, updating each enemy in place. */
    method StepEnemies(dt: real, rolls: seq<real>)
      modifies this
      requires Valid() && |rolls| == |enemies|
      ensures Valid() && levels == old(levels) && currentLevel == old(currentLevel)
      ensures player1 == old(player1) && player2 == old(player2)
      ensures mudPuddles == old(mudPuddles) && camera == old(camera)
      ensures enemies == StepAll(old(enemies), dt, rolls, Current().width, Current().height)
    {
      var lw := levels[currentLevel].width;
      var lh := levels[currentLevel].height;
      ghost var es := enemies;
      for i := 0 to |enemies|
        invariant levels == old(levels) && currentLevel == old(currentLevel)
        invariant player1 == old(player1) && player2 == old(player2)
        invariant mudPuddles == old(mudPuddles) && camera == old(camera)
        invariant |enemies| == |es|
        invariant forall k :: 0 <= k < i ==> enemies[k] == StepEnemy(es[k], dt, rolls[k], lw, lh)
        invariant forall k :: i <= k < |es| ==> enemies[k] == es[k]
      {
        enemies := enemies[i := StepEnemy(enemies[i], dt, rolls[i], lw, lh)];
      }
    }

    /** `attack_enemy_collision_response`: collect the contacts' `b_index`
        values, sort them, drop duplicates and remove those enemies from the
        highest index down. */
    method AttackEnemyCollisionResponse(contacts: seq<Contact>)
      modifies this
      requires forall c :: c in contacts ==> c.bIndex < |enemies|
      ensures enemies == Survivors(old(enemies), Values(ContactTargets(contacts)))
      ensures levels == old(levels) && currentLevel == old(currentLevel)
      ensures player1 == old(player1) && player2 == old(player2)
      ensures mudPuddles == old(mudPuddles) && camera == old(camera)
    {
      var toRemove := [];
      for i := 0 to |contacts|
        invariant toRemove == ContactTargets(contacts[..i])
      {
        toRemove := toRemove + [contacts[i].bIndex];
      }
      assert contacts[..|contacts|] == contacts;
      var sorted := SortIndices(toRemove);
      var targets := Dedup(sorted);
      assert Values(targets) == Values(toRemove) by {
        MultisetValues(sorted, toRemove);
      }
      TargetsInRange(contacts, toRemove, targets, |enemies|);
      ghost var es := enemies;
      var k := |targets|;
      assert Survivors(es, Values(targets[k..])) == es by {
        assert Values(targets[k..]) == {};
        KeepNoDrop(es, {}, 0, |es|);
      }
      while k > 0
        invariant 0 <= k <= |targets|
        invariant levels == old(levels) && currentLevel == old(currentLevel)
        invariant player1 == old(player1) && player2 == old(player2)
        invariant mudPuddles == old(mudPuddles) && camera == old(camera)
        invariant enemies == Survivors(es, Values(targets[k..]))
      {
        k := k - 1;
        assert targets[k] in targets;
        SortedTailAbove(targets, k, Values(targets[k + 1..]));
        RemoveBelow(es, Values(targets[k + 1..]), targets[k]);
        assert Values(targets[k..]) == Values(targets[k + 1..]) + {targets[k]} by {
          assert targets[k..] == [targets[k]] + targets[k + 1..];
        }
        enemies := enemies[..targets[k]] + enemies[targets[k] + 1..];
      }
    }

    /** The enemy tile contact loop, moving enemies in place. */
    method PushEnemies(cs: seq<Contact>)
      modifies this
      requires forall c :: c in cs ==> c.aIndex < |enemies|
      ensures enemies == PushAll(old(enemies), cs)
      ensures levels == old(levels) && currentLevel == old(currentLevel)
      ensures player1 == old(player1) && player2 == old(player2)
      ensures mudPuddles == old(mudPuddles) && camera == old(camera)
    {
      ghost var es := enemies;
      assert cs[..0] == [];
      for i := 0 to |cs|
        invariant levels == old(levels) && currentLevel == old(currentLevel)
        invariant player1 == old(player1) && player2 == old(player2)
        invariant mudPuddles == old(mudPuddles) && camera == old(camera)
        invariant |enemies| == |es|
        invariant enemies == PushAll(es, cs[..i])
      {
        assert cs[..i + 1][..i] == cs[..i];
        assert forall c :: c in cs[..i + 1] ==> c in cs;
        var c := cs[i];
        enemies := enemies[c.aIndex := enemies[c.aIndex].(pos := enemies[c.aIndex].pos.Plus(ComputeDisp(c.aRect, c.bRect)))];
      }
      assert cs[..|cs|] == cs;
    }

    /** The enemy half of `simulate`: the enemy loop, the enemy tile contacts
        gathered from the stepped enemies' 16x16 boxes, the (empty) attack
        response, and the push out of the tiles. */
    method MoveEnemies(dt: real, rolls: seq<real>)
      modifies this
      requires Valid() && |rolls| == |enemies|
      ensures Valid() && levels == old(levels) && currentLevel == old(currentLevel)
      ensures player1 == old(player1) && player2 == old(player2)
      ensures mudPuddles == old(mudPuddles) && camera == old(camera)
      ensures enemies == EnemiesTick(old(enemies), dt, rolls, Current())
    {
      var level := levels[currentLevel];
      assert WellFormed(level);
      StepEnemies(dt, rolls);
      ghost var stepped := enemies;
      var enemyRects := EnemyBoxes(enemies);
      var enemyTileContacts := GatherContactsTiles(enemyRects, level, []);
      assert enemyTileContacts == TileContacts(enemyRects, level, |enemyRects|);
      AttackEnemyCollisionResponse([]);
      assert enemies == stepped by {
        assert Values(ContactTargets([])) == {};
        KeepNoDrop(stepped, {}, 0, |stepped|);
      }
      TileContactsSound(enemyRects, level, |enemyRects|);
      PushEnemies(enemyTileContacts);
    }

    /** The player half of `simulate` after movement: each player's tile
        resolution, attack and mud response, then the camera following
        player 1, clamped to the level. */
    method CollidePlayers(input: MudInput)
      modifies this
      requires Valid()
      ensures Valid() && levels == old(levels) && currentLevel == old(currentLevel)
      ensures enemies == old(enemies) && mudPuddles == old(mudPuddles)
      ensures player1 == Collided(old(player1), input.space, Current(), MudRects(mudPuddles))
      ensures player2 == Collided(old(player2), input.enter, Current(), MudRects(mudPuddles))
      ensures camera == Camera.FollowSpec(player1.pos, old(camera), Current().width, Current().height)
    {
      var level := levels[currentLevel];
      var mudRects := MudRects(mudPuddles);
      player1 := CollidePlayer(player1, input.space, level, mudRects);
      player2 := CollidePlayer(player2, input.enter, level, mudRects);
      camera := Camera.Follow(player1.pos, camera, level.width, level.height);
    }

    /** `simulate`: one fixed tick of length `dt`. `rolls[i]` is the
        `gen_range(3.0..5.0)` draw enemy `i` uses if its timer runs out. The
        enemies never touch the players within a tick, and neither player
        touches the other, so the enemies' part is one call and each player's
        collision steps are grouped per player. */
    method Simulate(input: MudInput, dt: real, rolls: seq<real>)
      modifies this
      requires Valid() && |rolls| == |enemies|
      ensures Valid() && levels == old(levels) && currentLevel == old(currentLevel)
      ensures mudPuddles == old(mudPuddles)
      ensures player1 == PlayerTick(old(player1), input.space, input.space, dt, P1_FLOOR, Current(), MudRects(mudPuddles))
      ensures player2 == PlayerTick(old(player2), input.arrowUp, input.enter, dt, P2_FLOOR, Current(), MudRects(mudPuddles))
      ensures enemies == EnemiesTick(old(enemies), dt, rolls, Current())
      ensures camera == Camera.FollowSpec(player1.pos, old(camera), Current().width, Current().height)
    {
      var level := levels[currentLevel];
      assert WellFormed(level);
      MovePlayers(input, dt);
      MoveEnemies(dt, rolls);
      CollidePlayers(input);
    }
  }

  lemma MultisetValues(a: seq<nat>, b: seq<nat>)
    requires multiset(a) == multiset(b)
    ensures Values(a) == Values(b)
  {
    forall x ensures x in Values(a) <==> x in Values(b) {
      assert x in a <==> x in multiset(a);
      assert x in b <==> x in multiset(b);
    }
  }

  lemma TargetsInRange(contacts: seq<Contact>, toRemove: seq<nat>, targets: seq<nat>, n: nat)
    requires toRemove == ContactTargets(contacts)
    requires Values(targets) == Values(toRemove)
    requires forall c :: c in contacts ==> c.bIndex < n
    ensures forall x :: x in targets ==> x < n
  {
    forall x | x in targets ensures x < n {
      assert x in Values(targets);
      var k :| 0 <= k < |toRemove| && toRemove[k] == x;
      assert contacts[k] in contacts;
    }
  }

  lemma SortedTailAbove(t: seq<nat>, k: nat, above: set<nat>)
    requires StrictlySorted(t) && k < |t| && above == Values(t[k + 1..])
    ensures forall y :: y in above ==> t[k] < y
  {
    forall y | y in above ensures t[k] < y {
      var j :| 0 <= j < |t[k + 1..]| && t[k + 1..][j] == y;
      assert t[k + 1 + j] == y;
    }
  }
}
