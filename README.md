# 3s-a-crowd: the per-tick game rules, in Dafny

This project models the simulation core of three small Rust platformer
prototypes (MudFight, BrawlingCrocs, GameEngine) and two Python level-text
generators from FlailySnail, and proves properties of that model.

The three Rust games share most of their rules, so the shared logic lives in
modules of its own:

- `Geometry` (`geometry.dfy`): vectors, rectangles, `Rect::overlap` and
  `compute_disp`, the single-axis push-out.
- `Levels` (`level.dfy`): the level as a read-only value: name, size in tiles,
  tile query, grid-to-world conversion, entity starts; the lookup of a level by
  name.
- `Contacts` (`contacts.dfy`): `gather_contacts` and `gather_contacts_tiles`.
  Each is a method with its loops, proved equal to a specification function.
  Lemmas cover that function's soundness, order and completeness.
- `Animation` (`animation.dfy`): `AnimationState::play` and `tick`.
- `Camera` (`camera.dfy`): the four camera-follow `while` loops and the
  final clamp.
- `Physics` (`physics.dfy`): the `Player` record, facing, jump start and jump
  timer, acceleration with braking and the speed clamp, gravity with the level
  clamp and the provisional grounded test, and the sequential tile-contact
  resolution loop. Also the edge-triggered `touching_*` flag shared by mud
  and doors.
- `IndexRemoval` (`removal.dfy`): removing a set of indices from a sequence,
  by sorting, deduplicating and then removing from the top down.
- `Doors` (`doors.dfy`): the door list, the door decision of one tick, and
  where a door lands its player.

Each game is a module with one `class Game`. Its fields are the Rust struct's
fields, and `enter_level` and `simulate` are methods that update them in
place. Each method's `ensures` ties the new state to functions of the old
state, and the lemmas prove what the games promise about those functions.
`Simulate` is split into phase methods (movement, enemies, collisions). In
BrawlingCrocs and GameEngine they run in the source's order. In MudFight the
enemy phase runs before the players' collision phase; "## Left out" says why
that reordering changes nothing.

- `MudFight` (`mudfight.dfy`): two players, walking enemies, mud puddles.
- `BrawlingCrocs` (`brawlingcrocs.dfy`): two players and doors.
- `GameEngine` (`gameengine.dfy`): one player, doors, a single loaded level.

`Content` (`content.dfy`) models `signgen` and `ginsgen` from both Python
files.

Numbers are `real`: nothing in this logic depends on `f32` rounding.
External inputs are parameters:

- keyboard state is a per-tick record of booleans;
- `rand::thread_rng().gen_range(3.0..5.0)` and `gen_bool(0.5)` are sequences
  of draws, with their ranges as preconditions;
- a panicking `expect` is an `Option` result (`New`) or a `fatal` output
  (`DoorResponse`, `Simulate`).

## Model

| member | source | states |
|---|---|---|
| `Geometry.Overlap` | MudFight/src/main.rs:952 | an overlap exists exactly when both axis intervals intersect with positive extents, and its depths are positive and at most the smaller extent on each axis |
| `Geometry.OverlapSymmetric` | BrawlingCrocs/src/main.rs:727 | the overlap of `a` with `b` equals that of `b` with `a` |
| `Geometry.ZeroRectTouchesNothing` | MudFight/src/main.rs:76-79 | `Rect::ZERO` overlaps nothing, from either side |
| `Geometry.ComputeDisp` | MudFight/src/main.rs:966-982 | one component is always zero; no overlap gives `(0,0)`; with an overlap it keeps exactly one axis, the shallower one (tie keeps y), with the overlap depth as its magnitude; it is negative only when `a` lies before `b` on that axis |
| `Geometry.ComputeDispSeparates` | GameEngine/src/main.rs:613-629 | applying the displacement once leaves the two rectangles apart, unless `a` is nested inside `b` on the kept axis |
| `Geometry.Clamp` | BrawlingCrocs/src/main.rs:515 | for ordered bounds the result lies within them, equals the input when it already does, and is the nearer bound otherwise |
| `Geometry.TriggerRect` | MudFight/src/main.rs:867-876 | the 16x16 square centred on a puddle or door position |
| `Geometry.TriggerRects` | MudFight/src/main.rs:867-876 | the trigger square of each position, in order, shared by puddles and doors |
| `Levels.FindLevel` | BrawlingCrocs/src/main.rs:652-656 | the index of the first level carrying the name; none exactly when no level carries it |
| `Levels.FirstStart` | MudFight/src/main.rs:347-352 | the position of the first start of the requested kind: that start has the kind and position, and no earlier start has the kind; none exactly when the level has no start of that kind |
| `Contacts.GatherRow` | MudFight/src/main.rs:951-961 | the inner loop over `rects_b` computes exactly the contacts of one `rects_a` entry, in `rects_b` order |
| `Contacts.GatherContacts` | MudFight/src/main.rs:949-963 | the nested loops append to the given list exactly the pair contacts of all of `rects_a` with `rects_b` |
| `Contacts.PairContactsSound` | BrawlingCrocs/src/main.rs:723-737 | every gathered entry has `a_index < len(rects_a)` and `b_index < len(rects_b)`, records those two rectangles, and carries their overlap |
| `Contacts.PairContactsOrdered` | BrawlingCrocs/src/main.rs:724-725 | entries come out in a-major, b-minor order, so no pair appears twice |
| `Contacts.PairContactsComplete` | GameEngine/src/main.rs:596-611 | every intersecting pair is gathered |
| `Contacts.PairContactsEmpty` | MudFight/src/main.rs:880 | the contact list is empty exactly when no rectangle of the first list intersects one of the second |
| `Contacts.GatherTileRow` | MudFight/src/main.rs:935-945 | the inner loop computes exactly the contacts of one rectangle with the solid tiles reported under it, in the level's order, all with `b_index == 0` |
| `Contacts.GatherContactsTiles` | MudFight/src/main.rs:933-947 | the loops append exactly the tile contacts of every rectangle, in rectangle order and then in the level's tile order |
| `Contacts.TileContactsSound` | BrawlingCrocs/src/main.rs:707-721 | every tile contact names an in-range rectangle, has `b_index == 0`, and names a solid tile that the level reports under that rectangle and that overlaps it |
| `Contacts.TileContactsGrouped` | GameEngine/src/main.rs:581-582 | the contacts of each rectangle are contiguous, in rectangle order |
| `Contacts.TileContactsComplete` | GameEngine/src/main.rs:580-595 | every solid, overlapping tile reported under a rectangle is gathered |
| `Animation.AnimationState.Play` | MudFight/src/main.rs:203-209 | the requested animation is showing afterwards; asking again for the one showing, without retrigger, changes nothing; any other request restarts the clock at zero |
| `Animation.AnimationState.Tick` | MudFight/src/main.rs:200-202 | the clock advances by exactly `dt` and the animation is kept |
| `Animation.PlayIdempotent` | BrawlingCrocs/src/main.rs:129-136 | playing the same key twice without retrigger is the same as playing it once |
| `Animation.RetriggerRestarts` | GameEngine/src/main.rs:133-140 | a retriggered play always shows the key from time zero |
| `Animation.HoldAccumulates` | MudFight/src/main.rs:721-727 | requesting the same key every frame never restarts it: its clock is the sum of the frame times, from zero if the key was not yet showing |
| `Camera.FollowAxisSpec` | MudFight/src/main.rs:911-918 | after the loops of one axis the player is at least the margin past the camera's start, and, in a view wider than two margins, at least the margin before its end; a player already inside the margins leaves the camera where it was |
| `Camera.FollowAxisWholeSteps` | BrawlingCrocs/src/main.rs:685-692 | the camera moves only by whole units |
| `Camera.FollowAxisMinimal` | BrawlingCrocs/src/main.rs:693-700 | the camera never moves further than necessary: after moving forward or back, the player is within one unit of the margin it was moved for |
| `Camera.FollowAxis` | GameEngine/src/main.rs:559-570 | the two unit-step `while` loops of one axis terminate exactly where the follow specification puts the camera |
| `Camera.ClampAxis` | MudFight/src/main.rs:927-930 | the clamped coordinate lies in `[0, max(tiles*16, view) - view]`, is `0` for a level no larger than the view, and keeps a coordinate whose view lies inside the level |
| `Camera.Follow` | BrawlingCrocs/src/main.rs:685-704 | the camera update of a tick computes `FollowSpec` |
| `Camera.FollowSpec` | GameEngine/src/main.rs:575-578 | after the clamp the camera lies in `[0, max(level_px, view) - view]` on both axes |
| `Camera.FollowKeepsPlayerInView` | MudFight/src/main.rs:911-930 | away from the level edges the followed player ends inside the 64-pixel margins of the view on both axes |
| `Physics.DirSign` | MudFight/src/main.rs:39-46 | `+1` for east and `-1` for west |
| `Physics.PlayerRect` | MudFight/src/main.rs:122-133 | a 16x24 collider 12 units below the position, 8 right of it facing east and 12 facing west |
| `Physics.Steer` | BrawlingCrocs/src/main.rs:462-468 | the right key wins, facing east with the walk animation; otherwise the left key faces west; with neither key nothing changes |
| `Physics.StartJump` | MudFight/src/main.rs:617-621 | a press while grounded sets `jumping`, a full jump timer and the jump speed upward; otherwise nothing changes |
| `Physics.CountDownJump` | MudFight/src/main.rs:631-636 | while jumping the timer drops by `dt` and jumping continues exactly while it stays positive; otherwise nothing changes |
| `Physics.CountDownJumpEngine` | GameEngine/src/main.rs:439-442 | when jumping before the step, `jumping == (jump_timer > 0)` after it, with the timer down by `dt` |
| `Physics.CountDownFormsAgree` | BrawlingCrocs/src/main.rs:494-499 | the `if timer <= 0 { jumping = false }` countdown and GameEngine's `jumping = timer > 0` countdown have the same effect |
| `Physics.JumpLasts` | BrawlingCrocs/src/main.rs:502-507 | over `n` ticks a jump with `T` left lasts exactly while `T - n*dt > 0`, and meanwhile the timer is `T - n*dt` |
| `Physics.KeyAxis` | BrawlingCrocs/src/main.rs:451 | the axis is zero exactly when both or neither key is held, and positive exactly for the positive key alone |
| `Physics.HorizontalVelocity` | BrawlingCrocs/src/main.rs:511-515 | the result lies in `[-MAX_SPEED, MAX_SPEED]`; an acceleration of at least 0.1 adds `acc*dt` unbraked; a smaller one brakes by `BRAKE_DAMP`; a speed past either limit, braked or not, saturates at that limit |
| `Physics.BrakesIffNoAxis` | BrawlingCrocs/src/main.rs:512 | braking happens exactly when neither walk key or both are held |
| `Physics.BrakeStep` | BrawlingCrocs/src/main.rs:539-542 | one tick without acceleration shrinks the speed by at least the factor `BRAKE_DAMP` |
| `Physics.CoastDecays` | BrawlingCrocs/src/main.rs:537-542 | after `n` ticks without acceleration the speed is at most `BRAKE_DAMP^n` times the starting speed |
| `Physics.Move` | BrawlingCrocs/src/main.rs:510-534 | after moving, position is in `[0, lw*16 - w/2] x [0, H - h]`, equals the integrated position whenever that is inside and the nearer edge otherwise, so a fall below 0 lands at `pos.y == 0`; `grounded == (pos.y <= floor)`; the fall speed is zeroed exactly when grounded, and otherwise has gravity applied |
| `Physics.TileRects` | MudFight/src/main.rs:815-816 | the tile rectangle of each contact, in contact order |
| `Physics.ResolveTileContacts` | BrawlingCrocs/src/main.rs:613-621 | the loop computes the sequential resolution `ResolveAll` of the contacts' tiles |
| `Physics.ResolveGrounded` | BrawlingCrocs/src/main.rs:613-631 | a player is grounded after the resolution iff some displacement had `y > 0`, and then its fall speed is zero; otherwise the fall speed is untouched |
| `Physics.ResolveFrame` | MudFight/src/main.rs:814-822 | resolution changes only the position, the fall speed and `grounded`, and never the horizontal speed |
| `Physics.ResolvePosition` | MudFight/src/main.rs:824-832 | the final position is the start plus every contact's displacement, each computed from the collider the earlier ones left |
| `Physics.ResolveNothing` | GameEngine/src/main.rs:501-511 | with no tile contacts only `grounded` changes, to false |
| `Physics.StayingInsideFiresOnce` | MudFight/src/main.rs:884-893 | staying inside a trigger fires its effect at most once, and exactly once when not already touching |
| `Physics.FiringNeedsExit` | BrawlingCrocs/src/main.rs:644-650 | the effect fires twice in a run only if on some tick of the run the player was inside no trigger at all |
| `MudFight.EnemyRect` | MudFight/src/main.rs:76-86 | a dead enemy's collider is `Rect::ZERO`; a live one's is 24x8, 12 left of and 8 below its position |
| `MudFight.DeadEnemyTouchesNothing` | MudFight/src/main.rs:77-79 | nothing overlaps a dead enemy |
| `MudFight.AttackRect` | MudFight/src/main.rs:143-162 | the attack box is 18x24 in front of the player while the timer exceeds the cooldown, and 0x0 otherwise |
| `MudFight.CoolingAttackHitsNothing` | MudFight/src/main.rs:151-160 | while cooling down the attack box overlaps nothing |
| `MudFight.Flip` | MudFight/src/main.rs:757 | the flipped direction differs from the old one |
| `MudFight.StepEnemy` | MudFight/src/main.rs:751-784 | a dead enemy is skipped; a live one's timer drops by `dt`, and if it is no longer positive the direction flips and the timer restarts from the draw; it walks at `MAX_SPEED` in its direction, moves to `pos + vel*dt` when that is inside the level clamp and to the nearer edge otherwise, on each axis, and shows its walk animation |
| `MudFight.EnemyTimerStaysInRange` | MudFight/src/main.rs:755-759 | with draws in `[3,5)` a live enemy's timer stays in `(0, 5)` |
| `MudFight.EnemyFlipsWhenTimerRunsOut` | MudFight/src/main.rs:756-757 | a live enemy changes direction exactly on the tick its timer runs out |
| `MudFight.EnemyBoxes` | MudFight/src/main.rs:792-801 | a 16x16 box at each enemy's position, in enemy order |
| `MudFight.PushAll` | MudFight/src/main.rs:862-865 | the push loop keeps the number of enemies; each enemy moves by the sum of its own contacts' displacements, and nothing else about it changes |
| `MudFight.EnemiesOf` | MudFight/src/main.rs:523-537 | `enter_level` creates only live, motionless enemies with a timer in `[3,5)` and the left-walk animation; each comes from an enemy start at its position, facing east exactly when that start's coin is true, with that start's draw as its timer |
| `MudFight.EnterLevelOrder` | MudFight/src/main.rs:520-540 | the `k`-th enemy start gives the `k`-th enemy, built from that start's position, coin and draw, and the `k`-th mud start the `k`-th puddle |
| `MudFight.MudsOf` | MudFight/src/main.rs:538 | every puddle comes from a mud start at that position |
| `MudFight.EnterLevelCounts` | MudFight/src/main.rs:520-540 | exactly one enemy per enemy start and one puddle per mud start |
| `MudFight.Airborne` | MudFight/src/main.rs:617-748 | the airborne step keeps speed, facing, flag and attack timer; `grounded == (pos.y <= floor)` and a grounded player's fall speed is zero; the animation is the rise or idle of the facing |
| `MudFight.Attack` | MudFight/src/main.rs:837-857 | with the key held and the timer past the cooldown, the attack animation plays and the timer drops to zero; otherwise nothing changes |
| `MudFight.MudSpec` | MudFight/src/main.rs:879-909 | no contact clears `touching_mud` and restores `WALK_VEL`; a contact while not touching sets it and sets `WALK_VEL * MUD_COEFF`; a contact while touching changes nothing; afterwards the flag says whether any contact exists |
| `MudFight.MudSlowsOnEntry` | MudFight/src/main.rs:886-888 | while inside mud the speed changes only on the tick the trigger fires, and a firing always sets the slowed speed `WALK_VEL * MUD_COEFF` |
| `MudFight.MudResponse` | MudFight/src/main.rs:880-893 | the mud loop with its `break` computes the mud rule for whether any contact exists |
| `MudFight.MudRects` | MudFight/src/main.rs:867-876 | the trigger square of each puddle, in order |
| `MudFight.CollidePlayer` | MudFight/src/main.rs:803-909 | one player's collision steps compute `Collided`: tile resolution, then attack, then mud against the collider taken before resolution |
| `MudFight.AttackNeverRecharges` | MudFight/src/main.rs:834-857 | once a player's attack timer is at or below the cooldown, a whole tick leaves it unchanged |
| `MudFight.StepAll` | MudFight/src/main.rs:751-784 | the enemy loop steps each enemy in place with its own draw |
| `MudFight.EnemiesTick` | MudFight/src/main.rs:751-865 | the enemy half of a tick keeps the number of enemies; each enemy is its own `StepEnemy` result moved by the displacements of its own tile contacts, as `PushAll` states |
| `MudFight.ContactTargets` | MudFight/src/main.rs:997-1000 | the collected `b_index` values, in contact order |
| `MudFight.Game.constructor` | MudFight/src/main.rs:347-508 | only level 1, camera at the origin, player 1 200 units above the first player start and player 2 on it, and the enemies and puddles of `enter_level` |
| `MudFight.Game.NewPlayer` | MudFight/src/main.rs:365-381 | a new player stands grounded at walking speed, facing east, with a charged attack |
| `MudFight.Game.New` | MudFight/src/main.rs:347-358 | fails exactly when level 1 has no player start, as the `expect` does |
| `MudFight.Game.EnterLevel` | MudFight/src/main.rs:513-541 | clears and rebuilds enemies and puddles from the level's starts, puts both players at the given positions off any puddle, keeps the rest |
| `MudFight.Game.MovePlayers` | MudFight/src/main.rs:617-748 | each player takes its airborne step with its own jump key and floor |
| `MudFight.Game.StepEnemies` | MudFight/src/main.rs:751-784 | the enemy loop's new enemies are each old enemy stepped |
| `MudFight.Game.AttackEnemyCollisionResponse` | MudFight/src/main.rs:996-1006 | removes exactly the enemies at the distinct contact targets and keeps the survivors in their original order, never indexing out of range |
| `MudFight.Game.PushEnemies` | MudFight/src/main.rs:862-865 | the push loop's enemies are `PushAll` of the old ones |
| `MudFight.Game.MoveEnemies` | MudFight/src/main.rs:750-865 | the enemies after the enemy loop, the empty attack response and the tile push are `EnemiesTick` of the old ones |
| `MudFight.Game.CollidePlayers` | MudFight/src/main.rs:786-930 | each player's collision steps are `Collided` of its state after movement, using the puddles' trigger squares; the camera then follows player 1 and is clamped to the level; the enemies and puddles are untouched |
| `MudFight.Game.Simulate` | MudFight/src/main.rs:584-931 | one tick: each player gets `PlayerTick`, the enemies get `EnemiesTick`, the camera follows player 1 and is clamped to the level |
| `MudFight.MultisetValues` | MudFight/src/main.rs:1001 | sorting keeps the set of indices |
| `MudFight.TargetsInRange` | MudFight/src/main.rs:1002-1004 | every deduplicated target is a valid enemy index |
| `MudFight.SortedTailAbove` | MudFight/src/main.rs:1003 | in descending removal every later target is above the current one, so no removal shifts a target still to come |
| `IndexRemoval.RemoveBelow` | MudFight/src/main.rs:1003-1005 | removing index `x` below all doomed indices is the same as dooming `x` too |
| `IndexRemoval.SurvivorsLength` | MudFight/src/main.rs:1004 | exactly as many elements are removed as there are distinct doomed indices in range |
| `IndexRemoval.KeepNoDrop` | MudFight/src/main.rs:1003-1005 | a stretch with no doomed index survives whole |
| `IndexRemoval.SortIndices` | MudFight/src/main.rs:1001 | `sort_unstable` gives a sorted permutation of its input |
| `IndexRemoval.Dedup` | MudFight/src/main.rs:1002 | `dedup` leaves no two equal neighbours, keeps the set of values, and turns sorted input into strictly increasing output |
| `Doors.DoorsOf` | BrawlingCrocs/src/main.rs:424-429 | every door entry comes from a door start with that target and position |
| `Doors.DoorsOfConcat` | BrawlingCrocs/src/main.rs:424-429 | the door list is built start by start, in order |
| `Doors.DoorsOfSingle` | BrawlingCrocs/src/main.rs:425-428 | a door start contributes exactly one entry and a player start none |
| `Doors.DoorRects` | BrawlingCrocs/src/main.rs:633-642 | the 16x16 trigger square of each door, in order |
| `Doors.Landing` | BrawlingCrocs/src/main.rs:658-664 | a door lands the player at `grid_to_world(col, row) + (8, -4)` |
| `Doors.DoorDecision` | BrawlingCrocs/src/main.rs:643-684 | no contact clears the flag; otherwise it acts iff the player was not touching, only on the first contact; it is fatal iff no level has the name; it teleports iff the first match is the current level; and it lands on the target tile of the level it names |
| `Doors.OnlyFirstContactMatters` | GameEngine/src/main.rs:527-558 | at most one door acts per tick: only the first contact decides |
| `Doors.DoorPlayer` | BrawlingCrocs/src/main.rs:644-680 | leaving clears the flag; staying changes nothing; a teleport or a switch sets the flag and the landing position |
| `Doors.TouchingFollowsContact` | GameEngine/src/main.rs:524-530 | afterwards `touching_door` says exactly whether the player touches a door this tick |
| `Doors.DoorLandsOnTarget` | BrawlingCrocs/src/main.rs:649-681 | a first touch of a door to a loaded level always lands the player on the target tile of the first level with that name |
| `BrawlingCrocs.Airborne` | BrawlingCrocs/src/main.rs:461-601 | the facing follows the keys; the speed stays within `MAX_SPEED`; the position is inside the level clamp; `grounded == (pos.y <= 0)` with zero fall speed; the animation is the rise or idle of the facing |
| `BrawlingCrocs.JumpNeedsGround` | BrawlingCrocs/src/main.rs:480-484 | a player in the air who is not jumping cannot start a jump |
| `BrawlingCrocs.BrakesWithoutWalkKey` | BrawlingCrocs/src/main.rs:450-453 | `acc.x` brakes exactly when neither or both walk keys are held |
| `BrawlingCrocs.ResolvePlayer` | BrawlingCrocs/src/main.rs:608-621 | gathering and resolving one player's tile contacts keeps its flag and horizontal speed and computes `Resolved` |
| `BrawlingCrocs.Game.constructor` | BrawlingCrocs/src/main.rs:260-412 | player 1 200 units above the first player start, player 2 100 units right of it, both touching a door, and the doors of the first level |
| `BrawlingCrocs.Game.NewPlayer` | BrawlingCrocs/src/main.rs:277-290 | a new player stands grounded and motionless, facing east, not on a door |
| `BrawlingCrocs.Game.New` | BrawlingCrocs/src/main.rs:260-271 | fails exactly when the first level has no player start |
| `BrawlingCrocs.Game.EnterLevel` | BrawlingCrocs/src/main.rs:417-430 | rebuilds the doors, one per door start in order, and puts both players at the given positions touching a door |
| `BrawlingCrocs.Game.MovePlayers` | BrawlingCrocs/src/main.rs:449-601 | each player takes its airborne step with its own keys |
| `BrawlingCrocs.Game.DoorResponse` | BrawlingCrocs/src/main.rs:644-684 | the door loop with its `break` is fatal exactly on a door to a missing level; otherwise it applies the door decision to player 1, moves player 2 along on a level switch, and rebuilds the doors then |
| `BrawlingCrocs.Game.DoorsAndCamera` | BrawlingCrocs/src/main.rs:633-704 | for the given collider: fatal exactly on a door to a missing level; otherwise the door decision for player 1, player 2 moved along on a switch, the doors rebuilt then, and the camera clamped with the given level size |
| `BrawlingCrocs.Game.Simulate` | BrawlingCrocs/src/main.rs:448-705 | one tick: airborne steps, tile resolution, the door decision for player 1's collider from before resolution, and the camera clamped with the size of the level current at the start of the tick |
| `GameEngine.JumpOrWalk` | GameEngine/src/main.rs:476-491 | while jumping the animation is the right-facing rise iff `vel.y > 0`, and the right-facing fall otherwise; when not jumping it is the walk of the facing |
| `GameEngine.Step` | GameEngine/src/main.rs:417-494 | the facing follows the arrow keys; the speed stays within `MAX_SPEED`; the position is inside the level clamp; `grounded == (pos.y <= 0)` with zero fall speed; a jumping player has time left on its timer; the animation follows `JumpOrWalk` |
| `GameEngine.AlwaysPushedEast` | GameEngine/src/main.rs:418-449 | with `acc.x` fixed at `WALK_ACC` braking never fires: the speed never decreases, and it grows by exactly `WALK_ACC*dt` below the clamp |
| `GameEngine.JumpNeedsGround` | GameEngine/src/main.rs:433-437 | a player in the air who is not jumping cannot start a jump |
| `GameEngine.OneLevelNeverSwitches` | GameEngine/src/main.rs:244-262 | with the single loaded level a door never switches levels |
| `GameEngine.Game.constructor` | GameEngine/src/main.rs:277-373 | only level 1, the player 200 units above the first player start and touching a door, and the doors of the level |
| `GameEngine.Game.NewPlayer` | GameEngine/src/main.rs:289-301 | a new player stands grounded and motionless, facing east, not on a door |
| `GameEngine.Game.New` | GameEngine/src/main.rs:277-282 | fails exactly when the level has no player start |
| `GameEngine.Game.EnterLevel` | GameEngine/src/main.rs:379-391 | rebuilds the doors from the level's starts and puts the player at the given position touching a door |
| `GameEngine.Game.Simulate` | GameEngine/src/main.rs:417-494 | the player takes `Step` with the current level's width; nothing else changes |
| `GameEngine.Game.DoorResponse` | GameEngine/src/main.rs:524-558 | the door loop with its `break` is fatal exactly on a door to a missing level, and otherwise applies the door decision |
| `GameEngine.Game.DoorsAndCamera` | GameEngine/src/main.rs:497-578 | the block after `simulate`: the empty tile loop only clears `grounded`; then the door decision for the collider from the block's start; then the camera clamped with the size of the level current at the block's start |
| `Content.SplitJoin` | FlailySnail/content/content.py:7 | `str.join` with a one-character separator can be undone: splitting on the separator gives back the parts, when none contains it |
| `Content.SignGen` | FlailySnail/content/content.py:6-7 | the output splits on spaces into exactly 128 tokens; token `i` is `"ws"` iff `i in lst`, and `"air"` otherwise |
| `Content.SignGenMembership` | FlailySnail/content/content.py:7 | two lists give the same output exactly when they agree on which of `0..127` they contain |
| `Content.SignGenExtraValue` | FlailySnail/content/content.py:5-7 | adding a duplicate or an out-of-range value, at either end, never changes the output |
| `Content.SignGenSet` | FlailySnail/content/signgen.py:12-13 | the output splits into exactly 128 tokens; token `i` is `"ws"` iff `i` is in `obstacles`, and `"air"` iff it is not |
| `Content.SignGenAgree` | FlailySnail/content/signgen.py:13 | the two files' `signgen` agree: a list gives the output of the set of its values |
| `Content.NatDigitsRoundTrip` | FlailySnail/content/content.py:17 | reading back the decimal digits `str` writes for a natural number gives the number |
| `Content.IntToStr` | FlailySnail/content/content.py:17 | `str(i)` contains no space or newline and starts with `-` exactly for negative numbers |
| `Content.IntToStrInjective` | FlailySnail/content/content.py:17 | different numbers give different `str` text |
| `Content.DoorLine` | FlailySnail/content/content.py:17 | each line is exactly `door level1 2 7 `, then `str(i)`, then ` 8`, with no newline |
| `Content.DoorLineInjective` | FlailySnail/content/content.py:17 | a door line determines its number |
| `Content.GinsGen` | FlailySnail/content/content.py:16-17 | the empty list gives the empty string and only it does; otherwise the output splits on newlines into exactly one line per element, in order, each the door line of that element |
| `Content.GinsGenInjective` | FlailySnail/content/content.py:16-17 | the output determines the list, including length, order and duplicates |

## Behaviour the model keeps as written

In each of these places the model follows the code:

- MudFight's provisional floors are 140 for player 1 and 44 for player 2
  (MudFight/src/main.rs:668, 698), not 0.
- MudFight's enemy y clamp bound is `lh * TILE_SZ * H - h/2`
  (MudFight/src/main.rs:771-774). It multiplies by the view height `H`.
- In MudFight the attack contacts are never gathered (the call at
  MudFight/src/main.rs:859 is commented out), so the attack response always
  receives an empty list and removes nothing.
- In MudFight the attack timer is never raised. After the first attack every
  later one is refused (`AttackNeverRecharges`).
- MudFight's mud test and BrawlingCrocs' door test use the collider from
  before tile resolution.
- BrawlingCrocs and GameEngine clamp the camera with the size of the level
  current at the start of the tick, even after a level switch.
- GameEngine shows the right-facing jump frames whatever the facing
  (GameEngine/src/main.rs:476-485).
- GameEngine's acceleration is fixed at `WALK_ACC`, so the arrow keys only
  turn the player.
- GameEngine's door and camera block, after the stray brace at
  GameEngine/src/main.rs:495, is modelled as its own step (`DoorsAndCamera`).
  It uses the level size as the block starts, where `simulate` took `lw` and
  `lh`.

## Left out

- The `main` functions (event loop, wall-clock accumulator, input polling), audio through rodio, and `std::thread::sleep` are I/O and timing glue.
- Asset loading, textures, the animation frame tables, `render`, `trf` and `sprite_count` are renderer calls and data. So is `AnimationState::sample`/`finished`, because animation.rs is not part of this model.
- geom.rs is not part of this model. `Rect::overlap` is given the interval-intersection reading stated in `Geometry.Overlap`.
- level.rs is not part of this model. A level is a value whose tile query and grid-to-world conversion are opaque functions.
- The keyboard (`is_key_down`, frenderer's `key_axis`) becomes per-tick boolean records; `KeyAxis` is the assumed reading of `key_axis`.
- Random draws are parameters: MudFight's `gen_bool(0.5)` becomes `coins`, and its `gen_range(3.0..5.0)` becomes `rolls`, with the range as a precondition.
- IEEE `f32` rounding is left out, since numbers are reals. `f32::clamp`'s panic is excluded by requiring every level to be at least one tile wide and tall.
- `Animation.AnimationState.Play`, `Animation.AnimationState.Tick`: each `AnimationState` lives inline in one player or enemy and is never shared. The in-place `play`/`tick` updates are therefore functions returning the new state, and there is no aliasing to lose.
- `BrawlingCrocs.Game.constructor`: the three loaded levels (level1, house, shop) are generalised to any non-empty list of well-formed levels.
- `MudFight.Game.Simulate`: the enemy steps run before the players' collision steps, instead of in the source's interleaved order. Nothing in a tick connects enemies to players, and the two players' collision steps are grouped per player for the same reason.
- The GameEngine `enemies` field is used but never declared (GameEngine/src/main.rs:46-53). It is left out, because it is only ever cleared.
- The malformed `.flip_horizontal(), .looped()` at GameEngine/src/main.rs:368-370 belongs to the animation frame tables, which are left out.
- The `u16` door coordinates are `nat`, and the `usize` level indices are `nat`.
- `Player.attackTimer` exists only in MudFight. The other two games carry the field and never change it.
- The top-level obstacle loop of FlailySnail/content/signgen.py:4-8 is random and does not run as written. The `print` calls of both Python files are output.
- `Content.GinsGen`: the `ginsgen` of FlailySnail/content/signgen.py:17-18 walks a set, whose iteration order Python leaves unspecified. It is `GinsGen` on the listing of that set in whatever order Python produces.
