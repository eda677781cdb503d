/** The door rules BrawlingCrocs and GameEngine share: the door list
    `enter_level` builds from a level's starts, the trigger rectangles, the
    landing spot next to a door's target tile, and what one tick's trigger
    contacts do. A door acts only on the tick its player first touches it
    (`touching_door` was false), only the first contact of the tick is looked
    at, and a door naming a level that does not exist is fatal. */
module Doors {
  import opened Geometry
  import opened Levels
  import opened Contacts
  import opened Physics
  import Camera

  /** What a level start places in these two games. `Door(to, col, row)`
      leads to the tile `(col, row)` of the level named `to`. */
  datatype EntityType = PlayerStart | Door(to: string, col: nat, row: nat)

  /** An entry of `doors`: target level name, target tile, and where the door is. */
  datatype DoorEntry = DoorEntry(to: string, target: (nat, nat), pos: Vec2)

  function EntryOf(s: (EntityType, Vec2)): seq<DoorEntry> {
    match s.0
    case PlayerStart => []
    case Door(to, col, row) => [DoorEntry(to, (col, row), s.1)]
  }

  /** The doors `enter_level` pushes while walking the starts in order. */
  function DoorsOf(starts: seq<(EntityType, Vec2)>): (r: seq<DoorEntry>)
    ensures |r| <= |starts|
    ensures forall d :: d in r ==> (Door(d.to, d.target.0, d.target.1), d.pos) in starts
  {
    if |starts| == 0 then []
    else DoorsOf(starts[..|starts| - 1]) + EntryOf(starts[|starts| - 1])
  }

  /** The door list is built start by start: the doors of a concatenation are
      the doors of each part, in order, so every door start contributes exactly
      one entry in its place and player starts contribute none. */
  lemma {:induction false} DoorsOfConcat(a: seq<(EntityType, Vec2)>, b: seq<(EntityType, Vec2)>)
    ensures DoorsOf(a + b) == DoorsOf(a) + DoorsOf(b)
    decreases |b|
  {
    if |b| == 0 {
      assert a + b == a;
    } else {
      var b0 := b[..|b| - 1];
      assert (a + b)[..|a + b| - 1] == a + b0;
      assert (a + b)[|a + b| - 1] == b[|b| - 1];
      DoorsOfConcat(a, b0);
    }
  }

  lemma DoorsOfSingle(s: (EntityType, Vec2))
    ensures DoorsOf([s]) == EntryOf(s)
  {
    assert [s][..0] == [];
  }

  /** The trigger squares of the doors, in door order. */
  function DoorRects(doors: seq<DoorEntry>): (rs: seq<Rect>)
    ensures |rs| == |doors| && forall i :: 0 <= i < |doors| ==> rs[i] == TriggerRect(doors[i].pos)
  {
    TriggerRects(seq(|doors|, i requires 0 <= i < |doors| => doors[i].pos))
  }

  /** Where a door puts its player: half a tile right of and four units below
      the world position of the target tile. */
  function Landing<E>(level: Level<E>, target: (nat, nat)): (v: Vec2)
    ensures v == level.gridToWorld(target.0, target.1).Plus(Vec2(8.0, -4.0))
  {
    level.gridToWorld(target.0, target.1).Plus(
      Vec2((Camera.TILE_SZ as real) / 2.0, -12.0 + (Camera.TILE_SZ as real) / 2.0))
  }

  /** What the trigger contacts of one tick do. */
  datatype DoorOutcome =
    | Leave                              // no contact: `touching_door` clears
    | Stay                               // still on the door it came through
    | Teleport(pos: Vec2)                // a door into the current level
    | SwitchLevel(dest: nat, pos: Vec2)  // a door into another level
    | InvalidRoom                        // the `expect` on the level lookup fails

  predicate Acts(o: DoorOutcome) {
    o.Teleport? || o.SwitchLevel? || o.InvalidRoom?
  }

  /** The door loop's decision. */
  function DoorDecision(levels: seq<Level<EntityType>>, current: nat, doors: seq<DoorEntry>,
                        touching: bool, triggers: seq<Contact>): (o: DoorOutcome)
    requires current < |levels|
    requires forall c :: c in triggers ==> c.bIndex < |doors|
    ensures o == Leave <==> |triggers| == 0
    ensures Acts(o) <==> Fires(touching, |triggers| > 0)
    ensures Acts(o) ==>
      var door := doors[triggers[0].bIndex];
      var dest := FindLevel(levels, door.to);
      (o.InvalidRoom? <==> dest.None?) &&
      (o.Teleport? <==> dest == Some(current)) &&
      (o.Teleport? ==> o.pos == Landing(levels[current], door.target)) &&
      (o.SwitchLevel? ==> dest == Some(o.dest) && o.dest < |levels| &&
                          o.pos == Landing(levels[o.dest], door.target))
  {
    if |triggers| == 0 then Leave
    else if touching then Stay
    else
      assert triggers[0] in triggers;
      var door := doors[triggers[0].bIndex];
      match FindLevel(levels, door.to)
      case None => InvalidRoom
      case Some(dest) =>
        if dest == current then Teleport(Landing(levels[current], door.target))
        else SwitchLevel(dest, Landing(levels[dest], door.target))
  }

  /** The decision for a player whose collider is `rect`: its trigger
      contacts are the doors whose squares it overlaps, in door order. */
  function DecisionFor(levels: seq<Level<EntityType>>, current: nat, doors: seq<DoorEntry>,
                       touching: bool, rect: Rect): DoorOutcome
    requires current < |levels|
  {
    PairContactsSound([rect], DoorRects(doors), 1);
    DoorDecision(levels, current, doors, touching, PairContacts([rect], DoorRects(doors), 1))
  }

  /** At most one door acts per tick: only the first contact is looked at. */
  lemma OnlyFirstContactMatters(levels: seq<Level<EntityType>>, current: nat, doors: seq<DoorEntry>,
                                touching: bool, t1: seq<Contact>, t2: seq<Contact>)
    requires current < |levels|
    requires forall c :: c in t1 ==> c.bIndex < |doors|
    requires forall c :: c in t2 ==> c.bIndex < |doors|
    requires |t1| > 0 && |t2| > 0 && t1[0].bIndex == t2[0].bIndex
    ensures DoorDecision(levels, current, doors, touching, t1) == DoorDecision(levels, current, doors, touching, t2)
  {
  }

  /** The door-using player after the decision. */
  function DoorPlayer(o: DoorOutcome, p: Player): (q: Player)
    ensures o == Leave ==> q == p.(touching := false)
    ensures o == Stay ==> q == p
    ensures o.Teleport? || o.SwitchLevel? ==> q == p.(touching := true, pos := o.pos)
  {
    match o
    case Leave => p.(touching := false)
    case Stay => p
    case Teleport(pos) => p.(touching := true, pos := pos)
    case SwitchLevel(_, pos) => p.(touching := true, pos := pos)
    case InvalidRoom => p.(touching := true)
  }

  /** Afterwards `touching_door` says exactly whether the player touches a door
      this tick. */
  lemma TouchingFollowsContact(levels: seq<Level<EntityType>>, current: nat, doors: seq<DoorEntry>,
                               p: Player, triggers: seq<Contact>)
    requires current < |levels|
    requires forall c :: c in triggers ==> c.bIndex < |doors|
    ensures DoorPlayer(DoorDecision(levels, current, doors, p.touching, triggers), p).touching == (|triggers| > 0)
  {
  }

  /** A teleport or a level switch leaves the player where `enter_level` or
      the teleport put it: on the landing spot of the target tile, in the level
      that is current afterwards. */
  lemma DoorLandsOnTarget(levels: seq<Level<EntityType>>, current: nat, doors: seq<DoorEntry>,
                          p: Player, triggers: seq<Contact>)
    requires current < |levels|
    requires forall c :: c in triggers ==> c.bIndex < |doors|
    requires |triggers| > 0 && !p.touching
    requires FindLevel(levels, doors[triggers[0].bIndex].to).Some?
    ensures var o := DoorDecision(levels, current, doors, p.touching, triggers);
      var dest := FindLevel(levels, doors[triggers[0].bIndex].to).value;
      (o.Teleport? || o.SwitchLevel?) &&
      DoorPlayer(o, p).pos == Landing(levels[dest], doors[triggers[0].bIndex].target)
  {
  }

  /** The current level after the decision: only a level switch changes it. */
  function DoorLevel(o: DoorOutcome, current: nat): nat {
    if o.SwitchLevel? then o.dest else current
  }

  /** The door list after the decision: a level switch runs `enter_level`,
      which rebuilds it from the new level's starts. */
  function DoorsAfter(o: DoorOutcome, levels: seq<Level<EntityType>>, doors: seq<DoorEntry>): seq<DoorEntry> {
    if o.SwitchLevel? && o.dest < |levels| then DoorsOf(levels[o.dest].starts) else doors
  }
}
