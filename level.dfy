/** The level collaborator (level.rs, not part of this model), seen only through
    the interface the games use: a name, a size in tiles, a tile query, the
    grid-to-world conversion and the list of entity start points. The type of
    a start's kind `E` is each game's own `EntityType`. */
module Levels {
  import opened Geometry

  datatype TileData = TileData(solid: bool)

  datatype Level<E> = Level(
    name: string,
    width: nat,
    height: nat,
    tilesWithin: Rect -> seq<(Rect, TileData)>,
    gridToWorld: (nat, nat) -> Vec2,
    starts: seq<(E, Vec2)>)

  /** A level at least one tile wide and tall: the bounds every f32 clamp in the
      games is taken against are then ordered. */
  predicate WellFormed<E>(l: Level<E>) {
    l.width >= 1 && l.height >= 1
  }

  predicate AllWellFormed<E>(levels: seq<Level<E>>) {
    forall i :: 0 <= i < |levels| ==> WellFormed(levels[i])
  }

  /** `levels.iter().position(|l| l.name() == name)`: the first level carrying `name`. */
  function FindLevel<E>(levels: seq<Level<E>>, name: string): (r: Option<nat>)
    ensures r.Some? ==> r.value < |levels| && levels[r.value].name == name
    ensures r.Some? ==> forall j :: 0 <= j < r.value ==> levels[j].name != name
    ensures r.None? <==> forall j :: 0 <= j < |levels| ==> levels[j].name != name
  {
    FindFrom(levels, name, 0)
  }

  function FindFrom<E>(levels: seq<Level<E>>, name: string, i: nat): (r: Option<nat>)
    requires i <= |levels|
    requires forall j :: 0 <= j < i ==> levels[j].name != name
    ensures r.Some? ==> i <= r.value < |levels| && levels[r.value].name == name
    ensures r.Some? ==> forall j :: 0 <= j < r.value ==> levels[j].name != name
    ensures r.None? <==> forall j :: 0 <= j < |levels| ==> levels[j].name != name
    decreases |levels| - i
  {
    if i == |levels| then None
    else if levels[i].name == name then Some(i)
    else FindFrom(levels, name, i + 1)
  }

  /** `starts().iter().find(|(t, _)| *t == kind)`: the position of the first
      start of that kind, if any. */
  function FirstStart<E(==)>(starts: seq<(E, Vec2)>, kind: E): (r: Option<Vec2>)
    ensures r.Some? ==> exists i :: 0 <= i < |starts| && starts[i] == (kind, r.value) &&
                                    forall j :: 0 <= j < i ==> starts[j].0 != kind
    ensures r.None? <==> forall i :: 0 <= i < |starts| ==> starts[i].0 != kind
  {
    if |starts| == 0 then None
    else if starts[0].0 == kind then
      assert starts[0] == (kind, starts[0].1);
      Some(starts[0].1)
    else
      var rest := FirstStart(starts[1..], kind);
      if rest.Some? then
        var i :| 0 <= i < |starts[1..]| && starts[1..][i] == (kind, rest.value) &&
                 forall j :: 0 <= j < i ==> starts[1..][j].0 != kind;
        assert starts[i + 1] == (kind, rest.value);
        assert forall j :: 0 <= j < i + 1 ==> starts[j].0 != kind by {
          forall j | 0 <= j < i + 1 ensures starts[j].0 != kind {
            if j > 0 { assert starts[j] == starts[1..][j - 1]; }
          }
        }
        rest
      else rest
  }
}
