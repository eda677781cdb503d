/** The animation state machine every sprite in the three games carries: which
    animation is showing and how long it has been showing. The frame tables it
    indexes (`Animation::sample`, animation.rs) are not part of this model. */
module Animation {

  /** The animation table keys. MudFight adds the two enemy walks; the other
      games stop at `PlayerLeftAttack` and never use the enemy keys. */
  datatype AnimationKey =
    | Blank
    | PlayerRightIdle | PlayerRightWalk | PlayerRightJumpRise | PlayerRightJumpFall | PlayerRightAttack
    | PlayerLeftIdle | PlayerLeftWalk | PlayerLeftJumpRise | PlayerLeftJumpFall | PlayerLeftAttack
    | EnemyRightWalk | EnemyLeftWalk

  /** `AnimationState`. Each instance lives inline in its player or enemy and is
      never shared, so the in-place updates `play` and `tick` make are modelled
      as functions returning the updated state. */
  datatype AnimationState = AnimationState(animation: AnimationKey, t: real) {

    /** `play`: switch to `anim` and restart the clock, except that asking for
        the animation already showing without `retrigger` changes nothing. */
    function Play(anim: AnimationKey, retrigger: bool): (s: AnimationState)
      ensures s.animation == anim
      ensures anim == animation && !retrigger ==> s == this
      ensures anim != animation || retrigger ==> s.t == 0.0
    {
      if anim == animation && !retrigger then this else AnimationState(anim, 0.0)
    }

    /** `tick`: advance the clock by `dt`, keeping the animation. */
    function Tick(dt: real): (s: AnimationState)
      ensures s.animation == animation && s.t == t + dt
    {
      AnimationState(animation, t + dt)
    }
  }

  /** Playing the same key twice without retrigger is the same as playing it once. */
  lemma PlayIdempotent(s: AnimationState, k: AnimationKey)
    ensures s.Play(k, false).Play(k, false) == s.Play(k, false)
  {
  }

  /** A retriggered play always restarts at time zero, whatever was showing. */
  lemma RetriggerRestarts(s: AnimationState, k: AnimationKey)
    ensures s.Play(k, true) == AnimationState(k, 0.0)
  {
  }

  function Sum(dts: seq<real>): real {
    if |dts| == 0 then 0.0 else dts[0] + Sum(dts[1..])
  }

  /** What each game does once per frame to an animation it wants showing:
      `play(k, false)` followed by `tick(dt)`, over a run of frames. */
  function Hold(s: AnimationState, k: AnimationKey, dts: seq<real>): AnimationState
    decreases |dts|
  {
    if |dts| == 0 then s else Hold(s.Play(k, false).Tick(dts[0]), k, dts[1..])
  }

  /** Holding one key over consecutive frames never restarts it: the clock
      accumulates every frame's `dt`, starting from the old clock when the key
      was already showing and from zero otherwise. */
  lemma {:induction false} HoldAccumulates(s: AnimationState, k: AnimationKey, dts: seq<real>)
    requires |dts| > 0
    ensures Hold(s, k, dts).animation == k
    ensures Hold(s, k, dts).t == (if s.animation == k then s.t else 0.0) + Sum(dts)
    decreases |dts|
  {
    var s1 := s.Play(k, false).Tick(dts[0]);
    if |dts| > 1 {
      HoldAccumulates(s1, k, dts[1..]);
      assert Sum(dts) == dts[0] + Sum(dts[1..]);
    } else {
      assert Sum(dts[1..]) == 0.0;
    }
  }
}
