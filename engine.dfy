/** The vertical "engine aura": holding exactly one of up/down for 280 ms
    shows a glow around the craft and starts an engine hum; changing or
    releasing the direction hides it again. */
module Engine {

  const ActivationDelay: real := 280.0  // milliseconds

  /** The vertical direction being tracked; `Still` is the source's `null`. */
  datatype Heading = Still | Up | Down

  /** The `verticalMovement` record together with whether the engine hum is
      playing (the sound manager holds a running hum or not). */
  datatype Aura = Aura(heading: Heading, startedAt: real, isActive: bool, hum: bool)

  /** What the page provides, fixed for its lifetime: the overlay layer the
      aura element is placed in, and a Web Audio context. */
  datatype Env = Env(hasAuraLayer: bool, hasAudio: bool)

  /** The state of a fresh game. */
  const Idle: Aura := Aura(Still, 0.0, false, false)

  /** Up and down held together count as no direction. */
  function HeldHeading(up: bool, down: bool): (h: Heading)
    ensures h == Up <==> up && !down
    ensures h == Down <==> down && !up
    ensures h == Still <==> up == down
  {
    if up && !down then Up else if down && !up then Down else Still
  }

  /** The aura is shown only while a direction is tracked and the page has
      the layer for it; a released direction keeps no start time; the hum
      plays exactly while the aura is shown, when there is audio. */
  predicate Consistent(a: Aura, env: Env)
  {
    (a.isActive ==> a.heading != Still && env.hasAuraLayer) &&
    (a.heading == Still ==> a.startedAt == 0.0) &&
    (a.hum <==> a.isActive && env.hasAudio)
  }

  /** activateEngineAura: nothing happens when the aura is already shown or
      the page has no layer for it; otherwise it is shown and the hum is
      started if audio exists (starting a hum that plays is a no-op). */
  function Activate(a: Aura, env: Env): (r: Aura)
    ensures a.isActive || !env.hasAuraLayer ==> r == a
    ensures !a.isActive && env.hasAuraLayer ==>
      r.isActive && (r.hum <==> a.hum || env.hasAudio)
    ensures r.heading == a.heading && r.startedAt == a.startedAt
  {
    if a.isActive || !env.hasAuraLayer then a
    else a.(isActive := true, hum := a.hum || env.hasAudio)
  }

  /** deactivateEngineAura: nothing happens when the aura is not shown;
      otherwise it is hidden and the hum is stopped if audio exists. */
  function Deactivate(a: Aura, env: Env): (r: Aura)
    ensures !a.isActive ==> r == a
    ensures a.isActive ==> !r.isActive && (env.hasAudio ==> !r.hum) && (!env.hasAudio ==> r.hum == a.hum)
    ensures r.heading == a.heading && r.startedAt == a.startedAt
  {
    if !a.isActive then a
    else a.(isActive := false, hum := if env.hasAudio then false else a.hum)
  }

  lemma ActivateIdempotent(a: Aura, env: Env)
    ensures Activate(Activate(a, env), env) == Activate(a, env)
    ensures Consistent(a, env) && a.heading != Still ==> Consistent(Activate(a, env), env)
  {
  }

  lemma DeactivateIdempotent(a: Aura, env: Env)
    ensures Deactivate(Deactivate(a, env), env) == Deactivate(a, env)
    ensures Consistent(a, env) ==> Consistent(Deactivate(a, env), env) && !Deactivate(a, env).hum
  {
  }

  /** updateVerticalMovementEffect at time `t`, with the up and down keys as
      given. A new direction restarts the timer at `t` and hides the aura; the
      same direction shows it once it has been held 280 ms; no direction
      hides it and forgets the start time. */
  function UpdateVertical(a: Aura, up: bool, down: bool, t: real, env: Env): (r: Aura)
    ensures r.heading == HeldHeading(up, down)
    ensures r.isActive <==>
      r.heading != Still && r.heading == a.heading &&
      (a.isActive || (t - a.startedAt >= ActivationDelay && env.hasAuraLayer))
    ensures r.heading == Still ==> r.startedAt == 0.0
    ensures r.heading != Still && r.heading != a.heading ==> r.startedAt == t
    ensures r.heading != Still && r.heading == a.heading ==> r.startedAt == a.startedAt
    ensures Consistent(a, env) ==> Consistent(r, env)
  {
    var next := HeldHeading(up, down);
    if next != Still then
      if a.heading != next then
        var b := if a.isActive then Deactivate(a, env) else a;
        b.(heading := next, startedAt := t, isActive := false)
      else if !a.isActive && t - a.startedAt >= ActivationDelay then
        Activate(a, env)
      else
        a
    else
      var b := if a.isActive then Deactivate(a, env) else a;
      b.(heading := Still, startedAt := 0.0)
  }

  predicate Nondecreasing(ts: seq<real>)
  {
    forall i, j :: 0 <= i <= j < |ts| ==> ts[i] <= ts[j]
  }

  /** One update per frame, at the given timestamps, with the keys unchanged. */
  function Hold(a: Aura, up: bool, down: bool, ts: seq<real>, env: Env): Aura
    decreases |ts|
  {
    if ts == [] then a else Hold(UpdateVertical(a, up, down, ts[0], env), up, down, ts[1..], env)
  }

  /** Holding the tracked direction keeps its start time, and the aura is
      shown once some frame comes 280 ms after the start. */
  lemma {:induction false} HoldSame(a: Aura, up: bool, down: bool, ts: seq<real>, env: Env)
    requires HeldHeading(up, down) != Still && a.heading == HeldHeading(up, down)
    requires Nondecreasing(ts)
    ensures Hold(a, up, down, ts, env).heading == a.heading
    ensures Hold(a, up, down, ts, env).startedAt == a.startedAt
    ensures Hold(a, up, down, ts, env).isActive <==>
      a.isActive || (env.hasAuraLayer && ts != [] && ts[|ts| - 1] - a.startedAt >= ActivationDelay)
    decreases |ts|
  {
    if ts != [] {
      var b := UpdateVertical(a, up, down, ts[0], env);
      var rest := ts[1..];
      assert Nondecreasing(rest) by {
        forall i, j | 0 <= i <= j < |rest| ensures rest[i] <= rest[j] {
          assert rest[i] == ts[i + 1] && rest[j] == ts[j + 1];
        }
      }
      HoldSame(b, up, down, rest, env);
      assert ts[0] <= ts[|ts| - 1];
      if rest != [] {
        assert rest[|rest| - 1] == ts[|ts| - 1];
      }
    }
  }

  /** A direction pressed at ts[0] and held through the later frames shows
      the aura exactly when the last frame is at least 280 ms after the
      press and the page has the layer for it; the hum then plays iff there
      is audio. */
  lemma HoldRun(a: Aura, up: bool, down: bool, ts: seq<real>, env: Env)
    requires HeldHeading(up, down) != Still && a.heading != HeldHeading(up, down)
    requires Consistent(a, env)
    requires ts != [] && Nondecreasing(ts)
    ensures Hold(a, up, down, ts, env).isActive <==>
      env.hasAuraLayer && ts[|ts| - 1] - ts[0] >= ActivationDelay
    ensures Hold(a, up, down, ts, env).hum <==>
      env.hasAuraLayer && env.hasAudio && ts[|ts| - 1] - ts[0] >= ActivationDelay
  {
    var b := UpdateVertical(a, up, down, ts[0], env);
    var rest := ts[1..];
    assert Nondecreasing(rest) by {
      forall i, j | 0 <= i <= j < |rest| ensures rest[i] <= rest[j] {
        assert rest[i] == ts[i + 1] && rest[j] == ts[j + 1];
      }
    }
    HoldSame(b, up, down, rest, env);
    HoldConsistent(b, up, down, rest, env);
    if rest != [] {
      assert rest[|rest| - 1] == ts[|ts| - 1];
    }
  }

  lemma {:induction false} HoldConsistent(a: Aura, up: bool, down: bool, ts: seq<real>, env: Env)
    requires Consistent(a, env)
    ensures Consistent(Hold(a, up, down, ts, env), env)
    decreases |ts|
  {
    if ts != [] {
      HoldConsistent(UpdateVertical(a, up, down, ts[0], env), up, down, ts[1..], env);
    }
  }

  /** Releasing both keys always hides the aura, silences the hum and
      forgets the start time. */
  lemma ReleaseResets(a: Aura, t: real, env: Env)
    requires Consistent(a, env)
    ensures UpdateVertical(a, false, false, t, env) == Idle
  {
  }
}
