/** The firing rules of Player.shoot: the shot streak with its 600 ms gap
    reset, the single straight or curving shot, and the three-projectile
    scatter fired while exactly one horizontal direction is held. */
module Firing {
  import opened Geometry
  import opened Entities

  const StreakGap: real := 600.0     // milliseconds
  const CurveThreshold: nat := 3
  const SpreadCount: nat := 3
  const SpreadSpacing: real := 14.0  // pixels between scatter projectiles
  const SpreadRange: real := 0.95    // radians covered by candidate angles
  const MinSeparation: real := 0.2   // radians

  function Abs(x: real): real { if x < 0.0 then -x else x }

  predicate AllUnit(draws: seq<real>)
  {
    forall i :: 0 <= i < |draws| ==> UnitDraw(draws[i])
  }

  /** A candidate angle from one random number: uniform in [-0.475, 0.475). */
  function Candidate(draw: real): (a: real)
    requires UnitDraw(draw)
    ensures -SpreadRange / 2.0 <= a < SpreadRange / 2.0
  {
    (draw - 0.5) * SpreadRange
  }

  predicate FarFromAll(angles: seq<real>, c: real)
  {
    forall i :: 0 <= i < |angles| ==> Abs(angles[i] - c) > MinSeparation
  }

  /** At most three angles, each in range, every pair more than 0.2 apart. */
  predicate WellSpread(angles: seq<real>)
  {
    |angles| <= SpreadCount &&
    (forall i :: 0 <= i < |angles| ==> -SpreadRange / 2.0 <= angles[i] < SpreadRange / 2.0) &&
    (forall i, j :: 0 <= i < j < |angles| ==> Abs(angles[i] - angles[j]) > MinSeparation)
  }

  /** Keeping a candidate that is far from every kept angle keeps the set well spread. */
  lemma KeepCandidate(acc: seq<real>, c: real)
    requires WellSpread(acc) && |acc| < SpreadCount && FarFromAll(acc, c)
    requires -SpreadRange / 2.0 <= c < SpreadRange / 2.0
    ensures WellSpread(acc + [c])
  {
    var r := acc + [c];
    forall i, j | 0 <= i < j < |r| ensures Abs(r[i] - r[j]) > MinSeparation {
      if j == |acc| {
        assert r[i] == acc[i] && r[j] == c;
      } else {
        assert r[i] == acc[i] && r[j] == acc[j];
      }
    }
  }

  /** One step of the sampling: the accepted angles after looking at one more draw. */
  function Consider(acc: seq<real>, draw: real): (r: seq<real>)
    requires WellSpread(acc) && |acc| < SpreadCount && UnitDraw(draw)
    ensures WellSpread(r)
    ensures FarFromAll(acc, Candidate(draw)) ==> r == acc + [Candidate(draw)]
    ensures !FarFromAll(acc, Candidate(draw)) ==> r == acc
  {
    var c := Candidate(draw);
    if FarFromAll(acc, c) then KeepCandidate(acc, c); acc + [c] else acc
  }

  /** The rejection sampling of the spread angles, consuming `draws` from
      the front: a candidate is kept only when it is far from every angle
      kept so far, until three are kept or the draws run out. */
  function SpreadAngles(draws: seq<real>, acc: seq<real>): (r: seq<real>)
    requires AllUnit(draws) && WellSpread(acc)
    ensures WellSpread(r)
    ensures acc <= r
    ensures |r| < SpreadCount ==> |r| - |acc| <= |draws|
    decreases |draws|
  {
    if |acc| >= SpreadCount || draws == [] then acc
    else SpreadAngles(draws[1..], Consider(acc, draws[0]))
  }

  /** Looking at the draw at index i is the first step of sampling from i. */
  lemma SpreadStep(draws: seq<real>, i: nat, acc: seq<real>)
    requires AllUnit(draws) && WellSpread(acc) && i < |draws| && |acc| < SpreadCount
    ensures AllUnit(draws[i + 1..]) && AllUnit(draws[i..])
    ensures SpreadAngles(draws[i..], acc) == SpreadAngles(draws[i + 1..], Consider(acc, draws[i]))
  {
    assert draws[i..][1..] == draws[i + 1..];
    assert draws[i..][0] == draws[i];
  }

  /** A candidate too close to some kept angle stays too close once more
      angles are kept. */
  lemma CloseStaysClose(acc: seq<real>, r: seq<real>, c: real)
    requires acc <= r && !FarFromAll(acc, c)
    ensures !FarFromAll(r, c)
  {
    var j :| 0 <= j < |acc| && Abs(acc[j] - c) <= MinSeparation;
    assert r[j] == acc[j];
  }

  /** Nothing acceptable is thrown away: when fewer than three angles come
      out, every draw's candidate is within 0.2 of some angle kept, so
      sampling stopped only because the draws ran out. */
  lemma {:induction false} SpreadAnglesExhaustive(draws: seq<real>, acc: seq<real>)
    requires AllUnit(draws) && WellSpread(acc)
    ensures var r := SpreadAngles(draws, acc);
      |r| < SpreadCount ==> forall i :: 0 <= i < |draws| ==> !FarFromAll(r, Candidate(draws[i]))
    decreases |draws|
  {
    var r := SpreadAngles(draws, acc);
    if |acc| < SpreadCount && draws != [] && |r| < SpreadCount {
      var next := Consider(acc, draws[0]);
      assert AllUnit(draws[1..]) by {
        forall i | 0 <= i < |draws[1..]| ensures UnitDraw(draws[1..][i]) {
          assert draws[1..][i] == draws[i + 1];
        }
      }
      assert r == SpreadAngles(draws[1..], next);
      SpreadAnglesExhaustive(draws[1..], next);
      forall i | 0 <= i < |draws| ensures !FarFromAll(r, Candidate(draws[i])) {
        if i == 0 {
          var c := Candidate(draws[0]);
          if FarFromAll(acc, c) {
            assert next[|acc|] == c && r[|acc|] == c;
            assert Abs(r[|acc|] - c) == 0.0;
          } else {
            CloseStaysClose(acc, r, c);
          }
        } else {
          assert draws[i] == draws[1..][i - 1];
        }
      }
    }
  }

  /** The sampling loop of Player.shoot. The source loops until it has three
      angles; here the random numbers are given, so the loop also stops when
      they run out. */
  method SampleSpreadAngles(draws: seq<real>) returns (angles: seq<real>)
    requires AllUnit(draws)
    ensures angles == SpreadAngles(draws, [])
    ensures WellSpread(angles)
  {
    angles := [];
    var i := 0;
    while |angles| < SpreadCount && i < |draws|
      invariant 0 <= i <= |draws|
      invariant WellSpread(angles)
      invariant SpreadAngles(draws[i..], angles) == SpreadAngles(draws, [])
    {
      SpreadStep(draws, i, angles);
      ghost var next := Consider(angles, draws[i]);
      var candidate := Candidate(draws[i]);
      if FarFromAll(angles, candidate) {
        angles := angles + [candidate];
      }
      assert angles == next;
      i := i + 1;
    }
  }

  /** The audio mode of a shot. */
  datatype Sound = SpreadSound | CurveSound | NormalSound

  /** What one trigger pull produces: the new projectiles, the new streak
      counter and the audio mode. */
  datatype Volley = Volley(bullets: seq<Bullet>, streak: nat, sound: Sound)

  /** The streak in force when a shot is fired: reset by a pause of more
      than 600 ms since the previous shot. */
  function StreakAtShot(streak: nat, lastShot: real, now: real): (n: nat)
    ensures n <= streak
    ensures n == 0 <==> streak == 0 || now - lastShot > StreakGap
    ensures n != 0 ==> n == streak
  {
    if now - lastShot > StreakGap then 0 else streak
  }

  // Where projectiles leave the craft: centred on it, a little above its top.
  function MuzzleX(px: real): real { px + PlayerWidth / 2.0 - BulletWidth / 2.0 }
  function MuzzleY(py: real): real { py - BulletHeight * 0.2 }

  /** The scatter: one projectile per angle, 14 pixels apart, the middle
      one at the muzzle. */
  function Scatter(mx: real, my: real, angles: seq<real>, turn: int, streak: nat): (bs: seq<Bullet>)
    requires |angles| == SpreadCount
    ensures |bs| == SpreadCount
    ensures forall i :: 0 <= i < SpreadCount ==>
      bs[i] == NewBullet(mx + (i as real - 1.0) * SpreadSpacing, my, Mist(angles[i], turn), streak)
  {
    seq(SpreadCount, i requires 0 <= i < SpreadCount =>
      NewBullet(mx + (i as real - 1.0) * SpreadSpacing, my, Mist(angles[i], turn), streak))
  }

  /** Player.shoot. With exactly one horizontal direction held (`moveDir`
      is +1 or -1) it fires a scatter of three; otherwise one projectile,
      curving on every third shot of a streak. */
  function Fire(px: real, py: real, streak: nat, lastShot: real, now: real, moveDir: int, angles: seq<real>): (v: Volley)
    requires moveDir != 0 ==> |angles| == SpreadCount
    ensures v.streak < CurveThreshold
    ensures moveDir != 0 ==>
      |v.bullets| == SpreadCount && v.streak == 0 && v.sound == SpreadSound &&
      forall i :: 0 <= i < SpreadCount ==>
        v.bullets[i].shot == Mist(angles[i], if moveDir > 0 then 1 else -1) &&
        v.bullets[i].box.x == MuzzleX(px) + (i as real - 1.0) * SpreadSpacing &&
        v.bullets[i].box.y == MuzzleY(py) &&
        v.bullets[i].streak == StreakAtShot(streak, lastShot, now) && v.bullets[i].age == 0
    ensures moveDir == 0 ==>
      var n := StreakAtShot(streak, lastShot, now) + 1;
      |v.bullets| == 1 &&
      v.bullets[0].shot == (if n >= CurveThreshold then Curving else Straight) &&
      v.bullets[0].box.x == MuzzleX(px) && v.bullets[0].box.y == MuzzleY(py) &&
      v.bullets[0].streak == n && v.bullets[0].age == 0 &&
      v.streak == (if n >= CurveThreshold then 0 else n) &&
      v.sound == (if n >= CurveThreshold then CurveSound else NormalSound)
  {
    var s := StreakAtShot(streak, lastShot, now);
    var mx := MuzzleX(px);
    var my := MuzzleY(py);
    if moveDir != 0 then
      var turn := if moveDir > 0 then 1 else -1;
      Volley(Scatter(mx, my, angles, turn, s), 0, SpreadSound)
    else
      var n := s + 1;
      var curve := n >= CurveThreshold;
      Volley([NewBullet(mx, my, if curve then Curving else Straight, n)],
             if curve then 0 else n,
             if curve then CurveSound else NormalSound)
  }

  /** Three shots with no horizontal key held, each within 600 ms of the
      previous one, starting from a fresh streak: straight, straight, then a
      curving shot that resets the streak. */
  lemma ThreeQuickShots(px: real, py: real, streak: nat, last: real, t1: real, t2: real, t3: real, angles: seq<real>)
    requires streak == 0 || t1 - last > StreakGap
    requires t2 - t1 <= StreakGap && t3 - t2 <= StreakGap
    ensures var v1 := Fire(px, py, streak, last, t1, 0, angles);
            var v2 := Fire(px, py, v1.streak, t1, t2, 0, angles);
            var v3 := Fire(px, py, v2.streak, t2, t3, 0, angles);
            v1.bullets[0].shot == Straight && v2.bullets[0].shot == Straight &&
            v3.bullets[0].shot == Curving && v3.streak == 0 &&
            v1.sound == NormalSound && v2.sound == NormalSound && v3.sound == CurveSound
  {
  }

  /** After a pause longer than 600 ms the next plain shot is always the
      first of a new streak. */
  lemma PauseRestartsStreak(px: real, py: real, streak: nat, last: real, now: real, angles: seq<real>)
    requires now - last > StreakGap
    ensures Fire(px, py, streak, last, now, 0, angles).streak == 1
    ensures Fire(px, py, streak, last, now, 0, angles).bullets[0].shot == Straight
  {
  }
}
