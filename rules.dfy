/** The rules of one game session as functions on a snapshot of the game
    state: what a tick, a shot, a key event, a player hit, game over and a
    restart do. The `Session` module runs the same steps in place. */
module Rules {
  import opened Geometry
  import opened Input
  import opened Entities
  import opened Ship
  import opened Firing
  import opened Engine

  /** gameState together with the player's position and the aura/hum state. */
  datatype State = State(
    running: bool,
    score: int,
    hits: nat,
    bullets: seq<Bullet>,
    enemies: seq<Enemy>,
    keys: Keys,
    streak: nat,
    lastShot: real,
    px: real,
    py: real,
    aura: Aura)

  function ShipBox(s: State): Rect
  {
    Rect(s.px, s.py, PlayerWidth, PlayerHeight)
  }

  /** The state initGame builds: running, nothing on the field, the craft
      at (375, 530), no keys held. */
  const Start: State := State(true, 0, 0, [], [], map[], 0, 0.0, 375.0, 530.0, Idle)

  /** What every reachable state satisfies: the craft is on the field, the
      streak is below 3, the score is a multiple of 10, the game runs
      exactly while fewer than six hits were taken, and the aura is
      consistent. */
  predicate Inv(s: State, env: Env)
  {
    0.0 <= s.px <= FieldWidth - PlayerWidth && 0.0 <= s.py <= FieldHeight - PlayerHeight &&
    s.streak < CurveThreshold &&
    s.score >= 0 && s.score % 10 == 0 &&
    s.hits <= MaxHits && (s.running <==> s.hits < MaxHits) &&
    Consistent(s.aura, env)
  }

  lemma StartSatisfiesInv(env: Env)
    ensures Inv(Start, env)
  {
  }

  /** Array.prototype.splice(k, 1): the element at k goes, the rest keep their order. */
  function Remove<T>(xs: seq<T>, k: nat): (r: seq<T>)
    requires k < |xs|
    ensures |r| == |xs| - 1
    ensures forall i :: 0 <= i < k ==> r[i] == xs[i]
    ensures forall i :: k <= i < |r| ==> r[i] == xs[i + 1]
  {
    xs[..k] + xs[k + 1..]
  }

  lemma RemoveKeepsOthers<T>(xs: seq<T>, k: nat, x: T)
    requires k < |xs|
    ensures x in Remove(xs, k) ==> x in xs
  {
    if x in Remove(xs, k) {
      var i :| 0 <= i < |Remove(xs, k)| && Remove(xs, k)[i] == x;
      if i < k { assert xs[i] == x; } else { assert xs[i + 1] == x; }
    }
  }

  // ---- Input events -------------------------------------------------------

  /** Player.move applied to the snapshot. */
  function MovePlayer(s: State): (r: State)
    ensures r == s.(px := r.px, py := r.py)
    ensures r.px == AxisStep(s.px, LeftHeld(s.keys), RightHeld(s.keys), FieldWidth - PlayerWidth, PlayerSpeed)
    ensures r.py == AxisStep(s.py, UpHeld(s.keys), DownHeld(s.keys), FieldHeight - PlayerHeight, PlayerSpeed)
  {
    s.(px := AxisStep(s.px, LeftHeld(s.keys), RightHeld(s.keys), FieldWidth - PlayerWidth, PlayerSpeed),
       py := AxisStep(s.py, UpHeld(s.keys), DownHeld(s.keys), FieldHeight - PlayerHeight, PlayerSpeed))
  }

  /** Player.shoot at time `now`, with `angles` the accepted scatter angles.
      The new projectiles go to the end of the list. */
  function Shoot(s: State, now: real, angles: seq<real>): (r: State)
    requires MoveDirection(s.keys) != 0 ==> |angles| == SpreadCount
    ensures r.lastShot == now && r.streak < CurveThreshold
    ensures |s.bullets| < |r.bullets| && r.bullets[..|s.bullets|] == s.bullets
    ensures MoveDirection(s.keys) != 0 <==> |r.bullets| == |s.bullets| + SpreadCount
    ensures MoveDirection(s.keys) == 0 <==> |r.bullets| == |s.bullets| + 1
    ensures r == s.(bullets := r.bullets, streak := r.streak, lastShot := r.lastShot)
  {
    var v := Fire(s.px, s.py, s.streak, s.lastShot, now, MoveDirection(s.keys), angles);
    s.(bullets := s.bullets + v.bullets, streak := v.streak, lastShot := now)
  }

  /** Shoot with one horizontal direction held, written out for the
      in-place version. */
  lemma ShootScatter(s: State, now: real, angles: seq<real>)
    requires MoveDirection(s.keys) != 0 && |angles| == SpreadCount
    ensures var n := StreakAtShot(s.streak, s.lastShot, now);
      Shoot(s, now, angles) ==
        s.(bullets := s.bullets + Scatter(MuzzleX(s.px), MuzzleY(s.py), angles, if MoveDirection(s.keys) > 0 then 1 else -1, n),
           streak := 0, lastShot := now)
  {
  }

  /** Shoot with no horizontal direction held, written out for the in-place
      version. */
  lemma ShootSingle(s: State, now: real, angles: seq<real>)
    requires MoveDirection(s.keys) == 0
    ensures var n := StreakAtShot(s.streak, s.lastShot, now) + 1;
      Shoot(s, now, angles) ==
        s.(bullets := s.bullets + [NewBullet(MuzzleX(s.px), MuzzleY(s.py), if n >= CurveThreshold then Curving else Straight, n)],
           streak := if n >= CurveThreshold then 0 else n, lastShot := now)
  {
  }

  /** The keydown listener: the key is recorded as held; the space bar
      fires while the game runs. */
  function KeyDown(s: State, key: string, now: real, angles: seq<real>): (r: State)
    requires key == " " && s.running && MoveDirection(s.keys) != 0 ==> |angles| == SpreadCount
    ensures Pressed(r.keys, key)
    ensures forall k :: k != key ==> (k in r.keys <==> k in s.keys)
    ensures forall k :: k != key && k in r.keys ==> r.keys[k] == s.keys[k]
    ensures key != " " || !s.running ==> r == s.(keys := r.keys)
    ensures key == " " && s.running ==> |r.bullets| > |s.bullets| && r.lastShot == now
    ensures key == " " && s.running ==> r == Shoot(s.(keys := s.keys[key := true]), now, angles)
  {
    var s1 := s.(keys := s.keys[key := true]);
    if key == " " && s.running then
      assert LeftHeld(s1.keys) == LeftHeld(s.keys) && RightHeld(s1.keys) == RightHeld(s.keys) by {
        assert key != "ArrowLeft" && key != "a" && key != "ArrowRight" && key != "d";
      }
      Shoot(s1, now, angles)
    else s1
  }

  /** The keyup listener stores `false` rather than deleting the key. */
  function KeyUp(s: State, key: string): (r: State)
    ensures key in r.keys && !Pressed(r.keys, key)
    ensures forall k :: k != key ==> (k in r.keys <==> k in s.keys)
    ensures forall k :: k != key && k in r.keys ==> r.keys[k] == s.keys[k]
    ensures r == s.(keys := r.keys)
  {
    s.(keys := s.keys[key := false])
  }

  /** gameOver: the game stops, the aura is hidden and the on-screen
      controls release their arrows. */
  function GameOver(s: State, env: Env): (r: State)
    ensures !r.running && !r.aura.isActive
    ensures forall k :: k in ArrowKeys ==> !Pressed(r.keys, k)
    ensures r == s.(running := false, aura := r.aura, keys := r.keys)
    ensures Consistent(s.aura, env) ==> Consistent(r.aura, env) && !r.aura.hum
    ensures r.keys == ReleaseArrows(s.keys) && r.aura == Deactivate(s.aura, env)
  {
    s.(running := false, aura := Deactivate(s.aura, env), keys := ReleaseArrows(s.keys))
  }

  /** handlePlayerCollision: ignored once the game has stopped; otherwise
      one more hit is counted, the obstacle at `idx` (when it names one) is
      removed, and the sixth hit ends the game. */
  function HandleHit(s: State, idx: int, env: Env): (r: State)
    ensures !s.running ==> r == s
    ensures s.running ==> r.hits == s.hits + 1
    ensures s.running ==> (r.running <==> s.hits + 1 < MaxHits)
    ensures s.running && 0 <= idx < |s.enemies| ==> r.enemies == s.enemies[..idx] + s.enemies[idx + 1..]
    ensures s.running && !(0 <= idx < |s.enemies|) ==> r.enemies == s.enemies
    ensures r.score == s.score && r.bullets == s.bullets && r.px == s.px && r.py == s.py
    ensures r.streak == s.streak && r.lastShot == s.lastShot
    ensures r.running ==> r.keys == s.keys && r.aura == s.aura
    ensures s.running && !r.running ==> !r.aura.isActive && forall k :: k in ArrowKeys ==> !Pressed(r.keys, k)
    ensures s.running && !r.running ==> r.keys == ReleaseArrows(s.keys) && r.aura == Deactivate(s.aura, env)
  {
    if !s.running then s
    else
      var s1 := s.(hits := s.hits + 1,
                   enemies := if 0 <= idx < |s.enemies| then Remove(s.enemies, idx) else s.enemies);
      if s1.hits >= MaxHits then GameOver(s1, env) else s1
  }

  /** `n` successive hits that name no obstacle. */
  function HitN(s: State, n: nat, env: Env): State
  {
    if n == 0 then s else HandleHit(HitN(s, n - 1, env), -1, env)
  }

  /** From a fresh game, five hits leave it running and the sixth ends it;
      further hits are ignored. */
  lemma {:induction false} SixthHitEndsGame(n: nat, env: Env)
    ensures HitN(Start, n, env).running <==> n < MaxHits
    ensures HitN(Start, n, env).hits == if n < MaxHits then n else MaxHits
  {
    if n > 0 {
      SixthHitEndsGame(n - 1, env);
    }
  }

  // ---- The per-tick pass --------------------------------------------------

  /** The projectile loop of gameLoop: every projectile moves by its
      velocity, and those now off screen are dropped; the others keep
      their order. */
  function Survivors(bs: seq<Bullet>, vels: seq<Velocity>): (r: seq<Bullet>)
    requires |vels| == |bs|
    ensures |r| <= |bs|
    ensures forall i :: 0 <= i < |r| ==> !BulletOffScreen(r[i])
    ensures forall i :: 0 <= i < |bs| && !BulletOffScreen(Advance(bs[i], vels[i])) ==> Advance(bs[i], vels[i]) in r
    decreases |bs|
  {
    if bs == [] then []
    else
      var b := Advance(bs[0], vels[0]);
      var rest := Survivors(bs[1..], vels[1..]);
      assert forall i :: 1 <= i < |bs| ==> bs[i] == bs[1..][i - 1] && vels[i] == vels[1..][i - 1];
      (if BulletOffScreen(b) then [] else [b]) + rest
  }

  /** One turn of the projectile loop, from the last index down: moving
      projectile i in place and splicing it out when off screen extends the
      pruned suffix by one. */
  lemma PruneStep(b0: seq<Bullet>, vels: seq<Velocity>, i: nat, list: seq<Bullet>)
    requires i < |b0| && |vels| == |b0|
    requires list == b0[..i + 1] + Survivors(b0[i + 1..], vels[i + 1..])
    ensures var b := Advance(b0[i], vels[i]);
      (if BulletOffScreen(b) then Remove(list[i := b], i) else list[i := b]) ==
        b0[..i] + Survivors(b0[i..], vels[i..])
  {
    var b := Advance(b0[i], vels[i]);
    SurvivorsUnfold(b0, vels, i);
    assert b0[..i + 1] == b0[..i] + [b0[i]];
    Splice(list, b0[..i], b0[i], Survivors(b0[i + 1..], vels[i + 1..]), b, BulletOffScreen(b));
  }

  lemma SurvivorsUnfold(bs: seq<Bullet>, vels: seq<Velocity>, i: nat)
    requires i < |bs| && |vels| == |bs|
    ensures var b := Advance(bs[i], vels[i]);
      Survivors(bs[i..], vels[i..]) ==
        (if BulletOffScreen(b) then [] else [b]) + Survivors(bs[i + 1..], vels[i + 1..])
  {
    assert bs[i..][1..] == bs[i + 1..] && vels[i..][1..] == vels[i + 1..];
  }

  /** Overwriting the element after `pre`, then splicing it out if `drop`. */
  lemma Splice<T>(list: seq<T>, pre: seq<T>, x: T, rest: seq<T>, y: T, drop: bool)
    requires list == pre + [x] + rest
    ensures (if drop then Remove(list[|pre| := y], |pre|) else list[|pre| := y]) ==
      pre + ((if drop then [] else [y]) + rest)
  {
    var moved := list[|pre| := y];
    assert moved == pre + ([y] + rest);
    if drop {
      assert moved[..|pre|] == pre && moved[|pre| + 1..] == rest;
      assert [] + rest == rest;
    }
  }

  /** One projectile survives exactly when its moved copy is on screen. */
  lemma SurvivorsSingle(b: Bullet, v: Velocity)
    ensures BulletOffScreen(Advance(b, v)) ==> Survivors([b], [v]) == []
    ensures !BulletOffScreen(Advance(b, v)) ==> Survivors([b], [v]) == [Advance(b, v)]
  {
    assert [b][1..] == [] && [v][1..] == [];
  }

  /** The loop treats each projectile on its own and keeps their order, so
      pruning a concatenation prunes each part. */
  lemma {:induction false} SurvivorsAppend(a: seq<Bullet>, va: seq<Velocity>, b: seq<Bullet>, vb: seq<Velocity>)
    requires |va| == |a| && |vb| == |b|
    ensures Survivors(a + b, va + vb) == Survivors(a, va) + Survivors(b, vb)
    decreases |a|
  {
    if a == [] {
      assert a + b == b && va + vb == vb;
    } else {
      assert (a + b)[1..] == a[1..] + b && (va + vb)[1..] == va[1..] + vb;
      SurvivorsAppend(a[1..], va[1..], b, vb);
    }
  }

  /** A new obstacle joins the list when the spawn draw is below 0.02. */
  function Spawn(s: State, draw: real, d: EnemyDraws): (r: State)
    requires ValidDraws(d)
    ensures draw < SpawnRate ==> r.enemies == s.enemies + [SpawnEnemy(d)]
    ensures draw >= SpawnRate ==> r.enemies == s.enemies
    ensures r == s.(enemies := r.enemies)
  {
    if draw < SpawnRate then s.(enemies := s.enemies + [SpawnEnemy(d)]) else s
  }

  /** The inner projectile scan: the highest index whose box overlaps `box`,
      or -1 when none does. */
  function LastHit(bs: seq<Bullet>, box: Rect): (j: int)
    ensures -1 <= j < |bs|
    ensures j >= 0 ==> Collides(bs[j].box, box)
    ensures forall m :: j < m < |bs| ==> !Collides(bs[m].box, box)
    decreases |bs|
  {
    if bs == [] then -1
    else if Collides(bs[|bs| - 1].box, box) then |bs| - 1
    else LastHit(bs[..|bs| - 1], box)
  }

  /** The body of the obstacle loop for index k: the obstacle falls; if it
      left the field it is dropped; if it touches the craft it is a player
      hit; otherwise the last overlapping projectile, if any, destroys it,
      is consumed itself and scores 10. */
  function EnemyStep(s: State, k: nat, env: Env): (r: State)
    requires k < |s.enemies|
    ensures k <= |r.enemies| <= |s.enemies|
    ensures r.enemies[..k] == s.enemies[..k]
    ensures |s.bullets| - 1 <= |r.bullets| <= |s.bullets|
    ensures forall b :: b in r.bullets ==> b in s.bullets
    ensures r.score == s.score + 10 * (|s.bullets| - |r.bullets|)
    ensures s.hits <= r.hits
    ensures |r.enemies| + (r.hits - s.hits) + (|s.bullets| - |r.bullets|) <= |s.enemies|
    ensures r.px == s.px && r.py == s.py && r.streak == s.streak && r.lastShot == s.lastShot
  {
    var e := Fall(s.enemies[k]);
    var s1 := s.(enemies := s.enemies[k := e]);
    if EnemyOffScreen(e) then
      s1.(enemies := Remove(s1.enemies, k))
    else if Collides(ShipBox(s), e.box) then
      HandleHit(s1, k, env)
    else
      var j := LastHit(s.bullets, e.box);
      if j < 0 then s1
      else
        RemoveKeepsAll(s.bullets, j);
        s1.(enemies := Remove(s1.enemies, k), bullets := Remove(s.bullets, j), score := s.score + 10)
  }

  /** The four outcomes of one obstacle's turn. An obstacle that fell off
      the field is dropped with no collision test. One that touches the
      craft is a player hit (spelled out in EnemyStepHitsCraft). Otherwise
      it is destroyed exactly when some projectile overlaps it;
      the projectile consumed is then the overlapping one of highest index,
      and it is the only one consumed. */
  lemma EnemyStepOutcomes(s: State, k: nat, env: Env)
    requires k < |s.enemies|
    ensures var e := Fall(s.enemies[k]); var r := EnemyStep(s, k, env);
      EnemyOffScreen(e) ==> r == s.(enemies := s.enemies[..k] + s.enemies[k + 1..])
    ensures var e := Fall(s.enemies[k]); var r := EnemyStep(s, k, env);
      !EnemyOffScreen(e) && Collides(ShipBox(s), e.box) ==> r == HandleHit(s.(enemies := s.enemies[k := e]), k, env)
    ensures var e := Fall(s.enemies[k]); var r := EnemyStep(s, k, env);
      !EnemyOffScreen(e) && !Collides(ShipBox(s), e.box) &&
      (forall m :: 0 <= m < |s.bullets| ==> !Collides(s.bullets[m].box, e.box)) ==>
        r == s.(enemies := s.enemies[k := e])
    ensures var e := Fall(s.enemies[k]); var r := EnemyStep(s, k, env);
      !EnemyOffScreen(e) && !Collides(ShipBox(s), e.box) &&
      (exists m :: 0 <= m < |s.bullets| && Collides(s.bullets[m].box, e.box)) ==>
        exists j :: 0 <= j < |s.bullets| && Collides(s.bullets[j].box, e.box) &&
          (forall m :: j < m < |s.bullets| ==> !Collides(s.bullets[m].box, e.box)) &&
          r == s.(enemies := s.enemies[..k] + s.enemies[k + 1..],
                  bullets := s.bullets[..j] + s.bullets[j + 1..],
                  score := s.score + 10)
  {
    var e := Fall(s.enemies[k]);
    var s1 := s.(enemies := s.enemies[k := e]);
    assert s1.enemies[..k] + s1.enemies[k + 1..] == s.enemies[..k] + s.enemies[k + 1..];
    if !EnemyOffScreen(e) && !Collides(ShipBox(s), e.box) {
      var j := LastHit(s.bullets, e.box);
      if j < 0 {
        assert forall m :: 0 <= m < |s.bullets| ==> !Collides(s.bullets[m].box, e.box);
      }
    }
  }

  /** An obstacle that is still on the field and touches the craft is a
      player hit: the hit counter goes up, that obstacle alone is removed,
      no projectile is consumed, and the game ends on the sixth hit. */
  lemma EnemyStepHitsCraft(s: State, k: nat, env: Env)
    requires k < |s.enemies| && s.running
    requires !EnemyOffScreen(Fall(s.enemies[k])) && Collides(ShipBox(s), Fall(s.enemies[k]).box)
    ensures var r := EnemyStep(s, k, env);
      r == HandleHit(s.(enemies := s.enemies[k := Fall(s.enemies[k])]), k, env) &&
      r.hits == s.hits + 1 && (r.running <==> s.hits + 1 < MaxHits) &&
      r.enemies == s.enemies[..k] + s.enemies[k + 1..] &&
      r.bullets == s.bullets && r.score == s.score
  {
    var e := Fall(s.enemies[k]);
    var s1 := s.(enemies := s.enemies[k := e]);
    assert s1.enemies[..k] + s1.enemies[k + 1..] == s.enemies[..k] + s.enemies[k + 1..];
  }

  lemma RemoveKeepsAll<T>(xs: seq<T>, k: nat)
    requires k < |xs|
    ensures forall x :: x in Remove(xs, k) ==> x in xs
  {
    forall x | x in Remove(xs, k) ensures x in xs {
      RemoveKeepsOthers(xs, k, x);
    }
  }

  /** The obstacle loop over indices i-1 down to 0; it stops early when a
      player hit ends the game. */
  function EnemyPass(s: State, i: nat, env: Env): (r: State)
    requires i <= |s.enemies|
    ensures forall b :: b in r.bullets ==> b in s.bullets
    ensures |r.bullets| <= |s.bullets|
    ensures r.score == s.score + 10 * (|s.bullets| - |r.bullets|)
    ensures s.hits <= r.hits
    ensures |r.enemies| + (r.hits - s.hits) + (|s.bullets| - |r.bullets|) <= |s.enemies|
    ensures r.px == s.px && r.py == s.py && r.streak == s.streak && r.lastShot == s.lastShot
    decreases i
  {
    if i == 0 || !s.running then s
    else EnemyPass(EnemyStep(s, i - 1, env), i - 1, env)
  }

  lemma PassStep(s: State, i: nat, env: Env)
    requires 0 < i <= |s.enemies| && s.running
    ensures EnemyPass(s, i, env) == EnemyPass(EnemyStep(s, i - 1, env), i - 1, env)
  {
  }

  /** The loop returns as soon as the game is over: a stopped state passes
      through untouched, and a step that ends the game is the last one. */
  lemma PassStopsWhenOver(s: State, i: nat, env: Env)
    requires i <= |s.enemies|
    ensures !s.running ==> EnemyPass(s, i, env) == s
    ensures 0 < i && s.running && !EnemyStep(s, i - 1, env).running ==>
      EnemyPass(s, i, env) == EnemyStep(s, i - 1, env)
  {
  }

  /** The part of gameLoop before the obstacle loop: the craft moves, the
      aura follows the vertical keys, the projectiles move and are pruned,
      and an obstacle may spawn. */
  function Prepare(s: State, env: Env, t: real, vels: seq<Velocity>, spawnDraw: real, d: EnemyDraws): (r: State)
    requires |vels| == |s.bullets| && ValidDraws(d)
    ensures r.px == MovePlayer(s).px && r.py == MovePlayer(s).py
    ensures r.aura == UpdateVertical(s.aura, UpHeld(s.keys), DownHeld(s.keys), t, env)
    ensures r.bullets == Survivors(s.bullets, vels)
    ensures r.enemies == Spawn(s, spawnDraw, d).enemies
    ensures r == s.(px := r.px, py := r.py, aura := r.aura, bullets := r.bullets, enemies := r.enemies)
  {
    var s1 := MovePlayer(s);
    var s2 := s1.(aura := UpdateVertical(s1.aura, UpHeld(s1.keys), DownHeld(s1.keys), t, env));
    var s3 := s2.(bullets := Survivors(s2.bullets, vels));
    Spawn(s3, spawnDraw, d)
  }

  /** gameLoop for one frame at `t`; nothing happens once the game has
      stopped. The source's random numbers and projectile velocities come
      in as arguments: one velocity per projectile, the spawn draw, and the
      draws of a spawned obstacle. */
  function Tick(s: State, env: Env, t: real, vels: seq<Velocity>, spawnDraw: real, d: EnemyDraws): (r: State)
    requires |vels| == |s.bullets| && ValidDraws(d)
    ensures !s.running ==> r == s
    ensures s.hits <= r.hits && s.score <= r.score
    ensures r.streak == s.streak && r.lastShot == s.lastShot
    ensures s.running ==> r.px == MovePlayer(s).px && r.py == MovePlayer(s).py
    ensures s.running ==> forall b :: b in r.bullets ==> b in Survivors(s.bullets, vels)
  {
    if !s.running then s
    else
      var s4 := Prepare(s, env, t, vels, spawnDraw, d);
      EnemyPass(s4, |s4.enemies|, env)
  }

  /** initGame on a running page: the aura is hidden first, then the state
      is rebuilt and the arrows of the on-screen controls are released.
      Only the hum survives from the old state. */
  function Restart(s: State, env: Env): (r: State)
    ensures r == Start.(aura := Idle.(hum := Deactivate(s.aura, env).hum))
  {
    var hum := Deactivate(s.aura, env).hum;
    var blank := Start.(aura := Idle.(hum := hum));
    blank.(keys := ReleaseArrows(blank.keys))
  }

  // ---- Properties ---------------------------------------------------------

  /** An obstacle that survived a complete pass: on the field, clear of the
      craft and clear of every remaining projectile. */
  predicate Settled(e: Enemy, s: State)
  {
    !EnemyOffScreen(e) && !Collides(ShipBox(s), e.box) &&
    forall b :: b in s.bullets ==> !Collides(b.box, e.box)
  }

  lemma StepSettles(s: State, k: nat, env: Env)
    requires k < |s.enemies|
    requires forall m :: k < m < |s.enemies| ==> Settled(s.enemies[m], s)
    ensures var r := EnemyStep(s, k, env);
      r.running ==> forall m :: k <= m < |r.enemies| ==> Settled(r.enemies[m], r)
  {
    var r := EnemyStep(s, k, env);
    var e := Fall(s.enemies[k]);
    if r.running {
      forall m | k <= m < |r.enemies| ensures Settled(r.enemies[m], r) {
        if |r.enemies| == |s.enemies| {
          if m == k {
            var j := LastHit(s.bullets, e.box);
            assert r.enemies[m] == e && r.bullets == s.bullets;
            forall b | b in s.bullets ensures !Collides(b.box, e.box) {
              var n :| 0 <= n < |s.bullets| && s.bullets[n] == b;
            }
          } else {
            assert r.enemies[m] == s.enemies[m];
          }
        } else {
          assert r.enemies[m] == s.enemies[m + 1];
        }
      }
    }
  }

  lemma {:induction false} PassSettles(s: State, i: nat, env: Env)
    requires i <= |s.enemies|
    requires forall m :: i <= m < |s.enemies| ==> Settled(s.enemies[m], s)
    ensures var r := EnemyPass(s, i, env);
      r.running ==> forall m :: 0 <= m < |r.enemies| ==> Settled(r.enemies[m], r)
    decreases i
  {
    if i > 0 && s.running {
      var s1 := EnemyStep(s, i - 1, env);
      StepSettles(s, i - 1, env);
      if s1.running {
        PassSettles(s1, i - 1, env);
      } else {
        assert EnemyPass(s1, i - 1, env) == s1;
      }
    }
  }

  /** After a frame that leaves the game running, every remaining obstacle
      is on the field, clear of the craft and of every projectile, and no
      projectile is off screen. */
  lemma TickLeavesNoOverlap(s: State, env: Env, t: real, vels: seq<Velocity>, spawnDraw: real, d: EnemyDraws)
    requires |vels| == |s.bullets| && ValidDraws(d) && s.running
    ensures var r := Tick(s, env, t, vels, spawnDraw, d);
      r.running ==>
        (forall m :: 0 <= m < |r.enemies| ==> Settled(r.enemies[m], r)) &&
        (forall b :: b in r.bullets ==> !BulletOffScreen(b))
  {
    var s4 := Prepare(s, env, t, vels, spawnDraw, d);
    PassSettles(s4, |s4.enemies|, env);
    var r := EnemyPass(s4, |s4.enemies|, env);
    forall b | b in r.bullets ensures !BulletOffScreen(b) {
      var n :| 0 <= n < |s4.bullets| && s4.bullets[n] == b;
    }
  }

  lemma {:induction false} PassKeepsInv(s: State, i: nat, env: Env)
    requires i <= |s.enemies| && Inv(s, env)
    ensures Inv(EnemyPass(s, i, env), env)
    decreases i
  {
    if i > 0 && s.running {
      var s1 := EnemyStep(s, i - 1, env);
      StepKeepsInv(s, i - 1, env);
      PassKeepsInv(s1, i - 1, env);
    }
  }

  lemma StepKeepsInv(s: State, k: nat, env: Env)
    requires k < |s.enemies| && Inv(s, env)
    ensures Inv(EnemyStep(s, k, env), env)
  {
    var e := Fall(s.enemies[k]);
    var s1 := s.(enemies := s.enemies[k := e]);
    if !EnemyOffScreen(e) && Collides(ShipBox(s), e.box) {
      assert Inv(s1, env);
      if s.running && s.hits + 1 >= MaxHits {
        assert Consistent(Deactivate(s1.aura, env), env);
      }
    }
  }

  /** Every frame keeps the invariant. */
  lemma TickKeepsInv(s: State, env: Env, t: real, vels: seq<Velocity>, spawnDraw: real, d: EnemyDraws)
    requires |vels| == |s.bullets| && ValidDraws(d) && Inv(s, env)
    ensures Inv(Tick(s, env, t, vels, spawnDraw, d), env)
  {
    if s.running {
      var s4 := Prepare(s, env, t, vels, spawnDraw, d);
      assert Inv(s4, env);
      PassKeepsInv(s4, |s4.enemies|, env);
    }
  }

  lemma ShootKeepsInv(s: State, env: Env, now: real, angles: seq<real>)
    requires Inv(s, env)
    requires MoveDirection(s.keys) != 0 ==> |angles| == SpreadCount
    ensures Inv(Shoot(s, now, angles), env)
  {
  }

  lemma KeyDownKeepsInv(s: State, env: Env, key: string, now: real, angles: seq<real>)
    requires Inv(s, env)
    requires key == " " && s.running && MoveDirection(s.keys) != 0 ==> |angles| == SpreadCount
    ensures Inv(KeyDown(s, key, now, angles), env)
  {
  }

  lemma KeyUpKeepsInv(s: State, env: Env, key: string)
    requires Inv(s, env)
    ensures Inv(KeyUp(s, key), env)
  {
  }

  lemma HitKeepsInv(s: State, env: Env, idx: int)
    requires Inv(s, env)
    ensures Inv(HandleHit(s, idx, env), env)
  {
  }

  /** Restarting a consistent game gives exactly the state of a fresh page:
      the hum was silenced when the aura was hidden. */
  lemma RestartIsStart(s: State, env: Env)
    requires Consistent(s.aura, env)
    ensures Restart(s, env) == Start
    ensures Inv(Restart(s, env), env)
  {
    DeactivateIdempotent(s.aura, env);
  }
}
