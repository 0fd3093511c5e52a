/** The running game: the global game state as an object whose fields the
    event handlers and the frame loop update in place. Every method is
    proved to do to `View()` what the matching function of `Rules`, `Input`,
    `Engine` or `Firing` does, or to set an explicit new value. */
module Session {
  import opened Geometry
  import opened Input
  import opened Entities
  import opened Ship
  import opened Firing
  import opened Engine
  import opened Rules

  class Game {
    const env: Env

    var isRunning: bool
    var score: int
    var hitsTaken: nat
    var bullets: seq<Bullet>
    var enemies: seq<Enemy>
    var keys: Keys
    var consecutiveShots: nat
    var lastShotTime: real
    var player: Player

    // verticalMovement, and whether the sound manager is playing the engine hum
    var direction: Heading
    var startedAt: real
    var isActive: bool
    var engineHum: bool

    function AuraNow(): Aura
      reads this
    {
      Aura(direction, startedAt, isActive, engineHum)
    }

    function View(): State
      reads this, player
    {
      State(isRunning, score, hitsTaken, bullets, enemies, keys,
            consecutiveShots, lastShotTime, player.x, player.y, AuraNow())
    }

    ghost predicate Valid()
      reads this, player
    {
      Inv(View(), env)
    }

    /** Page load followed by initGame. */
    constructor (env: Env)
      ensures this.env == env
      ensures View() == Start && Valid()
    {
      this.env := env;
      // The state the page starts with, before initGame runs.
      isRunning := false;
      score := 0;
      hitsTaken := 0;
      bullets := [];
      enemies := [];
      keys := map[];
      consecutiveShots := 0;
      lastShotTime := 0.0;
      player := new Player();
      direction := Still;
      startedAt := 0.0;
      isActive := false;
      engineHum := false;
      new;
      Restart();
      StartSatisfiesInv(env);
    }

    // ---- Controls ---------------------------------------------------------

    /** setVirtualKeyState */
    method SetVirtualKeyState(key: string, active: bool)
      modifies this
      ensures keys == WithVirtualKey(old(keys), key, active)
      ensures player == old(player)
      ensures View() == old(View()).(keys := keys)
    {
      if active {
        keys := keys[key := true];
      } else {
        keys := keys - {key};
      }
    }

    /** updateJoystickKeys */
    method UpdateJoystickKeys(deltaX: real, deltaY: real)
      modifies this
      ensures keys == JoystickKeys(old(keys), deltaX, deltaY)
      ensures player == old(player)
      ensures View() == old(View()).(keys := keys)
    {
      var horizontal := AxisIntent(deltaX);
      var vertical := AxisIntent(deltaY);
      SetVirtualKeyState("ArrowLeft", horizontal < 0);
      SetVirtualKeyState("ArrowRight", horizontal > 0);
      SetVirtualKeyState("ArrowUp", vertical < 0);
      SetVirtualKeyState("ArrowDown", vertical > 0);
    }

    /** clearMobileControlState, as far as the key map goes. */
    method ClearMobileControlState()
      modifies this
      ensures keys == ReleaseArrows(old(keys))
      ensures player == old(player)
      ensures View() == old(View()).(keys := keys)
    {
      ReleaseOneByOne(keys);
      SetVirtualKeyState("ArrowUp", false);
      SetVirtualKeyState("ArrowDown", false);
      SetVirtualKeyState("ArrowLeft", false);
      SetVirtualKeyState("ArrowRight", false);
    }

    /** The keydown listener. */
    method KeyDown(key: string, now: real, draws: seq<real>)
      requires AllUnit(draws)
      requires key == " " && isRunning && MoveDirection(keys) != 0 ==> |SpreadAngles(draws, [])| == SpreadCount
      modifies this
      ensures player == old(player)
      ensures View() == Rules.KeyDown(old(View()), key, now, SpreadAngles(draws, []))
      ensures old(Valid()) ==> Valid()
    {
      ghost var s := View();
      keys := keys[key := true];
      if key == " " && isRunning {
        assert LeftHeld(keys) == LeftHeld(s.keys) && RightHeld(keys) == RightHeld(s.keys) by {
          assert key != "ArrowLeft" && key != "a" && key != "ArrowRight" && key != "d";
        }
        var _ := Shoot(now, draws);
      }
      if Inv(s, env) {
        KeyDownKeepsInv(s, env, key, now, SpreadAngles(draws, []));
      }
    }

    /** The keyup listener. */
    method KeyUp(key: string)
      modifies this
      ensures player == old(player)
      ensures View() == Rules.KeyUp(old(View()), key)
      ensures old(Valid()) ==> Valid()
    {
      ghost var s := View();
      keys := keys[key := false];
      if Inv(s, env) {
        KeyUpKeepsInv(s, env, key);
      }
    }

    // ---- Engine aura ------------------------------------------------------

    /** activateEngineAura, with startEngineHum reduced to the hum flag. */
    method ActivateEngineAura()
      modifies this
      ensures AuraNow() == Activate(old(AuraNow()), env)
      ensures player == old(player)
      ensures View() == old(View()).(aura := AuraNow())
    {
      if isActive {
        return;
      }
      if !env.hasAuraLayer {
        return;
      }
      isActive := true;
      if env.hasAudio && !engineHum {
        engineHum := true;
      }
    }

    /** deactivateEngineAura, with stopEngineHum reduced to the hum flag. */
    method DeactivateEngineAura()
      modifies this
      ensures AuraNow() == Deactivate(old(AuraNow()), env)
      ensures player == old(player)
      ensures View() == old(View()).(aura := AuraNow())
    {
      if !isActive {
        return;
      }
      isActive := false;
      if env.hasAudio && engineHum {
        engineHum := false;
      }
    }

    /** updateVerticalMovementEffect */
    method UpdateVerticalMovementEffect(timestamp: real)
      modifies this
      ensures AuraNow() == UpdateVertical(old(AuraNow()), UpHeld(keys), DownHeld(keys), timestamp, env)
      ensures player == old(player)
      ensures View() == old(View()).(aura := AuraNow())
    {
      var upPressed := UpHeld(keys);
      var downPressed := DownHeld(keys);

      var nextDirection := Still;
      if upPressed && !downPressed {
        nextDirection := Up;
      } else if downPressed && !upPressed {
        nextDirection := Down;
      }

      if nextDirection != Still {
        if direction != nextDirection {
          if isActive {
            DeactivateEngineAura();
          }
          direction := nextDirection;
          startedAt := timestamp;
          isActive := false;
        } else if !isActive && timestamp - startedAt >= ActivationDelay {
          ActivateEngineAura();
        }
      } else {
        if isActive {
          DeactivateEngineAura();
        }
        direction := Still;
        startedAt := 0.0;
      }
    }

    // ---- Shots, score, hits -----------------------------------------------

    /** The forEach over the scatter angles in Player.shoot. */
    method PushScatter(x: real, y: real, angles: seq<real>, turn: int)
      requires |angles| == SpreadCount
      modifies this
      ensures player == old(player)
      ensures View() == old(View()).(bullets := old(bullets) + Scatter(x, y, angles, turn, consecutiveShots))
    {
      ghost var added := Scatter(x, y, angles, turn, consecutiveShots);
      var list := bullets;
      var index := 0;
      while index < SpreadCount
        invariant 0 <= index <= SpreadCount
        invariant list == old(bullets) + added[..index]
      {
        var offset := (index as real - 1.0) * SpreadSpacing;
        list := list + [NewBullet(x + offset, y, Mist(angles[index], turn), consecutiveShots)];
        assert added[..index + 1] == added[..index] + [added[index]];
        index := index + 1;
      }
      assert added[..SpreadCount] == added;
      bullets := list;
    }

    /** The plain shot of Player.shoot: the streak advances, and its third
        shot curves and ends the streak. */
    method PushSingle(x: real, y: real) returns (sound: Sound)
      modifies this
      ensures player == old(player)
      ensures var n := old(consecutiveShots) + 1;
        View() == old(View()).(
          bullets := old(bullets) + [NewBullet(x, y, if n >= CurveThreshold then Curving else Straight, n)],
          streak := if n >= CurveThreshold then 0 else n)
      ensures sound == if old(consecutiveShots) + 1 >= CurveThreshold then CurveSound else NormalSound
    {
      consecutiveShots := consecutiveShots + 1;
      var shouldCurve := consecutiveShots >= CurveThreshold;
      bullets := bullets + [NewBullet(x, y, if shouldCurve then Curving else Straight, consecutiveShots)];
      if shouldCurve {
        consecutiveShots := 0;
      }
      sound := if shouldCurve then CurveSound else NormalSound;
    }

    /** The start of Player.shoot: a pause of more than 600 ms since the
        previous shot ends the streak, and the shot time is recorded. */
    method StartShot(now: real)
      modifies this
      ensures player == old(player)
      ensures consecutiveShots == StreakAtShot(old(consecutiveShots), old(lastShotTime), now)
      ensures View() == old(View()).(streak := StreakAtShot(old(consecutiveShots), old(lastShotTime), now),
                                     lastShot := now)
    {
      if now - lastShotTime > StreakGap {
        consecutiveShots := 0;
      }
      lastShotTime := now;
    }

    /** The scatter branch of Player.shoot: three angles are sampled, the
        three projectiles are added and the streak ends. */
    method ScatterShot(x: real, y: real, draws: seq<real>, turn: int)
      requires AllUnit(draws) && |SpreadAngles(draws, [])| == SpreadCount
      modifies this
      ensures player == old(player)
      ensures View() == old(View()).(bullets := old(bullets) + Scatter(x, y, SpreadAngles(draws, []), turn, old(consecutiveShots)),
                                     streak := 0)
    {
      var spreadAngles := SampleSpreadAngles(draws);
      PushScatter(x, y, spreadAngles, turn);
      consecutiveShots := 0;
    }

    /** Where projectiles leave the craft. */
    method Muzzle() returns (x: real, y: real)
      ensures x == MuzzleX(player.x) && y == MuzzleY(player.y)
    {
      x := player.x + player.width / 2.0 - BulletWidth / 2.0;
      y := player.y - BulletHeight * 0.2;
    }

    /** Player.shoot at time `now`. The random numbers of the scatter
        sampling are `draws`; the sound mode played is returned. */
    method Shoot(now: real, draws: seq<real>) returns (sound: Sound)
      requires AllUnit(draws)
      requires MoveDirection(keys) != 0 ==> |SpreadAngles(draws, [])| == SpreadCount
      modifies this
      ensures player == old(player)
      ensures View() == Rules.Shoot(old(View()), now, SpreadAngles(draws, []))
      ensures sound ==
        if MoveDirection(old(keys)) != 0 then SpreadSound
        else if StreakAtShot(old(consecutiveShots), old(lastShotTime), now) + 1 >= CurveThreshold then CurveSound
        else NormalSound
      ensures old(Valid()) ==> Valid()
    {
      ghost var s := View();
      sound := FireShot(now, draws);
      if Inv(s, env) {
        ShootKeepsInv(s, env, now, SpreadAngles(draws, []));
      }
    }

    /** The body of Player.shoot; Shoot adds the invariant. The streak
        update does not touch the keys, so the branch on the held direction
        is taken first here and each branch does the whole shot. */
    method FireShot(now: real, draws: seq<real>) returns (sound: Sound)
      requires AllUnit(draws)
      requires MoveDirection(keys) != 0 ==> |SpreadAngles(draws, [])| == SpreadCount
      modifies this
      ensures player == old(player)
      ensures View() == Rules.Shoot(old(View()), now, SpreadAngles(draws, []))
      ensures sound ==
        if MoveDirection(old(keys)) != 0 then SpreadSound
        else if StreakAtShot(old(consecutiveShots), old(lastShotTime), now) + 1 >= CurveThreshold then CurveSound
        else NormalSound
    {
      if MoveDirection(keys) != 0 {
        sound := FireScatter(now, draws);
      } else {
        ghost var s := View();
        ShootSingle(s, now, []);
        ShootSingle(s, now, SpreadAngles(draws, []));
        sound := FireSingle(now);
      }
    }

    /** Player.shoot with one horizontal direction held. */
    method FireScatter(now: real, draws: seq<real>) returns (sound: Sound)
      requires AllUnit(draws) && MoveDirection(keys) != 0 && |SpreadAngles(draws, [])| == SpreadCount
      modifies this
      ensures player == old(player)
      ensures View() == Rules.Shoot(old(View()), now, SpreadAngles(draws, []))
      ensures sound == SpreadSound
    {
      ghost var s := View();
      ShootScatter(s, now, SpreadAngles(draws, []));
      StartShot(now);
      var bulletX, bulletY := Muzzle();
      var moveDirection := MoveDirection(keys);
      ScatterShot(bulletX, bulletY, draws, if moveDirection > 0 then 1 else -1);
      sound := SpreadSound;
    }

    /** Player.shoot with no horizontal direction held; no angles are
        sampled. */
    method FireSingle(now: real) returns (sound: Sound)
      requires MoveDirection(keys) == 0
      modifies this
      ensures player == old(player)
      ensures View() == Rules.Shoot(old(View()), now, [])
      ensures sound == if StreakAtShot(old(consecutiveShots), old(lastShotTime), now) + 1 >= CurveThreshold then CurveSound else NormalSound
    {
      ghost var s := View();
      ShootSingle(s, now, []);
      StartShot(now);
      var bulletX, bulletY := Muzzle();
      sound := PushSingle(bulletX, bulletY);
    }

    /** updateScore, without the scoreboard animation. */
    method UpdateScore(points: int)
      modifies this
      ensures player == old(player)
      ensures View() == old(View()).(score := old(score) + points)
    {
      score := score + points;
    }

    /** gameOver, without the overlay. */
    method GameOver()
      modifies this
      ensures player == old(player)
      ensures View() == Rules.GameOver(old(View()), env)
    {
      isRunning := false;
      DeactivateEngineAura();
      ClearMobileControlState();
    }

    /** handlePlayerCollision. Removing at an index past the end removes
        nothing, as splice does. */
    method HandlePlayerCollision(enemyIndex: int)
      modifies this
      ensures player == old(player)
      ensures View() == HandleHit(old(View()), enemyIndex, env)
      ensures old(Valid()) ==> Valid()
    {
      ghost var s := View();
      if !isRunning {
        return;
      }
      hitsTaken := hitsTaken + 1;
      if enemyIndex >= 0 && enemyIndex < |enemies| {
        enemies := Remove(enemies, enemyIndex);
      }
      if hitsTaken >= MaxHits {
        GameOver();
      }
      if Inv(s, env) {
        HitKeepsInv(s, env, enemyIndex);
      }
    }

    // The three parts of the fresh gameState that initGame builds.

    /** A running game with no score, no hits and no shot streak. */
    method ResetProgress()
      modifies this
      ensures player == old(player)
      ensures View() == old(View()).(running := true, score := 0, hits := 0, streak := 0, lastShot := 0.0)
    {
      isRunning, score, hitsTaken, consecutiveShots, lastShotTime := true, 0, 0, 0, 0.0;
    }

    /** No projectiles, no enemies, no held keys. */
    method ResetObjects()
      modifies this
      ensures player == old(player)
      ensures View() == old(View()).(bullets := [], enemies := [], keys := map[])
    {
      bullets, enemies, keys := [], [], map[];
    }

    /** No vertical direction tracked; the sound manager's hum is not part
        of gameState and is left as it is. */
    method ResetVertical()
      modifies this
      ensures player == old(player)
      ensures View() == old(View()).(aura := Idle.(hum := old(engineHum)))
    {
      direction, startedAt, isActive := Still, 0.0, false;
    }

    /** initGame: the aura is hidden, the state rebuilt with a new craft,
        the score shown as 0 and the on-screen controls released. */
    method Restart()
      modifies this
      ensures fresh(player)
      ensures View() == Rules.Restart(old(View()), env)
      ensures old(Valid()) ==> Valid()
    {
      ghost var s := View();
      if Inv(s, env) {
        RestartIsStart(s, env);
      }
      DeactivateEngineAura();
      ResetProgress();
      ResetObjects();
      ResetVertical();
      player := new Player();
      UpdateScore(0);
      assert ReleaseArrows(keys) == keys;
      ClearMobileControlState();
    }

    // ---- The frame loop ---------------------------------------------------

    /** The inner loop over projectiles, from the last one down, stopping at
        the first that overlaps `box`. */
    method LastBulletHit(box: Rect) returns (j: int)
      ensures j == LastHit(bullets, box)
    {
      j := |bullets| - 1;
      while j >= 0
        invariant -1 <= j < |bullets|
        invariant LastHit(bullets[..j + 1], box) == LastHit(bullets, box)
      {
        if Collides(bullets[j].box, box) {
          return;
        }
        assert bullets[..j + 1][..j] == bullets[..j];
        j := j - 1;
      }
    }

    /** The projectile loop of gameLoop, from the last projectile down. */
    method UpdateBullets(vels: seq<Velocity>)
      requires |vels| == |bullets|
      modifies this
      ensures player == old(player)
      ensures View() == old(View()).(bullets := Survivors(old(bullets), vels))
    {
      ghost var b0 := bullets;
      var list := bullets;
      var i := |list|;
      while i > 0
        invariant 0 <= i <= |b0|
        invariant list == b0[..i] + Survivors(b0[i..], vels[i..])
        invariant player == old(player) && View() == old(View())
      {
        i := i - 1;
        PruneStep(b0, vels, i, list);
        assert list[i] == b0[i];
        var bullet := Advance(list[i], vels[i]);
        list := list[i := bullet];
        if BulletOffScreen(bullet) {
          list := Remove(list, i);
        }
      }
      assert b0[0..] == b0 && vels[0..] == vels;
      bullets := list;
    }

    /** The obstacle loop body of gameLoop for index i: the obstacle falls
        and is then dropped if off screen, counted as a player hit if it
        touches the craft, or destroyed together with the last projectile
        that overlaps it. */
    method UpdateEnemy(i: nat)
      requires i < |enemies|
      modifies this
      ensures player == old(player)
      ensures View() == EnemyStep(old(View()), i, env)
    {
      var enemy := Fall(enemies[i]);
      enemies := enemies[i := enemy];

      if EnemyOffScreen(enemy) {
        enemies := Remove(enemies, i);
        return;
      }

      if Collides(player.Box(), enemy.box) {
        HandlePlayerCollision(i);
        return;
      }

      var j := LastBulletHit(enemy.box);
      if j >= 0 {
        enemies := Remove(enemies, i);
        bullets := Remove(bullets, j);
        UpdateScore(10);
      }
    }

    /** gameLoop up to the obstacle loop: the craft moves, the aura follows
        the vertical keys, the projectiles move and are pruned, and an
        obstacle may spawn. */
    method StartFrame(timestamp: real, vels: seq<Velocity>, spawnDraw: real, draws: EnemyDraws)
      requires |vels| == |bullets| && ValidDraws(draws)
      modifies this, player
      ensures player == old(player)
      ensures View() == Prepare(old(View()), env, timestamp, vels, spawnDraw, draws)
    {
      player.Move(keys);
      UpdateVerticalMovementEffect(timestamp);
      UpdateBullets(vels);
      if spawnDraw < SpawnRate {
        enemies := enemies + [SpawnEnemy(draws)];
      }
    }

    /** One frame of gameLoop at `timestamp`; nothing happens once the game
        has stopped, and `Rules.TickKeepsInv` shows that a frame keeps
        `Valid()`. `vels` holds each projectile's movement for this frame,
        `spawnDraw` the spawn roll and `draws` the random numbers of an
        obstacle that spawns. */
    method Tick(timestamp: real, vels: seq<Velocity>, spawnDraw: real, draws: EnemyDraws)
      requires |vels| == |bullets| && ValidDraws(draws)
      modifies this, player
      ensures player == old(player)
      ensures View() == Rules.Tick(old(View()), env, timestamp, vels, spawnDraw, draws)
    {
      if !isRunning {
        return;
      }
      StartFrame(timestamp, vels, spawnDraw, draws);
      UpdateEnemies();
    }

    /** The obstacle loop of gameLoop, from the last obstacle down to the
        first; a player hit that ends the game ends the frame. */
    method UpdateEnemies()
      modifies this
      ensures player == old(player)
      ensures View() == EnemyPass(old(View()), old(|enemies|), env)
    {
      ghost var target := EnemyPass(View(), |enemies|, env);
      if !isRunning {
        return;
      }
      var i: nat := |enemies|;
      while i > 0
        invariant i <= |enemies|
        invariant isRunning
        invariant player == old(player)
        invariant EnemyPass(View(), i, env) == target
      {
        ghost var before := View();
        PassStep(before, i, env);
        i := i - 1;
        UpdateEnemy(i);
        ghost var after := View();
        assert after == EnemyStep(before, i, env);
        if !isRunning {
          PassStopsWhenOver(after, i, env);
          return;
        }
      }
    }
  }
}
