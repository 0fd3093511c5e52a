# soundship: a verified model of the game rules

soundship is a browser arcade shooter. The player's craft sits at the bottom
of an 800×600 field and moves with the arrow keys, WASD or an on-screen
joystick. It fires projectiles at falling rock obstacles. A plain shot goes
straight, and every third shot in a quick streak curves. Holding exactly one
horizontal direction fires a scatter of three projectiles at sampled angles.
A projectile that overlaps an obstacle destroys it and scores 10. An obstacle
that touches the craft costs a hit, and the sixth hit (five hearts plus one
grace hit) ends the game. Holding up or down alone for 280 ms shows an
"engine aura" around the craft and starts an engine hum.

This project models the rule logic of `public/game.js` in Dafny:

| module | file | what it holds |
|---|---|---|
| `Geometry` | `geometry.dfy` | the configuration constants; `checkCollision` |
| `Colour` | `colour.dfy` | `hexToRgb` with JavaScript `parseInt(s, 16)` semantics; `componentToHex` |
| `Input` | `input.dfy` | the key map; `setVirtualKeyState`; `updateJoystickKeys`; releasing the on-screen arrows |
| `Entities` | `entities.dfy` | projectiles and obstacles as values; `Bullet.update`/`isOffScreen`; `Enemy.update`/`isOffScreen`; the `Enemy` constructor; `pickEnemyColor` |
| `Ship` | `ship.dfy` | class `Player` with its constructor and `move` |
| `Firing` | `firing.dfy` | the rules of `Player.shoot`: the streak, the curve, the scatter and its rejection sampling |
| `Engine` | `engine.dfy` | the vertical-movement state machine with `activateEngineAura` and `deactivateEngineAura` |
| `Rules` | `rules.dfy` | every event and one `gameLoop` frame, as functions on a `State` snapshot of `gameState`; the invariants they keep |
| `Session` | `session.dfy` | class `Game`, the global `gameState` as an object whose methods update it in place |

Each method of `Session.Game` is proved to change `View()` exactly as the
matching function of `Rules`, `Input`, `Engine` or `Firing` does, or to set
an explicit new value. The properties live in lemmas about those
functions. The frame loop and the hit handling keep the invariant `Rules.Inv`:

- the craft stays on the field;
- the shot streak stays below 3;
- the score is a non-negative multiple of 10;
- the game runs exactly while fewer than six hits were taken;
- the aura is consistent with the hum and the page's aura layer.

The source's inputs from the outside world come in as parameters:

- the `Math.random()` results, as `draws` in [0, 1);
- the `performance.now()` and `requestAnimationFrame` times, as real timestamps;
- each projectile's per-frame velocity, as `vels`, because it is a sine and a cosine of its angle;
- whether the page has the aura layer and Web Audio, as a constant `Env`.

Numbers are `real`.

The keydown listener fires the shot inside the handler
(public/game.js:1487-1490), so `KeyDown` shoots at once.

## Model

| member | source | states |
|---|---|---|
| Geometry.CollidesMeansSharedInterior | public/game.js:1293-1298 | for boxes of positive size, the four strict comparisons hold iff the boxes share an open interval on both axes |
| Geometry.Collides | public/game.js:1293-1298 | colliding boxes have a positive joint extent on each axis, and a box collides with itself iff it has positive width and height |
| Geometry.CollidesSymmetric | public/game.js:1293-1298 | the collision test does not depend on argument order |
| Geometry.TouchingEdgesDoNotCollide | public/game.js:1293-1298 | a box flush to the right of or below another does not collide with it |
| Geometry.WorkedCollisionExample | public/game.js:1293-1298 | (100,100,40,40) collides with (110,110,18,18) and not with (150,110,18,18) |
| Colour.DigitPrefix | public/game.js:53 | parseInt reads the longest leading run of hex digits: the result is a prefix of the input, every character taken is a digit, and the next one is not |
| Colour.RemoveFirst | public/game.js:49 | `replace('#', '')` removes one character when '#' occurs and leaves the string as is otherwise |
| Colour.RemoveFirstDropsFirst | public/game.js:49 | the character removed is the first '#': the result is the input with the earliest '#' cut out |
| Colour.FirstOccurrence | public/game.js:49 | names the index of the earliest occurrence, which is the one `replace` cuts out |
| Colour.ParseIntHex | public/game.js:53-56 | a blank string is NaN, and a negative result needs a minus sign after the leading white space |
| Colour.HexValueBound | public/game.js:56 | n hex digits are worth less than 16^n |
| Colour.ParseIntHexBound | public/game.js:53-56 | a parsed value has at most as many hex digits as the string has characters, in either sign |
| Colour.Doubled | public/game.js:50-52 | the three-character form doubles each character in place |
| Colour.HexToRgb | public/game.js:47-62 | null when the normalised string is not six characters long, and otherwise null exactly when parseInt gives NaN; every channel it returns lies in [0, 255] |
| Colour.ComponentToHex | public/game.js:43-45 | two upper-case hex digits whose value is the channel clamped to [0, 255] |
| Colour.HexValueAppend | public/game.js:56 | the value of concatenated digit runs shifts the left part by 16 per right digit |
| Colour.DigitPrefixOfDigits | public/game.js:53 | a string made of hex digits is read whole |
| Colour.ParsePlainDigits | public/game.js:53-56 | a run of hex digits with no "0x" prefix parses to its own value |
| Colour.ParseUnprefixed | public/game.js:53-56 | a string with no leading space, sign or "0x" parses to the value of its digit prefix, or NaN if it has none |
| Colour.ParseNegated | public/game.js:53-56 | a leading minus negates the digits after it |
| Colour.ParseSkipsSpace | public/game.js:53-56 | a leading white-space or line-terminator character never changes the result |
| Colour.ParsePlusSign | public/game.js:53-56 | a leading plus sign, not followed by space or another sign, never changes the result |
| Colour.ParseHexPrefix | public/game.js:53-56 | after "0x" or "0X" the result is the value of the digit run that follows, or NaN if there is none |
| Colour.ParseHexPrefixDropped | public/game.js:53-56 | a "0x" or "0X" prefix before digits with no space, sign or second prefix never changes the result |
| Colour.RgbRoundTrip | public/game.js:43-62 | "#" plus componentToHex of three channels parses back to those channels |
| Colour.ShortFormMatchesLongForm | public/game.js:49-52 | "#rgb" means the same colour as "rrggbb" |
| Colour.ParsesLeadingDigitsOnly | public/game.js:53-61 | six characters whose digits stop after k give the colour of those k digits, not null |
| Colour.TrailingGarbageExample | public/game.js:53-61 | "12zz56" is read as 0x12, the colour (0, 0, 18) |
| Colour.AstralCharacterExample | public/game.js:49-61 | "ab" and one character outside the Basic Multilingual Plane count as the three-character form and give (0, 170, 187) |
| Colour.OnlyFirstHashRemoved | public/game.js:49-55 | "##abcde" keeps its second '#' and gives null |
| Colour.NegativeValueWraps | public/game.js:53-61 | "-12345" parses to -74565, and the 32-bit shift and mask give (254, 220, 187) |
| Input.MoveDirection | public/game.js:947-949 | +1 iff only right is held, -1 iff only left is held, 0 iff both or neither |
| Input.WithVirtualKey | public/game.js:510-517 | the key is pressed iff active; an inactive key is deleted; every other key is unchanged |
| Input.AxisIntent | public/game.js:575-577 | -1 iff delta ≤ -0.25, +1 iff delta ≥ 0.25, 0 inside the dead zone |
| Input.JoystickKeys | public/game.js:574-583 | each arrow is set iff its component passes 0.25 in its direction; never both arrows of an axis; arrows are true or absent; other keys are unchanged |
| Input.ReleaseArrows | public/game.js:566 | the four arrows are absent and every other entry is kept |
| Input.ReleaseOneByOne | public/game.js:566 | deleting the arrows one at a time equals removing the arrow set |
| Entities.NewBullet | public/game.js:995-999 | the projectile starts at (x, y), age 0, with the given kind and streak; scatter projectiles are 92% size |
| Entities.Advance | public/game.js:1069-1091 | one tick older, moved by its velocity; size, kind and streak kept |
| Entities.BulletOffScreen | public/game.js:1093-1100 | an off-screen projectile does not touch the field, and one of positive size that is not off screen touches the field or its one-pixel border |
| Entities.EnemyOffScreen | public/game.js:1287-1289 | an obstacle counted off screen does not touch the field; only the bottom edge is tested |
| Entities.OffScreenBulletMissesField | public/game.js:1093-1100 | an off-screen projectile cannot touch a box inside the field |
| Entities.Fall | public/game.js:1283-1285 | only y changes, by the obstacle's own speed |
| Entities.FallNMovesLinearly | public/game.js:1283-1285 | after n ticks y has grown by n times the speed |
| Entities.PickColor | public/game.js:35-41 | the colour is an entry of the palette |
| Entities.SpawnEnemy | public/game.js:1105-1118 | size within (20, 70) on each axis, the box horizontally on the field, starting just above the top, speed in [1.1, 1.7), stone iff the draw is below 0.55, colour from the palette |
| Entities.SpawnedEnemyLeavesField | public/game.js:1104-1118 | every spawned obstacle is below the field after 610 ticks |
| Ship.AxisStep | public/game.js:924-935 | stays in [0, limit] when it starts there; no key leaves it unchanged; each key moves it at most `speed`; a lone key moves it by exactly `speed` when there is room |
| Ship.Player.constructor | public/game.js:766-772 | the craft starts at (375, 530), on the field |
| Ship.Player.Move | public/game.js:918-936 | each axis moves by AxisStep of its keys; a craft on the field stays on the field |
| Firing.Candidate | public/game.js:955 | a candidate angle lies in [-0.475, 0.475) |
| Firing.KeepCandidate | public/game.js:956-957 | appending a candidate far from every kept angle keeps the angles well spread |
| Firing.Consider | public/game.js:955-958 | a candidate more than 0.2 from every kept angle is appended; any other leaves the angles unchanged; they stay well spread |
| Firing.SpreadAngles | public/game.js:953-959 | the sampled angles are at most three, in range, pairwise more than 0.2 apart, and extend what was kept |
| Firing.CloseStaysClose | public/game.js:956 | a candidate rejected once stays rejected as more angles are kept |
| Firing.SpreadAnglesExhaustive | public/game.js:953-959 | when fewer than three angles come out, every draw's candidate is within 0.2 of a kept angle, so no acceptable draw was skipped |
| Firing.StreakAtShot | public/game.js:940-942 | the streak is kept unless more than 600 ms passed since the last shot, when it restarts at 0; it never grows |
| Firing.SampleSpreadAngles | public/game.js:953-959 | the sampling loop returns SpreadAngles of the draws, well spread |
| Firing.Scatter | public/game.js:961-969 | three mist projectiles at x offsets -14, 0, +14, one per angle, with the turn direction and streak |
| Firing.Fire | public/game.js:938-990 | a scatter of three at streak 0 when one horizontal direction is held; otherwise one projectile, curving iff the streak reaches 3, which then resets; the streak after a shot is below 3 |
| Firing.ThreeQuickShots | public/game.js:938-990 | three quick plain shots from a fresh streak are straight, straight, curving, with sounds normal, normal, curve |
| Firing.PauseRestartsStreak | public/game.js:940-942 | after more than 600 ms the next plain shot starts a new streak |
| Engine.HeldHeading | public/game.js:732-740 | up only gives Up, down only gives Down, both or neither give no direction |
| Engine.Activate | public/game.js:705-715 | a no-op when already active or without the aura layer; otherwise active, and the hum plays when there is audio |
| Engine.Deactivate | public/game.js:717-726 | a no-op when inactive; otherwise inactive, and the hum stops when there is audio |
| Engine.ActivateIdempotent | public/game.js:705-715 | activating twice is activating once |
| Engine.DeactivateIdempotent | public/game.js:717-726 | deactivating twice is deactivating once, and it silences a consistent hum |
| Engine.UpdateVertical | public/game.js:728-762 | the tracked direction is the held one; active iff the same direction was tracked and is active or has been held 280 ms with the layer present; a new direction restarts the timer; a release resets it to 0; consistency is kept |
| Engine.HoldSame | public/game.js:742-752 | holding the tracked direction keeps its start time and activates once a frame comes 280 ms after it |
| Engine.HoldRun | public/game.js:728-762 | pressing a direction and holding it activates the aura iff the last frame is 280 ms after the press and the layer exists, and the hum plays iff there is also audio |
| Engine.HoldConsistent | public/game.js:728-762 | any run of frames keeps the aura consistent |
| Engine.ReleaseResets | public/game.js:753-759 | releasing both keys always gives the idle, silent state |
| Rules.StartSatisfiesInv | public/game.js:1324-1342 | the fresh game state satisfies the invariant |
| Rules.Remove | public/game.js:1356 | splice(k, 1) drops the element at k and keeps the others in order |
| Rules.MovePlayer | public/game.js:1382 | the craft moves as Player.move and nothing else changes |
| Rules.Shoot | public/game.js:938-990 | the shot time is recorded; the streak stays below 3; three projectiles are appended iff one horizontal direction is held, and one otherwise; earlier projectiles and other fields are untouched |
| Rules.ShootScatter | public/game.js:952-973 | with one horizontal direction held, the scatter at the muzzle is appended and the streak is 0 |
| Rules.ShootSingle | public/game.js:976-989 | with no horizontal direction, one projectile is appended, curving iff the streak reaches 3 |
| Rules.KeyDown | public/game.js:1483-1491 | the key becomes held with the other keys unchanged; space while running is Shoot on the updated keys, and nothing else changes otherwise |
| Rules.KeyUp | public/game.js:1493-1495 | the key is stored as false, not deleted; nothing else changes |
| Rules.GameOver | public/game.js:1314-1321 | the game stops, the aura is deactivated and the arrow keys are released, exactly as Engine.Deactivate and Input.ReleaseArrows do, nothing else changes, and a consistent hum is silenced |
| Rules.HandleHit | public/game.js:1350-1368 | ignored when stopped; otherwise exactly one more hit, exactly the named obstacle removed with the rest in order, and the game stops iff six hits were reached, in which case the aura is deactivated and the arrows released as Rules.GameOver does |
| Rules.SixthHitEndsGame | public/game.js:1350-1368 | from a fresh game, n hits leave it running iff n < 6, and hits stop counting at 6 |
| Rules.PruneStep | public/game.js:1387-1396 | one turn of the projectile loop from the end, moving projectile i in place and splicing it out when off screen, extends the pruned suffix by one |
| Rules.Survivors | public/game.js:1387-1396 | every survivor is on screen, and every projectile still on screen after its move survives |
| Rules.SurvivorsSingle | public/game.js:1387-1396 | one projectile survives, moved, iff its moved copy is on screen |
| Rules.SurvivorsAppend | public/game.js:1387-1396 | pruning a concatenation prunes each part and keeps their order |
| Rules.Spawn | public/game.js:1399-1401 | a new obstacle is appended iff the draw is below 0.02 |
| Rules.LastHit | public/game.js:1425-1437 | the highest index of an overlapping projectile, or -1 when none overlaps |
| Rules.EnemyStep | public/game.js:1404-1437 | at most one projectile is consumed and scores 10; the earlier obstacles are untouched; obstacles lost are accounted for by hits and kills |
| Rules.EnemyStepOutcomes | public/game.js:1404-1437 | an obstacle off the field is dropped unchecked; one touching the craft is HandleHit on it; one that misses the craft is destroyed iff a projectile overlaps it, consuming only the highest-index one and scoring 10 |
| Rules.EnemyStepHitsCraft | public/game.js:1416-1422 | an obstacle touching the craft in a running game adds one hit, is removed alone, consumes no projectile and scores nothing, and the game ends iff six hits are reached |
| Rules.EnemyPass | public/game.js:1404-1438 | over the whole loop, score grows by 10 per consumed projectile and no projectile appears |
| Rules.PassStep | public/game.js:1404-1422 | one obstacle's turn followed by the rest of the loop is the loop while running |
| Rules.PassStopsWhenOver | public/game.js:1418-1420 | a stopped game passes through the loop untouched, and a turn that ends the game is the last turn |
| Rules.Tick | public/game.js:1371-1441 | a stopped game is left alone; hits and score never drop; the streak and shot time are kept; the craft moves as Player.move; every projectile left is a survivor of the pruning |
| Rules.Prepare | public/game.js:1382-1401 | before the obstacle loop: the craft moves, the aura updates, projectiles are pruned, an obstacle may spawn, and nothing else changes |
| Rules.Restart | public/game.js:1324-1348 | initGame gives the fresh state, keeping only the hum left by hiding the aura |
| Rules.RestartIsStart | public/game.js:1324-1348 | restarting a consistent game gives exactly the fresh state, which satisfies the invariant |
| Rules.StepSettles | public/game.js:1404-1437 | after an obstacle's turn in a running game, it and every later obstacle are clear of the craft and of all projectiles |
| Rules.PassSettles | public/game.js:1404-1437 | after the obstacle loop of a running game, no obstacle overlaps the craft or a projectile |
| Rules.TickLeavesNoOverlap | public/game.js:1371-1441 | after a frame that leaves the game running, no obstacle is off the field or overlapping, and no projectile is off screen |
| Rules.StepKeepsInv | public/game.js:1404-1437 | one obstacle's turn keeps the invariant |
| Rules.PassKeepsInv | public/game.js:1404-1437 | the obstacle loop keeps the invariant |
| Rules.TickKeepsInv | public/game.js:1371-1441 | every frame keeps the invariant |
| Rules.ShootKeepsInv | public/game.js:938-990 | every shot keeps the invariant |
| Rules.KeyDownKeepsInv | public/game.js:1483-1491 | every key press keeps the invariant |
| Rules.KeyUpKeepsInv | public/game.js:1493-1495 | every key release keeps the invariant |
| Rules.HitKeepsInv | public/game.js:1350-1368 | every player hit keeps the invariant |
| Session.Game.constructor | public/game.js:1503-1504 | page load followed by initGame gives the fresh state, which satisfies the invariant |
| Session.Game.SetVirtualKeyState | public/game.js:510-517 | the key map becomes WithVirtualKey of the old one, and nothing else changes |
| Session.Game.UpdateJoystickKeys | public/game.js:574-583 | the key map becomes JoystickKeys of the old one, and nothing else changes |
| Session.Game.ClearMobileControlState | public/game.js:564-572 | the four arrows are deleted, and nothing else changes |
| Session.Game.KeyDown | public/game.js:1483-1491 | the state becomes Rules.KeyDown of the old one, keeping the invariant |
| Session.Game.KeyUp | public/game.js:1493-1495 | the state becomes Rules.KeyUp of the old one, keeping the invariant |
| Session.Game.ActivateEngineAura | public/game.js:705-715 | the aura becomes Activate of the old one, and nothing else changes |
| Session.Game.DeactivateEngineAura | public/game.js:717-726 | the aura becomes Deactivate of the old one, and nothing else changes |
| Session.Game.UpdateVerticalMovementEffect | public/game.js:728-762 | the aura becomes UpdateVertical of the old one and the held keys, and nothing else changes |
| Session.Game.PushScatter | public/game.js:961-969 | the scatter is appended to the projectiles |
| Session.Game.PushSingle | public/game.js:976-989 | one projectile is appended, curving iff the advanced streak reaches 3, with the matching sound |
| Session.Game.StartShot | public/game.js:939-943 | the streak is reset after a 600 ms pause, and the shot time is recorded |
| Session.Game.ScatterShot | public/game.js:952-973 | the sampled scatter is appended and the streak is 0 |
| Session.Game.Muzzle | public/game.js:944-945 | the muzzle is centred on the craft, a little above its top |
| Session.Game.Shoot | public/game.js:938-990 | the state becomes Rules.Shoot of the old one, keeping the invariant, and the sound is spread, curve or normal as the shot was |
| Session.Game.FireShot | public/game.js:938-990 | the body of Player.shoot: the state becomes Rules.Shoot of the old one, with the sound of the shot |
| Session.Game.FireScatter | public/game.js:939-973 | with one horizontal direction held, the state becomes Rules.Shoot of the old one and the sound is the spread sound |
| Session.Game.FireSingle | public/game.js:938-990 | with no horizontal direction held, the state becomes Rules.Shoot of the old one, and the sound is the curve sound iff the advanced streak reaches 3 |
| Session.Game.UpdateScore | public/game.js:1301-1311 | the score grows by the points, and nothing else changes |
| Session.Game.GameOver | public/game.js:1314-1321 | the state becomes Rules.GameOver of the old one |
| Session.Game.HandlePlayerCollision | public/game.js:1350-1368 | the state becomes HandleHit of the old one, keeping the invariant |
| Session.Game.ResetProgress | public/game.js:1327-1336 | running, with no score, hits or streak and a zero shot time |
| Session.Game.ResetObjects | public/game.js:1330-1332 | no projectiles, obstacles or keys |
| Session.Game.ResetVertical | public/game.js:1337-1341 | no vertical direction tracked, with the hum untouched |
| Session.Game.Restart | public/game.js:1324-1348 | the state becomes Rules.Restart of the old one, with a new craft, keeping the invariant |
| Session.Game.LastBulletHit | public/game.js:1425-1437 | the scan returns LastHit of the projectiles |
| Session.Game.UpdateBullets | public/game.js:1387-1396 | the projectiles become Survivors of the old ones, and nothing else changes |
| Session.Game.UpdateEnemy | public/game.js:1405-1437 | the state becomes EnemyStep of the old one for that index |
| Session.Game.UpdateEnemies | public/game.js:1404-1438 | the state becomes EnemyPass of the old one over all obstacles |
| Session.Game.StartFrame | public/game.js:1382-1401 | the state becomes Prepare of the old one |
| Session.Game.Tick | public/game.js:1371-1441 | the state becomes Rules.Tick of the old one; a stopped game is left alone |

## Left out

- Session.Game.Tick: does not state `Valid()` itself. `Rules.TickKeepsInv` proves that `Rules.Tick`, which the method equals, keeps the invariant.
- The sound manager: the engine hum is a flag, the only part of it in the model. Everything else `soundManager` does (Web Audio synthesis, shot and hit sounds) is not part of this model. The sound mode of a shot is returned by `Session.Game.Shoot` as a value.
- Firing.SampleSpreadAngles: the rejection loop stops when the given random numbers run out, while the source loops until it has three angles. `Session.Game.Shoot` and `Session.Game.KeyDown` require the draws to yield three angles when a scatter is fired. Termination of the unbounded source loop is not modelled.
- Bullet constructor speed and direction and `Bullet.update` curve and wobble: they are sines and cosines. Each frame's velocity is an input, and a projectile records only its kind, spawn angle, turn sign, streak and age.
- `Enemy` shape descriptors (vertices, scuffs, facets, shadow and highlight colours) and `lightenColor`/`darkenColor`: drawing only.
- All `draw*` methods, `drawBackground`, `drawStars`, `resizeCanvas`, the lives display, hit effects, the score pulse and the game-over overlay: DOM and canvas output.
- The aura element's position and `data-direction` attribute: DOM output. Whether the element can be created is the constant `Env.hasAuraLayer`.
- Pointer and touch wiring (`handleJoystickMove`, `handleJoystickEnd`, the shoot button, `startShooting` with its 260 ms `setInterval` auto-fire, `resetShootButton`): event plumbing. The key effects of joystick moves and of `clearMobileControlState` are modelled.
- `requestAnimationFrame` scheduling and the restart button: each frame is one call of `Tick`, and each restart one call of `Restart`.
- `gameState.player` is `null` before the first `initGame`. The model has no null craft: the constructor places one and `initGame` replaces it at once.
- `maxHitsBeforeGameOver` is the constant 6; the source never changes it.
- Colour.HexToRgb: strings are sequences of Unicode characters, where JavaScript counts UTF-16 code units. A character outside the Basic Multilingual Plane therefore has length 1 here and 2 there: `Colour.AstralCharacterExample` proves that `Colour.HexToRgb("ab\U{1F600}")` is the three-character form and gives (0, 170, 187), while `hexToRgb` sees length 4 and returns null.
- JavaScript numbers are `real`: no floating-point rounding, no NaN or infinity. Timestamps and random numbers are exact.
- server.js: static file serving, outside the game rules.
