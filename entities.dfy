/** Projectiles and obstacles as values: their boxes, how they move each
    tick, when they count as off screen, and how a new obstacle is drawn
    from random numbers. */
module Entities {
  import opened Geometry

  /** How a projectile flies. A scatter ("mist") projectile remembers its
      spawn angle and the sign of the horizontal direction it turns towards. */
  datatype Shot = Straight | Curving | Mist(spawnAngle: real, turn: int)

  /** `streak` is the shot counter the projectile was fired with; its speed
      is a sine of that value, so it is fixed at spawn. `age` counts ticks. */
  datatype Bullet = Bullet(box: Rect, shot: Shot, streak: nat, age: nat)

  const MistScale: real := 0.92

  /** A new projectile at (x, y): scatter projectiles are drawn at 92% size. */
  function NewBullet(x: real, y: real, shot: Shot, streak: nat): (b: Bullet)
    ensures b.box.x == x && b.box.y == y && b.shot == shot && b.streak == streak && b.age == 0
    ensures shot.Mist? ==> b.box.width == BulletWidth * MistScale && b.box.height == BulletHeight * MistScale
    ensures !shot.Mist? ==> b.box.width == BulletWidth && b.box.height == BulletHeight
  {
    var scale := if shot.Mist? then MistScale else 1.0;
    Bullet(Rect(x, y, BulletWidth * scale, BulletHeight * scale), shot, streak, 0)
  }

  /** Per-tick velocity of a projectile. It is a sine/cosine of its current
      angle, so it comes from outside the model. */
  datatype Velocity = Velocity(dx: real, dy: real)

  /** Bullet.update: one tick older, moved by its velocity; size and kind stay. */
  function Advance(b: Bullet, v: Velocity): (r: Bullet)
    ensures r.age == b.age + 1 && r.shot == b.shot && r.streak == b.streak
    ensures r.box == b.box.(x := b.box.x + v.dx, y := b.box.y + v.dy)
  {
    b.(box := b.box.(x := b.box.x + v.dx, y := b.box.y + v.dy), age := b.age + 1)
  }

  /** Bullet.isOffScreen: entirely beyond one of the four field edges. An
      off-screen projectile misses the field, and one that is not off screen
      touches the field or its border. */
  predicate BulletOffScreen(b: Bullet)
    ensures BulletOffScreen(b) ==> !Collides(b.box, Field)
    ensures !BulletOffScreen(b) && b.box.width > 0.0 && b.box.height > 0.0 ==>
      Collides(b.box, Rect(-1.0, -1.0, FieldWidth + 2.0, FieldHeight + 2.0))
  {
    b.box.y + b.box.height < 0.0 || b.box.y > FieldHeight ||
    b.box.x + b.box.width < 0.0 || b.box.x > FieldWidth
  }

  /** A projectile that is off screen cannot touch anything lying inside the field. */
  lemma OffScreenBulletMissesField(b: Bullet, r: Rect)
    requires BulletOffScreen(b)
    requires 0.0 <= r.x && r.x + r.width <= FieldWidth && 0.0 <= r.y && r.y + r.height <= FieldHeight
    requires b.box.width >= 0.0 && b.box.height >= 0.0 && r.width >= 0.0 && r.height >= 0.0
    ensures !Collides(b.box, r)
  {
  }

  datatype Rock = Stone | Crystal

  datatype Enemy = Enemy(box: Rect, speed: real, rock: Rock, color: string)

  /** Enemy.update: straight down by its own speed, nothing else changes. */
  function Fall(e: Enemy): (r: Enemy)
    ensures r.box.y == e.box.y + e.speed
    ensures r.box.x == e.box.x && r.box.width == e.box.width && r.box.height == e.box.height
    ensures r.speed == e.speed && r.rock == e.rock && r.color == e.color
  {
    e.(box := e.box.(y := e.box.y + e.speed))
  }

  /** Enemy.isOffScreen: the top edge is below the bottom of the field; the
      other edges are not tested. */
  predicate EnemyOffScreen(e: Enemy)
    ensures EnemyOffScreen(e) ==> !Collides(e.box, Field)
  {
    e.box.y > FieldHeight
  }

  /** The position after n ticks. */
  function FallN(e: Enemy, n: nat): Enemy
  {
    if n == 0 then e else Fall(FallN(e, n - 1))
  }

  lemma {:induction false} FallNMovesLinearly(e: Enemy, n: nat)
    ensures FallN(e, n).box.y == e.box.y + (n as real) * e.speed
    ensures FallN(e, n).speed == e.speed && FallN(e, n).box.height == e.box.height
  {
    if n > 0 {
      FallNMovesLinearly(e, n - 1);
      assert (n as real) * e.speed == ((n - 1) as real) * e.speed + e.speed;
    }
  }

  const Palette: seq<string> := ["#FF5252", "#FF8A65", "#FFD54F", "#4DB6AC", "#64B5F6", "#BA68C8"]

  /** The random numbers one obstacle is built from, in [0, 1). */
  datatype EnemyDraws = EnemyDraws(size: real, aspect: real, x: real, speed: real, color: real, rock: real)

  predicate UnitDraw(r: real) { 0.0 <= r < 1.0 }

  predicate ValidDraws(d: EnemyDraws)
  {
    UnitDraw(d.size) && UnitDraw(d.aspect) && UnitDraw(d.x) &&
    UnitDraw(d.speed) && UnitDraw(d.color) && UnitDraw(d.rock)
  }

  /** pickEnemyColor: one palette entry chosen uniformly. */
  function PickColor(draw: real): (c: string)
    requires UnitDraw(draw)
    ensures c in Palette
  {
    var i := (draw * (|Palette| as real)).Floor;
    Palette[i]
  }

  lemma ScaledDrawBelow(a: real, b: real)
    requires 0.0 <= a < 1.0 && b > 0.0
    ensures 0.0 <= a * b < b
  {
  }

  lemma ProductBound(s: real, a: real, sHi: real, aHi: real)
    requires 0.0 < s < sHi && 0.0 < a <= aHi
    ensures s * a < sHi * aHi
  {
    assert s * a <= s * aHi;
    assert s * aHi < sHi * aHi;
  }

  lemma ProductFloor(s: real, a: real, sLo: real, aLo: real)
    requires 0.0 < sLo <= s && 0.0 < aLo <= a
    ensures sLo * aLo <= s * a
  {
    assert sLo * aLo <= s * aLo;
    assert s * aLo <= s * a;
  }

  /** The Enemy constructor, shape descriptors aside: a size between 60% and
      150% of 40 pixels with an aspect jitter on each axis, a horizontal
      position that keeps the whole box on the field, a start just above the
      top edge, a speed in [1.1, 1.7), and the stone variant 55% of the time. */
  function SpawnEnemy(d: EnemyDraws): (e: Enemy)
    requires ValidDraws(d)
    ensures 20.0 < e.box.width < 70.0 && 20.0 < e.box.height < 70.0
    ensures 0.0 <= e.box.x && e.box.x + e.box.width <= FieldWidth
    ensures e.box.y + e.box.height == 0.0
    ensures EnemySpeed <= e.speed < EnemySpeed + 0.6
    ensures e.rock == Stone <==> d.rock < 0.55
    ensures e.color in Palette
  {
    var sizeScale := 0.6 + d.size * 0.9;
    var aspect := 0.9 + d.aspect * 0.25;
    var width := EnemyWidth * sizeScale * aspect;
    var height := EnemyHeight * sizeScale * (2.0 - aspect);
    ProductBound(sizeScale, aspect, 1.5, 1.15);
    ProductFloor(sizeScale, aspect, 0.6, 0.9);
    ProductBound(sizeScale, 2.0 - aspect, 1.5, 1.1);
    ProductFloor(sizeScale, 2.0 - aspect, 0.6, 0.85);
    assert EnemyWidth * sizeScale * aspect == 40.0 * (sizeScale * aspect);
    assert EnemyHeight * sizeScale * (2.0 - aspect) == 40.0 * (sizeScale * (2.0 - aspect));
    var room := FieldWidth - width;
    ScaledDrawBelow(d.x, room);
    var x := d.x * room;
    assert 0.0 <= x && x + width <= FieldWidth;
    Enemy(Rect(x, -height, width, height),
          EnemySpeed + d.speed * 0.6,
          if d.rock < 0.55 then Stone else Crystal,
          PickColor(d.color))
  }

  /** Obstacles always leave: any spawned obstacle is past the bottom edge
      after 610 ticks, whatever the random numbers were. */
  lemma SpawnedEnemyLeavesField(d: EnemyDraws)
    requires ValidDraws(d)
    ensures EnemyOffScreen(FallN(SpawnEnemy(d), 610))
  {
    var e := SpawnEnemy(d);
    FallNMovesLinearly(e, 610);
    assert (610 as real) * e.speed >= 610.0 * 1.1;
  }
}
