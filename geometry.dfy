/** Configuration constants of the play field and the axis-aligned
    bounding-box test every collision in the game goes through. */
module Geometry {

  // The logical play field. The canvas may be resized for narrow screens,
  // but movement limits and off-screen tests always use these values.
  const FieldWidth: real := 800.0
  const FieldHeight: real := 600.0

  const PlayerWidth: real := 50.0
  const PlayerHeight: real := 50.0
  const PlayerSpeed: real := 5.0

  const BulletWidth: real := 18.0
  const BulletHeight: real := 18.0

  const EnemyWidth: real := 40.0
  const EnemyHeight: real := 40.0
  const EnemySpeed: real := 1.1
  const SpawnRate: real := 0.02

  // Five hearts plus one grace hit.
  const Hearts: nat := 5
  const GraceHits: nat := 1
  const MaxHits: nat := Hearts + GraceHits

  /** The field itself as a box. */
  const Field: Rect := Rect(0.0, 0.0, FieldWidth, FieldHeight)

  /** Anything that has a position and a size. */
  datatype Rect = Rect(x: real, y: real, width: real, height: real)

  /** The rectangles overlap on both axes; every comparison is strict, so
      rectangles that only share an edge do not collide. Boxes that collide
      have a positive joint extent on each axis, and a box overlaps itself
      only when it has a positive size. */
  predicate Collides(a: Rect, b: Rect): (c: bool)
    ensures c ==> a.width + b.width > 0.0 && a.height + b.height > 0.0
    ensures a == b ==> (c <==> a.width > 0.0 && a.height > 0.0)
  {
    a.x < b.x + b.width &&
    a.x + a.width > b.x &&
    a.y < b.y + b.height &&
    a.y + a.height > b.y
  }

  /** The test does not depend on the order of its arguments. */
  lemma CollidesSymmetric(a: Rect, b: Rect)
    ensures Collides(a, b) == Collides(b, a)
  {
  }

  /** Open interval overlap on one axis: the reference reading of a collision. */
  ghost predicate SpansOverlap(lo1: real, len1: real, lo2: real, len2: real)
  {
    exists p: real :: Inside(p, lo1, len1) && Inside(p, lo2, len2)
  }

  predicate Inside(p: real, lo: real, len: real)
  {
    lo < p < lo + len
  }

  /** For rectangles of positive size, colliding means sharing an interior
      point on each axis. */
  lemma CollidesMeansSharedInterior(a: Rect, b: Rect)
    requires a.width > 0.0 && a.height > 0.0 && b.width > 0.0 && b.height > 0.0
    ensures Collides(a, b) <==>
            SpansOverlap(a.x, a.width, b.x, b.width) && SpansOverlap(a.y, a.height, b.y, b.height)
  {
    if Collides(a, b) {
      OverlapWitness(a.x, a.width, b.x, b.width);
      OverlapWitness(a.y, a.height, b.y, b.height);
    }
    if SpansOverlap(a.x, a.width, b.x, b.width) && SpansOverlap(a.y, a.height, b.y, b.height) {
      var p: real :| Inside(p, a.x, a.width) && Inside(p, b.x, b.width);
      var q: real :| Inside(q, a.y, a.height) && Inside(q, b.y, b.height);
    }
  }

  lemma OverlapWitness(lo1: real, len1: real, lo2: real, len2: real)
    requires len1 > 0.0 && len2 > 0.0
    requires lo1 < lo2 + len2 && lo1 + len1 > lo2
    ensures SpansOverlap(lo1, len1, lo2, len2)
  {
    var lo := if lo1 < lo2 then lo2 else lo1;
    var hi := if lo1 + len1 < lo2 + len2 then lo1 + len1 else lo2 + len2;
    var p := (lo + hi) / 2.0;
    assert Inside(p, lo1, len1) && Inside(p, lo2, len2);
  }

  /** Touching edges do not count: a rectangle placed flush to the right of
      another, or flush below it, never collides with it. */
  lemma TouchingEdgesDoNotCollide(a: Rect, b: Rect)
    requires b.x == a.x + a.width || b.y == a.y + a.height
    ensures !Collides(a, b)
  {
  }

  /** The worked example: an obstacle at (100,100) of size 40x40 is hit by a
      projectile at (110,110) of size 18x18 and missed by one at (150,110). */
  lemma WorkedCollisionExample()
    ensures Collides(Rect(100.0, 100.0, 40.0, 40.0), Rect(110.0, 110.0, 18.0, 18.0))
    ensures !Collides(Rect(100.0, 100.0, 40.0, 40.0), Rect(150.0, 110.0, 18.0, 18.0))
  {
  }
}
