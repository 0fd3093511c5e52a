/** The player's craft: a box that the held direction keys move by a fixed
    speed per tick, clamped to the field. */
module Ship {
  import opened Geometry
  import opened Input

  /** One axis of Player.move. The decreasing key is applied first, and only
      while the position is above 0; then the increasing key, only while the
      position is below `limit`. Each step is clamped to [0, limit]. */
  function AxisStep(p: real, dec: bool, inc: bool, limit: real, speed: real): (r: real)
    ensures speed >= 0.0 && 0.0 <= p <= limit ==> 0.0 <= r <= limit
    ensures !dec && !inc ==> r == p
    ensures speed >= 0.0 ==> p - (if dec then speed else 0.0) <= r <= p + (if inc then speed else 0.0)
    ensures dec && !inc && speed >= 0.0 && p - speed >= 0.0 ==> r == p - speed
    ensures inc && !dec && speed >= 0.0 && p + speed <= limit ==> r == p + speed
  {
    var p1 := if dec && p > 0.0 then (if p - speed < 0.0 then 0.0 else p - speed) else p;
    if inc && p1 < limit then (if p1 + speed > limit then limit else p1 + speed) else p1
  }

  class Player {
    var x: real
    var y: real
    const width: real := PlayerWidth
    const height: real := PlayerHeight
    const speed: real := PlayerSpeed

    function Box(): Rect
      reads this
    {
      Rect(x, y, width, height)
    }

    ghost predicate OnField()
      reads this
    {
      0.0 <= x <= FieldWidth - width && 0.0 <= y <= FieldHeight - height
    }

    /** Centred horizontally, 20 pixels above the bottom edge: (375, 530). */
    constructor ()
      ensures x == 375.0 && y == 530.0
      ensures OnField()
    {
      x := FieldWidth / 2.0 - PlayerWidth / 2.0;
      y := FieldHeight - PlayerHeight - 20.0;
    }

    /** Player.move: each axis moves by the full speed, so a diagonal is
        faster than a straight move. */
    method Move(keys: Keys)
      modifies this
      ensures x == AxisStep(old(x), LeftHeld(keys), RightHeld(keys), FieldWidth - width, speed)
      ensures y == AxisStep(old(y), UpHeld(keys), DownHeld(keys), FieldHeight - height, speed)
      ensures old(OnField()) ==> OnField()
    {
      var leftPressed := LeftHeld(keys);
      var rightPressed := RightHeld(keys);
      var upPressed := UpHeld(keys);
      var downPressed := DownHeld(keys);

      if leftPressed && x > 0.0 {
        x := if x - speed < 0.0 then 0.0 else x - speed;
      }
      if rightPressed && x < FieldWidth - width {
        x := if x + speed > FieldWidth - width then FieldWidth - width else x + speed;
      }
      if upPressed && y > 0.0 {
        y := if y - speed < 0.0 then 0.0 else y - speed;
      }
      if downPressed && y < FieldHeight - height {
        y := if y + speed > FieldHeight - height then FieldHeight - height else y + speed;
      }
    }
  }
}
