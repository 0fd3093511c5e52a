/** The intent set: which keys are held. Keyboard handlers store `true` on
    key-down and `false` on key-up; the virtual joystick writes `true` or
    deletes the entry. A key counts as held only when it is present and true. */
module Input {

  type Keys = map<string, bool>

  predicate Pressed(keys: Keys, k: string)
  {
    k in keys && keys[k]
  }

  // Each direction can come from an arrow key or from a letter key.
  predicate LeftHeld(keys: Keys) { Pressed(keys, "ArrowLeft") || Pressed(keys, "a") }
  predicate RightHeld(keys: Keys) { Pressed(keys, "ArrowRight") || Pressed(keys, "d") }
  predicate UpHeld(keys: Keys) { Pressed(keys, "ArrowUp") || Pressed(keys, "w") }
  predicate DownHeld(keys: Keys) { Pressed(keys, "ArrowDown") || Pressed(keys, "s") }

  /** +1 for right, -1 for left, 0 when neither or both are held. */
  function MoveDirection(keys: Keys): (d: int)
    ensures d == 1 <==> RightHeld(keys) && !LeftHeld(keys)
    ensures d == -1 <==> LeftHeld(keys) && !RightHeld(keys)
    ensures d == 0 <==> LeftHeld(keys) == RightHeld(keys)
  {
    (if RightHeld(keys) then 1 else 0) - (if LeftHeld(keys) then 1 else 0)
  }

  const ArrowKeys: set<string> := {"ArrowLeft", "ArrowRight", "ArrowUp", "ArrowDown"}

  /** setVirtualKeyState: an active key is stored as true, an inactive one is
      deleted rather than stored as false; no other key is touched. */
  function WithVirtualKey(keys: Keys, key: string, active: bool): (r: Keys)
    ensures Pressed(r, key) == active
    ensures !active ==> key !in r
    ensures forall k :: k != key ==> (k in r <==> k in keys)
    ensures forall k :: k != key && k in r ==> r[k] == keys[k]
  {
    if active then keys[key := true] else keys - {key}
  }

  const JoystickThreshold: real := 0.25

  /** The sign of a joystick component, or 0 inside the dead zone. */
  function AxisIntent(delta: real): (s: int)
    ensures s == -1 <==> delta <= -JoystickThreshold
    ensures s == 1 <==> delta >= JoystickThreshold
    ensures s == 0 <==> -JoystickThreshold < delta < JoystickThreshold
  {
    var magnitude := if delta < 0.0 then -delta else delta;
    if magnitude >= JoystickThreshold then (if delta > 0.0 then 1 else if delta < 0.0 then -1 else 0)
    else 0
  }

  /** updateJoystickKeys: normalised deltas become at most one horizontal and
      at most one vertical arrow; released arrows are deleted; every other key
      is left as it was. */
  function JoystickKeys(keys: Keys, dx: real, dy: real): (r: Keys)
    ensures Pressed(r, "ArrowLeft") <==> dx <= -JoystickThreshold
    ensures Pressed(r, "ArrowRight") <==> dx >= JoystickThreshold
    ensures Pressed(r, "ArrowUp") <==> dy <= -JoystickThreshold
    ensures Pressed(r, "ArrowDown") <==> dy >= JoystickThreshold
    ensures !(Pressed(r, "ArrowLeft") && Pressed(r, "ArrowRight"))
    ensures !(Pressed(r, "ArrowUp") && Pressed(r, "ArrowDown"))
    ensures forall k :: k in ArrowKeys && k in r ==> r[k]
    ensures forall k :: k !in ArrowKeys ==> (k in r <==> k in keys)
    ensures forall k :: k !in ArrowKeys && k in r ==> r[k] == keys[k]
  {
    var h := AxisIntent(dx);
    var v := AxisIntent(dy);
    var k1 := WithVirtualKey(keys, "ArrowLeft", h < 0);
    var k2 := WithVirtualKey(k1, "ArrowRight", h > 0);
    var k3 := WithVirtualKey(k2, "ArrowUp", v < 0);
    WithVirtualKey(k3, "ArrowDown", v > 0)
  }

  /** clearMobileControlState releases the four arrows by deleting them. */
  function ReleaseArrows(keys: Keys): (r: Keys)
    ensures forall k :: k in ArrowKeys ==> k !in r
    ensures forall k :: k !in ArrowKeys ==> (k in r <==> k in keys)
    ensures forall k :: k in r ==> r[k] == keys[k]
  {
    keys - ArrowKeys
  }

  /** Deleting the four arrows one at a time, as clearMobileControlState
      does, releases exactly the arrows. */
  lemma ReleaseOneByOne(keys: Keys)
    ensures WithVirtualKey(WithVirtualKey(WithVirtualKey(WithVirtualKey(keys,
              "ArrowUp", false), "ArrowDown", false), "ArrowLeft", false), "ArrowRight", false)
            == ReleaseArrows(keys)
  {
    var r := WithVirtualKey(WithVirtualKey(WithVirtualKey(WithVirtualKey(keys,
              "ArrowUp", false), "ArrowDown", false), "ArrowLeft", false), "ArrowRight", false);
    assert r.Keys == ReleaseArrows(keys).Keys;
  }
}
