/**
 * The fly-camera input controller of src/camera_controller.rs.
 *
 * Key, mouse and scroll events only record intent in the controller;
 * `update_camera` turns that intent into camera motion once per frame and
 * consumes the one-shot parts of it (mouse rotation and scroll), while held
 * keys keep moving the camera until released. `f32` arithmetic is modelled
 * with reals (no rounding, no NaN), and `sin_cos` of the yaw, which the
 * model cannot compute, is a function the caller supplies.
 */
module CameraControl {
  import opened Common

  datatype KeyCode = KeyW | KeyS | KeyA | KeyD | Space | ShiftLeft | OtherKey(code: nat)

  datatype ElementState = Pressed | Released

  datatype MouseScrollDelta = LineDelta(columns: real, lines: real) | PixelDelta(x: real, y: real)

  /** `std::f32::consts::FRAC_PI_2`: the `f32` nearest to pi/2. */
  const FracPi2: real := 1.57079637050628662109375

  /** `SAFE_FRAC_PI_2`: the pitch limit, just short of straight up or down. */
  const SafeFracPi2: real := FracPi2 - 0.0001

  datatype Vec3 = Vec3(x: real, y: real, z: real)

  /**
   * The controller's fields: per-axis movement intent (x = strafe, y = up,
   * z = forward), the pending mouse rotation, the pending zoom, and the two
   * rates fixed at construction.
   */
  datatype Controls = Controls(movement: seq<real>, rotation: seq<real>, scroll: real, speed: real, sensitivity: real)

  ghost predicate Shaped(c: Controls)
  {
    |c.movement| == 3 && |c.rotation| == 2
  }

  /** The part of `Camera` the controller drives. */
  datatype Pose = Pose(position: Vec3, yaw: real, pitch: real)

  /** The movement axis a key drives and the sign it writes there; `None` for a key the controller ignores. */
  function Binding(key: KeyCode): (r: Option<(nat, real)>)
    ensures r.Some? ==> r.value.0 < 3 && (r.value.1 == 1.0 || r.value.1 == -1.0)
  {
    match key
    case KeyW => Some((2, 1.0))
    case KeyS => Some((2, -1.0))
    case KeyA => Some((0, -1.0))
    case KeyD => Some((0, 1.0))
    case Space => Some((1, 1.0))
    case ShiftLeft => Some((1, -1.0))
    case OtherKey(_) => None
  }

  /** Each axis has exactly one key per direction: forward W / back S, right D / left A, up Space / down ShiftLeft. */
  lemma BindingsPairUp(key: KeyCode, other: KeyCode)
    requires Binding(key).Some? && Binding(other).Some? && key != other
    requires Binding(key).value.0 == Binding(other).value.0
    ensures Binding(other).value.1 == -Binding(key).value.1
  {
  }

  function KeyValue(state: ElementState): real
  {
    if state == Pressed then 1.0 else 0.0
  }

  /**
   * `process_keyboard`: a bound key sets its axis to `sign * value` (1 when
   * pressed, 0 when released) and is reported handled; any other key changes
   * nothing and is not.
   */
  function Keyboard(c: Controls, key: KeyCode, state: ElementState): (r: (Controls, bool))
    requires Shaped(c)
    ensures Shaped(r.0)
  {
    match Binding(key)
    case None => (c, false)
    case Some((axis, sign)) => (c.(movement := c.movement[axis := sign * KeyValue(state)]), true)
  }

  /** A key is handled exactly when it is bound; only its own axis changes, and to the pressed or released value. */
  lemma KeyboardEffect(c: Controls, key: KeyCode, state: ElementState)
    requires Shaped(c)
    ensures var (c', handled) := Keyboard(c, key, state);
            && (handled <==> key in {KeyW, KeyS, KeyA, KeyD, Space, ShiftLeft})
            && c'.rotation == c.rotation && c'.scroll == c.scroll
            && c'.speed == c.speed && c'.sensitivity == c.sensitivity
            && (!handled ==> c' == c)
            && (handled ==> forall axis :: 0 <= axis < 3 ==>
                  c'.movement[axis] == if axis == Binding(key).value.0
                                       then (if state == Pressed then Binding(key).value.1 else 0.0)
                                       else c.movement[axis])
  {
  }

  datatype KeyEvent = KeyEvent(key: KeyCode, state: ElementState)

  /** A run of keyboard events, in order. */
  function Keys(c: Controls, events: seq<KeyEvent>): (r: Controls)
    requires Shaped(c)
    ensures Shaped(r)
  {
    if events == [] then c
    else
      var last := events[|events| - 1];
      Keyboard(Keys(c, events[..|events| - 1]), last.key, last.state).0
  }

  /** The value the last event bound to `axis` writes there, if any event is. */
  function LastOnAxis(events: seq<KeyEvent>, axis: nat): Option<real>
  {
    if events == [] then None
    else
      var last := events[|events| - 1];
      match Binding(last.key)
      case Some((a, sign)) =>
        if a == axis then Some(sign * KeyValue(last.state)) else LastOnAxis(events[..|events| - 1], axis)
      case None => LastOnAxis(events[..|events| - 1], axis)
  }

  /**
   * The last event on an axis decides it: the opposite key and earlier
   * presses do not count, so releasing W while S is still held stops the
   * camera instead of moving it back.
   */
  lemma {:induction false} LastKeyEventWins(c: Controls, events: seq<KeyEvent>, axis: nat)
    requires Shaped(c) && axis < 3
    ensures Keys(c, events).movement[axis] == match LastOnAxis(events, axis)
                                              case None => c.movement[axis]
                                              case Some(v) => v
  {
    if events != [] {
      LastKeyEventWins(c, events[..|events| - 1], axis);
    }
  }

  /** Pressing W, pressing S, then releasing W leaves the forward axis at rest although S is held. */
  lemma ReleaseOverridesHeldOpposite(c: Controls)
    requires Shaped(c)
    ensures Keys(c, [KeyEvent(KeyW, Pressed), KeyEvent(KeyS, Pressed), KeyEvent(KeyW, Released)]).movement[2] == 0.0
  {
    var events := [KeyEvent(KeyW, Pressed), KeyEvent(KeyS, Pressed), KeyEvent(KeyW, Released)];
    LastKeyEventWins(c, events, 2);
  }

  /** `process_mouse`: the rotation becomes the delta; nothing accumulates. */
  function Mouse(c: Controls, dx: real, dy: real): (r: Controls)
    ensures r.rotation == [dx, dy] && r.movement == c.movement && r.scroll == c.scroll
  {
    c.(rotation := [dx, dy])
  }

  /** Two mouse events before an update: only the second is seen. */
  lemma MouseOverwrites(c: Controls, dx: real, dy: real, dx': real, dy': real)
    ensures Mouse(Mouse(c, dx, dy), dx', dy') == Mouse(c, dx', dy')
  {
  }

  /** The zoom a scroll event asks for: two units per line, one per pixel, reversed in sign. */
  function ScrollAmount(delta: MouseScrollDelta): real
  {
    match delta
    case LineDelta(_, y) => -y * 2.0
    case PixelDelta(_, y) => -y
  }

  /** `process_scroll`: the pending zoom is replaced, not added to. */
  function Scroll(c: Controls, delta: MouseScrollDelta): (r: Controls)
    ensures r.scroll == ScrollAmount(delta) && r.movement == c.movement && r.rotation == c.rotation
  {
    c.(scroll := ScrollAmount(delta))
  }

  /** `f32::clamp` with `lo <= hi`. */
  function Clamp(x: real, lo: real, hi: real): (r: real)
    requires lo <= hi
    ensures lo <= r <= hi
    ensures lo <= x <= hi ==> r == x
    ensures x < lo ==> r == lo
    ensures hi < x ==> r == hi
  {
    if x < lo then lo else if hi < x then hi else x
  }

  /** `position += direction * amount`. */
  function Advance(position: Vec3, direction: Vec3, amount: real): Vec3
  {
    Vec3(position.x + direction.x * amount, position.y + direction.y * amount, position.z + direction.z * amount)
  }

  /** `value * rate * dt`: how far an input moves or turns the camera in one frame. */
  function PerFrame(value: real, rate: real, dt: real): real
  {
    value * rate * dt
  }

  /** The yaw's forward direction, level with the ground. */
  function Forward(yawSin: real, yawCos: real): Vec3
  {
    Vec3(yawCos, 0.0, yawSin)
  }

  /** The yaw's right-hand direction, level with the ground. */
  function Right(yawSin: real, yawCos: real): Vec3
  {
    Vec3(-yawSin, 0.0, yawCos)
  }

  /**
   * `update_camera`, given `sin_cos` of the yaw: move along the yaw's
   * forward and right vectors and straight up by movement x speed x dt, turn
   * by rotation x sensitivity x dt (pitch clamped), zoom along forward by
   * scroll x speed x dt, then drop the pending scroll and rotation; held
   * movement stays.
   */
  function Update(c: Controls, p: Pose, dt: real, yawSinCos: (real, real)): (r: (Controls, Pose))
    requires Shaped(c)
    ensures Shaped(r.0)
    ensures r.0 == c.(scroll := 0.0, rotation := [0.0, 0.0])
    ensures -SafeFracPi2 <= r.1.pitch <= SafeFracPi2
  {
    var forward := Forward(yawSinCos.0, yawSinCos.1);
    var walked := Advance(p.position, forward, PerFrame(c.movement[2], c.speed, dt));
    var strafed := Advance(walked, Right(yawSinCos.0, yawSinCos.1), PerFrame(c.movement[0], c.speed, dt));
    var lifted := strafed.(y := strafed.y + PerFrame(c.movement[1], c.speed, dt));
    var yaw := p.yaw + PerFrame(c.rotation[0], c.sensitivity, dt);
    var pitch := Clamp(p.pitch - PerFrame(c.rotation[1], c.sensitivity, dt), -SafeFracPi2, SafeFracPi2);
    var zoomed := Advance(lifted, forward, PerFrame(c.scroll, c.speed, dt));
    (c.(scroll := 0.0, rotation := [0.0, 0.0]), Pose(zoomed, yaw, pitch))
  }

  /**
   * Mouse rotation is applied once: a second update with no new mouse event
   * leaves yaw and pitch where the first one put them, whatever the keys.
   */
  lemma RotationConsumedOnce(c: Controls, p: Pose, dt: real, dt': real, sc: (real, real), sc': (real, real))
    requires Shaped(c)
    ensures var (c1, p1) := Update(c, p, dt, sc);
            var (_, p2) := Update(c1, p1, dt', sc');
            p2.yaw == p1.yaw && p2.pitch == p1.pitch
  {
    var (c1, p1) := Update(c, p, dt, sc);
    assert c1.rotation[0] == 0.0 && c1.rotation[1] == 0.0;
    assert PerFrame(c1.rotation[0], c1.sensitivity, dt') == 0.0 && PerFrame(c1.rotation[1], c1.sensitivity, dt') == 0.0;
  }

  /** With no key held and no input pending, an update leaves the camera where it is. */
  lemma IdleUpdateStill(c: Controls, p: Pose, dt: real, sc: (real, real))
    requires Shaped(c) && c.movement == [0.0, 0.0, 0.0] && c.rotation == [0.0, 0.0] && c.scroll == 0.0
    requires -SafeFracPi2 <= p.pitch <= SafeFracPi2
    ensures Update(c, p, dt, sc) == (c, p)
  {
    var (_, p1) := Update(c, p, dt, sc);
    assert PerFrame(0.0, c.speed, dt) == 0.0 && PerFrame(0.0, c.sensitivity, dt) == 0.0;
    assert p1.position == p.position;
    assert c.(scroll := 0.0, rotation := [0.0, 0.0]) == c;
  }

  /** `renderer::camera::Camera`: only the pose fields the controller updates. */
  class Camera {
    var position: Vec3
    var yaw: real
    var pitch: real

    constructor (position: Vec3, yaw: real, pitch: real)
      ensures this.position == position && this.yaw == yaw && this.pitch == pitch
    {
      this.position := position;
      this.yaw := yaw;
      this.pitch := pitch;
    }

    function CurrentPose(): Pose
      reads this
    {
      Pose(position, yaw, pitch)
    }
  }

  class CameraController {
    /** `movement: [f32; 3]`. */
    const movement: array<real>
    /** `rotation: [f32; 2]`. */
    const rotation: array<real>
    var scroll: real
    var speed: real
    var sensitivity: real

    ghost predicate Valid()
      reads this
    {
      movement.Length == 3 && rotation.Length == 2
    }

    function State(): Controls
      reads this, movement, rotation
    {
      Controls(movement[..], rotation[..], scroll, speed, sensitivity)
    }

    /** `CameraController::new`: no movement, rotation or zoom pending. */
    constructor (speed: real, sensitivity: real)
      ensures Valid() && fresh(movement) && fresh(rotation)
      ensures State() == Controls([0.0, 0.0, 0.0], [0.0, 0.0], 0.0, speed, sensitivity)
    {
      movement := new real[3](_ => 0.0);
      rotation := new real[2](_ => 0.0);
      scroll := 0.0;
      this.speed := speed;
      this.sensitivity := sensitivity;
      new;
      assert movement[..] == [0.0, 0.0, 0.0] && rotation[..] == [0.0, 0.0];
    }

    /** `CameraController::default`: speed 4, sensitivity 1. */
    constructor Default()
      ensures Valid() && fresh(movement) && fresh(rotation)
      ensures State() == Controls([0.0, 0.0, 0.0], [0.0, 0.0], 0.0, 4.0, 1.0)
    {
      movement := new real[3](_ => 0.0);
      rotation := new real[2](_ => 0.0);
      scroll := 0.0;
      speed := 4.0;
      sensitivity := 1.0;
      new;
      assert movement[..] == [0.0, 0.0, 0.0] && rotation[..] == [0.0, 0.0];
    }

    method ProcessKeyboard(key: KeyCode, state: ElementState) returns (handled: bool)
      requires Valid()
      modifies movement
      ensures (State(), handled) == Keyboard(old(State()), key, state)
    {
      var value := if state == Pressed then 1.0 else 0.0;
      match key
      case KeyW =>
        movement[2] := value;
        handled := true;
      case KeyS =>
        movement[2] := -value;
        handled := true;
      case KeyA =>
        movement[0] := -value;
        handled := true;
      case KeyD =>
        movement[0] := value;
        handled := true;
      case Space =>
        movement[1] := value;
        handled := true;
      case ShiftLeft =>
        movement[1] := -value;
        handled := true;
      case OtherKey(_) =>
        handled := false;
    }

    method ProcessMouse(dx: real, dy: real)
      requires Valid()
      modifies rotation
      ensures State() == Mouse(old(State()), dx, dy)
    {
      rotation[0] := dx;
      rotation[1] := dy;
      assert rotation[..] == [dx, dy];
    }

    method ProcessScroll(delta: MouseScrollDelta)
      modifies this
      ensures State() == Scroll(old(State()), delta)
    {
      scroll := match delta
        case LineDelta(_, y) => -y * 2.0
        case PixelDelta(_, y) => -y;
    }

    /** `update_camera`; `sinCos` stands for `f32::sin_cos`. */
    method UpdateCamera(camera: Camera, dt: real, sinCos: real -> (real, real))
      requires Valid()
      modifies this, rotation, camera
      ensures (State(), camera.CurrentPose()) == Update(old(State()), old(camera.CurrentPose()), dt, sinCos(old(camera.yaw)))
    {
      ghost var c := State();
      ghost var p := camera.CurrentPose();
      var (yawSin, yawCos) := sinCos(camera.yaw);
      var forward := Forward(yawSin, yawCos);
      var right := Right(yawSin, yawCos);

      camera.position := Advance(camera.position, forward, PerFrame(movement[2], speed, dt));
      camera.position := Advance(camera.position, right, PerFrame(movement[0], speed, dt));
      camera.position := camera.position.(y := camera.position.y + PerFrame(movement[1], speed, dt));

      camera.yaw := camera.yaw + PerFrame(rotation[0], sensitivity, dt);
      camera.pitch := camera.pitch - PerFrame(rotation[1], sensitivity, dt);
      camera.pitch := Clamp(camera.pitch, -SafeFracPi2, SafeFracPi2);

      camera.position := Advance(camera.position, forward, PerFrame(scroll, speed, dt));
      scroll := 0.0;

      rotation[0] := 0.0;
      rotation[1] := 0.0;
      assert rotation[..] == [0.0, 0.0];
      assert movement[..] == c.movement;
      assert camera.CurrentPose() == Update(c, p, dt, (yawSin, yawCos)).1;
    }
  }
}
