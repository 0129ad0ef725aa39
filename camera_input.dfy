/** The mouse and scroll callbacks of camera_class.cpp and the globals they
    update in place: the field of view `fov` (zoom), the camera angles `yaw`
    and `pitch`, the last cursor position `lastX`/`lastY` and the `firstMouse`
    flag. The globals become the fields of one CameraState object; each
    callback is a method proved against a pure step function, and the
    properties of the callbacks are stated about those step functions.
    Floats are modelled as reals; the window argument is not modelled. */
module CameraInput {

  /** Mouse movement scale, `sensitivity` in mouse_callback. */
  const Sensitivity: real := 0.05
  const MinFov: real := 1.0
  const MaxFov: real := 45.0
  const MaxPitch: real := 89.0

  /** SCR_WIDTH and SCR_HEIGHT: the cursor starts at the centre of the window. */
  const ScreenWidth: nat := 800
  const ScreenHeight: nat := 600

  function Dist(a: real, b: real): real {
    if a >= b then a - b else b - a
  }

  /** The point of [lo, hi] nearest to x. */
  function Clamp(x: real, lo: real, hi: real): (r: real)
    requires lo <= hi
    ensures lo <= r <= hi
    ensures lo <= x <= hi ==> r == x
    ensures forall q :: lo <= q <= hi ==> Dist(r, x) <= Dist(q, x)
  {
    if x < lo then lo else if x > hi then hi else x
  }

  /** fov after scroll_callback with vertical offset yoffset. Inside [1, 45]
      the offset is subtracted and the result clamped back into [1, 45]; a
      value already outside the range is only clamped. */
  function ScrolledFov(fov: real, yoffset: real): (r: real)
    ensures MinFov <= r <= MaxFov
    ensures MinFov <= fov <= MaxFov && MinFov <= fov - yoffset <= MaxFov ==> r == fov - yoffset
    ensures MinFov <= fov <= MaxFov && yoffset >= 0.0 ==> r <= fov
    ensures MinFov <= fov <= MaxFov && yoffset <= 0.0 ==> r >= fov
    ensures MinFov <= fov <= MaxFov && fov - yoffset < MinFov ==> r == MinFov
    ensures MinFov <= fov <= MaxFov && fov - yoffset > MaxFov ==> r == MaxFov
    ensures !(MinFov <= fov <= MaxFov) ==> r == Clamp(fov, MinFov, MaxFov)
  {
    if MinFov <= fov <= MaxFov then Clamp(fov - yoffset, MinFov, MaxFov)
    else Clamp(fov, MinFov, MaxFov)
  }

  /** The state mouse_callback reads and writes. */
  datatype MouseLook = MouseLook(yaw: real, pitch: real, lastX: real, lastY: real, firstMouse: bool)

  /** The state after mouse_callback at cursor position (xpos, ypos). The
      offsets are the cursor's movement since the last event (y reversed,
      since window y grows downwards), scaled by Sensitivity; on the first
      event the last position is taken to be the current one. */
  function MouseStep(s: MouseLook, xpos: real, ypos: real): (r: MouseLook)
    ensures -MaxPitch <= r.pitch <= MaxPitch
    ensures !r.firstMouse && r.lastX == xpos && r.lastY == ypos
    ensures s.firstMouse ==> r.yaw == s.yaw && r.pitch == Clamp(s.pitch, -MaxPitch, MaxPitch)
    ensures !s.firstMouse ==> r.yaw == s.yaw + (xpos - s.lastX) * Sensitivity
    ensures !s.firstMouse ==>
      r.pitch == Clamp(s.pitch + (s.lastY - ypos) * Sensitivity, -MaxPitch, MaxPitch)
    ensures !s.firstMouse && -MaxPitch <= s.pitch + (s.lastY - ypos) * Sensitivity <= MaxPitch ==>
      r.pitch == s.pitch + (s.lastY - ypos) * Sensitivity
    ensures !s.firstMouse && s.pitch + (s.lastY - ypos) * Sensitivity > MaxPitch ==> r.pitch == MaxPitch
    ensures !s.firstMouse && s.pitch + (s.lastY - ypos) * Sensitivity < -MaxPitch ==> r.pitch == -MaxPitch
  {
    var lastX := if s.firstMouse then xpos else s.lastX;
    var lastY := if s.firstMouse then ypos else s.lastY;
    MouseLook(s.yaw + (xpos - lastX) * Sensitivity,
              Clamp(s.pitch + (lastY - ypos) * Sensitivity, -MaxPitch, MaxPitch),
              xpos, ypos, false)
  }

  /** The state after a run of mouse events, oldest first. */
  function Replay(s: MouseLook, events: seq<(real, real)>): (r: MouseLook)
    ensures |events| > 0 ==> -MaxPitch <= r.pitch <= MaxPitch && !r.firstMouse
    ensures |events| > 0 ==> r.lastX == events[|events| - 1].0 && r.lastY == events[|events| - 1].1
    decreases |events|
  {
    if events == [] then s
    else Replay(MouseStep(s, events[0].0, events[0].1), events[1..])
  }

  /** yaw is never clamped, so over a run of events its change telescopes: it
      is Sensitivity times the distance from the last cursor x seen before the
      run to the last x of the run. */
  lemma {:induction false} YawTelescopes(s: MouseLook, events: seq<(real, real)>)
    requires !s.firstMouse && |events| > 0
    ensures Replay(s, events).yaw == s.yaw + (events[|events| - 1].0 - s.lastX) * Sensitivity
    decreases |events|
  {
    var next := MouseStep(s, events[0].0, events[0].1);
    if |events| > 1 {
      YawTelescopes(next, events[1..]);
      assert events[1..][|events[1..]| - 1] == events[|events| - 1];
    }
  }

  /** From the first event on, yaw moves by Sensitivity times the cursor's
      total x travel over the run: the first event itself turns nothing. */
  lemma {:induction false} YawFromFirstEvent(s: MouseLook, events: seq<(real, real)>)
    requires s.firstMouse && |events| > 0
    ensures Replay(s, events).yaw == s.yaw + (events[|events| - 1].0 - events[0].0) * Sensitivity
  {
    var next := MouseStep(s, events[0].0, events[0].1);
    if |events| > 1 {
      YawTelescopes(next, events[1..]);
      assert events[1..][|events[1..]| - 1] == events[|events| - 1];
    }
  }

  /** The globals of camera_class.cpp that the two callbacks update. */
  class CameraState {
    var fov: real
    var yaw: real
    var pitch: real
    var lastX: real
    var lastY: real
    var firstMouse: bool

    /** The globals' initial values. */
    constructor ()
      ensures fov == MaxFov && yaw == 0.0 && pitch == 0.0 && firstMouse
      ensures lastX == 400.0 && lastY == 300.0
    {
      fov := 45.0;
      yaw := 0.0;
      pitch := 0.0;
      firstMouse := true;
      lastX := (ScreenWidth / 2) as real;
      lastY := (ScreenHeight / 2) as real;
    }

    function Look(): MouseLook
      reads this
    {
      MouseLook(yaw, pitch, lastX, lastY, firstMouse)
    }

    /** mouse_callback: leaves fov alone, and pitch in [-89, 89] whatever it was. */
    method MouseCallback(xpos: real, ypos: real)
      modifies this
      ensures Look() == MouseStep(old(Look()), xpos, ypos)
      ensures fov == old(fov)
      ensures -MaxPitch <= pitch <= MaxPitch && !firstMouse
    {
      if firstMouse {
        lastX := xpos;
        lastY := ypos;
        firstMouse := false;
      }
      var xoffset := xpos - lastX;
      var yoffset := lastY - ypos;
      lastX := xpos;
      lastY := ypos;

      xoffset := xoffset * Sensitivity;
      yoffset := yoffset * Sensitivity;

      yaw := yaw + xoffset;
      pitch := pitch + yoffset;

      if pitch > 89.0 {
        pitch := 89.0;
      }
      if pitch < -89.0 {
        pitch := -89.0;
      }
    }

    /** scroll_callback: leaves the mouse state alone, and fov in [1, 45]
        whatever it was. The horizontal offset is ignored, as in the source. */
    method ScrollCallback(xoffset: real, yoffset: real)
      modifies this
      ensures fov == ScrolledFov(old(fov), yoffset)
      ensures Look() == old(Look())
      ensures MinFov <= fov <= MaxFov
    {
      if fov >= 1.0 && fov <= 45.0 {
        fov := fov - yoffset;
      }
      if fov <= 1.0 {
        fov := 1.0;
      }
      if fov >= 45.0 {
        fov := 45.0;
      }
    }
  }
}
