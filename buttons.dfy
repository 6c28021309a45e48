/**
 * The click detection of src/ui/button.py and src/ui/animated_button.py.
 *
 * Each `draw` samples the mouse once: whether the cursor is inside the
 * button's rectangle and whether the left button is held. A `clicked` flag
 * remembers a press on the button, and a click is reported when the button
 * is released over it. The two buttons differ only when the cursor is
 * outside: `Button` forgets the press only once the mouse button is up,
 * `AnimatedButton` forgets it at once. `AnimatedButton` also cycles through
 * its frames on a counter, assuming 60 draws per second.
 */
module Buttons {

  /** The mouse as one `draw` sees it. */
  datatype Mouse = Mouse(inside: bool, pressed: bool)

  /** Which of the two buttons. */
  datatype Style = Plain | Animated

  /**
   * One `draw`: the new `clicked` flag and whether a click is reported.
   * Pressing inside sets the flag; releasing inside with the flag set
   * reports a click and clears the flag; outside, a plain button clears the
   * flag only when the mouse button is up and an animated one always does.
   */
  function ClickStep(style: Style, clicked: bool, m: Mouse): (r: (bool, bool))
    ensures r.1 <==> m.inside && !m.pressed && clicked
    ensures r.1 ==> !r.0
    ensures m.inside && m.pressed ==> r.0
    ensures m.inside && !m.pressed ==> !r.0
    ensures !m.inside && style == Plain ==> r.0 == (clicked && m.pressed)
    ensures !m.inside && style == Animated ==> !r.0
  {
    if m.inside then
      if m.pressed then (true, false)
      else (false, clicked)
    else
      match style
      case Plain => (clicked && m.pressed, false)
      case Animated => (false, false)
  }

  /**
   * The `clicked` flag after drawing once for each mouse sample in turn. It
   * is only ever up while the button is held, and inside the button it
   * follows the mouse button exactly.
   */
  function After(style: Style, clicked: bool, trace: seq<Mouse>): (r: bool)
    ensures trace != [] && r ==> trace[|trace| - 1].pressed
    ensures trace != [] && trace[|trace| - 1].inside ==> r == trace[|trace| - 1].pressed
    ensures trace != [] && style == Animated && !trace[|trace| - 1].inside ==> !r
    decreases |trace|
  {
    if trace == [] then clicked else ClickStep(style, After(style, clicked, trace[..|trace| - 1]), trace[|trace| - 1]).0
  }

  /** Whether the draw for sample `i` of the trace reports a click. */
  predicate Reports(style: Style, clicked: bool, trace: seq<Mouse>, i: nat)
    requires i < |trace|
  {
    ClickStep(style, After(style, clicked, trace[..i]), trace[i]).1
  }

  lemma AfterOneMore(style: Style, clicked: bool, trace: seq<Mouse>, i: nat)
    requires i < |trace|
    ensures After(style, clicked, trace[..i + 1]) == ClickStep(style, After(style, clicked, trace[..i]), trace[i]).0
  {
    assert trace[..i + 1][..i] == trace[..i];
  }

  /** Two draws in a row never both report a click: a report clears the flag. */
  lemma NoDoubleClick(style: Style, clicked: bool, trace: seq<Mouse>, i: nat)
    requires i + 1 < |trace|
    ensures !(Reports(style, clicked, trace, i) && Reports(style, clicked, trace, i + 1))
  {
    AfterOneMore(style, clicked, trace, i);
  }

  /** A button that starts with the flag clear only has it set after a press inside. */
  lemma {:induction false} FlagNeedsPressInside(style: Style, trace: seq<Mouse>)
    ensures After(style, false, trace) ==> exists j :: 0 <= j < |trace| && trace[j].inside && trace[j].pressed
    decreases |trace|
  {
    if trace != [] {
      var n := |trace| - 1;
      FlagNeedsPressInside(style, trace[..n]);
      if After(style, false, trace) && !(trace[n].inside && trace[n].pressed) {
        var j :| 0 <= j < n && trace[..n][j].inside && trace[..n][j].pressed;
        assert trace[j] == trace[..n][j];
      }
    }
  }

  /** Every reported click was preceded by a press on the button. */
  lemma ClickFollowsPress(style: Style, trace: seq<Mouse>, i: nat)
    requires i < |trace| && Reports(style, false, trace, i)
    ensures trace[i].inside && !trace[i].pressed
    ensures exists j :: 0 <= j < i && trace[j].inside && trace[j].pressed
  {
    FlagNeedsPressInside(style, trace[..i]);
    var j :| 0 <= j < i && trace[..i][j].inside && trace[..i][j].pressed;
    assert trace[j] == trace[..i][j];
  }

  /** Holding the mouse button down outside keeps a plain button's press, and loses an animated one's. */
  lemma DragOutsideDiffers()
    ensures ClickStep(Plain, true, Mouse(false, true)).0
    ensures !ClickStep(Animated, true, Mouse(false, true)).0
  {
  }

  class Button {
    var clicked: bool

    /** `Button(...)`: no press remembered. */
    constructor()
      ensures !clicked
    {
      clicked := false;
    }

    /** `draw`: the flag moves as `ClickStep` says and the report is returned. */
    method Draw(m: Mouse) returns (action: bool)
      modifies this
      ensures (clicked, action) == ClickStep(Plain, old(clicked), m)
    {
      action := false;
      if m.inside {
        if m.pressed {
          if !clicked {
            clicked := true;
          }
        } else {
          if clicked {
            clicked := false;
            action := true;
          }
        }
      } else {
        if !m.pressed {
          clicked := false;
        }
      }
    }
  }

  /** The default animation speed. */
  const DefaultSpeed: int := 1

  /** Draws per frame advance: `60 // animation_speed`. */
  function Threshold(speed: int): (t: int)
    requires speed >= 1
    ensures 0 <= t <= 60
    ensures speed <= 60 ==> t >= 1
    ensures speed > 60 ==> t == 0
  {
    60 / speed
  }

  /**
   * `update` on the counter and the frame index: nothing without frames;
   * otherwise the counter goes up by one, and on reaching the threshold it
   * returns to 0 while the frame index moves on cyclically.
   */
  function AnimStep(counter: int, frame: int, count: nat, speed: int): (r: (int, int))
    requires speed >= 1
    ensures count == 0 ==> r == (counter, frame)
    ensures count > 0 && counter + 1 >= Threshold(speed) ==> r.0 == 0 && r.1 == (frame + 1) % count && 0 <= r.1 < count
    ensures count > 0 && counter + 1 < Threshold(speed) ==> r == (counter + 1, frame)
  {
    if count == 0 then (counter, frame)
    else if counter + 1 >= Threshold(speed) then (0, (frame + 1) % count)
    else (counter + 1, frame)
  }

  /** The counter and frame index after `k` updates. */
  function AnimSteps(counter: int, frame: int, count: nat, speed: int, k: nat): (int, int)
    requires speed >= 1
  {
    if k == 0 then (counter, frame)
    else
      var prev := AnimSteps(counter, frame, count, speed, k - 1);
      AnimStep(prev.0, prev.1, count, speed)
  }

  /** Starting from a reset counter, the frame holds for fewer than `threshold` updates. */
  lemma {:induction false} FrameHolds(frame: int, count: nat, speed: int, k: nat)
    requires count > 0 && 1 <= speed && k < Threshold(speed)
    ensures AnimSteps(0, frame, count, speed, k) == (k, frame)
  {
    if k > 0 {
      FrameHolds(frame, count, speed, k - 1);
    }
  }

  /** ... and moves on to the next frame, with the counter reset, on exactly the `threshold`-th update. */
  lemma FrameAdvancesAtThreshold(frame: int, count: nat, speed: int)
    requires count > 0 && 1 <= speed <= 60
    ensures AnimSteps(0, frame, count, speed, Threshold(speed)) == (0, (frame + 1) % count)
  {
    FrameHolds(frame, count, speed, Threshold(speed) - 1);
  }

  /** `max(1, animation_speed)`. */
  function SpeedFloor(speed: int): (s: int)
    ensures s >= 1 && s >= speed
    ensures speed >= 1 ==> s == speed
  {
    if speed < 1 then 1 else speed
  }

  class AnimatedButton {
    /** `len(self.frames)`: the frames themselves are only drawn. */
    const frameCount: nat
    const speed: int
    var currentFrame: int
    var counter: int
    var clicked: bool

    /** The frame index stays on a frame, and the counter stays below the threshold or at 0. */
    ghost predicate Valid()
      reads this
    {
      speed >= 1 && 0 <= counter && (counter < Threshold(speed) || counter == 0)
      && (frameCount == 0 ==> currentFrame == 0)
      && (frameCount > 0 ==> 0 <= currentFrame < frameCount)
    }

    /** `AnimatedButton(x, y, frames, scale, animation_speed)`: first frame, counter 0, no press. */
    constructor(frameCount: nat, speed: int)
      ensures this.frameCount == frameCount && this.speed == SpeedFloor(speed)
      ensures currentFrame == 0 && counter == 0 && !clicked
      ensures Valid()
    {
      this.frameCount := frameCount;
      this.speed := SpeedFloor(speed);
      currentFrame := 0;
      counter := 0;
      clicked := false;
    }

    /** `update`: one step of the counter and the frame index. */
    method Update()
      requires Valid()
      modifies this
      ensures Valid()
      ensures (counter, currentFrame) == AnimStep(old(counter), old(currentFrame), frameCount, speed)
      ensures clicked == old(clicked)
    {
      if frameCount == 0 {
        return;
      }
      counter := counter + 1;
      if counter >= 60 / speed {
        counter := 0;
        currentFrame := (currentFrame + 1) % frameCount;
      }
    }

    /**
     * `draw`: the animation steps first; a button without frames reports
     * nothing and keeps its flag, and one with frames moves its flag as
     * `ClickStep` says.
     */
    method Draw(m: Mouse) returns (action: bool)
      requires Valid()
      modifies this
      ensures Valid()
      ensures (counter, currentFrame) == AnimStep(old(counter), old(currentFrame), frameCount, speed)
      ensures frameCount == 0 ==> !action && clicked == old(clicked)
      ensures frameCount > 0 ==> (clicked, action) == ClickStep(Animated, old(clicked), m)
    {
      Update();
      if frameCount == 0 {
        return false;
      }
      action := false;
      if m.inside {
        if m.pressed {
          if !clicked {
            clicked := true;
          }
        } else {
          if clicked {
            action := true;
            clicked := false;
          }
        }
      } else {
        clicked := false;
      }
    }
  }
}
