/**
 * The HUD's drag widgets (src/PoserHud.tsx): the Timeline scrubber (229-269), the
 * NumericSliderInput (55-97) and the per-axis routing of VectorInput (130-177).
 * Pointer positions and widths are reals; a width of 0, which would make the source
 * divide by zero, is excluded by the preconditions.
 */
module Widgets {
  import opened Animation

  /** Math.max and Math.min. */
  function Max(a: real, b: real): real { if a >= b then a else b }
  function Min(a: real, b: real): real { if a <= b then a else b }

  // ---------------------------------------------------------------------------------
  // Timeline

  /** The time a scrub to clientX asks for: proportional to the drag, then clamped (261-263). */
  function ScrubTime(startTime: real, startX: real, clientX: real, width: real, length: real): (r: real)
    requires width != 0.0
    ensures length >= 0.0 ==> 0.0 <= r <= length
    ensures var v := startTime + (clientX - startX) / width * length;
            (0.0 <= v <= length ==> r == v) && (v < 0.0 ==> r == 0.0) && (v > length ==> r == Max(0.0, length))
  {
    Max(0.0, Min(length, startTime + (clientX - startX) / width * length))
  }

  /** Dragging further right never asks for an earlier time. */
  lemma ScrubMonotone(startTime: real, startX: real, x1: real, x2: real, width: real, length: real)
    requires width > 0.0 && length >= 0.0 && x1 <= x2
    ensures ScrubTime(startTime, startX, x1, width, length) <= ScrubTime(startTime, startX, x2, width, length)
  {
    var d1, d2 := (x1 - startX) / width, (x2 - startX) / width;
    DivideMonotone(x1 - startX, x2 - startX, width);
    ScaleMonotone(d1, d2, length);
    var v1, v2 := startTime + d1 * length, startTime + d2 * length;
    assert v1 <= v2;
    assert Max(0.0, Min(length, v1)) <= Max(0.0, Min(length, v2));
  }

  lemma DivideMonotone(a: real, b: real, w: real)
    requires a <= b && w > 0.0
    ensures a / w <= b / w
  {
    var q1, q2 := a / w, b / w;
    assert q1 * w == a && q2 * w == b;
  }

  lemma ScaleMonotone(a: real, b: real, c: real)
    requires a <= b && c >= 0.0
    ensures a * c <= b * c
  {
    assert (b - a) * c >= 0.0;
  }

  /** A drag across the whole width spans the whole animation: it reaches the end. */
  lemma ScrubFullWidth(startTime: real, startX: real, width: real, length: real)
    requires width != 0.0 && startTime >= 0.0 && length >= 0.0
    ensures ScrubTime(startTime, startX, startX + width, width, length) == length
  {
    assert (startX + width - startX) / width == 1.0;
  }

  /** Timeline's drag state (247-249). */
  class Timeline {
    var isDragging: bool
    var dragStartX: real
    var dragStartCurrentTime: real

    constructor ()
      ensures !isDragging && dragStartX == 0.0 && dragStartCurrentTime == 0.0
    {
      isDragging, dragStartX, dragStartCurrentTime := false, 0.0, 0.0;
    }

    /** handleMouseDown (251-257): start a drag; the result is the value sent to onInteractingChanged. */
    method PointerDown(clientX: real, currentTime: real) returns (interacting: bool)
      modifies this
      ensures isDragging && dragStartX == clientX && dragStartCurrentTime == currentTime
      ensures interacting
    {
      isDragging := true;
      dragStartX := clientX;
      dragStartCurrentTime := currentTime;
      interacting := true;
    }

    /** handleMouseMove (259-265): while dragging, the clamped time for onTimeChange; idle, nothing. */
    method PointerMove(clientX: real, width: real, length: real) returns (newTime: Option<real>)
      requires isDragging ==> width != 0.0
      ensures newTime.Some? <==> isDragging
      ensures newTime.Some? ==> newTime.value == ScrubTime(dragStartCurrentTime, dragStartX, clientX, width, length)
      ensures newTime.Some? && length >= 0.0 ==> 0.0 <= newTime.value <= length
    {
      if isDragging {
        newTime := Some(ScrubTime(dragStartCurrentTime, dragStartX, clientX, width, length));
      } else {
        newTime := None;
      }
    }

    /** handleMouseUp (267-269): back to idle; the interacting flag is left to the parent. */
    method PointerUp()
      modifies this`isDragging
      ensures !isDragging
    {
      isDragging := false;
    }
  }

  // ---------------------------------------------------------------------------------
  // NumericSliderInput

  /** The value a slider drag to clientX emits: proportional, not clamped (85-86). */
  function SliderValue(startValue: real, startX: real, clientX: real, width: real, min: real, max: real): (r: real)
    requires width != 0.0
    ensures clientX == startX ==> r == startValue
    ensures clientX == startX + width ==> r == startValue + (max - min)
  {
    startValue + (clientX - startX) / width * (max - min)
  }

  /** No clamping: every value, inside [min, max] or not, is reached by some drag. */
  lemma SliderReachesEveryValue(startValue: real, startX: real, width: real, min: real, max: real, target: real)
    requires width != 0.0 && max != min
    ensures SliderValue(startValue, startX, startX + (target - startValue) / (max - min) * width, width, min, max) == target
  {
    var d := (target - startValue) / (max - min);
    assert (startX + d * width - startX) / width == d;
    assert d * (max - min) == target - startValue;
  }

  /** NumericSliderInput's drag state (71-74). */
  class NumericSlider {
    var isDragging: bool
    var dragStartX: real
    var dragStartValue: real
    var didMove: bool

    constructor ()
      ensures !isDragging && dragStartX == 0.0 && dragStartValue == 0.0 && !didMove
    {
      isDragging, dragStartX, dragStartValue, didMove := false, 0.0, 0.0, false;
    }

    /** handleMouseDown (76-81). */
    method PointerDown(clientX: real, value: real)
      modifies this
      ensures isDragging && dragStartX == clientX && dragStartValue == value && !didMove
    {
      isDragging := true;
      dragStartX := clientX;
      dragStartValue := value;
      didMove := false;
    }

    /** handleMouseMove (83-90): while dragging, the value for onChange, and the drag counts as a move. */
    method PointerMove(clientX: real, width: real, min: real, max: real) returns (emitted: Option<real>)
      requires isDragging ==> width != 0.0
      modifies this`didMove
      ensures emitted.Some? <==> isDragging
      ensures emitted.Some? ==> emitted.value == SliderValue(dragStartValue, dragStartX, clientX, width, min, max)
      ensures didMove == (old(didMove) || isDragging)
    {
      if isDragging {
        emitted := Some(SliderValue(dragStartValue, dragStartX, clientX, width, min, max));
        didMove := true;
      } else {
        emitted := None;
      }
    }

    /** handleMouseUp (92-97): stop dragging; a press without a move re-emits the current value. */
    method PointerUp(value: real) returns (emitted: Option<real>)
      modifies this`isDragging
      ensures !isDragging
      ensures emitted == if didMove then None else Some(value)
    {
      isDragging := false;
      emitted := if didMove then None else Some(value);
    }
  }

  /** Pressing and releasing a slider without moving emits exactly the value it shows. */
  method SliderClick(clientX: real, value: real) returns (emitted: Option<real>)
    ensures emitted == Some(value)
  {
    var slider := new NumericSlider();
    slider.PointerDown(clientX, value);
    emitted := slider.PointerUp(value);
  }

  /** A press, one drag step and a release emit exactly one value, the unclamped proportional one. */
  method SliderDrag(startX: real, clientX: real, value: real, width: real, min: real, max: real)
    returns (moved: Option<real>, released: Option<real>)
    requires width != 0.0
    ensures moved == Some(value + (clientX - startX) / width * (max - min))
    ensures released == None
  {
    var slider := new NumericSlider();
    slider.PointerDown(startX, value);
    moved := slider.PointerMove(clientX, width, min, max);
    assert moved.value == SliderValue(value, startX, clientX, width, min, max);
    released := slider.PointerUp(value);
  }

  // ---------------------------------------------------------------------------------
  // VectorInput

  datatype Axis = X | Y | Z

  function Component(v: (real, real, real), axis: Axis): real
  {
    match axis
    case X => v.0
    case Y => v.1
    case Z => v.2
  }

  /** What VectorInput emits when the slider of one axis emits c (157, 166, 175). */
  function WithAxis(v: (real, real, real), axis: Axis, c: real): (r: (real, real, real))
    ensures Component(r, axis) == c
    ensures forall other :: other != axis ==> Component(r, other) == Component(v, other)
  {
    match axis
    case X => (c, v.1, v.2)
    case Y => (v.0, c, v.2)
    case Z => (v.0, v.1, c)
  }

  /** Re-emitting an axis's own value (a slider click) leaves the vector as it was. */
  lemma WithAxisOwnValue(v: (real, real, real), axis: Axis)
    ensures WithAxis(v, axis, Component(v, axis)) == v
  {
  }

  /** A press and release without moving on any axis slider hands the bone's vector back unchanged. */
  method VectorAxisClick(v: (real, real, real), axis: Axis, clientX: real) returns (emitted: (real, real, real))
    ensures emitted == v
  {
    var c := SliderClick(clientX, Component(v, axis));
    emitted := WithAxis(v, axis, c.value);
    WithAxisOwnValue(v, axis);
  }
}
