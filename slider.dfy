/**
 * The vertical slider widget: the mapping from a drag gesture to a value,
 * from a value to the fill height and ball position, from a value to the
 * ball's colour, and the gesture lifecycle that ties them together.
 */
module Slider {
  import opened JsMath

  /** A colour string; the empty string is falsy, as an absent colour is. */
  type Color = string

  const Black: Color := "#000000"
  const DefaultBallWidth: real := 48.0
  const DefaultAnimationDuration: real := 50.0

  datatype Option<T> = None | Some(value: T)

  /**
   * The props the slider reads. An optional number that the widget only
   * tests for truthiness (step, ballIndicatorWidth, animationDuration) is 0
   * when absent, since 0 and an absent value take the same branch; an absent
   * ballIndicatorColor is "". The gradient list is an Option because an
   * empty list is truthy and so differs from a missing one. The callbacks
   * are recorded only by whether they are present.
   */
  datatype Props = Props(
    value: real,
    disabled: bool,
    min: real,
    max: real,
    hasOnChange: bool,
    hasOnComplete: bool,
    height: real,
    step: real,
    ballIndicatorColor: Color,
    ballIndicatorWidth: real,
    minimumTrackTintColor: Option<seq<Color>>,
    animationDuration: real)
  {
    /** A track of positive height over a non-empty range. */
    predicate Valid() {
      height > 0.0 && min < max
    }

    /** `if (step)`: a step of 0 means no step. */
    predicate Stepped() {
      step != 0.0
    }
  }

  // ---------------------------------------------------------------------
  // Gesture -> value
  // ---------------------------------------------------------------------

  /** The drag in value units: ratio * diff with ratio = -dy / height. */
  function ScaledDelta(p: Props, dy: real): (d: real)
    requires p.Valid()
    ensures dy == 0.0 ==> d == 0.0
  {
    (-dy / p.height) * (p.max - p.min)
  }

  /** With a step, the value before clamping: the start moved by the nearest whole number of steps. */
  function SteppedTarget(p: Props, start: real, dy: real): (t: real)
    requires p.Valid() && p.Stepped()
  {
    start + Round(ScaledDelta(p, dy) / p.step) as real * p.step
  }

  /** The stepped value before clamping lies within half a step of start + ratio * diff. */
  lemma SteppedTargetNear(p: Props, start: real, dy: real)
    requires p.Valid() && p.Stepped()
    ensures var half := (if p.step > 0.0 then p.step else -p.step) / 2.0;
            -half <= SteppedTarget(p, start, dy) - (start + ScaledDelta(p, dy)) <= half
  {
    HalfStepAway(ScaledDelta(p, dy), p.step);
  }

  /** The nearest whole number of steps lies within half a step of the drag. */
  lemma HalfStepAway(s: real, step: real)
    requires step != 0.0
    ensures var half := (if step > 0.0 then step else -step) / 2.0;
            -half <= Round(s / step) as real * step - s <= half
  {
    var q := s / step;
    assert q * step == s;
    var k := Round(q) as real;
    if step > 0.0 {
      ScaledNear(k, q, step, s);
    } else {
      assert (-k) * (-step) == k * step && (-q) * (-step) == s;
      ScaledNear(-k, -q, -step, s);
    }
  }

  /** A number at most a half from q, scaled by a positive a, is at most a / 2 from q * a. */
  lemma ScaledNear(k: real, q: real, a: real, s: real)
    requires -0.5 <= k - q <= 0.5 && a > 0.0 && q * a == s
    ensures -(a / 2.0) <= k * a - s <= a / 2.0
  {
    var e := k - q;
    MulMonotone(-0.5, e, a);
    MulMonotone(e, 0.5, a);
    assert -0.5 * a <= e * a <= 0.5 * a;
    assert e * a == k * a - q * a;
    assert k * a - s == e * a;
  }

  /**
   * The value a drag of dy pixels gives, starting from `start`. With a
   * step, the start moves by the whole number of steps nearest the drag
   * and is clamped to [min, max]; without one, it is clamped below only
   * and then truncated to hundredths.
   */
  function FetchNewValueFromGesture(p: Props, start: real, dy: real): (r: real)
    requires p.Valid()
    ensures p.Stepped() ==> p.min <= r <= p.max
    ensures !p.Stepped() ==> Floor(r * 100.0) as real == r * 100.0 && r > p.min - 0.01
  {
    if p.Stepped() then
      Max(p.min, Min(p.max, SteppedTarget(p, start, dy)))
    else
      var v := Max(p.min, start + ScaledDelta(p, dy));
      Floor(v * 100.0) as real / 100.0
  }

  /** With a step, every drag yields a value in [min, max]. */
  lemma SteppedInRange(p: Props, start: real, dy: real)
    requires p.Valid() && p.Stepped()
    ensures p.min <= FetchNewValueFromGesture(p, start, dy) <= p.max
  {
  }

  /**
   * With a step, the value before clamping is start + k * step, where k is
   * the whole number of steps nearest the drag; the result is that value
   * when it lies in the range, and the bound it crosses otherwise.
   */
  lemma SteppedOnGrid(p: Props, start: real, dy: real) returns (k: int)
    requires p.Valid() && p.Stepped()
    ensures ScaledDelta(p, dy) / p.step - 0.5 < k as real <= ScaledDelta(p, dy) / p.step + 0.5
    ensures var target := start + k as real * p.step;
            var r := FetchNewValueFromGesture(p, start, dy);
            (p.min <= target <= p.max ==> r == target) &&
            (target < p.min ==> r == p.min) &&
            (target > p.max ==> r == p.max)
  {
    k := Round(ScaledDelta(p, dy) / p.step);
  }

  /**
   * Without a step, the value is a whole number of hundredths lying within
   * 1/100 below the raw value clamped below at min.
   */
  lemma UnsteppedTruncates(p: Props, start: real, dy: real) returns (c: int)
    requires p.Valid() && !p.Stepped()
    ensures var raw := Max(p.min, start + ScaledDelta(p, dy));
            var r := FetchNewValueFromGesture(p, start, dy);
            r == c as real / 100.0 && raw - 0.01 < r <= raw
  {
    var raw := Max(p.min, start + ScaledDelta(p, dy));
    c := Floor(raw * 100.0);
    assert c as real <= raw * 100.0 < c as real + 1.0;
  }

  /** Without a step nothing bounds the value above: a drag far enough up passes max. */
  lemma UnsteppedExceedsMax(p: Props, start: real, dy: real)
    requires p.Valid() && !p.Stepped()
    requires start + ScaledDelta(p, dy) >= p.max + 0.01
    ensures FetchNewValueFromGesture(p, start, dy) > p.max
  {
    var c := UnsteppedTruncates(p, start, dy);
  }

  /**
   * Without a step, a drag that reaches min yields a value below min when
   * min is not a whole number of hundredths.
   */
  lemma UnsteppedBelowMin(p: Props, start: real, dy: real)
    requires p.Valid() && !p.Stepped()
    requires start + ScaledDelta(p, dy) <= p.min
    requires Floor(p.min * 100.0) as real < p.min * 100.0
    ensures FetchNewValueFromGesture(p, start, dy) < p.min
  {
  }

  /** The drag in value units shrinks as dy grows. */
  lemma ScaledDeltaAntitone(p: Props, dy1: real, dy2: real)
    requires p.Valid() && dy1 <= dy2
    ensures ScaledDelta(p, dy1) >= ScaledDelta(p, dy2)
  {
    DivOrder(-dy1, -dy2, p.height);
    MulMonotone(-dy2 / p.height, -dy1 / p.height, p.max - p.min);
  }

  /** Whole steps times a step: the more steps of the same sign as the drag, the larger the product. */
  lemma StepProductMonotone(k1: int, k2: int, step: real)
    requires step != 0.0
    requires step > 0.0 ==> k1 >= k2
    requires step < 0.0 ==> k1 <= k2
    ensures k1 as real * step >= k2 as real * step
  {
    assert (k1 - k2) as real * step >= 0.0;
  }

  /** Dividing by a positive number keeps the order; by a negative one it reverses it. */
  lemma DivOrder(a: real, b: real, c: real)
    requires b <= a && c != 0.0
    ensures c > 0.0 ==> b / c <= a / c
    ensures c < 0.0 ==> a / c <= b / c
  {
    assert a / c - b / c == (a - b) / c;
  }

  /** With a step, the value before clamping never shrinks as the drag goes further up. */
  lemma SteppedTargetMonotone(p: Props, start: real, dy1: real, dy2: real)
    requires p.Valid() && p.Stepped() && dy1 <= dy2
    ensures SteppedTarget(p, start, dy1) >= SteppedTarget(p, start, dy2)
  {
    var s1, s2 := ScaledDelta(p, dy1), ScaledDelta(p, dy2);
    ScaledDeltaAntitone(p, dy1, dy2);
    DivOrder(s1, s2, p.step);
    if p.step > 0.0 {
      RoundMonotone(s2 / p.step, s1 / p.step);
    } else {
      RoundMonotone(s1 / p.step, s2 / p.step);
    }
    StepProductMonotone(Round(s1 / p.step), Round(s2 / p.step), p.step);
  }

  /** With a step, dragging further up never yields a smaller value. */
  lemma SteppedMonotone(p: Props, start: real, dy1: real, dy2: real)
    requires p.Valid() && p.Stepped() && dy1 <= dy2
    ensures FetchNewValueFromGesture(p, start, dy1) >= FetchNewValueFromGesture(p, start, dy2)
  {
    SteppedTargetMonotone(p, start, dy1, dy2);
    ClampMonotone(p.min, p.max, SteppedTarget(p, start, dy2), SteppedTarget(p, start, dy1));
  }

  /** Without a step, dragging further up never yields a smaller value. */
  lemma UnsteppedMonotone(p: Props, start: real, dy1: real, dy2: real)
    requires p.Valid() && !p.Stepped() && dy1 <= dy2
    ensures FetchNewValueFromGesture(p, start, dy1) >= FetchNewValueFromGesture(p, start, dy2)
  {
    var s1, s2 := ScaledDelta(p, dy1), ScaledDelta(p, dy2);
    ScaledDeltaAntitone(p, dy1, dy2);
    var v1, v2 := Max(p.min, start + s1), Max(p.min, start + s2);
    FloorMonotone(v2 * 100.0, v1 * 100.0);
  }

  /** Dragging further up (a smaller dy) never yields a smaller value, with or without a step. */
  lemma GestureMonotone(p: Props, start: real, dy1: real, dy2: real)
    requires p.Valid() && dy1 <= dy2
    ensures FetchNewValueFromGesture(p, start, dy1) >= FetchNewValueFromGesture(p, start, dy2)
  {
    if p.Stepped() {
      SteppedMonotone(p, start, dy1, dy2);
    } else {
      UnsteppedMonotone(p, start, dy1, dy2);
    }
  }

  /** With a step, a release without any drag leaves a value in [min, max] where it was. */
  lemma SteppedZeroDrag(p: Props, start: real)
    requires p.Valid() && p.Stepped()
    requires p.min <= start <= p.max
    ensures FetchNewValueFromGesture(p, start, 0.0) == start
  {
    FloorUnique(0.5, 0);
  }

  /** Without a step, no drag leaves a start value at or above min that is a whole number of hundredths. */
  lemma UnsteppedZeroDrag(p: Props, start: real)
    requires p.Valid() && !p.Stepped()
    requires p.min <= start
    requires Floor(start * 100.0) as real == start * 100.0
    ensures FetchNewValueFromGesture(p, start, 0.0) == start
  {
  }

  /** min 0, max 100, step 10, height 100: from 50, a drag of 30 pixels up gives 80. */
  lemma SteppedScenario(p: Props)
    requires p.min == 0.0 && p.max == 100.0 && p.step == 10.0 && p.height == 100.0
    ensures FetchNewValueFromGesture(p, 50.0, -30.0) == 80.0
  {
    FloorUnique(3.5, 3);
  }

  /** Without a step: from 20.345, a drag worth 5.129 gives 25.474, truncated to 25.47. */
  lemma UnsteppedScenario(p: Props)
    requires p.min == 0.0 && p.max == 100.0 && p.step == 0.0 && p.height == 100.0
    ensures FetchNewValueFromGesture(p, 20.345, -5.129) == 25.47
  {
    FloorUnique(2547.4, 2547);
  }

  // ---------------------------------------------------------------------
  // Value -> fill height and ball position
  // ---------------------------------------------------------------------

  /** The height of the filled part of the track for a value: [min, max] onto [0, height]. */
  function GetSliderHeight(p: Props, value: real): (h: real)
    requires p.Valid()
    ensures value == p.min ==> h == 0.0
    ensures value == p.max ==> h == p.height
  {
    ((value - p.min) * p.height) / (p.max - p.min)
  }

  /** The fill is empty at min and full at max. */
  lemma SliderHeightEndpoints(p: Props)
    requires p.Valid()
    ensures GetSliderHeight(p, p.min) == 0.0
    ensures GetSliderHeight(p, p.max) == p.height
  {
  }

  /** The fill height is linear in the value, with slope height / (max - min). */
  lemma SliderHeightLinear(p: Props, a: real, b: real)
    requires p.Valid()
    ensures GetSliderHeight(p, a) - GetSliderHeight(p, b) == (a - b) * (p.height / (p.max - p.min))
  {
  }

  /** A larger value always gives a taller fill. */
  lemma SliderHeightIncreasing(p: Props, a: real, b: real)
    requires p.Valid() && a < b
    ensures GetSliderHeight(p, a) < GetSliderHeight(p, b)
  {
    SliderHeightLinear(p, b, a);
    var slope := p.height / (p.max - p.min);
    DivPositive(p.height, p.max - p.min);
    MulStrict(0.0, b - a, slope);
  }

  /** A value in [min, max] fills between nothing and the whole track. */
  lemma SliderHeightInTrack(p: Props, value: real)
    requires p.Valid() && p.min <= value <= p.max
    ensures 0.0 <= GetSliderHeight(p, value) <= p.height
  {
    SliderHeightEndpoints(p);
    if value > p.min { SliderHeightIncreasing(p, p.min, value); }
    if value < p.max { SliderHeightIncreasing(p, value, p.max); }
  }

  /** The fill height determines the value: the map inverts. */
  lemma SliderHeightInverse(p: Props, value: real)
    requires p.Valid()
    ensures p.min + GetSliderHeight(p, value) * (p.max - p.min) / p.height == value
  {
  }

  /** Half the ball's size: ballIndicatorWidth, or 48 when it is absent, over 2. */
  function BallHalfHeight(p: Props): (bh: real)
    ensures bh != 0.0
    ensures p.ballIndicatorWidth >= 0.0 ==> bh > 0.0
  {
    (if p.ballIndicatorWidth != 0.0 then p.ballIndicatorWidth else DefaultBallWidth) / 2.0
  }

  /**
   * Where the ball's bottom edge goes for a fill height: pinned at
   * height - bh when centring it on the fill edge would overflow the top,
   * at 0 when centring would reach the bottom, centred on the fill edge
   * otherwise.
   */
  function BallPosition(height: real, fill: real, bh: real): (pos: real)
    ensures 0.0 <= bh <= height ==> 0.0 <= pos <= height - bh
  {
    if fill + bh > height then height - bh
    else if fill - bh <= 0.0 then 0.0
    else fill - bh
  }

  /** The ball never leaves [0, height - bh] while it fits in the track. */
  lemma BallInTrack(height: real, fill: real, bh: real)
    requires 0.0 <= bh <= height
    ensures 0.0 <= BallPosition(height, fill, bh) <= height - bh
  {
  }

  /** Away from both ends the ball's centre sits exactly on the fill edge. */
  lemma BallCentredOnFill(height: real, fill: real, bh: real)
    requires bh < fill && fill + bh <= height
    ensures BallPosition(height, fill, bh) + bh == fill
  {
  }

  /** A taller fill never moves the ball down. */
  lemma BallMonotone(height: real, fill1: real, fill2: real, bh: real)
    requires 0.0 <= bh <= height && fill1 <= fill2
    ensures BallPosition(height, fill1, bh) <= BallPosition(height, fill2, bh)
  {
  }

  /** The ball clamp of `_changeState`, reassigning the position branch by branch. */
  method PlaceBall(height: real, fill: real, bh: real) returns (pos: real)
    ensures pos == BallPosition(height, fill, bh)
    ensures 0.0 <= bh <= height ==> 0.0 <= pos <= height - bh
  {
    pos := fill;
    if pos + bh > height {
      pos := height - bh * 1.0;
    } else if pos - bh <= 0.0 {
      pos := 0.0;
    } else {
      pos := pos - bh;
    }
  }

  /** `animationDuration || 50`. */
  function AnimationDuration(p: Props): (d: real)
    ensures d != 0.0
    ensures p.animationDuration != 0.0 ==> d == p.animationDuration
  {
    if p.animationDuration != 0.0 then p.animationDuration else DefaultAnimationDuration
  }

  // ---------------------------------------------------------------------
  // Value -> ball colour
  // ---------------------------------------------------------------------

  /** The gradient list, or a list holding black alone when the prop is missing. */
  function TrackColors(p: Props): (cs: seq<Color>)
    ensures cs == [] ==> p.minimumTrackTintColor == Some([])
  {
    match p.minimumTrackTintColor
    case Some(cs) => cs
    case None => [Black]
  }

  /**
   * The bucket index: floor(percentage / (100 / (n - 1))) with
   * percentage = value / (max - min) * 100. For a single colour the divisor
   * is 100 / 0, an infinity, and the quotient of a finite percentage by it
   * is zero, so the index is 0.
   */
  function ColorIndex(n: int, value: real, min: real, max: real): (i: int)
    requires min < max
    ensures n >= 2 ==> i as real <= value * (n - 1) as real / (max - min) < i as real + 1.0
  {
    if n == 1 then 0
    else
      var percentage := (value / (max - min)) * 100.0;
      var divideValue := 100.0 / (n - 1) as real;
      assert n >= 2 ==> percentage / divideValue == value * (n - 1) as real / (max - min);
      Floor(percentage / divideValue)
  }

  /** The ball's colour: the override when set, else the bucket's colour, else black. */
  function FetchBallIndicatorColor(p: Props, value: real): (c: Color)
    requires p.Valid()
    ensures c != ""
    ensures p.ballIndicatorColor != "" ==> c == p.ballIndicatorColor
    ensures c == p.ballIndicatorColor || c in TrackColors(p) || c == Black
  {
    if p.ballIndicatorColor != "" then p.ballIndicatorColor
    else
      var colors := TrackColors(p);
      var i := ColorIndex(|colors|, value, p.min, p.max);
      if 0 <= i < |colors| && colors[i] != "" then colors[i] else Black
  }

  /** A set override colour always wins. */
  lemma ColorOverrideWins(p: Props, value: real)
    requires p.Valid() && p.ballIndicatorColor != ""
    ensures FetchBallIndicatorColor(p, value) == p.ballIndicatorColor
  {
  }

  /**
   * With n >= 2 colours, [0, max - min) is cut into n - 1 equal slices
   * measured from 0 (not from min), and the value's slice i picks colour i
   * when there is a non-empty one at that index, black otherwise.
   */
  lemma ColorBucket(p: Props, value: real, i: int)
    requires p.Valid() && p.ballIndicatorColor == ""
    requires |TrackColors(p)| >= 2
    requires var w := (p.max - p.min) / (|TrackColors(p)| - 1) as real;
             i as real * w <= value < (i + 1) as real * w
    ensures var colors := TrackColors(p);
            FetchBallIndicatorColor(p, value) ==
              if 0 <= i < |colors| && colors[i] != "" then colors[i] else Black
  {
    var n := |TrackColors(p)|;
    var m := (n - 1) as real;
    var d := p.max - p.min;
    var w := d / m;
    var x := ((value / d) * 100.0) / (100.0 / m);
    assert x == value * m / d;
    assert i as real * w * m / d == i as real;
    assert (i + 1) as real * w * m / d == (i + 1) as real;
    MulMonotone(i as real * w, value, m / d);
    MulStrict(value, (i + 1) as real * w, m / d);
    FloorUnique(x, i);
  }

  lemma DivPositive(a: real, b: real)
    requires a > 0.0 && b > 0.0
    ensures a / b > 0.0
  {
    assert (a / b) * b == a;
  }

  lemma MulMonotone(a: real, b: real, c: real)
    requires a <= b && c > 0.0
    ensures a * c <= b * c
  {
    assert (b - a) * c >= 0.0;
  }

  lemma MulStrict(a: real, b: real, c: real)
    requires a < b && c > 0.0
    ensures a * c < b * c
  {
    assert (b - a) * c > 0.0;
  }

  /** Without an override or a list, the ball is always black. */
  lemma ColorDefaultIsBlack(p: Props, value: real)
    requires p.Valid() && p.ballIndicatorColor == "" && p.minimumTrackTintColor.None?
    ensures FetchBallIndicatorColor(p, value) == Black
  {
  }

  /** A single colour is used for every value. */
  lemma ColorSingle(p: Props, value: real, c: Color)
    requires p.Valid() && p.ballIndicatorColor == "" && p.minimumTrackTintColor == Some([c])
    requires c != ""
    ensures FetchBallIndicatorColor(p, value) == c
  {
  }

  /** An empty list has no bucket, so the ball is black. */
  lemma ColorEmptyListIsBlack(p: Props, value: real)
    requires p.Valid() && p.ballIndicatorColor == "" && p.minimumTrackTintColor == Some([])
    ensures FetchBallIndicatorColor(p, value) == Black
  {
  }

  /**
   * When the range starts at 0, every value in it picks a colour from the
   * list (when none is empty), and max picks the last one.
   */
  lemma ColorZeroBasedRange(p: Props, value: real)
    requires p.Valid() && p.ballIndicatorColor == "" && p.min == 0.0
    requires 0.0 <= value <= p.max
    requires |TrackColors(p)| >= 1
    requires forall j :: 0 <= j < |TrackColors(p)| ==> TrackColors(p)[j] != ""
    ensures FetchBallIndicatorColor(p, value) in TrackColors(p)
    ensures value == p.max ==> FetchBallIndicatorColor(p, value) == TrackColors(p)[|TrackColors(p)| - 1]
  {
    var colors := TrackColors(p);
    var n := |colors|;
    if n >= 2 {
      ColorIndexZeroBased(n, value, p.max);
    }
  }

  /** Over [0, max], every value in the range has a bucket of the list, and max the last one. */
  lemma ColorIndexZeroBased(n: int, value: real, max: real)
    requires n >= 2 && 0.0 <= value <= max && 0.0 < max
    ensures 0 <= ColorIndex(n, value, 0.0, max) <= n - 1
    ensures value == max ==> ColorIndex(n, value, 0.0, max) == n - 1
  {
    var m := (n - 1) as real;
    var i := ColorIndex(n, value, 0.0, max);
    var y := value * m / (max - 0.0);
    assert i as real <= y < i as real + 1.0;
    assert y == value * (m / max);
    MulMonotone(value, max, m / max);
    MulMonotone(0.0, value, m / max);
    assert max * (m / max) == m;
    assert 0.0 <= y <= m;
  }

  /** Three colours over [0, 100]: 50 picks the second and 0 the first. */
  lemma ColorScenario(p: Props, a: Color, b: Color, c: Color)
    requires p.min == 0.0 && p.max == 100.0 && p.height > 0.0
    requires p.ballIndicatorColor == "" && p.minimumTrackTintColor == Some([a, b, c])
    requires a != "" && b != ""
    ensures FetchBallIndicatorColor(p, 50.0) == b
    ensures FetchBallIndicatorColor(p, 0.0) == a
  {
    FloorUnique(1.0, 1);
    FloorUnique(0.0, 0);
  }

  /**
   * Because the percentage uses value rather than value - min, a value in
   * the middle of [100, 200] falls beyond the last of three buckets.
   */
  lemma ColorOffsetRange(p: Props, a: Color, b: Color, c: Color)
    requires p.min == 100.0 && p.max == 200.0 && p.height > 0.0
    requires p.ballIndicatorColor == "" && p.minimumTrackTintColor == Some([a, b, c])
    ensures FetchBallIndicatorColor(p, 150.0) == Black
  {
    FloorUnique(3.0, 3);
  }

  // ---------------------------------------------------------------------
  // Gesture lifecycle
  // ---------------------------------------------------------------------

  /** What the widget hands to code outside it. */
  datatype Event =
    | Animate(sliderHeight: real, ballPosition: real, duration: real)  // Animated.parallel(...).start()
    | Change(value: real)                                              // props.onChange(value)
    | Complete(value: real)                                            // props.onComplete(value)

  /**
   * One slider instance: its state value and showText, the drag's start
   * value, the targets of its two animated values, and the calls it made.
   */
  class VerticalSlider {
    const props: Props
    var value: real
    var moveStartValue: real
    var showText: bool
    var sliderHeight: real
    var ballHeight: real
    var events: seq<Event>

    ghost predicate Valid() {
      props.Valid()
    }

    /** The animation targets are the ones the current value calls for. */
    ghost predicate Synced()
      reads this
      requires Valid()
    {
      sliderHeight == GetSliderHeight(props, value) &&
      ballHeight == BallPosition(props.height, sliderHeight, BallHalfHeight(props))
    }

    /**
     * The state starts at the prop value with both animated values at 0 and
     * the text hidden; `_moveStartValue` starts null, which JavaScript's `+`
     * reads as 0.
     */
    constructor (p: Props)
      requires p.Valid()
      ensures Valid() && props == p
      ensures value == p.value && moveStartValue == 0.0 && !showText
      ensures sliderHeight == 0.0 && ballHeight == 0.0 && events == []
    {
      props := p;
      value := p.value;
      moveStartValue := 0.0;
      showText := false;
      sliderHeight := 0.0;
      ballHeight := 0.0;
      events := [];
    }

    /**
     * `_changeState`: animate the fill and the ball towards the value's
     * targets and store the value at once.
     */
    method ChangeState(v: real)
      requires Valid()
      modifies this`value, this`sliderHeight, this`ballHeight, this`events
      ensures value == v && Synced()
      ensures events == old(events) + [Animate(sliderHeight, ballHeight, AnimationDuration(props))]
      ensures 0.0 <= BallHalfHeight(props) <= props.height ==>
                0.0 <= ballHeight <= props.height - BallHalfHeight(props)
      ensures props.min <= v <= props.max ==> 0.0 <= sliderHeight <= props.height
    {
      var fill := GetSliderHeight(props, v);
      var bh := BallHalfHeight(props);
      var pos := PlaceBall(props.height, fill, bh);
      SliderHeightInTrackIf(props, v);
      sliderHeight, ballHeight := fill, pos;
      events := events + [Animate(fill, pos, AnimationDuration(props))];
      value := v;
    }

    /** onPanResponderGrant: remember where the drag starts and show the text; not guarded by disabled. */
    method Grant()
      modifies this`moveStartValue, this`showText
      ensures moveStartValue == value && showText
    {
      moveStartValue := value;
      showText := true;
    }

    /** onPanResponderMove: unless disabled, move to the gesture's value and report it to onChange. */
    method Move(dy: real)
      requires Valid()
      modifies this`value, this`sliderHeight, this`ballHeight, this`events
      ensures props.disabled ==>
                value == old(value) && sliderHeight == old(sliderHeight) &&
                ballHeight == old(ballHeight) && events == old(events)
      ensures !props.disabled ==>
                value == FetchNewValueFromGesture(props, moveStartValue, dy) && Synced() &&
                events == old(events) + [Animate(sliderHeight, ballHeight, AnimationDuration(props))] +
                          (if props.hasOnChange then [Change(value)] else [])
      ensures !props.disabled && props.Stepped() ==> props.min <= value <= props.max
    {
      if props.disabled {
        return;
      }
      var v := FetchNewValueFromGesture(props, moveStartValue, dy);
      if props.Stepped() { SteppedInRange(props, moveStartValue, dy); }
      ChangeState(v);
      if props.hasOnChange {
        events := events + [Change(v)];
      }
    }

    /**
     * onPanResponderRelease: unless disabled, move to the gesture's value;
     * when onComplete is set, report the value and hide the text.
     */
    method Release(dy: real)
      requires Valid()
      modifies this`value, this`sliderHeight, this`ballHeight, this`events, this`showText
      ensures props.disabled ==>
                value == old(value) && sliderHeight == old(sliderHeight) &&
                ballHeight == old(ballHeight) && events == old(events) && showText == old(showText)
      ensures !props.disabled ==>
                value == FetchNewValueFromGesture(props, moveStartValue, dy) && Synced() &&
                events == old(events) + [Animate(sliderHeight, ballHeight, AnimationDuration(props))] +
                          (if props.hasOnComplete then [Complete(value)] else [])
      ensures showText == (old(showText) && !(!props.disabled && props.hasOnComplete))
      ensures !props.disabled && props.Stepped() ==> props.min <= value <= props.max
    {
      if props.disabled {
        return;
      }
      var v := FetchNewValueFromGesture(props, moveStartValue, dy);
      if props.Stepped() { SteppedInRange(props, moveStartValue, dy); }
      ChangeState(v);
      if props.hasOnComplete {
        events := events + [Complete(v)];
        showText := false;
      }
    }

    /**
     * onPanResponderTerminate: as Release, except that the text is never
     * hidden.
     */
    method Terminate(dy: real)
      requires Valid()
      modifies this`value, this`sliderHeight, this`ballHeight, this`events
      ensures props.disabled ==>
                value == old(value) && sliderHeight == old(sliderHeight) &&
                ballHeight == old(ballHeight) && events == old(events)
      ensures !props.disabled ==>
                value == FetchNewValueFromGesture(props, moveStartValue, dy) && Synced() &&
                events == old(events) + [Animate(sliderHeight, ballHeight, AnimationDuration(props))] +
                          (if props.hasOnComplete then [Complete(value)] else [])
      ensures !props.disabled && props.Stepped() ==> props.min <= value <= props.max
    {
      if props.disabled {
        return;
      }
      var v := FetchNewValueFromGesture(props, moveStartValue, dy);
      if props.Stepped() { SteppedInRange(props, moveStartValue, dy); }
      ChangeState(v);
      if props.hasOnComplete {
        events := events + [Complete(v)];
      }
    }

    /** componentDidMount: apply the prop value, unless it is 0 (falsy). */
    method DidMount()
      requires Valid()
      modifies this`value, this`sliderHeight, this`ballHeight, this`events
      ensures props.value == 0.0 ==>
                value == old(value) && sliderHeight == old(sliderHeight) &&
                ballHeight == old(ballHeight) && events == old(events)
      ensures props.value != 0.0 ==>
                value == props.value && Synced() &&
                events == old(events) + [Animate(sliderHeight, ballHeight, AnimationDuration(props))]
    {
      if props.value != 0.0 {
        ChangeState(props.value);
      }
    }
  }

  lemma SliderHeightInTrackIf(p: Props, value: real)
    requires p.Valid()
    ensures p.min <= value <= p.max ==> 0.0 <= GetSliderHeight(p, value) <= p.height
  {
    if p.min <= value <= p.max { SliderHeightInTrack(p, value); }
  }

  /**
   * A mounted slider with value 0 over a range whose min is below 0 keeps an empty fill,
   * although 0 lies above min: mounting skips the falsy value.
   */
  method MountAtZero(p: Props) returns (s: VerticalSlider)
    requires p.Valid() && p.value == 0.0 && p.min < 0.0
    ensures s.sliderHeight == 0.0 && s.sliderHeight < GetSliderHeight(p, s.value)
  {
    s := new VerticalSlider(p);
    s.DidMount();
    SliderHeightEndpoints(p);
    SliderHeightIncreasing(p, p.min, 0.0);
  }

  /**
   * A gesture session on a stepped slider: a tap (grant, then release
   * without moving) leaves an in-range value where it was, and whether the
   * text is hidden afterwards depends on onComplete alone.
   */
  method TapSession(p: Props)
    requires p.Valid() && p.Stepped() && !p.disabled
    requires p.min <= p.value <= p.max && p.value != 0.0
  {
    var s := new VerticalSlider(p);
    s.DidMount();
    s.Grant();
    assert s.showText && s.moveStartValue == p.value;
    s.Release(0.0);
    SteppedZeroDrag(p, p.value);
    assert s.value == p.value;
    assert s.showText == !p.hasOnComplete;
  }
}
