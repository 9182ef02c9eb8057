# Vertical slider: gesture, geometry, colour and lifecycle model

This project models the logic inside the `VerticalSlider` component of a React Native vertical slider (src/VerticalSlider.js). Four parts are modelled:

- how a vertical drag (`gestureState.dy`) and the value captured when the drag started become a new value, with or without a `step`;
- how a value becomes the height of the filled part of the track, and where the ball indicator is placed for that height;
- how the ball's colour is chosen from an override colour or a bucket of the gradient list;
- the gesture lifecycle (grant, move, release, terminate) and mounting, as a class whose methods update `value`, `_moveStartValue`, `showText`, the targets of the two animated values, and a log of the calls made to code outside the widget.

Numbers are exact reals. `Math.floor` is `.Floor`, and `Math.round(x)` is `floor(x + 1/2)`, so halves round towards +infinity. The props are an immutable record. An optional number that the component only tests for truthiness (`step`, `ballIndicatorWidth`, `animationDuration`) is 0 when absent, because 0 and an absent value take the same branch. An absent `ballIndicatorColor` is the empty string. `minimumTrackTintColor` is an `Option`, because an empty array is truthy in JavaScript while a missing one falls back to `['#000000']`. The callbacks are modelled only by whether they are present. Their calls are `Change` and `Complete` entries in the slider's event log, next to an `Animate` entry holding the two animation targets and the duration.

`_moveStartValue` starts as `null`. JavaScript's `+` reads `null` as 0, so the model starts it at 0.

Quirks of the code that the model keeps:

- The value is kept in [min, max] only when a stepped gesture produces it (`SteppedInRange`). The prop value stored at construction and at mount is not clamped, with or without a step.
- Without a step, a gesture's value is not clamped above (`UnsteppedExceedsMax`). After truncation it can fall below min (`UnsteppedBelowMin`).
- A stepped gesture moves the drag's start value by whole steps (`SteppedOnGrid`), so the values lie on a grid through the start value, not through min.
- The colour bucket uses `value / (max - min)`, not `(value - min) / (max - min)`. Over a range that does not start at 0, a value inside the range can fall outside every bucket (`ColorOffsetRange`).
- Mounting skips a prop value of 0, because 0 is falsy. A slider mounted at 0 over a range whose min is below 0 keeps an empty fill (`MountAtZero`).

## Model

| member | source | states |
|---|---|---|
| JsMath.Floor | src/VerticalSlider.js:116 | `Math.floor` gives the integer r with r <= x < r + 1 |
| JsMath.Round | src/VerticalSlider.js:111 | `Math.round` gives an integer within one half of x, with halves going up: x - 1/2 < r <= x + 1/2 |
| JsMath.Max | src/VerticalSlider.js:107-115 | `Math.max` gives one of its two arguments, and that one is at least both |
| JsMath.Min | src/VerticalSlider.js:109 | `Math.min` gives one of its two arguments, and that one is at most both |
| Slider.ScaledDelta | src/VerticalSlider.js:104-105 | ratio*diff with ratio = -dy/height; no drag gives 0 |
| Slider.SteppedTarget | src/VerticalSlider.js:111 | the stepped value before clamping, start + round(ratio*diff/step)*step; its properties are in SteppedTargetNear and SteppedTargetMonotone |
| Slider.SteppedTargetNear | src/VerticalSlider.js:111 | the stepped value before clamping lies within half a step of start + ratio*diff, for either sign of step |
| Slider.FetchNewValueFromGesture | src/VerticalSlider.js:102-117 | `_fetchNewValueFromGesture`: with a step the result lies in [min, max]; without one it is a whole number of hundredths above min - 1/100 |
| Slider.SteppedInRange | src/VerticalSlider.js:106-113 | with a non-zero step, every drag from any start value gives a value in [min, max] |
| Slider.SteppedOnGrid | src/VerticalSlider.js:106-113 | with a step, some k is the whole number of steps nearest the scaled drag; the result is start + k*step when that lies in [min, max], min when it is below, and max when it is above |
| Slider.UnsteppedTruncates | src/VerticalSlider.js:115-116 | without a step, the result is a whole number of hundredths c/100, lying within 1/100 below max(min, start + scaled drag) |
| Slider.UnsteppedExceedsMax | src/VerticalSlider.js:115-116 | without a step, a drag whose raw value reaches max + 1/100 gives a result above max: there is no upper clamp |
| Slider.UnsteppedBelowMin | src/VerticalSlider.js:115-116 | without a step, a drag whose raw value is at or below min gives a result below min when min is not a whole number of hundredths |
| Slider.ScaledDeltaAntitone | src/VerticalSlider.js:104-105 | the scaled drag ratio*diff does not grow as dy grows, for a positive height and max > min |
| Slider.SteppedTargetMonotone | src/VerticalSlider.js:111 | the stepped value before clamping does not shrink as the drag goes further up, for either sign of step |
| Slider.SteppedMonotone | src/VerticalSlider.js:106-113 | with a step, a smaller dy never gives a smaller value |
| Slider.UnsteppedMonotone | src/VerticalSlider.js:115-116 | without a step, a smaller dy never gives a smaller value |
| Slider.GestureMonotone | src/VerticalSlider.js:102-117 | on both paths the new value does not increase as dy increases |
| Slider.SteppedZeroDrag | src/VerticalSlider.js:106-113 | with a step and no drag, a start value in [min, max] comes back unchanged |
| Slider.UnsteppedZeroDrag | src/VerticalSlider.js:115-116 | without a step and no drag, a start value at or above min that is a whole number of hundredths comes back unchanged |
| Slider.SteppedScenario | src/VerticalSlider.js:102-113 | min 0, max 100, step 10, height 100: from 50, a drag of 30 pixels up gives 80 |
| Slider.UnsteppedScenario | src/VerticalSlider.js:102-116 | without a step, from 20.345 a drag worth 5.129 gives 25.47 |
| Slider.GetSliderHeight | src/VerticalSlider.js:119-122 | `_getSliderHeight`: the fill height is 0 for min and the whole height for max |
| Slider.SliderHeightEndpoints | src/VerticalSlider.js:119-122 | the fill height is 0 at min and the full track height at max |
| Slider.SliderHeightLinear | src/VerticalSlider.js:119-122 | the difference of two fill heights is the difference of the values times height / (max - min) |
| Slider.SliderHeightIncreasing | src/VerticalSlider.js:119-122 | a strictly larger value gives a strictly taller fill |
| Slider.SliderHeightInTrack | src/VerticalSlider.js:119-122 | a value in [min, max] gives a fill height in [0, height] |
| Slider.SliderHeightInverse | src/VerticalSlider.js:119-122 | the value is recovered from its fill height as min + h*(max - min)/height |
| Slider.BallHalfHeight | src/VerticalSlider.js:128 | half the ball size is never 0, and it is positive for any non-negative ballIndicatorWidth, because an absent or 0 width falls back to 48 |
| Slider.BallPosition | src/VerticalSlider.js:127-135 | the ball position that `_changeState` computes; it lies in [0, height - bh] when 0 <= bh <= height |
| Slider.PlaceBall | src/VerticalSlider.js:127-135 | the branch-by-branch ball clamp computes BallPosition, and the position lies in [0, height - bh] when 0 <= bh <= height |
| Slider.BallInTrack | src/VerticalSlider.js:127-135 | for 0 <= bh <= height the ball position lies in [0, height - bh] for every fill height |
| Slider.BallCentredOnFill | src/VerticalSlider.js:133-134 | when bh < fill and fill + bh <= height, the ball's centre (position + bh) is exactly the fill edge |
| Slider.BallMonotone | src/VerticalSlider.js:127-135 | a taller fill never moves the ball down, for 0 <= bh <= height |
| Slider.AnimationDuration | src/VerticalSlider.js:140 | the duration is never 0, because a prop of 0 falls back to 50; any other given duration is used as it is |
| Slider.TrackColors | src/VerticalSlider.js:157-159 | the gradient list, or ['#000000'] when it is missing, so it is empty only when an empty list is given |
| Slider.ColorIndex | src/VerticalSlider.js:160-163 | with n >= 2 colours, the bucket index i satisfies i <= value*(n-1)/(max-min) < i + 1; one colour gives index 0 |
| Slider.ColorIndexZeroBased | src/VerticalSlider.js:160-163 | over [0, max] with n >= 2 colours, every value in the range has an index in [0, n-1], and max has n-1 |
| Slider.FetchBallIndicatorColor | src/VerticalSlider.js:151-177 | `_fetchBallIndicatorColor`: the result is never empty; a set override wins; otherwise it is a colour of the list or black |
| Slider.ColorOverrideWins | src/VerticalSlider.js:154-156 | a non-empty ballIndicatorColor is always the result |
| Slider.ColorBucket | src/VerticalSlider.js:157-176 | with n >= 2 colours, the i-th slice of width (max - min)/(n - 1) counted from 0 picks colour i when that index exists and its colour is non-empty, and black otherwise |
| Slider.ColorDefaultIsBlack | src/VerticalSlider.js:157-159 | with no override and no list, the default list makes the ball black for every value |
| Slider.ColorSingle | src/VerticalSlider.js:160-163 | a one-colour list gives its colour for every value (the division by 100/0 gives index 0) |
| Slider.ColorEmptyListIsBlack | src/VerticalSlider.js:173-176 | an empty list has no bucket, so the ball is black |
| Slider.ColorZeroBasedRange | src/VerticalSlider.js:160-176 | with min = 0 and no empty colour, every value in [0, max] picks a colour from the list, and max picks the last one |
| Slider.ColorScenario | src/VerticalSlider.js:151-176 | three colours over [0, 100]: value 50 picks the second and value 0 the first |
| Slider.ColorOffsetRange | src/VerticalSlider.js:161 | three colours over [100, 200]: value 150 gives black, because the percentage uses value and not value - min |
| Slider.VerticalSlider.constructor | src/VerticalSlider.js:93-99 | the state starts at the prop value, with both animated values at 0, the text hidden, no calls made, and `_moveStartValue` at 0 (null) |
| Slider.VerticalSlider.ChangeState | src/VerticalSlider.js:124-149 | the value is stored at once; the fill target is the value's fill height; the ball target is the clamped ball position, inside [0, height - bh] when the ball fits; one animation with both targets is started |
| Slider.VerticalSlider.Grant | src/VerticalSlider.js:55-58 | the drag's start value becomes the current value and the text is shown, even when disabled |
| Slider.VerticalSlider.Move | src/VerticalSlider.js:59-68 | when disabled nothing changes; otherwise the value becomes the gesture's value (in [min, max] with a step), the targets follow it, and onChange receives that same value when present |
| Slider.VerticalSlider.Release | src/VerticalSlider.js:69-79 | when disabled nothing changes; otherwise as Move, with onComplete receiving the value; the text is hidden only when onComplete is present |
| Slider.VerticalSlider.Terminate | src/VerticalSlider.js:81-90 | when disabled nothing changes; otherwise as Release, but the text is never hidden |
| Slider.VerticalSlider.DidMount | src/VerticalSlider.js:179-184 | a prop value of 0 changes nothing; any other prop value is stored and animated to |
| Slider.MountAtZero | src/VerticalSlider.js:179-184 | a slider mounted at 0 over a range whose min is below 0 keeps an empty fill, shorter than the fill its value calls for |

## Left out

- `render()` and the style sheet (src/VerticalSlider.js:186-313): presentation through the host's views, the gradient view and the touchable; this includes `ballIndicatorPosition`, `ballIndicatorTextColor`, `maximumTrackTintColor`, `width`, `borderRadius`, `showBallIndicator` and `onButtonPress`, which only rendering reads.
- `Animated.timing`, `Animated.parallel` and `Easing`: the host animates over time. The model records only the two targets and the duration handed to it, as an `Animate` event.
- `PanResponder.create`, `onStartShouldSetPanResponder`, `onMoveShouldSetPanResponder` and `onPanResponderTerminationRequest`: the host dispatches gestures. Only the handler bodies are modelled, as methods that the caller invokes in order.
- `onChange` and `onComplete` are calls into code outside the widget. They appear only as entries in the event log.
- `setState` batching: every update is applied immediately and in order, so Grant reads the value the last update stored.
- Props changing between renders: the props are fixed for the life of an instance.
- IEEE-754 arithmetic: rounding error in `floor(v*100)/100`, NaN and infinities are not modelled. All numbers are exact reals, with a track height above 0 and max above min. The one-colour list, where JavaScript divides by 0 and gets index 0 for any finite percentage, is modelled as an explicit branch giving index 0.
- BallInTrack: stated only for a half ball size bh between 0 and the track height. With bh above the height, the first branch (src/VerticalSlider.js:129-130) places the ball at height - bh, below 0. With a negative ballIndicatorWidth, the centring branch (src/VerticalSlider.js:133-134) can place the ball above height - bh.
- BallMonotone: stated only for a half ball size between 0 and the track height, for the same reasons.
- BallPosition: its bound on the position is stated only for a half ball size between 0 and the track height, for the same reasons.
