# Lyapunov2D in Dafny

A model of the core of `Lyapunov2D`, a React/three.js component. It draws the
Lyapunov fractal of the logistic map x ↦ r·x·(1−x) on a plane. The map is
driven by a pattern over the letters A and B: step i uses r = a when the
pattern's letter i is 'A' and r = b when it is 'B'. Each pixel is one point
(a, b) of parameter space. A fragment shader estimates the map's Lyapunov
exponent there, normalises it and colours it with one of seven palettes.

The model has seven modules:

- `PatternEncoder` (`pattern.dfy`): the encoding of the pattern string into
  the shader's 32-slot `uArray` and the length uniform `uPatternLength`.
- `Kernel` (`kernel.dfy`): the shader's `lyapunov` loop.
  - It models which slot each pass reads, which coordinate drives the map,
    how many passes run and what the sum is divided by.
  - The logistic step is kept exactly, over the reals.
  - `log` is a parameter.
  - Undefined GLSL behaviour is the `Undefined` result. This covers `mod` by a
    zero length, a read of `uArray` past slot 31, and division by a zero
    `uIterMax`.
- `Smoothing` (`smoothing.dfy`): the per-frame smoother. It moves eight knobs
  a tenth of the way toward their targets, and it covers what repeated frames
  do.
- `Palettes` (`palettes.dfy`): the seven palettes, `smoothstep`, and
  `getPaletteColor`'s dispatch on the integer `uPalette`.
- `FrameLoop` (`frame.dfy`): the component's mutable state as classes.
  - `Uniforms` holds the uniform block, with `uArray` as an `array<real>`.
  - `Lyapunov2D` holds the smoothed knobs, the held clock value and the
    attached flag.
  - The frame callback is the method `Tick`. It writes the buffer with a loop
    over all 32 slots.
- `RealFacts` (`realfacts.dfy`): sign and division facts about real
  products that the nonlinear proofs cite by name.
- `Fragment` (`fragment.dfy`): the rest of the shader's `main`.
  - It covers the viewport transform, the noise switch, the `smoothstep`
    normalisation, the palette lookup and the white/black discard test.
  - It also covers the window bounds the component prints from the same
    smoothed knobs.

## Behaviour as coded

The model follows the code wherever its behaviour could be taken for
something else:

- `uPatternLength` is the full letter count. It is not truncated to 32, and it
  is 0 for an empty pattern. Letters past the 32nd never reach the buffer.
- `uIterMax` is used as it is. There is no clamp before the division, so 0
  leaves the result undefined.
- The argument of `log` is `abs(r − 2 r x)`. There is no clamp away from 0:
  `log` receives it unchanged.
- The hot palette does not clamp t, unlike the other six. In the program this
  cannot be seen: `getPaletteColor` only ever receives a `smoothstep` result,
  which lies in [0, 1] (`Fragment.ShadeOutcomes`), and there hot and the
  clamping palettes behave as if no clamp were needed.
- Rotation is smoothed in radians with no wrap-around at 360°. A target across
  the 0/360 boundary is approached the long way, since every knob moves
  monotonically between its value and its target.

## Model

| member | source | states |
|---|---|---|
| PatternEncoder.Weights | src/Lyapunov2D.jsx:283 | one weight per letter; weight i is 1.0 exactly when letter i is 'B', and 0.0 exactly when it is not (lower-case 'b' included) |
| PatternEncoder.PatternLength | src/Lyapunov2D.jsx:287 | the length uniform is the number of weights, i.e. the untruncated letter count |
| PatternEncoder.SlotsAt | src/Lyapunov2D.jsx:284-286 | slot i of the buffer is 1.0 exactly when i < \|p\| and p[i] is 'B', else 0.0 (slots past the pattern are zero-filled) |
| PatternEncoder.SlotsAreBinary | src/Lyapunov2D.jsx:283-286 | every one of the 32 slots holds 0.0 or 1.0, so `mix` picks one endpoint |
| PatternEncoder.SlotsDropOverflow | src/Lyapunov2D.jsx:284-287 | for a pattern longer than 32 the buffer equals that of its first 32 letters, while the length still exceeds 32 |
| PatternEncoder.LettersOfSlots | src/Lyapunov2D.jsx:283-287 | an A/B pattern of at most 32 letters is recovered exactly from the buffer and the length (round trip) |
| FrameLoop.Uniforms.constructor | src/Lyapunov2D.jsx:222-237 | the uniform block built on mount: time 0, the raw knob values with rotation in radians, the copied integer and boolean controls, an all-zero 32-slot buffer and the initial pattern's length |
| FrameLoop.Uniforms.LoadPattern | src/Lyapunov2D.jsx:283-287 | after the 32-pass loop the buffer is exactly the encoding of the pattern, whatever it held before, and the length is \|p\|; no other uniform changes |
| FrameLoop.Lyapunov2D.constructor | src/Lyapunov2D.jsx:239-248 | the smoother starts at the raw controls with rotation converted by degToRad, the held time at 0, and the uniforms agree with it |
| FrameLoop.Lyapunov2D.Attach | src/Lyapunov2D.jsx:251 | the uniforms become reachable; knobs and time are unchanged |
| FrameLoop.Lyapunov2D.Tick | src/Lyapunov2D.jsx:250-289 | with no uniforms nothing changes; otherwise time follows the clock only when animateTime is set, each knob takes one smoothing step toward its control, `uTime` and the eight knob uniforms equal the new state, iterMax/palette/noise are copied, and the buffer and length encode the pattern |
| FrameLoop.TargetsOfDefaults | src/Lyapunov2D.jsx:239-247 | `Targets` of the panel's initial controls are the knobs (2.04, 2.37, 3.29, 0, 0, −1, 1, 0), rotation 0 for any conversion factor |
| FrameLoop.HeldControlsConverge | src/Lyapunov2D.jsx:260-268 | with the controls held still, each smoothed knob (zoom and rotation shown) stays between its start and its target and reaches the target only if it started there |
| Smoothing.Lerp | src/Lyapunov2D.jsx:260-261 | three.js `lerp` moves x toward y by the fraction t of the gap: x at t = 0, y at t = 1 |
| Smoothing.Approach | src/Lyapunov2D.jsx:260-268 | one frame shrinks each of the eight knobs' gaps to their own targets to 0.9 of what it was, so the knobs land on their targets exactly when they were already there |
| Smoothing.Ease | src/Lyapunov2D.jsx:260-268 | one lerp step with factor 0.1: the gap to the target shrinks by exactly 0.9, the new value lies between the old value and the target, and a knob at its target stays there |
| Smoothing.ApproachFixedPoint | src/Lyapunov2D.jsx:260-268 | knobs equal to their targets are left unchanged by a frame |
| Smoothing.GlideGeometric | src/Lyapunov2D.jsx:260-268 | after n frames with a constant target the signed gap is 0.9^n times the initial gap |
| Smoothing.ScaledGapBetween | src/Lyapunov2D.jsx:260-268 | a knob whose gap to its target is the starting gap scaled by a factor in (0, 1] lies between its start and the target, and sits on the target only if it started there |
| Smoothing.GlideConverges | src/Lyapunov2D.jsx:260-268 | no overshoot in either direction, and the target is reached after n frames exactly when the start was the target |
| Smoothing.SettleGlides | src/Lyapunov2D.jsx:260-268 | n frames of the whole smoother act on each of the eight knobs independently |
| Kernel.Lyapunov | src/Lyapunov2D.jsx:126-137 | the shader's loop (10000 passes, break once i > uIterMax) returns exactly the specification ExponentOf, undefined cases included |
| Kernel.OrbitInUnit | src/Lyapunov2D.jsx:127-133 | with both coordinates in [0, 4] and every slot in [0, 1], the orbit `XAfter` that starts at 0.5 stays in [0, 1] for any number of passes |
| Kernel.MixBetween | src/Lyapunov2D.jsx:132 | `mix` with a weight in [0, 1] stays between any bounds of its two ends |
| Kernel.LogisticInUnit | src/Lyapunov2D.jsx:133 | for r in [0, 4] the step r·x·(1 − x) maps [0, 1] into itself |
| Kernel.EscapeAboveFour | src/Lyapunov2D.jsx:133 | for r > 4 the step from 0.5 lands above 1, the next one below 0, and from any negative x every step falls further |
| Kernel.Pass | src/Lyapunov2D.jsx:131-134 | one pass advances x to the next orbit point and adds that pass's log term to the sum |
| Kernel.PassUnfolds | src/Lyapunov2D.jsx:133-134 | the orbit and the log-term sequence each grow by exactly one step per pass |
| Kernel.Iterations | src/Lyapunov2D.jsx:129-130 | at most 10000 passes run, and none for a negative uIterMax |
| Kernel.PassRunsIff | src/Lyapunov2D.jsx:129-130 | below the 10000 cap, pass i runs exactly when i <= uIterMax, so the loop makes uIterMax + 1 passes rather than uIterMax |
| Kernel.StepsInRangeIff | src/Lyapunov2D.jsx:131-132 | the slot reads of n passes are all defined exactly when n = 0, or the length is positive and either fits the buffer or the loop stops before slot \|slots\| |
| Kernel.RatePeriodic | src/Lyapunov2D.jsx:131-132 | the index i mod len lies in [0, len) and the chosen parameter repeats with period len |
| Kernel.ForcingFollowsPattern | src/Lyapunov2D.jsx:131-132 | of `Rate`: for a pattern of 1 to 32 letters every read is defined, and pass i drives the map with coord.y exactly when letter i mod \|p\| is 'B', otherwise with coord.x |
| Kernel.ExponentDefinedIff | src/Lyapunov2D.jsx:126-137 | the result for a pattern's buffer has a value exactly when uIterMax < 0, or uIterMax ≥ 1 with a non-empty pattern that fits 32 slots or a loop that stops before slot 32 |
| Kernel.SumLogsBounds | src/Lyapunov2D.jsx:134 | when each of the n summed log terms lies in [lo, hi] (only those terms are constrained, not `log` everywhere), the sum lies in [n·lo, n·hi] |
| Kernel.LogArgsAt | src/Lyapunov2D.jsx:133-134 | entry j of the log-argument sequence of n passes is exactly the argument pass j hands to `log` |
| Kernel.ExponentOfOvercounts | src/Lyapunov2D.jsx:129-136 | as written, uIterMax = 1 with pattern "A" and every log term 1 yields 2, not the mean 1 |
| Kernel.MeanSteps | src/Lyapunov2D.jsx:129-130 | the corrected pass count is uIterMax itself for 1 ≤ uIterMax ≤ 10000, never above 10000 |
| Kernel.MeanExponentBounded | src/Lyapunov2D.jsx:136 | the corrected exponent is a true mean: when every log term of the passes that run lies in [lo, hi], so does the exponent |
| Kernel.MeanOfBounded | src/Lyapunov2D.jsx:136 | the mean of a non-empty sequence of log terms, each in [lo, hi], lies in [lo, hi] |
| Kernel.ExponentsDifferByLastTerm | src/Lyapunov2D.jsx:129-136 | for 1 ≤ uIterMax < 10000, wherever the shader's value is defined, the corrected mean is too, and the shader's value exceeds it by exactly the extra pass's log term over uIterMax |
| Kernel.MeanExponentDefinedIff | src/Lyapunov2D.jsx:129-136 | the corrected mean has a value exactly when uIterMax ≥ 1 and the pattern is non-empty and fits 32 slots or uIterMax ≤ 32 |
| Palettes.PastelIsFallback | src/Lyapunov2D.jsx:100-108 | of `PaletteFor`, the dispatch of `getPaletteColor`: pastel is chosen exactly for ids outside 0..5 (6 and out-of-range ids alike), and ids 0..5 select the palette of that option value |
| Palettes.PaletteForId | src/Lyapunov2D.jsx:206-215 | every option of the palette control selects the palette it names |
| Palettes.PaletteColorForOption | src/Lyapunov2D.jsx:100-108 | `PaletteColorFor` (`getPaletteColor`) with a palette's option value gives that palette's colour |
| Palettes.RainbowInUnitCube | src/Lyapunov2D.jsx:40-46 | with cos in [−1, 1], every rainbow channel 0.5 + 0.5·cos(…) lies in [0, 1] |
| Palettes.TurboInUnitCube | src/Lyapunov2D.jsx:56-63 | with sin in [−1, 1], every turbo channel 0.5 + 0.5·sin(…) lies in [0, 1] |
| Palettes.InfernoRange | src/Lyapunov2D.jsx:74-80 | inferno's red lies in [0, 0.9] and its blue is 0.8·(1 − clamp(t)); with the square root in [0, 1] on [0, 1], its green lies in [0, 0.6] |
| Palettes.CoolWarmBalanced | src/Lyapunov2D.jsx:82-89 | coolwarm's red is clamp(t, 0, 1) and red plus blue is always 1; with sin in [−1, 1] green lies in [−0.5, 0.5] |
| Palettes.PastelRange | src/Lyapunov2D.jsx:91-98 | with sin in [−1, 1], pastel's channels lie in [0.6, 1], [0.4, 1] and [0.2, 1] |
| Palettes.Smoothstep | src/Lyapunov2D.jsx:49-51 | for e0 < e1 the cubic step lies in [0, 1], is 0 up to e0 and 1 from e1 on |
| Palettes.ClampedPalettesIgnoreRange | src/Lyapunov2D.jsx:40-98 | every palette except hot gives t and clamp(t, 0, 1) the same colour |
| Palettes.HotBlackBelowZero | src/Lyapunov2D.jsx:48-54 | hot is black for t ≤ 0 |
| Palettes.HotGreyAboveOne | src/Lyapunov2D.jsx:48-54 | for t ≥ 1 hot is the grey 0.5 + 0.5t, white at t = 1 |
| Palettes.HotUnclamped | src/Lyapunov2D.jsx:48-54 | for t > 1 hot is brighter than white and differs from every colour hot gives on [0, 1] |
| Palettes.HotInUnitCube | src/Lyapunov2D.jsx:48-54 | on [0, 1] every channel of hot lies in [0, 1] |
| Palettes.ViridisLeavesUnitCube | src/Lyapunov2D.jsx:65-72 | viridis runs from (0.267, 0.004, 0.329) to (0.531, −0.315, 0.293), so its green channel is negative at t = 1 |
| Fragment.UnrotatedView | src/Lyapunov2D.jsx:140-149 | with rotation 0 the point `ViewUv` samples is the zoomed and displaced texture coordinate `Zoomed` |
| Fragment.RotationIsometry | src/Lyapunov2D.jsx:144-148 | `Rotate`, the column-major `mat2(cosR, -sinR, sinR, cosR)` product, preserves squared length when cosR² + sinR² = 1 |
| Fragment.RotationKeepsDistance | src/Lyapunov2D.jsx:144-149 | the rotation about (0.5, 0.5) keeps the sampled point's distance to the centre when cos² + sin² = 1 |
| Fragment.DefaultViewReachesAboveFour | src/Lyapunov2D.jsx:140-142 | on the panel's initial view the middle of the texture's top edge samples (2.87, 4.81), a b above 4 |
| Fragment.WindowOf | src/Lyapunov2D.jsx:299-302 | the printed window is zoom wide and zoom high |
| Fragment.WindowCorners | src/Lyapunov2D.jsx:299-302 | without rotation the texture corners (0, 0) and (1, 1) are sampled at (xMin, yMin) and (xMax, yMax) |
| Fragment.ViewInsideWindow | src/Lyapunov2D.jsx:299-302 | with positive zoom and no rotation every texture point is sampled inside the printed window |
| Fragment.DiscardsMatchesDistance | src/Lyapunov2D.jsx:155 | `Discards`, the squared-distance test, discards exactly when the distance to white is below uWhite or the distance to black is below uBlack |
| Fragment.ShadeOutcomes | src/Lyapunov2D.jsx:151-159 | of `Shade`, the end of `main`: a fragment is unspecified exactly when the exponent is undefined or lypMin ≥ lypMax; only positive thresholds discard, so with both ≤ 0 every defined fragment is drawn; a drawn colour is the palette's colour at some t in [0, 1] |
| Fragment.NoiseOffIgnoresSample | src/Lyapunov2D.jsx:151 | with noise off the noise sample has no effect on the fragment |
| Fragment.ShadeSaturates | src/Lyapunov2D.jsx:151-159 | for any thresholds, an exponent plus noise at or beyond lypMax is shaded as the palette colour at 1, and one at or below lypMin as the colour at 0, each discarded exactly when the white/black test rejects that colour |
| Fragment.HotShadeInUnitCube | src/Lyapunov2D.jsx:152-153 | with the hot palette every drawn colour lies inside the unit cube |
| Fragment.DefaultsDrawEverywhere | src/Lyapunov2D.jsx:195-220 | on the panel's initial controls (AAABB, 100 iterations, thresholds 0) every fragment is drawn, with the exponent as written and as corrected |

## Left out

- `log`, `sin`, `cos` and `pow(t, 0.5)` are transcendental. They are function
  parameters (`log`, the `Transcendentals` record). The rotation's cosine and
  sine are plain parameters. So the rainbow, turbo, inferno, coolwarm and
  pastel colours are stated only up to those functions.
- `degToRad` is a multiplication by the parameter `deg2rad`. The value π/180
  is not modelled.
- `rand` and `noise` depend on float rounding (`fract(sin(...) * 43758.5453)`).
  The noise term takes its sample as a parameter.
- All arithmetic is over the reals. Left out are the IEEE-754 rounding of
  `lerp`, of the logistic step and of GLSL `mod` on floats, which is taken as
  an exact integer `mod`. Rounding could make `r * x * (1 - x)` or the smoother
  differ from the real-number values. Also left out is float overflow to
  infinity. Once r > 4 pushes the orbit out of [0, 1] (`Kernel.EscapeAboveFour`;
  the initial view samples b up to 4.81), the float orbit overflows to −∞ and
  `log(abs(...))` becomes +∞, whereas the reals stay finite.
- The clock is the parameter `elapsed` of `Tick`.
- The render loop that calls the frame callback is not modelled. Neither is
  React's re-rendering, which supplies fresh control values each frame:
  `Tick` receives them as a `Controls` value.
- `downloadSnapshot` (DOM queries, html2canvas, file download) is left out. So
  are the JSX scene, the `Line`/`Html` overlay, the `infoText` formatting with
  `toFixed`, and the leva panel's ranges and steps. Of the panel only its
  initial values (`DefaultControls`) and the palette option values are kept.
- The vertex shader, the GPU's per-pixel parallel evaluation, and
  `src/index.jsx` (the React root and Canvas setup) are not part of this model.
- `split('')` splits a JavaScript string into UTF-16 code units. The model
  counts Dafny characters, so a pattern containing characters outside the
  Basic Multilingual Plane would have a different length.
- Fragment.DiscardsMatchesDistance: the square root is not modelled. The lemma
  takes the two distances as given non-negative roots of the squared
  distances.
- FrameLoop.HeldControlsConverge: it spells out zoom and rotation only. The
  other six knobs follow from Smoothing.SettleGlides and
  Smoothing.GlideConverges in the same way.

## Findings

| source | as written | input that shows it | evidently intended | confidence | as-written member | corrected member |
|---|---|---|---|---|---|---|
| src/Lyapunov2D.jsx:129-136 | the loop runs passes i = 0 .. uIterMax (uIterMax + 1 of them, at most 10000) and divides their sum by uIterMax | uIterMax = 1, pattern "A", every log term equal to 1: the result is 2 instead of the mean 1 | the sum over passes i = 0 .. uIterMax − 1 divided by the number of passes, i.e. the mean log term | not executed | Kernel.ExponentOfOvercounts | Kernel.MeanExponentBounded |
