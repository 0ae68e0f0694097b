/**
 The rest of the fragment shader's `main`: the viewport transform from the
 plane's texture coordinate to a point (a, b) of parameter space, the
 normalisation of the exponent into a palette coordinate, the white/black
 discard test, and the window bounds the component prints from the same
 smoothed knobs.
 */
module Fragment {
  import opened PatternEncoder
  import opened Kernel
  import opened Smoothing
  import opened Palettes
  import opened FrameLoop
  import opened RealFacts

  /** The centre of the texture square, about which the view rotates. */
  const Centre: Vec2 := Vec2(0.5, 0.5)

  function SquaredDistance(a: Vec2, b: Vec2): real
  {
    (a.x - b.x) * (a.x - b.x) + (a.y - b.y) * (a.y - b.y)
  }

  /** Zoom about the centre, then shift by the displacement. */
  function Zoomed(vUv: Vec2, k: Knobs): Vec2
  {
    Vec2((vUv.x - 0.5) * k.zoom + 0.5 + k.displaceX, (vUv.y - 0.5) * k.zoom + 0.5 + k.displaceY)
  }

  /**
   The shader's `mat2(cosR, -sinR, sinR, cosR) * v`. GLSL matrices are
   column-major, so the columns are (cosR, -sinR) and (sinR, cosR).
   */
  function Rotate(v: Vec2, cosR: real, sinR: real): Vec2
  {
    Vec2(cosR * v.x + sinR * v.y, -sinR * v.x + cosR * v.y)
  }

  /** The point of parameter space a fragment at texture coordinate vUv samples. */
  function ViewUv(vUv: Vec2, k: Knobs, cosR: real, sinR: real): Vec2
  {
    var z := Zoomed(vUv, k);
    var r := Rotate(Vec2(z.x - 0.5, z.y - 0.5), cosR, sinR);
    Vec2(r.x + 0.5, r.y + 0.5)
  }

  /** The bounds the component prints: the unrotated image of the texture square. */
  datatype Window = Window(xMin: real, xMax: real, yMin: real, yMax: real)

  function WindowOf(k: Knobs): (w: Window)
    ensures w.xMax - w.xMin == k.zoom && w.yMax - w.yMin == k.zoom
  {
    Window((0.0 - 0.5) * k.zoom + 0.5 + k.displaceX, (1.0 - 0.5) * k.zoom + 0.5 + k.displaceX,
           (0.0 - 0.5) * k.zoom + 0.5 + k.displaceY, (1.0 - 0.5) * k.zoom + 0.5 + k.displaceY)
  }

  /**
   Without rotation the printed window is exactly what the shader samples:
   the corners (0, 0) and (1, 1) of the texture land on (xMin, yMin) and
   (xMax, yMax).
   */
  lemma WindowCorners(k: Knobs)
    ensures ViewUv(Vec2(0.0, 0.0), k, 1.0, 0.0) == Vec2(WindowOf(k).xMin, WindowOf(k).yMin)
    ensures ViewUv(Vec2(1.0, 1.0), k, 1.0, 0.0) == Vec2(WindowOf(k).xMax, WindowOf(k).yMax)
  {
    UnrotatedView(Vec2(0.0, 0.0), k);
    UnrotatedView(Vec2(1.0, 1.0), k);
  }

  /** With a positive zoom and no rotation every point of the texture square is sampled inside the window. */
  lemma ViewInsideWindow(k: Knobs, vUv: Vec2)
    requires 0.0 < k.zoom && 0.0 <= vUv.x <= 1.0 && 0.0 <= vUv.y <= 1.0
    ensures WindowOf(k).xMin <= ViewUv(vUv, k, 1.0, 0.0).x <= WindowOf(k).xMax
    ensures WindowOf(k).yMin <= ViewUv(vUv, k, 1.0, 0.0).y <= WindowOf(k).yMax
  {
    UnrotatedView(vUv, k);
    AxisInWindow(vUv.x, k.zoom, k.displaceX, WindowOf(k).xMin, Zoomed(vUv, k).x, WindowOf(k).xMax);
    AxisInWindow(vUv.y, k.zoom, k.displaceY, WindowOf(k).yMin, Zoomed(vUv, k).y, WindowOf(k).yMax);
  }

  /**
   The panel's initial view samples beyond b = 4: the middle of the top edge
   of the texture lands on (2.87, 4.81), where a 'B' step drives the logistic
   map with r > 4 (see Kernel.EscapeAboveFour).
   */
  lemma DefaultViewReachesAboveFour(deg2rad: real)
    ensures ViewUv(Vec2(0.5, 1.0), Targets(DefaultControls, deg2rad), 1.0, 0.0) == Vec2(2.87, 4.81)
  {
    TargetsOfDefaults(deg2rad);
  }

  /** With rotation 0 the view is the zoomed and displaced point. */
  lemma UnrotatedView(vUv: Vec2, k: Knobs)
    ensures ViewUv(vUv, k, 1.0, 0.0) == Zoomed(vUv, k)
  {
  }

  lemma AxisInWindow(u: real, zoom: real, d: real, lo: real, v: real, hi: real)
    requires 0.0 < zoom && 0.0 <= u <= 1.0
    requires lo == (0.0 - 0.5) * zoom + 0.5 + d && v == (u - 0.5) * zoom + 0.5 + d && hi == (1.0 - 0.5) * zoom + 0.5 + d
    ensures lo <= v <= hi
  {
    ScaleMonotone(-0.5, u - 0.5, zoom);
    ScaleMonotone(u - 0.5, 0.5, zoom);
  }

  lemma ScaleMonotone(a: real, b: real, z: real)
    requires a <= b && 0.0 < z
    ensures a * z <= b * z
  {
    assert b * z - a * z == (b - a) * z;
  }

  /**
   The rotation turns the zoomed point about the centre without changing its
   distance to it, whenever cosR and sinR lie on the unit circle.
   */
  lemma RotationKeepsDistance(vUv: Vec2, k: Knobs, cosR: real, sinR: real)
    requires cosR * cosR + sinR * sinR == 1.0
    ensures SquaredDistance(ViewUv(vUv, k, cosR, sinR), Centre) == SquaredDistance(Zoomed(vUv, k), Centre)
  {
    var z := Zoomed(vUv, k);
    RotationIsometry(z.x - 0.5, z.y - 0.5, cosR, sinR);
  }

  lemma RotationIsometry(x: real, y: real, c: real, s: real)
    requires c * c + s * s == 1.0
    ensures (c * x + s * y) * (c * x + s * y) + (-s * x + c * y) * (-s * x + c * y) == x * x + y * y
  {
    assert (c * x + s * y) * (c * x + s * y) + (-s * x + c * y) * (-s * x + c * y)
        == (c * c + s * s) * (x * x) + (c * c + s * s) * (y * y);
  }

  /** `uNoiseEnabled ? 2.0 * noise(...) : 0.0`, with the noise sample given. */
  function NoiseTerm(enabled: bool, sample: real): real
  {
    if enabled then 2.0 * sample else 0.0
  }

  /**
   `distance(col, vec3(1.0)) < uWhite || distance(col, vec3(0.0)) < uBlack`,
   compared on squared distances so that no square root is needed.
   */
  predicate Discards(col: Color, white: real, black: real)
  {
    (0.0 < white && ColorDistance2(col, Color(1.0, 1.0, 1.0)) < white * white) ||
    (0.0 < black && ColorDistance2(col, Color(0.0, 0.0, 0.0)) < black * black)
  }

  function ColorDistance2(a: Color, b: Color): (d: real)
    ensures 0.0 <= d
  {
    (a.r - b.r) * (a.r - b.r) + (a.g - b.g) * (a.g - b.g) + (a.b - b.b) * (a.b - b.b)
  }

  /**
   The squared test agrees with the shader's: given the two distances dw and
   db (the non-negative square roots), the colour is discarded exactly when
   dw < white or db < black.
   */
  lemma DiscardsMatchesDistance(col: Color, white: real, black: real, dw: real, db: real)
    requires 0.0 <= dw && dw * dw == ColorDistance2(col, Color(1.0, 1.0, 1.0))
    requires 0.0 <= db && db * db == ColorDistance2(col, Color(0.0, 0.0, 0.0))
    ensures Discards(col, white, black) <==> (dw < white || db < black)
  {
    SquareOrder(dw, white);
    SquareOrder(db, black);
  }

  /** For a non-negative d, d < t exactly when t is positive and d^2 < t^2. */
  lemma SquareOrder(d: real, t: real)
    requires 0.0 <= d
    ensures d < t <==> (0.0 < t && d * d < t * t)
  {
    if d < t {
      assert t * t - d * d == (t - d) * (t + d);
      assert 0.0 < (t - d) * (t + d) by { PositiveProduct(t - d, t + d); }
    } else if 0.0 < t {
      assert d * d - t * t == (d - t) * (d + t);
      assert 0.0 <= (d - t) * (d + t) by { NonNegProduct(d - t, d + t); }
    }
  }

  /** What a fragment shows. */
  datatype Outcome = Drawn(color: Color) | Discarded | Unspecified

  /**
   The end of `main`: the exponent plus the noise term, normalised by
   `smoothstep(uLypMin, uLypMax, .)` and coloured by the selected palette,
   discarded near white or black. An undefined exponent, or lypMin not below
   lypMax (where GLSL leaves smoothstep undefined), leaves the fragment
   unspecified.
   */
  function Shade(e: Exponent, noiseEnabled: bool, sample: real, k: Knobs, palette: int, m: Transcendentals): Outcome
  {
    if e.Undefined? || !(k.lypMin < k.lypMax) then Unspecified
    else
      var col := PaletteColorFor(palette, Smoothstep(k.lypMin, k.lypMax, NoiseTerm(noiseEnabled, sample) + e.v), m);
      if Discards(col, k.white, k.black) then Discarded else Drawn(col)
  }

  /**
   A fragment is unspecified exactly when the exponent is undefined or the
   normalisation range is empty; only a positive white or black threshold ever
   discards, so with both at their default 0 every other fragment is drawn; and
   a drawn fragment has the palette's colour at a coordinate inside [0, 1].
   */
  lemma ShadeOutcomes(e: Exponent, noiseEnabled: bool, sample: real, k: Knobs, palette: int, m: Transcendentals)
    ensures Shade(e, noiseEnabled, sample, k, palette, m).Unspecified? <==> e.Undefined? || k.lypMax <= k.lypMin
    ensures Shade(e, noiseEnabled, sample, k, palette, m).Discarded? ==> 0.0 < k.white || 0.0 < k.black
    ensures k.white <= 0.0 && k.black <= 0.0 ==>
      (Shade(e, noiseEnabled, sample, k, palette, m).Drawn? <==> e.Value? && k.lypMin < k.lypMax)
    ensures Shade(e, noiseEnabled, sample, k, palette, m).Drawn? ==>
      exists t :: 0.0 <= t <= 1.0 && Shade(e, noiseEnabled, sample, k, palette, m).color == PaletteColorFor(palette, t, m)
  {
    if Shade(e, noiseEnabled, sample, k, palette, m).Drawn? {
      var t := Smoothstep(k.lypMin, k.lypMax, NoiseTerm(noiseEnabled, sample) + e.v);
      assert Shade(e, noiseEnabled, sample, k, palette, m).color == PaletteColorFor(palette, t, m);
    }
  }

  /** With noise switched off the noise sample has no effect on any fragment. */
  lemma NoiseOffIgnoresSample(e: Exponent, s1: real, s2: real, k: Knobs, palette: int, m: Transcendentals)
    ensures Shade(e, false, s1, k, palette, m) == Shade(e, false, s2, k, palette, m)
  {
  }

  /**
   The normalisation saturates: an exponent (plus noise) at or beyond lypMax
   is shaded as the palette's colour at 1, one at or below lypMin as its
   colour at 0, each discarded or drawn by the thresholds' test on that colour.
   */
  lemma ShadeSaturates(e: Exponent, noiseEnabled: bool, sample: real, k: Knobs, palette: int, m: Transcendentals)
    requires e.Value? && k.lypMin < k.lypMax
    ensures k.lypMax <= NoiseTerm(noiseEnabled, sample) + e.v ==>
      var col := PaletteColorFor(palette, 1.0, m);
      Shade(e, noiseEnabled, sample, k, palette, m) == (if Discards(col, k.white, k.black) then Discarded else Drawn(col))
    ensures NoiseTerm(noiseEnabled, sample) + e.v <= k.lypMin ==>
      var col := PaletteColorFor(palette, 0.0, m);
      Shade(e, noiseEnabled, sample, k, palette, m) == (if Discards(col, k.white, k.black) then Discarded else Drawn(col))
  {
  }

  /** With the Hot palette every drawn fragment lies inside the unit colour cube. */
  lemma HotShadeInUnitCube(e: Exponent, noiseEnabled: bool, sample: real, k: Knobs, m: Transcendentals)
    ensures Shade(e, noiseEnabled, sample, k, PaletteId(Hot), m).Drawn? ==>
      var c := Shade(e, noiseEnabled, sample, k, PaletteId(Hot), m).color;
      0.0 <= c.r <= 1.0 && 0.0 <= c.g <= 1.0 && 0.0 <= c.b <= 1.0
  {
    if Shade(e, noiseEnabled, sample, k, PaletteId(Hot), m).Drawn? {
      HotInUnitCube(Smoothstep(k.lypMin, k.lypMax, NoiseTerm(noiseEnabled, sample) + e.v));
    }
  }

  /**
   On the panel's initial controls the kernel is defined everywhere (pattern
   AAABB, 100 iterations), as written and corrected alike, lypMin is below
   lypMax and both thresholds are 0, so no fragment is discarded or
   unspecified: every fragment is drawn.
   */
  lemma DefaultsDrawEverywhere(coord: Vec2, log: real -> real, sample: real, deg2rad: real, m: Transcendentals)
    ensures var c := DefaultControls;
      Shade(ExponentOf(coord, Slots(c.pattern), PatternLength(c.pattern), c.iterMax, log),
            c.noiseEnabled, sample, Targets(c, deg2rad), c.palette, m).Drawn?
    ensures var c := DefaultControls;
      Shade(MeanExponent(coord, Slots(c.pattern), PatternLength(c.pattern), c.iterMax, log),
            c.noiseEnabled, sample, Targets(c, deg2rad), c.palette, m).Drawn?
  {
    var c := DefaultControls;
    ExponentDefinedIff(coord, c.pattern, c.iterMax, log);
    ShadeOutcomes(ExponentOf(coord, Slots(c.pattern), PatternLength(c.pattern), c.iterMax, log),
                  c.noiseEnabled, sample, Targets(c, deg2rad), c.palette, m);
    MeanExponentDefinedIff(coord, c.pattern, c.iterMax, log);
    ShadeOutcomes(MeanExponent(coord, Slots(c.pattern), PatternLength(c.pattern), c.iterMax, log),
                  c.noiseEnabled, sample, Targets(c, deg2rad), c.palette, m);
  }
}
