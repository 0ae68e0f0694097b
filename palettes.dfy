/**
 The seven colour palettes of the fragment shader and `getPaletteColor`,
 which picks one by the integer `uPalette`. The polynomial palettes are exact
 over the reals; `sin`, `cos` and `pow(t, 0.5)` are supplied as functions.
 */
module Palettes {
  import opened RealFacts

  datatype Color = Color(r: real, g: real, b: real)

  /** The transcendental functions the palettes call, left uninterpreted. */
  datatype Transcendentals = Transcendentals(sin: real -> real, cos: real -> real, sqrt: real -> real)

  datatype Palette = Rainbow | Hot | Turbo | Viridis | Inferno | CoolWarm | Pastel

  /** `getPaletteColor`'s chain of tests on `uPalette`: ids 0 to 5 in order, everything else Pastel. */
  function PaletteFor(id: int): Palette
  {
    if id == 0 then Rainbow
    else if id == 1 then Hot
    else if id == 2 then Turbo
    else if id == 3 then Viridis
    else if id == 4 then Inferno
    else if id == 5 then CoolWarm
    else Pastel
  }

  /** The option values of the palette control. */
  function PaletteId(p: Palette): int
  {
    match p
    case Rainbow => 0
    case Hot => 1
    case Turbo => 2
    case Viridis => 3
    case Inferno => 4
    case CoolWarm => 5
    case Pastel => 6
  }

  /** Every option of the control selects the palette it names. */
  lemma PaletteForId(p: Palette)
    ensures PaletteFor(PaletteId(p)) == p
  {
  }

  /** Pastel is the fallback: it is chosen exactly for the ids outside 0..5, 6 and out-of-range ids alike. */
  lemma PastelIsFallback(id: int)
    ensures PaletteFor(id) == Pastel <==> !(0 <= id <= 5)
    ensures 0 <= id <= 5 ==> PaletteId(PaletteFor(id)) == id
  {
  }

  /** GLSL `clamp(x, lo, hi)`. */
  function Clamp(x: real, lo: real, hi: real): real
  {
    if x < lo then lo else if x > hi then hi else x
  }

  /** Clamping to [0, 1] is idempotent. */
  lemma ClampIdempotent(t: real)
    ensures Clamp(Clamp(t, 0.0, 1.0), 0.0, 1.0) == Clamp(t, 0.0, 1.0)
  {
  }

  /**
   GLSL `smoothstep(e0, e1, x)` for e0 < e1: the cubic Hermite step. It stays
   in [0, 1], is 0 up to e0 and 1 from e1 on.
   */
  function Smoothstep(e0: real, e1: real, x: real): (s: real)
    requires e0 < e1
    ensures 0.0 <= s <= 1.0
    ensures x <= e0 ==> s == 0.0
    ensures e1 <= x ==> s == 1.0
  {
    RampEnds(x, e0, e1);
    Hermite(Clamp((x - e0) / (e1 - e0), 0.0, 1.0))
  }

  /** u^2 (3 - 2u), which maps [0, 1] into [0, 1] and fixes both ends. */
  function Hermite(u: real): (h: real)
    requires 0.0 <= u <= 1.0
    ensures 0.0 <= h <= 1.0
    ensures u == 0.0 ==> h == 0.0
    ensures u == 1.0 ==> h == 1.0
  {
    var v := 1.0 - u;
    NonNegProduct(u, u);
    NonNegProduct(u * u, 3.0 - 2.0 * u);
    NonNegProduct(v, v);
    NonNegProduct(v * v, 1.0 + 2.0 * u);
    assert 1.0 - u * u * (3.0 - 2.0 * u) == v * v * (1.0 + 2.0 * u);
    u * u * (3.0 - 2.0 * u)
  }

  /** The ramp (x - e0) / (e1 - e0) is at most 0 up to e0 and at least 1 from e1 on. */
  lemma RampEnds(x: real, e0: real, e1: real)
    requires e0 < e1
    ensures x <= e0 ==> (x - e0) / (e1 - e0) <= 0.0
    ensures e1 <= x ==> (x - e0) / (e1 - e0) >= 1.0
  {
    var d := e1 - e0;
    var q := (x - e0) / d;
    assert q * d == x - e0;
    if q > 0.0 {
      PositiveProduct(q, d);
    }
    if q < 1.0 {
      PositiveProduct(1.0 - q, d);
      assert (1.0 - q) * d == d - q * d;
      assert d - (x - e0) > 0.0;
    }
  }

  function RainbowColor(t: real, m: Transcendentals): Color
  {
    var t := Clamp(t, 0.0, 1.0);
    Color(0.5 + 0.5 * m.cos(6.2831 * (t + 0.0)),
          0.5 + 0.5 * m.cos(6.2831 * (t + 0.33)),
          0.5 + 0.5 * m.cos(6.2831 * (t + 0.66)))
  }

  /** The hot palette; unlike the others it does not clamp t. */
  function HotColor(t: real): Color
  {
    var intensity := 0.5 * (1.0 - t) + 1.0 * t;
    Color(Smoothstep(0.0, 0.5, t) * intensity,
          Smoothstep(0.25, 0.75, t) * intensity,
          Smoothstep(0.5, 1.0, t) * intensity)
  }

  function TurboColor(t: real, m: Transcendentals): Color
  {
    var t := Clamp(t, 0.0, 1.0);
    Color(0.5 + 0.5 * m.sin(6.2831 * (t + 0.0)),
          0.5 + 0.5 * m.sin(6.2831 * (t + 0.15)),
          0.5 + 0.5 * m.sin(6.2831 * (t + 0.3)))
  }

  function ViridisColor(t: real): Color
  {
    var t := Clamp(t, 0.0, 1.0);
    Color(0.267 + 0.643 * t - 0.379 * t * t,
          0.004 + 1.370 * t - 1.689 * t * t,
          0.329 + 0.861 * t - 0.897 * t * t)
  }

  function InfernoColor(t: real, m: Transcendentals): Color
  {
    var t := Clamp(t, 0.0, 1.0);
    var r := Clamp(1.5 * t + 0.05 * m.sin(20.0 * t), 0.0, 1.0);
    Color(r * 0.9, m.sqrt(t) * 0.6, (1.0 - t) * 0.8)
  }

  function CoolWarmColor(t: real, m: Transcendentals): Color
  {
    var t := Clamp(t, 0.0, 1.0);
    Color(t, 0.5 * m.sin(3.1415 * t), 1.0 - t)
  }

  function PastelColor(t: real, m: Transcendentals): Color
  {
    var t := Clamp(t, 0.0, 1.0);
    Color(0.8 + 0.2 * m.sin(6.2831 * (t + 0.1)),
          0.7 + 0.3 * m.sin(6.2831 * (t + 0.4)),
          0.6 + 0.4 * m.sin(6.2831 * (t + 0.7)))
  }

  /** The colour a palette gives to t. */
  function PaletteColor(p: Palette, t: real, m: Transcendentals): Color
  {
    match p
    case Rainbow => RainbowColor(t, m)
    case Hot => HotColor(t)
    case Turbo => TurboColor(t, m)
    case Viridis => ViridisColor(t)
    case Inferno => InfernoColor(t, m)
    case CoolWarm => CoolWarmColor(t, m)
    case Pastel => PastelColor(t, m)
  }

  /** `getPaletteColor(t)` with `uPalette` = id. */
  function PaletteColorFor(id: int, t: real, m: Transcendentals): Color
  {
    PaletteColor(PaletteFor(id), t, m)
  }

  /** The panel's option value of a palette draws that palette's colour. */
  lemma PaletteColorForOption(p: Palette, t: real, m: Transcendentals)
    ensures PaletteColorFor(PaletteId(p), t, m) == PaletteColor(p, t, m)
  {
    PaletteForId(p);
  }

  /** With cosine in [-1, 1], rainbow stays inside the unit cube. */
  lemma RainbowInUnitCube(t: real, m: Transcendentals)
    requires forall v :: -1.0 <= m.cos(v) <= 1.0
    ensures var c := RainbowColor(t, m);
      0.0 <= c.r <= 1.0 && 0.0 <= c.g <= 1.0 && 0.0 <= c.b <= 1.0
  {
  }

  /** With sine in [-1, 1], turbo stays inside the unit cube. */
  lemma TurboInUnitCube(t: real, m: Transcendentals)
    requires forall v :: -1.0 <= m.sin(v) <= 1.0
    ensures var c := TurboColor(t, m);
      0.0 <= c.r <= 1.0 && 0.0 <= c.g <= 1.0 && 0.0 <= c.b <= 1.0
  {
  }

  /**
   Inferno's red is scaled from a clamped ramp and its blue falls linearly from
   0.8 to 0 over the clamped t; with the square root in [0, 1] on [0, 1] its
   green lies in [0, 0.6].
   */
  lemma InfernoRange(t: real, m: Transcendentals)
    requires forall v :: 0.0 <= v <= 1.0 ==> 0.0 <= m.sqrt(v) <= 1.0
    ensures var c := InfernoColor(t, m);
      0.0 <= c.r <= 0.9 && 0.0 <= c.g <= 0.6 && 0.0 <= c.b <= 0.8
    ensures InfernoColor(t, m).b == 0.8 * (1.0 - Clamp(t, 0.0, 1.0))
  {
  }

  /** Coolwarm's red is the clamped t and its blue the complement, so they always sum to 1. */
  lemma CoolWarmBalanced(t: real, m: Transcendentals)
    requires forall v :: -1.0 <= m.sin(v) <= 1.0
    ensures var c := CoolWarmColor(t, m);
      c.r == Clamp(t, 0.0, 1.0) && c.r + c.b == 1.0 && -0.5 <= c.g <= 0.5
  {
  }

  /** With sine in [-1, 1], pastel's channels stay in [0.6, 1], [0.4, 1] and [0.2, 1]. */
  lemma PastelRange(t: real, m: Transcendentals)
    requires forall v :: -1.0 <= m.sin(v) <= 1.0
    ensures var c := PastelColor(t, m);
      0.6 <= c.r <= 1.0 && 0.4 <= c.g <= 1.0 && 0.2 <= c.b <= 1.0
  {
  }

  /** Every palette but Hot clamps its input, so it gives the same colour to t and to clamp(t, 0, 1). */
  lemma ClampedPalettesIgnoreRange(p: Palette, t: real, m: Transcendentals)
    requires p != Hot
    ensures PaletteColor(p, t, m) == PaletteColor(p, Clamp(t, 0.0, 1.0), m)
  {
    ClampIdempotent(t);
  }

  /** The three ramps of Hot and its intensity, each named once. */
  lemma HotAt(t: real)
    ensures HotColor(t) == Color(Smoothstep(0.0, 0.5, t) * (0.5 + 0.5 * t),
                                 Smoothstep(0.25, 0.75, t) * (0.5 + 0.5 * t),
                                 Smoothstep(0.5, 1.0, t) * (0.5 + 0.5 * t))
  {
  }

  /** Hot is black from t = 0 down. */
  lemma HotBlackBelowZero(t: real)
    requires t <= 0.0
    ensures HotColor(t) == Color(0.0, 0.0, 0.0)
  {
    HotAt(t);
  }

  /** From t = 1 up Hot is the grey of its intensity 0.5 + 0.5 t, which is white at t = 1. */
  lemma HotGreyAboveOne(t: real)
    requires 1.0 <= t
    ensures HotColor(t) == Color(0.5 + 0.5 * t, 0.5 + 0.5 * t, 0.5 + 0.5 * t)
    ensures t == 1.0 ==> HotColor(t) == Color(1.0, 1.0, 1.0)
  {
    HotAt(t);
  }

  /**
   Hot alone does not clamp t: past 1 it is brighter than white, so it differs
   from every colour Hot gives inside [0, 1], clamp(t, 0, 1) included.
   */
  lemma HotUnclamped(t: real, u: real)
    requires 1.0 < t && 0.0 <= u <= 1.0
    ensures HotColor(t).r > 1.0
    ensures HotColor(t) != HotColor(u)
  {
    HotGreyAboveOne(t);
    HotInUnitCube(u);
  }

  /** Between those ends Hot stays inside the unit cube. */
  lemma HotInUnitCube(t: real)
    requires 0.0 <= t <= 1.0
    ensures 0.0 <= HotColor(t).r <= 1.0 && 0.0 <= HotColor(t).g <= 1.0 && 0.0 <= HotColor(t).b <= 1.0
  {
    HotAt(t);
    ScaledRampInUnit(0.0, 0.5, t);
    ScaledRampInUnit(0.25, 0.75, t);
    ScaledRampInUnit(0.5, 1.0, t);
  }

  lemma ScaledRampInUnit(e0: real, e1: real, t: real)
    requires e0 < e1 && 0.0 <= t <= 1.0
    ensures 0.0 <= Smoothstep(e0, e1, t) * (0.5 + 0.5 * t) <= 1.0
  {
    ProductInUnit(Smoothstep(e0, e1, t), 0.5 + 0.5 * t);
  }

  lemma ProductInUnit(a: real, b: real)
    requires 0.0 <= a <= 1.0 && 0.0 <= b <= 1.0
    ensures 0.0 <= a * b <= 1.0
  {
    NonNegProduct(a, b);
    NonNegProduct(a, 1.0 - b);
    assert a * (1.0 - b) == a - a * b;
  }

  /** The viridis polynomial is not confined to the unit cube: its green channel is negative at t = 1. */
  lemma ViridisLeavesUnitCube()
    ensures ViridisColor(0.0) == Color(0.267, 0.004, 0.329)
    ensures ViridisColor(1.0) == Color(0.531, -0.315, 0.293)
  {
  }
}
