/**
 The per-frame state of the Lyapunov2D component: the uniform block shared
 with the shader, the smoothed knob values and the frozen clock, and the
 frame callback that updates them from the current control values.
 */
module FrameLoop {
  import opened PatternEncoder
  import opened Smoothing

  /** The control panel's values for one frame; rotation is in degrees. */
  datatype Controls = Controls(
    iterMax: int,
    zoom: real,
    displaceX: real,
    displaceY: real,
    white: real,
    black: real,
    pattern: string,
    lypMin: real,
    lypMax: real,
    rotationDeg: real,
    palette: int,
    animateTime: bool,
    noiseEnabled: bool)

  /** The panel's initial values. */
  const DefaultControls: Controls :=
    Controls(100, 2.04, 2.37, 3.29, 0.0, 0.0, "AAABB", -1.0, 1.0, 0.0, 2, true, true)

  /**
   The targets the smoother moves toward: the numeric controls as they are,
   the rotation converted to radians by `degToRad` (multiplication by deg2rad).
   */
  function Targets(c: Controls, deg2rad: real): Knobs
  {
    Knobs(c.zoom, c.displaceX, c.displaceY, c.white, c.black, c.lypMin, c.lypMax, c.rotationDeg * deg2rad)
  }

  /**
   The panel's initial values as smoother targets: the knobs the first render
   starts from, with a normalisation range [-1, 1] and no rotation, whatever
   factor converts degrees.
   */
  lemma TargetsOfDefaults(deg2rad: real)
    ensures Targets(DefaultControls, deg2rad) == Knobs(2.04, 2.37, 3.29, 0.0, 0.0, -1.0, 1.0, 0.0)
  {
  }

  /** The shader's uniform block; the eight smoothed knobs are kept together. */
  class Uniforms {
    var time: real
    var knobs: Knobs
    var iterMax: int
    var palette: int
    var noiseEnabled: bool
    var patternLength: int
    /** `uArray`, a fixed buffer of MaxPattern slots. */
    const slots: array<real>

    /**
     The block built once on mount from the controls of the first render:
     time 0, the raw knob values, an all-zero pattern buffer and the length of
     the initial pattern.
     */
    constructor (c: Controls, deg2rad: real)
      ensures time == 0.0 && knobs == Targets(c, deg2rad)
      ensures iterMax == c.iterMax && palette == c.palette && noiseEnabled == c.noiseEnabled
      ensures patternLength == |c.pattern|
      ensures fresh(slots) && slots.Length == MaxPattern
      ensures forall i :: 0 <= i < slots.Length ==> slots[i] == 0.0
    {
      time := 0.0;
      knobs := Targets(c, deg2rad);
      iterMax := c.iterMax;
      palette := c.palette;
      noiseEnabled := c.noiseEnabled;
      patternLength := |c.pattern|;
      slots := new real[MaxPattern](_ => 0.0);
    }

    /**
     Writes a pattern into the buffer, slot by slot for all MaxPattern slots,
     and sets the length uniform to the letter count. Afterwards the buffer
     holds exactly the encoding of the pattern.
     */
    method LoadPattern(p: string)
      requires slots.Length == MaxPattern
      modifies this, slots
      ensures slots[..] == Slots(p)
      ensures patternLength == |p|
      ensures time == old(time) && knobs == old(knobs) && iterMax == old(iterMax)
      ensures palette == old(palette) && noiseEnabled == old(noiseEnabled)
    {
      var weights := Weights(p);
      for i := 0 to MaxPattern
        modifies slots
        invariant slots[..i] == Slots(p)[..i]
      {
        slots[i] := if i < |weights| then weights[i] else 0.0;
        assert slots[..i + 1] == slots[..i] + [slots[i]];
        assert Slots(p)[..i + 1] == Slots(p)[..i] + [Slots(p)[i]];
      }
      assert slots[..] == slots[..MaxPattern];
      patternLength := |weights|;
    }
  }

  /** The component: the uniform block, the smoothed knobs and the held clock value. */
  class Lyapunov2D {
    /** `smoothValues.current`. */
    var smooth: Knobs
    /** `timeRef.current`. */
    var time: real
    /** Whether the shader material is attached, so that its uniforms can be reached. */
    var mounted: bool
    const uniforms: Uniforms
    /** The factor `degToRad` multiplies by. */
    const deg2rad: real

    predicate Valid()
      reads this, uniforms
    {
      uniforms.slots.Length == MaxPattern
    }

    /**
     The first render: the smoother starts at the raw controls (rotation in
     radians), the clock at 0, and the uniform block is built from the same
     controls; the material is not attached yet.
     */
    constructor (c: Controls, deg2rad: real)
      ensures Valid() && !mounted
      ensures smooth == Targets(c, deg2rad) && time == 0.0 && this.deg2rad == deg2rad
      ensures fresh(uniforms) && fresh(uniforms.slots)
      ensures uniforms.time == 0.0 && uniforms.knobs == smooth
      ensures uniforms.iterMax == c.iterMax && uniforms.palette == c.palette
      ensures uniforms.noiseEnabled == c.noiseEnabled && uniforms.patternLength == |c.pattern|
      ensures forall i :: 0 <= i < MaxPattern ==> uniforms.slots[i] == 0.0
    {
      smooth := Targets(c, deg2rad);
      time := 0.0;
      mounted := false;
      this.deg2rad := deg2rad;
      uniforms := new Uniforms(c, deg2rad);
    }

    /** The shader material gets attached; nothing else changes. */
    method Attach()
      modifies this
      ensures mounted
      ensures smooth == old(smooth) && time == old(time)
    {
      mounted := true;
    }

    /**
     One frame. Without an attached material nothing happens. Otherwise the
     clock follows `elapsed` only while animation is on and is held otherwise,
     every knob eases a tenth of the way toward its control, the smoothed
     knobs and the held clock are copied into the uniforms, the integer and
     boolean controls are copied as they are, and the pattern is re-encoded
     into the buffer with its untruncated length.
     */
    method Tick(c: Controls, elapsed: real)
      requires Valid()
      modifies this, uniforms, uniforms.slots
      ensures Valid() && mounted == old(mounted)
      ensures !old(mounted) ==>
        smooth == old(smooth) && time == old(time) &&
        unchanged(uniforms) && uniforms.slots[..] == old(uniforms.slots[..])
      ensures old(mounted) ==>
        time == (if c.animateTime then elapsed else old(time)) &&
        smooth == Approach(old(smooth), Targets(c, deg2rad)) &&
        uniforms.time == time && uniforms.knobs == smooth &&
        uniforms.iterMax == c.iterMax && uniforms.palette == c.palette &&
        uniforms.noiseEnabled == c.noiseEnabled &&
        uniforms.slots[..] == Slots(c.pattern) && uniforms.patternLength == |c.pattern|
    {
      if mounted {
        if c.animateTime {
          time := elapsed;
        }
        uniforms.time := time;
        smooth := Approach(smooth, Targets(c, deg2rad));
        uniforms.knobs := smooth;
        uniforms.iterMax := c.iterMax;
        uniforms.palette := c.palette;
        uniforms.noiseEnabled := c.noiseEnabled;
        uniforms.LoadPattern(c.pattern);
      }
    }
  }

  /**
   With the controls held still, the smoothed knobs only move toward them:
   after any number of frames each knob lies between where it was and its
   target, and it reaches the target only if it started there.
   */
  lemma {:induction false} HeldControlsConverge(start: Knobs, c: Controls, deg2rad: real, n: nat)
    ensures var k := Settle(start, Targets(c, deg2rad), n);
      (start.zoom <= c.zoom ==> start.zoom <= k.zoom <= c.zoom) &&
      (c.zoom <= start.zoom ==> c.zoom <= k.zoom <= start.zoom) &&
      (k.zoom == c.zoom <==> start.zoom == c.zoom) &&
      (start.rotation <= c.rotationDeg * deg2rad ==> start.rotation <= k.rotation <= c.rotationDeg * deg2rad) &&
      (c.rotationDeg * deg2rad <= start.rotation ==> c.rotationDeg * deg2rad <= k.rotation <= start.rotation) &&
      (k.rotation == c.rotationDeg * deg2rad <==> start.rotation == c.rotationDeg * deg2rad)
  {
    var t := Targets(c, deg2rad);
    SettleGlides(start, t, n);
    GlideConverges(start.zoom, t.zoom, n);
    GlideConverges(start.rotation, t.rotation, n);
  }
}
