/**
 The forcing-pattern encoding done by the frame callback of Lyapunov2D: the
 pattern string becomes one weight per letter ('B' is 1.0, every other letter
 0.0), written into the 32 slots of the shader's `uArray` uniform, together
 with the untruncated letter count `uPatternLength`.
 */
module PatternEncoder {

  /** Capacity of the shader's `uArray` uniform (MAX_PATTERN). */
  const MaxPattern: nat := 32

  /** Weight of one letter: 'B' drives the map with the second parameter. */
  function Weight(c: char): real
  {
    if c == 'B' then 1.0 else 0.0
  }

  /** `pattern.split('').map(...)`: one weight per letter of the pattern. */
  function Weights(p: string): (w: seq<real>)
    ensures |w| == |p|
    ensures forall i :: 0 <= i < |p| ==> (w[i] == 1.0 <==> p[i] == 'B')
    ensures forall i :: 0 <= i < |p| ==> (w[i] == 0.0 <==> p[i] != 'B')
  {
    seq(|p|, i requires 0 <= i < |p| => Weight(p[i]))
  }

  /**
   The 32 slots of `uArray` after one frame: the weight of letter i for
   i < |p|, and 0.0 (the `?? 0.0` default) for every slot past the pattern.
   */
  function Slots(p: string): (s: seq<real>)
    ensures |s| == MaxPattern
  {
    var w := Weights(p);
    seq(MaxPattern, i requires 0 <= i < MaxPattern => if i < |w| then w[i] else 0.0)
  }

  /** The value `uPatternLength` receives: the letter count, neither capped nor guarded. */
  function PatternLength(p: string): (n: nat)
    ensures n == |Weights(p)|
  {
    |p|
  }

  /** Reads a pattern back out of the slots: letters A and B for the first `len` slots. */
  function Letters(slots: seq<real>, len: nat): (p: string)
    requires len <= |slots|
    ensures |p| == len
    ensures forall i :: 0 <= i < len ==> (p[i] == 'B' <==> slots[i] == 1.0)
  {
    seq(len, i requires 0 <= i < len => if slots[i] == 1.0 then 'B' else 'A')
  }

  /** A pattern over the two-letter alphabet the controls offer. */
  predicate OverAB(p: string)
  {
    forall i :: 0 <= i < |p| ==> p[i] == 'A' || p[i] == 'B'
  }

  /** Every slot of the buffer holds exactly 1.0 or 0.0, so `mix` in the kernel picks one endpoint. */
  lemma SlotsAreBinary(p: string)
    ensures forall i :: 0 <= i < MaxPattern ==> Slots(p)[i] == 0.0 || Slots(p)[i] == 1.0
  {
  }

  /**
   Slot i is 1.0 exactly when i is inside the pattern and its letter is 'B';
   everything else, lower-case 'b' and the slots past the pattern included, is 0.0.
   */
  lemma SlotsAt(p: string, i: nat)
    requires i < MaxPattern
    ensures Slots(p)[i] == (if i < |p| && p[i] == 'B' then 1.0 else 0.0)
  {
  }

  /** Letters past the 32nd never reach the buffer, yet they still count in the length. */
  lemma SlotsDropOverflow(p: string)
    requires |p| > MaxPattern
    ensures Slots(p) == Slots(p[..MaxPattern])
    ensures PatternLength(p) > MaxPattern
  {
  }

  /** An A/B pattern that fits the buffer is recovered from the slots and the length. */
  lemma {:induction false} LettersOfSlots(p: string)
    requires OverAB(p) && |p| <= MaxPattern
    ensures Letters(Slots(p), PatternLength(p)) == p
  {
    var q := Letters(Slots(p), PatternLength(p));
    forall i | 0 <= i < |p|
      ensures q[i] == p[i]
    {
      SlotsAt(p, i);
    }
  }
}
