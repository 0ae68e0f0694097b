/**
 The integer skeleton of the fragment shader's `lyapunov` function: which
 pattern slot step i reads, which of the two coordinates it drives the
 logistic map with, and how many steps run before the sum is divided by
 `uIterMax`. The logistic step itself is kept over reals; `log(abs(.))` is the
 parameter `log` applied to an explicit absolute value.
 */
module Kernel {
  import opened PatternEncoder
  import opened RealFacts

  datatype Vec2 = Vec2(x: real, y: real)

  /** GLSL `mix(a, b, w)`. */
  function Mix(a: real, b: real, w: real): real
  {
    a * (1.0 - w) + b * w
  }

  function Abs(v: real): real
  {
    if v < 0.0 then -v else v
  }

  /** The logistic map `r * x * (1 - x)`. */
  function Logistic(r: real, x: real): real
  {
    r * x * (1.0 - x)
  }

  /** The argument of `abs` in the log term: `r - 2 r x`, the map's derivative at x. */
  function Slope(r: real, x: real): real
  {
    r - 2.0 * r * x
  }

  /** The constant bound of the shader's `for` loop. */
  const LoopCap: nat := 10000

  /**
   Why an evaluation has no value: `mod` by a zero pattern length or a read of
   `uArray` past its 32 slots, or the final division by a zero `uIterMax`.
   */
  datatype Fault = PatternIndex | ZeroIterMax

  datatype Exponent = Value(v: real) | Undefined(fault: Fault)

  /** Step i of the loop reads a slot that exists: `mod` is by a positive length and the index is below 32. */
  predicate StepDefined(slots: seq<real>, len: int, i: nat)
  {
    1 <= len && i % len < |slots|
  }

  /** Steps 0 .. n-1 all read existing slots. */
  predicate StepsInRange(slots: seq<real>, len: int, n: nat)
  {
    forall i: nat :: i < n ==> StepDefined(slots, len, i)
  }

  /** `r = mix(coord.x, coord.y, uArray[idx])` with `idx = i mod uPatternLength`. */
  function Rate(coord: Vec2, slots: seq<real>, len: int, i: nat): real
    requires StepDefined(slots, len, i)
  {
    Mix(coord.x, coord.y, slots[i % len])
  }

  /** The value of `x` after the first n passes, starting from 0.5. */
  function XAfter(coord: Vec2, slots: seq<real>, len: int, n: nat): real
    requires StepsInRange(slots, len, n)
    decreases n
  {
    if n == 0 then 0.5 else Logistic(Rate(coord, slots, len, n - 1), XAfter(coord, slots, len, n - 1))
  }

  /** The argument pass i hands to `log`: |r - 2 r x| taken at the NEW x, the one pass i computed. */
  function LogArg(coord: Vec2, slots: seq<real>, len: int, i: nat): real
    requires StepsInRange(slots, len, i + 1)
  {
    Abs(Slope(Rate(coord, slots, len, i), XAfter(coord, slots, len, i + 1)))
  }

  /** The arguments of the log terms of the first n passes, in order. */
  function LogArgs(coord: Vec2, slots: seq<real>, len: int, n: nat): (args: seq<real>)
    requires StepsInRange(slots, len, n)
    ensures |args| == n
    decreases n
  {
    if n == 0 then [] else LogArgs(coord, slots, len, n - 1) + [LogArg(coord, slots, len, n - 1)]
  }

  /** `sum` after adding `log` of every argument, left to right from 0. */
  function SumLogs(log: real -> real, args: seq<real>): real
    decreases |args|
  {
    if args == [] then 0.0 else SumLogs(log, args[..|args| - 1]) + log(args[|args| - 1])
  }

  /** How many passes run: i = 0 .. min(uIterMax, 9999), none for a negative `uIterMax`. */
  function Iterations(iterMax: int): (n: nat)
    ensures n <= LoopCap
    ensures iterMax < 0 ==> n == 0
  {
    if iterMax < 0 then 0 else if iterMax < LoopCap then iterMax + 1 else LoopCap
  }

  /**
   Pass i runs exactly when i <= uIterMax, for every i below the loop's cap:
   the passes are i = 0 .. min(uIterMax, 9999), min(uIterMax + 1, 10000) of them.
   */
  lemma PassRunsIff(iterMax: int, i: nat)
    requires i < LoopCap
    ensures i < Iterations(iterMax) <==> i <= iterMax
  {
  }

  /** What `lyapunov(coord)` returns, as written: the sum of Iterations(iterMax) terms divided by `uIterMax`. */
  function ExponentOf(coord: Vec2, slots: seq<real>, len: int, iterMax: int, log: real -> real): Exponent
  {
    var n := Iterations(iterMax);
    if !StepsInRange(slots, len, n) then Undefined(PatternIndex)
    else if iterMax == 0 then Undefined(ZeroIterMax)
    else Value(SumLogs(log, LogArgs(coord, slots, len, n)) / (iterMax as real))
  }

  /** The shader's loop: 10000 bounded passes, left by `break` once i exceeds `uIterMax`. */
  method Lyapunov(coord: Vec2, slots: seq<real>, len: int, iterMax: int, log: real -> real) returns (e: Exponent)
    ensures e == ExponentOf(coord, slots, len, iterMax, log)
  {
    var x, sum := 0.5, 0.0;
    var i: nat := 0;
    while i < LoopCap
      invariant i <= Iterations(iterMax)
      invariant StepsInRange(slots, len, i)
      invariant x == XAfter(coord, slots, len, i)
      invariant sum == SumLogs(log, LogArgs(coord, slots, len, i))
    {
      if i > iterMax {
        break;
      }
      if len < 1 {
        assert !StepDefined(slots, len, i);
        return Undefined(PatternIndex);
      }
      var idx := i % len;
      if idx >= |slots| {
        assert !StepDefined(slots, len, i);
        return Undefined(PatternIndex);
      }
      x, sum := Pass(coord, slots, len, log, i, x, sum);
      i := i + 1;
    }
    if iterMax == 0 {
      return Undefined(ZeroIterMax);
    }
    return Value(sum / (iterMax as real));
  }

  /** The body of pass i: `r` from the pattern slot, the logistic step, and the new log term added to the sum. */
  method Pass(coord: Vec2, slots: seq<real>, len: int, log: real -> real, i: nat, x: real, sum: real)
    returns (x': real, sum': real)
    requires StepsInRange(slots, len, i + 1)
    requires x == XAfter(coord, slots, len, i) && sum == SumLogs(log, LogArgs(coord, slots, len, i))
    ensures x' == XAfter(coord, slots, len, i + 1) && sum' == SumLogs(log, LogArgs(coord, slots, len, i + 1))
  {
    assert StepDefined(slots, len, i);
    PassUnfolds(coord, slots, len, log, i);
    var r := Mix(coord.x, coord.y, slots[i % len]);
    x' := Logistic(r, x);
    sum' := sum + log(Abs(Slope(r, x')));
  }

  /** Pass i extends the specification by one step: the new x, and one more log term. */
  lemma PassUnfolds(coord: Vec2, slots: seq<real>, len: int, log: real -> real, i: nat)
    requires StepsInRange(slots, len, i + 1)
    ensures XAfter(coord, slots, len, i + 1) == Logistic(Rate(coord, slots, len, i), XAfter(coord, slots, len, i))
    ensures SumLogs(log, LogArgs(coord, slots, len, i + 1))
            == SumLogs(log, LogArgs(coord, slots, len, i)) + log(LogArg(coord, slots, len, i))
  {
    var args := LogArgs(coord, slots, len, i + 1);
    assert args[..i] == LogArgs(coord, slots, len, i);
  }

  /** For i >= 0 and len >= 1: i mod len is i itself below len, and never more than i. */
  lemma ModFacts(i: nat, len: int)
    requires 1 <= len
    ensures i % len <= i
    ensures i < len ==> i % len == i
  {
    var q := i / len;
    assert i == q * len + i % len;
    if q > 0 {
      assert q * len >= len by { assert (q - 1) * len >= 0; }
    }
  }

  /** The remainder is the only r in [0, len) with a == k * len + r. */
  lemma ModUnique(a: int, k: int, r: int, len: int)
    requires 1 <= len && 0 <= r < len && a == k * len + r
    ensures a % len == r
  {
    var k', r' := a / len, a % len;
    assert (k - k') * len == r' - r;
    if k > k' {
      MulAtLeast(k - k', len);
    } else if k < k' {
      MulAtLeast(k' - k, len);
    }
  }

  lemma MulAtLeast(d: int, len: int)
    requires d >= 1 && len >= 1
    ensures d * len >= len
  {
    assert (d - 1) * len >= 0;
  }

  /**
   The slot reads of the first n passes are all defined exactly when no pass
   runs, or the length is positive and either it fits the buffer or the loop
   stops before index |slots|.
   */
  lemma {:induction false} StepsInRangeIff(slots: seq<real>, len: int, n: nat)
    ensures StepsInRange(slots, len, n) <==> (n == 0 || (1 <= len && (len <= |slots| || n <= |slots|)))
  {
    if n > 0 && 1 <= len && (len <= |slots| || n <= |slots|) {
      forall i: nat | i < n
        ensures StepDefined(slots, len, i)
      {
        ModFacts(i, len);
      }
    }
    if StepsInRange(slots, len, n) && n > 0 {
      assert StepDefined(slots, len, 0);
      if len > |slots| && n > |slots| {
        var i: nat := |slots|;
        assert StepDefined(slots, len, i);
        ModFacts(i, len);
        assert false;
      }
    }
  }

  /** The index of step i lies in [0, len), and the parameter it picks repeats with period len. */
  lemma RatePeriodic(coord: Vec2, slots: seq<real>, len: int, i: nat)
    requires StepDefined(slots, len, i)
    ensures 0 <= i % len < len
    ensures StepDefined(slots, len, i + len)
    ensures Rate(coord, slots, len, i + len) == Rate(coord, slots, len, i)
  {
    var q := i / len;
    assert i == q * len + i % len;
    assert i + len == (q + 1) * len + i % len;
    ModUnique(i + len, q + 1, i % len, len);
  }

  /**
   With the slots and the length the frame callback stores for a pattern of
   1 to 32 letters, step i drives the map with coord.y when letter i mod |p|
   is 'B' and with coord.x otherwise.
   */
  lemma ForcingFollowsPattern(coord: Vec2, p: string, i: nat)
    requires 1 <= |p| <= MaxPattern
    ensures StepDefined(Slots(p), PatternLength(p), i)
    ensures Rate(coord, Slots(p), PatternLength(p), i) == (if p[i % |p|] == 'B' then coord.y else coord.x)
  {
    var k := i % |p|;
    SlotsAt(p, k);
  }

  /**
   With both coordinates in [0, 4] and every slot in [0, 1], the orbit that
   starts at 0.5 never leaves [0, 1].
   */
  lemma {:induction false} OrbitInUnit(coord: Vec2, slots: seq<real>, len: int, n: nat)
    requires StepsInRange(slots, len, n)
    requires 0.0 <= coord.x <= 4.0 && 0.0 <= coord.y <= 4.0
    requires forall j :: 0 <= j < |slots| ==> 0.0 <= slots[j] <= 1.0
    ensures 0.0 <= XAfter(coord, slots, len, n) <= 1.0
    decreases n
  {
    if n > 0 {
      OrbitInUnit(coord, slots, len, n - 1);
      assert StepDefined(slots, len, n - 1);
      var w := slots[(n - 1) % len];
      MixBetween(coord.x, coord.y, w, 0.0, 4.0);
      LogisticInUnit(Rate(coord, slots, len, n - 1), XAfter(coord, slots, len, n - 1));
    }
  }

  /** `mix` with a weight in [0, 1] stays between any bounds of its two ends. */
  lemma MixBetween(a: real, b: real, w: real, lo: real, hi: real)
    requires lo <= a <= hi && lo <= b <= hi && 0.0 <= w <= 1.0
    ensures lo <= Mix(a, b, w) <= hi
  {
    assert Mix(a, b, w) - lo == (a - lo) * (1.0 - w) + (b - lo) * w;
    assert hi - Mix(a, b, w) == (hi - a) * (1.0 - w) + (hi - b) * w;
    NonNegProduct(a - lo, 1.0 - w);
    NonNegProduct(b - lo, w);
    NonNegProduct(hi - a, 1.0 - w);
    NonNegProduct(hi - b, w);
  }

  /** For r in [0, 4] the logistic map sends [0, 1] into itself: x (1 - x) is at most 1/4. */
  lemma LogisticInUnit(r: real, x: real)
    requires 0.0 <= r <= 4.0 && 0.0 <= x <= 1.0
    ensures 0.0 <= Logistic(r, x) <= 1.0
  {
    var p := x * (1.0 - x);
    NonNegProduct(x, 1.0 - x);
    assert 0.25 - p == (x - 0.5) * (x - 0.5);
    if 0.5 <= x {
      NonNegProduct(x - 0.5, x - 0.5);
    } else {
      NonNegProduct(0.5 - x, 0.5 - x);
      assert (0.5 - x) * (0.5 - x) == (x - 0.5) * (x - 0.5);
    }
    assert Logistic(r, x) == r * p;
    NonNegProduct(r, p);
    NonNegProduct(4.0 - r, p);
    assert 1.0 - r * p == (4.0 - r) * p + (1.0 - 4.0 * p);
  }

  /**
   Above 4 the orbit escapes: from 0.5 one step lands above 1, the next one
   below 0, and from there every step falls further while r >= 1.
   */
  lemma EscapeAboveFour(r: real, x: real)
    requires 4.0 < r
    ensures 1.0 < Logistic(r, 0.5)
    ensures Logistic(r, Logistic(r, 0.5)) < 0.0
    ensures x < 0.0 ==> Logistic(r, x) < x
  {
    var y := Logistic(r, 0.5);
    assert y == r * 0.25;
    assert Logistic(r, y) == -(r * y) * (y - 1.0);
    assert 0.0 < (r * y) * (y - 1.0);
    if x < 0.0 {
      assert Logistic(r, x) - x == x * (r * (1.0 - x) - 1.0);
      assert 0.0 < r * (1.0 - x) - 1.0;
    }
  }

  /**
   For the buffer and length of pattern p, `lyapunov` has a value exactly when
   `uIterMax` is negative (no pass runs; 0 is divided by it), or `uIterMax` is
   positive and p is non-empty and either fits the 32 slots or the loop stops
   before index 32. An empty pattern, a zero `uIterMax`, or a pattern longer
   than 32 with `uIterMax` >= 32 leave the result undefined.
   */
  lemma ExponentDefinedIff(coord: Vec2, p: string, iterMax: int, log: real -> real)
    ensures ExponentOf(coord, Slots(p), PatternLength(p), iterMax, log).Value?
            <==> iterMax < 0 || (1 <= iterMax && 1 <= |p| && (|p| <= MaxPattern || iterMax < MaxPattern))
  {
    StepsInRangeIff(Slots(p), PatternLength(p), Iterations(iterMax));
  }

  /** When each of the n log terms that are summed lies in [lo, hi], their sum lies in [n*lo, n*hi]. */
  lemma {:induction false} SumLogsBounds(log: real -> real, args: seq<real>, lo: real, hi: real)
    requires forall j :: 0 <= j < |args| ==> lo <= log(args[j]) <= hi
    ensures (|args| as real) * lo <= SumLogs(log, args) <= (|args| as real) * hi
    decreases |args|
  {
    if args != [] {
      var n := |args|;
      assert forall j :: 0 <= j < n - 1 ==> args[..n - 1][j] == args[j];
      SumLogsBounds(log, args[..n - 1], lo, hi);
      assert lo <= log(args[n - 1]) <= hi;
    }
  }

  /** Entry j of the argument sequence of the first n passes is the argument pass j hands to `log`. */
  lemma {:induction false} LogArgsAt(coord: Vec2, slots: seq<real>, len: int, n: nat, j: nat)
    requires StepsInRange(slots, len, n) && j < n
    ensures StepsInRange(slots, len, j + 1)
    ensures LogArgs(coord, slots, len, n)[j] == LogArg(coord, slots, len, j)
    decreases n
  {
    if j < n - 1 {
      LogArgsAt(coord, slots, len, n - 1, j);
    }
  }

  /**
   As written, the average is not one: with every log term equal to 1 and
   `uIterMax` = 1, two passes run and their sum 2 is divided by 1.
   */
  lemma ExponentOfOvercounts(coord: Vec2, log: real -> real)
    requires forall v :: log(v) == 1.0
    ensures ExponentOf(coord, Slots("A"), PatternLength("A"), 1, log) == Value(2.0)
  {
    var s := Slots("A");
    StepsInRangeIff(s, 1, 2);
    SumLogsBounds(log, LogArgs(coord, s, 1, 2), 1.0, 1.0);
  }

  /** The intended loop: passes i = 0 .. uIterMax-1 (at most 10000) and division by their number. */
  function MeanSteps(iterMax: int): (n: nat)
    ensures n <= LoopCap
    ensures 1 <= iterMax <= LoopCap ==> n == iterMax
  {
    if iterMax < 0 then 0 else if iterMax < LoopCap then iterMax else LoopCap
  }

  /** The corrected exponent: the mean of the log terms over the passes that ran. */
  function MeanExponent(coord: Vec2, slots: seq<real>, len: int, iterMax: int, log: real -> real): Exponent
  {
    var n := MeanSteps(iterMax);
    if !StepsInRange(slots, len, n) then Undefined(PatternIndex)
    else if n == 0 then Undefined(ZeroIterMax)
    else Value(MeanOf(log, LogArgs(coord, slots, len, n)))
  }

  /**
   The corrected exponent is a true average: when every log term of the
   passes that run lies in [lo, hi], so does the mean.
   */
  lemma MeanExponentBounded(coord: Vec2, slots: seq<real>, len: int, iterMax: int, log: real -> real, lo: real, hi: real)
    requires StepsInRange(slots, len, MeanSteps(iterMax)) ==>
               forall j: nat :: j < MeanSteps(iterMax) ==> lo <= log(LogArg(coord, slots, len, j)) <= hi
    ensures MeanExponent(coord, slots, len, iterMax, log).Value? ==>
              lo <= MeanExponent(coord, slots, len, iterMax, log).v <= hi
  {
    var n := MeanSteps(iterMax);
    if StepsInRange(slots, len, n) && n != 0 {
      var args := LogArgs(coord, slots, len, n);
      forall j | 0 <= j < |args|
        ensures lo <= log(args[j]) <= hi
      {
        LogArgsAt(coord, slots, len, n, j);
      }
      MeanOfBounded(log, args, lo, hi);
    }
  }

  /**
   Wherever the shader's value is defined, the corrected mean is defined too,
   and the shader's value exceeds it by exactly the one extra pass's log term
   divided by `uIterMax`.
   */
  lemma ExponentsDifferByLastTerm(coord: Vec2, slots: seq<real>, len: int, iterMax: int, log: real -> real)
    requires 1 <= iterMax < LoopCap
    requires ExponentOf(coord, slots, len, iterMax, log).Value?
    ensures MeanExponent(coord, slots, len, iterMax, log).Value?
    ensures ExponentOf(coord, slots, len, iterMax, log).v
            == MeanExponent(coord, slots, len, iterMax, log).v + log(LogArg(coord, slots, len, iterMax)) / (iterMax as real)
  {
    var n := iterMax;
    assert StepsInRange(slots, len, n + 1);
    assert StepsInRange(slots, len, n);
    PassUnfolds(coord, slots, len, log, n);
    var a := SumLogs(log, LogArgs(coord, slots, len, n));
    var b := log(LogArg(coord, slots, len, n));
    DivSplit(a, b, n as real);
  }

  /**
   For the buffer and length of pattern p the corrected mean has a value
   exactly when at least one pass runs and every pass reads an existing slot:
   `uIterMax` positive, p non-empty, and either p fits the 32 slots or the
   passes stop by index 32.
   */
  lemma MeanExponentDefinedIff(coord: Vec2, p: string, iterMax: int, log: real -> real)
    ensures MeanExponent(coord, Slots(p), PatternLength(p), iterMax, log).Value?
            <==> 1 <= iterMax && 1 <= |p| && (|p| <= MaxPattern || iterMax <= MaxPattern)
  {
    StepsInRangeIff(Slots(p), PatternLength(p), MeanSteps(iterMax));
  }

  /** The mean of the log terms of a non-empty argument sequence. */
  function MeanOf(log: real -> real, args: seq<real>): real
    requires args != []
  {
    SumLogs(log, args) / (|args| as real)
  }

  /** A mean of terms in [lo, hi] lies in [lo, hi]. */
  lemma MeanOfBounded(log: real -> real, args: seq<real>, lo: real, hi: real)
    requires args != []
    requires forall j :: 0 <= j < |args| ==> lo <= log(args[j]) <= hi
    ensures lo <= MeanOf(log, args) <= hi
  {
    SumLogsBounds(log, args, lo, hi);
    var m := |args| as real;
    var a := SumLogs(log, args) / m;
    assert a * m == SumLogs(log, args);
    assert (a - lo) * m == a * m - m * lo;
    assert (hi - a) * m == m * hi - a * m;
    NonNegFactor(a - lo, m);
    NonNegFactor(hi - a, m);
  }
}
