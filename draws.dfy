/** The random-draw protocol of the extension. Python's `random` module is
    replaced by the stream of values its `random.random()` would return: one
    real in [0, 1) per draw, read in order. */
module RandomDraws {

  /** Number of jitters, booleans and draws in total that one call of
      `generateRandomValues` takes from the stream. */
  const JittersPerCall: nat := 15
  const BoolsPerCall: nat := 9
  const DrawsPerCall: nat := 24

  /** Every value of the stream lies in [0, 1), as `random.random()` promises. */
  ghost predicate UnitStream(stream: nat -> real)
  {
    forall i: nat :: 0.0 <= stream(i) < 1.0
  }

  /** `random.uniform(a, b)`, which CPython defines as `a + (b - a) * random()`. */
  function Uniform(a: real, b: real, u: real): real
  {
    a + (b - a) * u
  }

  /** `randomBool()`: true when the draw exceeds one half. */
  predicate RandomBool(u: real)
  {
    u > 0.5
  }

  /** `randomJitter()` at stream position `i`. */
  function JitterDraw(stream: nat -> real, jitterPct: real, i: nat): real
  {
    Uniform(-jitterPct, jitterPct, stream(i))
  }

  /** `randomBool()` at stream position `i`. */
  predicate BoolDraw(stream: nat -> real, i: nat)
  {
    RandomBool(stream(i))
  }

  /** What one call of `generateRandomValues` stores: `randomJitter1` ..
      `randomJitter15` and `randomBool1` .. `randomBool9`. */
  datatype RandomValues = RandomValues(jitter1: real,
                                jitter2: real,
                                jitter3: real,
                                jitter4: real,
                                jitter5: real,
                                jitter6: real,
                                jitter7: real,
                                jitter8: real,
                                jitter9: real,
                                jitter10: real,
                                jitter11: real,
                                jitter12: real,
                                jitter13: real,
                                jitter14: real,
                                jitter15: real,
                                bool1: bool,
                                bool2: bool,
                                bool3: bool,
                                bool4: bool,
                                bool5: bool,
                                bool6: bool,
                                bool7: bool,
                                bool8: bool,
                                bool9: bool)
  {
    /** `randomJitterk`, for 1 <= k <= 15. */
    function Jitter(k: nat): real
      requires 1 <= k <= JittersPerCall
    {
      if k == 1 then jitter1
      else if k == 2 then jitter2
      else if k == 3 then jitter3
      else if k == 4 then jitter4
      else if k == 5 then jitter5
      else if k == 6 then jitter6
      else if k == 7 then jitter7
      else if k == 8 then jitter8
      else if k == 9 then jitter9
      else if k == 10 then jitter10
      else if k == 11 then jitter11
      else if k == 12 then jitter12
      else if k == 13 then jitter13
      else if k == 14 then jitter14
      else jitter15
    }

    /** `randomBoolk`, for 1 <= k <= 9. */
    predicate Bool(k: nat)
      requires 1 <= k <= BoolsPerCall
    {
      if k == 1 then bool1
      else if k == 2 then bool2
      else if k == 3 then bool3
      else if k == 4 then bool4
      else if k == 5 then bool5
      else if k == 6 then bool6
      else if k == 7 then bool7
      else if k == 8 then bool8
      else bool9
    }
  }

  /** The values one call stores when it starts at stream position `pos`. */
  function RandomValuesAt(stream: nat -> real, jitterPct: real, pos: nat): RandomValues
  {
    RandomValues(JitterDraw(stream, jitterPct, pos + 0),
                 JitterDraw(stream, jitterPct, pos + 1),
                 JitterDraw(stream, jitterPct, pos + 2),
                 JitterDraw(stream, jitterPct, pos + 3),
                 JitterDraw(stream, jitterPct, pos + 4),
                 JitterDraw(stream, jitterPct, pos + 5),
                 JitterDraw(stream, jitterPct, pos + 6),
                 JitterDraw(stream, jitterPct, pos + 7),
                 JitterDraw(stream, jitterPct, pos + 8),
                 JitterDraw(stream, jitterPct, pos + 9),
                 JitterDraw(stream, jitterPct, pos + 10),
                 JitterDraw(stream, jitterPct, pos + 11),
                 JitterDraw(stream, jitterPct, pos + 12),
                 JitterDraw(stream, jitterPct, pos + 13),
                 JitterDraw(stream, jitterPct, pos + 14),
                 BoolDraw(stream, pos + 15),
                 BoolDraw(stream, pos + 16),
                 BoolDraw(stream, pos + 17),
                 BoolDraw(stream, pos + 18),
                 BoolDraw(stream, pos + 19),
                 BoolDraw(stream, pos + 20),
                 BoolDraw(stream, pos + 21),
                 BoolDraw(stream, pos + 22),
                 BoolDraw(stream, pos + 23))
  }

  /** The order of the draws within one call: `randomJitterk` is draw `k - 1`
      of the call and `randomBoolk` is draw `15 + k - 1`, so the call ends
      exactly where the next one starts. */
  lemma RandomValuesOrder(stream: nat -> real, jitterPct: real, pos: nat)
    ensures forall k :: 1 <= k <= JittersPerCall ==>
              RandomValuesAt(stream, jitterPct, pos).Jitter(k) == JitterDraw(stream, jitterPct, pos + k - 1)
    ensures forall k :: 1 <= k <= BoolsPerCall ==>
              RandomValuesAt(stream, jitterPct, pos).Bool(k) == BoolDraw(stream, pos + JittersPerCall + k - 1)
    ensures JittersPerCall + BoolsPerCall == DrawsPerCall
  {
  }

  /** A uniform draw with bounds -p and p stays within them when p >= 0. */
  lemma UniformWithin(p: real, u: real)
    requires 0.0 <= p && 0.0 <= u < 1.0
    ensures -p <= Uniform(-p, p, u) <= p
  {
    assert (p + p) * u <= p + p by {
      assert (p + p) * (1.0 - u) >= 0.0;
    }
  }

  /** Every jitter of a call lies in [-jitterPct, jitterPct]. */
  lemma JittersWithin(stream: nat -> real, jitterPct: real, pos: nat)
    requires UnitStream(stream) && 0.0 <= jitterPct
    ensures forall k :: 1 <= k <= JittersPerCall ==>
              -jitterPct <= RandomValuesAt(stream, jitterPct, pos).Jitter(k) <= jitterPct
  {
    RandomValuesOrder(stream, jitterPct, pos);
    forall k | 1 <= k <= JittersPerCall
      ensures -jitterPct <= RandomValuesAt(stream, jitterPct, pos).Jitter(k) <= jitterPct
    {
      assert RandomValuesAt(stream, jitterPct, pos).Jitter(k) == JitterDraw(stream, jitterPct, pos + k - 1);
      UniformWithin(jitterPct, stream(pos + k - 1));
    }
  }

  /** With a jitter of 0 % every jitter is exactly 0, whatever the stream. */
  lemma ZeroJitterValues(stream: nat -> real, pos: nat)
    ensures forall k :: 1 <= k <= JittersPerCall ==> RandomValuesAt(stream, 0.0, pos).Jitter(k) == 0.0
  {
    RandomValuesOrder(stream, 0.0, pos);
    forall k | 1 <= k <= JittersPerCall
      ensures RandomValuesAt(stream, 0.0, pos).Jitter(k) == 0.0
    {
      assert RandomValuesAt(stream, 0.0, pos).Jitter(k) == JitterDraw(stream, 0.0, pos + k - 1);
      assert JitterDraw(stream, 0.0, pos + k - 1) == Uniform(-0.0, 0.0, stream(pos + k - 1));
    }
  }
}
