/** Python's global `random` generator as an explicit, deterministic source: a stream of
    `random.random()` values and a separate stream of standard normal deviates for
    `random.gauss`, each with a cursor that every draw advances. */
module RandomSource {

  /** A stream of values, indexed by the order in which they are drawn. */
  type Stream = nat -> real

  class Rng {
    const uniform: Stream
    const normal: Stream
    var drawn: nat
    var gaussDrawn: nat

    /** Every value of the uniform stream lies in [0, 1), as `random.random()` promises. */
    ghost predicate Valid()
    {
      forall i: nat :: 0.0 <= uniform(i) < 1.0
    }

    constructor (uniform: Stream, normal: Stream)
      requires forall i: nat :: 0.0 <= uniform(i) < 1.0
      ensures this.uniform == uniform && this.normal == normal
      ensures drawn == 0 && gaussDrawn == 0 && Valid()
    {
      this.uniform := uniform;
      this.normal := normal;
      drawn := 0;
      gaussDrawn := 0;
    }

    /** The `k`-th value of the uniform stream. */
    function UniformAt(k: nat): (u: real)
      ensures Valid() ==> 0.0 <= u < 1.0
    {
      uniform(k)
    }

    /** The `k`-th standard normal deviate. */
    function NormalAt(k: nat): real
    {
      normal(k)
    }

    /** `random.random()`: the next value of the uniform stream. */
    method Random() returns (u: real)
      modifies this`drawn
      ensures u == UniformAt(old(drawn)) && drawn == old(drawn) + 1
    {
      u := uniform(drawn);
      drawn := drawn + 1;
    }

    /** `random.gauss(mu, sigma)`: `mu + sigma * z` for the next standard normal deviate `z`. */
    method Gauss(mu: real, sigma: real) returns (w: real)
      modifies this`gaussDrawn
      ensures w == mu + sigma * NormalAt(old(gaussDrawn)) && gaussDrawn == old(gaussDrawn) + 1
    {
      w := mu + sigma * normal(gaussDrawn);
      gaussDrawn := gaussDrawn + 1;
    }
  }
}
