/** The fitness formula of biosim: the product of two logistic "q-factors", one for age and
    one for weight. `math.exp` is a parameter: any positive function, with `exp(0) = 1` and
    strict monotonicity required only by the lemmas that use them. */
module FitnessWorkers {

  type Positive = r: real | r > 0.0 witness 1.0

  /** A stand-in for `math.exp`: a total function into the positive reals. */
  type ExpFn = real -> Positive

  /** `math.exp(x)`. Every use goes through this function, so that each application of the
      arrow is made in one and the same context. */
  function Exp(exp: ExpFn, x: real): (y: real)
    ensures y > 0.0
  {
    exp(x)
  }

  ghost predicate MapsZeroToOne(exp: ExpFn)
  {
    Exp(exp, 0.0) == 1.0
  }

  ghost predicate ExpBelow(exp: ExpFn, s: real, t: real)
  {
    Exp(exp, s) < Exp(exp, t)
  }

  /** The monotonicity law of `exp`; it is used only through `ExpMonotone`. */
  ghost predicate StrictlyIncreasing(exp: ExpFn)
  {
    forall s, t {:trigger ExpBelow(exp, s, t)} :: s < t ==> ExpBelow(exp, s, t)
  }

  /** 1 / (1 + e) for a positive `e`, the shape shared by both q-factors. */
  function Logistic(e: real): (q: real)
    requires e > 0.0
    ensures 0.0 < q < 1.0
  {
    1.0 / (1.0 + e)
  }

  /** `_q_factor`: 1 / (1 + exp(phi * (x - x_half))). */
  function QFactor(exp: ExpFn, phi: real, x: real, xHalf: real): (q: real)
    ensures 0.0 < q < 1.0
  {
    Logistic(Exp(exp, phi * (x - xHalf)))
  }

  /** `_fitness`: the age factor times the weight factor, the latter with `phi_weight` negated. */
  function Fitness(exp: ExpFn, phiAge: real, age: real, aHalf: real,
                   phiWeight: real, weight: real, wHalf: real): (f: real)
    ensures 0.0 < f < 1.0
  {
    QFactor(exp, phiAge, age, aHalf) * QFactor(exp, -phiWeight, weight, wHalf)
  }

  lemma ExpMonotone(exp: ExpFn, s: real, t: real)
    requires StrictlyIncreasing(exp) && s < t
    ensures Exp(exp, s) < Exp(exp, t)
  {
    assert ExpBelow(exp, s, t);
  }

  /** Under the laws of `exp`, exp(z) is one exactly at z = 0. */
  lemma ExpOneOnlyAtZero(exp: ExpFn, z: real)
    requires MapsZeroToOne(exp) && StrictlyIncreasing(exp)
    ensures Exp(exp, z) == 1.0 <==> z == 0.0
  {
    if z < 0.0 {
      ExpMonotone(exp, z, 0.0);
    } else if z > 0.0 {
      ExpMonotone(exp, 0.0, z);
    }
  }

  lemma ProductZero(a: real, b: real)
    requires a != 0.0
    ensures a * b == 0.0 <==> b == 0.0
  {
    if b > 0.0 && a > 0.0 {
      assert a * b > 0.0;
    } else if b > 0.0 {
      assert -a * b > 0.0;
    } else if b < 0.0 && a > 0.0 {
      assert a * -b > 0.0;
    } else if b < 0.0 {
      assert -a * -b > 0.0;
    }
  }

  lemma LogisticHalf(e: real)
    requires e > 0.0
    ensures Logistic(e) == 0.5 <==> e == 1.0
  {
  }

  lemma Reciprocal(a: real, b: real)
    requires 0.0 < a < b
    ensures 1.0 / a > 1.0 / b
  {
  }

  lemma LogisticAntitone(e1: real, e2: real)
    requires 0.0 < e1 < e2
    ensures Logistic(e1) > Logistic(e2)
  {
    Reciprocal(1.0 + e1, 1.0 + e2);
  }

  lemma ScaleStrict(c: real, u: real, v: real)
    requires c > 0.0 && u < v
    ensures c * u < c * v
  {
    assert c * (v - u) > 0.0;
  }

  lemma NegScaleStrict(c: real, u: real, v: real)
    requires c < 0.0 && u < v
    ensures c * v < c * u
  {
    ScaleStrict(-c, u, v);
    assert (-c) * u == -(c * u) && (-c) * v == -(c * v);
  }

  /** A q-factor is exactly one half at the midpoint `x_half`, and only there. */
  lemma QFactorHalfAtMidpoint(exp: ExpFn, phi: real, x: real, xHalf: real)
    requires MapsZeroToOne(exp) && StrictlyIncreasing(exp)
    requires phi != 0.0
    ensures QFactor(exp, phi, x, xHalf) == 0.5 <==> x == xHalf
  {
    QFactorHalfAtUnitExp(exp, phi, x, xHalf);
    ExpOneOnlyAtZero(exp, phi * (x - xHalf));
    ProductZero(phi, x - xHalf);
  }

  lemma QFactorHalfAtUnitExp(exp: ExpFn, phi: real, x: real, xHalf: real)
    ensures QFactor(exp, phi, x, xHalf) == 0.5 <==> Exp(exp, phi * (x - xHalf)) == 1.0
  {
    LogisticHalf(Exp(exp, phi * (x - xHalf)));
  }

  /** A larger value of `exp` at the exponent gives a smaller q-factor. */
  lemma QFactorAntitone(exp: ExpFn, phi: real, x1: real, x2: real, xHalf: real)
    requires Exp(exp, phi * (x1 - xHalf)) < Exp(exp, phi * (x2 - xHalf))
    ensures QFactor(exp, phi, x1, xHalf) > QFactor(exp, phi, x2, xHalf)
  {
    LogisticAntitone(Exp(exp, phi * (x1 - xHalf)), Exp(exp, phi * (x2 - xHalf)));
  }

  /** With phi_age > 0 the age factor falls as age grows. */
  lemma AgeFactorFalls(exp: ExpFn, phiAge: real, age1: real, age2: real, aHalf: real)
    requires StrictlyIncreasing(exp) && phiAge > 0.0 && age1 < age2
    ensures QFactor(exp, phiAge, age1, aHalf) > QFactor(exp, phiAge, age2, aHalf)
  {
    ScaleStrict(phiAge, age1 - aHalf, age2 - aHalf);
    ExpMonotone(exp, phiAge * (age1 - aHalf), phiAge * (age2 - aHalf));
    QFactorAntitone(exp, phiAge, age1, age2, aHalf);
  }

  /** With phi_weight > 0 the weight factor rises as weight grows. */
  lemma WeightFactorRises(exp: ExpFn, phiWeight: real, w1: real, w2: real, wHalf: real)
    requires StrictlyIncreasing(exp) && phiWeight > 0.0 && w1 < w2
    ensures QFactor(exp, -phiWeight, w1, wHalf) < QFactor(exp, -phiWeight, w2, wHalf)
  {
    var phi := -phiWeight;
    NegScaleStrict(phi, w1 - wHalf, w2 - wHalf);
    ExpMonotone(exp, phi * (w2 - wHalf), phi * (w1 - wHalf));
    QFactorAntitone(exp, phi, w2, w1, wHalf);
  }

  /** Products `u * c` and `v * c` of a positive `c` are ordered as `u` and `v`, stated for
      two names of those products. */
  lemma ProductOrder(u: real, v: real, c: real, pu: real, pv: real)
    requires c > 0.0 && u < v && pu == u * c && pv == v * c
    ensures pu < pv
  {
    ScaleStrict(c, u, v);
  }

  /** Fitness falls with age, at a fixed weight. */
  lemma FitnessFallsWithAge(exp: ExpFn, phiAge: real, age1: real, age2: real, aHalf: real,
                            phiWeight: real, weight: real, wHalf: real)
    requires StrictlyIncreasing(exp) && phiAge > 0.0 && age1 < age2
    ensures Fitness(exp, phiAge, age1, aHalf, phiWeight, weight, wHalf)
            > Fitness(exp, phiAge, age2, aHalf, phiWeight, weight, wHalf)
  {
    var qa1 := QFactor(exp, phiAge, age1, aHalf);
    var qa2 := QFactor(exp, phiAge, age2, aHalf);
    var qw := QFactor(exp, -phiWeight, weight, wHalf);
    AgeFactorFalls(exp, phiAge, age1, age2, aHalf);
    var f1 := Fitness(exp, phiAge, age1, aHalf, phiWeight, weight, wHalf);
    var f2 := Fitness(exp, phiAge, age2, aHalf, phiWeight, weight, wHalf);
    ProductOrder(qa2, qa1, qw, f2, f1);
  }

  /** Fitness rises with weight, at a fixed age. */
  lemma FitnessRisesWithWeight(exp: ExpFn, phiAge: real, age: real, aHalf: real,
                               phiWeight: real, w1: real, w2: real, wHalf: real)
    requires StrictlyIncreasing(exp) && phiWeight > 0.0 && w1 < w2
    ensures Fitness(exp, phiAge, age, aHalf, phiWeight, w1, wHalf)
            < Fitness(exp, phiAge, age, aHalf, phiWeight, w2, wHalf)
  {
    var qa := QFactor(exp, phiAge, age, aHalf);
    var qw1 := QFactor(exp, -phiWeight, w1, wHalf);
    var qw2 := QFactor(exp, -phiWeight, w2, wHalf);
    WeightFactorRises(exp, phiWeight, w1, w2, wHalf);
    var f1 := Fitness(exp, phiAge, age, aHalf, phiWeight, w1, wHalf);
    var f2 := Fitness(exp, phiAge, age, aHalf, phiWeight, w2, wHalf);
    assert f1 == qa * qw1 && f2 == qa * qw2;
    ScaleStrict(qa, qw1, qw2);
    ProductOrder(qw1, qw2, qa, qa * qw1, qa * qw2);
  }
}
