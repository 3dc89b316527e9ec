/** `Animal`, `Herbivore` and `Carnivore`: an animal object with a weight, an age and a lazily
    cached fitness, and the yearly operations the landscape cells call on it. Each random
    decision draws from an explicit `Rng`; each formula is a function beside the method that
    evaluates it. */
module Animals {
  import opened Wrappers
  import opened Seqs
  import opened AnimalParams
  import FW = FitnessWorkers
  import opened RandomSource

  /** What every animal consults: `math.exp` and the two class-level parameter dictionaries. */
  datatype Env = Env(exp: FW.ExpFn, herbivore: Params, carnivore: Params)
  {
    function ParamsOf(s: Species): Params
    {
      if s == Herbivore then herbivore else carnivore
    }

    /** Both dictionaries hold values `set_parameters` admits, and only carnivores have
        DeltaPhiMax, as in the class definitions. */
    predicate Valid()
    {
      ValidParams(herbivore) && ValidParams(carnivore)
      && herbivore.deltaPhiMax.None? && carnivore.deltaPhiMax.Some?
    }
  }

  /** `_fitness` applied to an animal's weight and age with its species' parameters. */
  function FitnessOf(env: Env, s: Species, weight: real, age: nat): (f: real)
    ensures 0.0 < f < 1.0
  {
    var p := env.ParamsOf(s);
    FW.Fitness(env.exp, p.phiAge, age as real, p.aHalf, p.phiWeight, weight, p.wHalf)
  }

  datatype AnimalError = NonPositiveWeight | InvalidAge

  /** The checks of `Animal.__init__`, weight first. */
  function CheckNewAnimal(weight: real, age: real): (r: Option<AnimalError>)
  {
    if weight <= 0.0 then Some(NonPositiveWeight)
    else if age < 0.0 || age.Floor as real != age then Some(InvalidAge)
    else None
  }

  /** The constructor refuses exactly a non-positive weight and an age that is not a
      non-negative whole number, and reports the weight first. */
  lemma CheckNewAnimalIff(weight: real, age: real)
    ensures CheckNewAnimal(weight, age).None? <==> weight > 0.0 && age >= 0.0 && age == age.Floor as real
    ensures weight <= 0.0 ==> CheckNewAnimal(weight, age) == Some(NonPositiveWeight)
    ensures weight > 0.0 && (age < 0.0 || age != age.Floor as real) ==> CheckNewAnimal(weight, age) == Some(InvalidAge)
  {
  }

  /** `weight_change`: the weight after losing the fraction eta of it. */
  function WeightAfterLoss(eta: real, w: real): real
  {
    w - eta * w
  }

  /** The loss is proportional: the weight is scaled by (1 - eta), so eta = 0 keeps it and
      eta = 1 empties it, and with eta in [0, 1] it never goes negative or up. */
  lemma WeightAfterLossFacts(eta: real, w: real)
    ensures WeightAfterLoss(eta, w) == (1.0 - eta) * w
    ensures eta == 0.0 ==> WeightAfterLoss(eta, w) == w
    ensures eta == 1.0 ==> WeightAfterLoss(eta, w) == 0.0
    ensures 0.0 <= eta <= 1.0 && w >= 0.0 ==> 0.0 <= WeightAfterLoss(eta, w) <= w
  {
    if 0.0 <= eta <= 1.0 && w >= 0.0 {
      assert eta * w <= 1.0 * w;
      assert eta * w >= 0.0;
    }
  }

  /** The weight below which `probability_birth` is 0. */
  function BirthThreshold(p: Params): real
  {
    p.zeta * (p.wBirth + p.sigmaBirth)
  }

  /** `probability_birth` for an animal of the given weight and fitness among `n` of its kind. */
  function BirthProbability(p: Params, weight: real, fitness: real, n: int): real
  {
    var x := p.gamma * fitness * (n - 1) as real;
    if weight < BirthThreshold(p) then 0.0 else if x > 1.0 then 1.0 else x
  }

  /** A light animal or a lonely one gives no birth; otherwise the probability is
      min(1, gamma * fitness * (n - 1)); for valid parameters, a fitness in [0, 1] and n >= 1
      it is a probability. */
  lemma BirthProbabilityFacts(p: Params, weight: real, fitness: real, n: int)
    ensures weight < BirthThreshold(p) ==> BirthProbability(p, weight, fitness, n) == 0.0
    ensures n == 1 ==> BirthProbability(p, weight, fitness, n) == 0.0
    ensures weight >= BirthThreshold(p) ==>
              BirthProbability(p, weight, fitness, n) == Min(1.0, p.gamma * fitness * (n - 1) as real)
    ensures ValidParams(p) && 0.0 <= fitness <= 1.0 && n >= 1 ==>
              0.0 <= BirthProbability(p, weight, fitness, n) <= 1.0
  {
    var x := p.gamma * fitness * (n - 1) as real;
    if weight >= BirthThreshold(p) {
      if x > 1.0 {
        assert BirthProbability(p, weight, fitness, n) == 1.0 == Min(1.0, x);
      } else {
        assert BirthProbability(p, weight, fitness, n) == x == Min(1.0, x);
      }
    }
    if ValidParams(p) && 0.0 <= fitness <= 1.0 && n >= 1 {
      NonNegativeProduct(p.gamma, fitness, (n - 1) as real);
    }
  }

  function Min(a: real, b: real): real
  {
    if a <= b then a else b
  }

  lemma NonNegativeProduct(a: real, b: real, c: real)
    requires a >= 0.0 && b >= 0.0 && c >= 0.0
    ensures a * b * c >= 0.0
  {
    assert a * b >= 0.0;
  }

  datatype BirthOutcome = NoBirth | Born(newbornWeight: real, motherWeight: real)

  /** `birth` given the birth probability, the uniform draw and the newborn weight drawn from
      the normal distribution (only consulted when the uniform draw is below the probability). */
  function BirthOutcomeOf(p: Params, weight: real, prob: real, u: real, wNewborn: real): BirthOutcome
  {
    if u < prob && 0.0 < wNewborn < weight && weight - p.xi * wNewborn > 0.0
    then Born(wNewborn, weight - p.xi * wNewborn)
    else NoBirth
  }

  /** A newborn comes out only past all three rejection rules: it is lighter than the mother and
      positive, the mother loses exactly xi times its weight and stays positive, and with
      xi >= 0 she is no heavier than before. */
  lemma BirthOutcomeFacts(p: Params, weight: real, prob: real, u: real, wNewborn: real)
    ensures BirthOutcomeOf(p, weight, prob, u, wNewborn).Born? <==>
              u < prob && 0.0 < wNewborn < weight && weight - p.xi * wNewborn > 0.0
    ensures var o := BirthOutcomeOf(p, weight, prob, u, wNewborn);
      o.Born? ==>
        && o.newbornWeight == wNewborn && 0.0 < o.newbornWeight < weight
        && o.motherWeight > 0.0 && o.motherWeight + p.xi * o.newbornWeight == weight
        && (p.xi >= 0.0 ==> o.motherWeight <= weight)
    ensures 0.0 <= u && prob <= 0.0 ==> BirthOutcomeOf(p, weight, prob, u, wNewborn) == NoBirth
  {
    if u < prob && 0.0 < wNewborn < weight && p.xi >= 0.0 {
      assert p.xi * wNewborn >= 0.0;
    }
  }

  /** The threshold a uniform draw must fall under for `death` to return True. */
  function DeathProbability(p: Params, fitness: real): real
  {
    p.omega * (1.0 - fitness)
  }

  /** A valid omega and a fitness in [0, 1] give a probability, which shrinks as fitness grows
      and is 0 at fitness 1. */
  lemma DeathProbabilityFacts(p: Params, f1: real, f2: real)
    requires ValidParams(p) && 0.0 <= f1 <= f2 <= 1.0
    ensures 0.0 <= DeathProbability(p, f2) <= DeathProbability(p, f1) <= 1.0
    ensures f2 == 1.0 ==> DeathProbability(p, f2) == 0.0
  {
    ScaleChain(p.omega, 1.0 - f2, 1.0 - f1);
    assert DeathProbability(p, f1) == p.omega * (1.0 - f1);
    assert DeathProbability(p, f2) == p.omega * (1.0 - f2);
  }

  lemma ScaleChain(c: real, x: real, y: real)
    requires 0.0 <= c <= 1.0 && 0.0 <= x <= y <= 1.0
    ensures 0.0 <= c * x <= c * y <= 1.0
    ensures x == 0.0 ==> c * x == 0.0
  {
    ScaleMonotone(c, x, y);
    ScaleBelow(c, x);
    ScaleBelow(c, y);
  }

  lemma ScaleMonotone(c: real, x: real, y: real)
    requires c >= 0.0 && x <= y
    ensures c * x <= c * y
  {
    assert c * (y - x) >= 0.0;
  }

  /** `prob_migration`: mu times fitness. */
  function MigrationProbability(p: Params, fitness: real): real
  {
    p.mu * fitness
  }

  lemma MigrationProbabilityFacts(p: Params, fitness: real)
    requires ValidParams(p) && 0.0 <= fitness <= 1.0
    ensures 0.0 <= MigrationProbability(p, fitness) <= p.mu <= 1.0
  {
    var m := MigrationProbability(p, fitness);
    ScaleBelow(p.mu, fitness);
    assert m == p.mu * fitness;
  }

  lemma ScaleBelow(c: real, x: real)
    requires 0.0 <= c && 0.0 <= x <= 1.0
    ensures 0.0 <= c * x <= c
  {
    ScaleMonotone(c, x, 1.0);
    ScaleMonotone(c, 0.0, x);
  }


  datatype FoodError = NegativeFood

  /** `Herbivore.eating`: the amount eaten out of the food on offer, or the error it raises. */
  function Grazing(appetite: real, available: real): Result<real, FoodError>
  {
    if available < 0.0 then Failure(NegativeFood)
    else if appetite <= available then Success(appetite)
    else Success(available)
  }

  /** Grazing fails exactly on negative food; otherwise it eats min(F, available), which for a
      non-negative appetite lies between 0 and the food on offer. */
  lemma GrazingFacts(appetite: real, available: real)
    ensures Grazing(appetite, available).Success? <==> available >= 0.0
    ensures Grazing(appetite, available).Success? ==>
              Grazing(appetite, available).value == Min(appetite, available)
    ensures appetite >= 0.0 && available >= 0.0 ==>
              0.0 <= Grazing(appetite, available).value <= available
              && Grazing(appetite, available).value <= appetite
  {
  }

  /** With admissible parameters a herbivore never loses weight by eating: it gains beta times
      a non-negative amount. */
  lemma GrazingGains(p: Params, w: real, available: real)
    requires ValidParams(p) && available >= 0.0
    ensures Grazing(p.F, available).Success?
    ensures w <= w + p.beta * Grazing(p.F, available).value <= w + p.beta * p.F
  {
    GrazingFacts(p.F, available);
    var e := Grazing(p.F, available).value;
    ScaleMonotone(p.beta, 0.0, e);
    ScaleMonotone(p.beta, e, p.F);
  }

  /** `prob_kill`: the fitness gap as a fraction of DeltaPhiMax. */
  function KillProbability(gap: real, deltaPhiMax: real): real
    requires deltaPhiMax != 0.0
  {
    gap / deltaPhiMax
  }

  /** The band of fitness gaps in which a kill is left to chance. */
  predicate InKillBand(gap: real, deltaPhiMax: real)
  {
    0.0 < gap < deltaPhiMax
  }

  /** `carn_kills_herb` for a fitness gap, given the uniform value `u` it would draw: inside
      the band the draw decides, outside it the answer is a kill. */
  function KillDecision(gap: real, deltaPhiMax: real, u: real): bool
  {
    if InKillBand(gap, deltaPhiMax) then u < KillProbability(gap, deltaPhiMax) else true
  }

  /** How many uniform values `carn_kills_herb` draws: one inside the band, none outside. */
  function KillDraws(gap: real, deltaPhiMax: real): nat
  {
    if InKillBand(gap, deltaPhiMax) then 1 else 0
  }

  /** Inside the band the chance of a kill is strictly between 0 and 1 and a kill happens iff
      the draw falls below it; a gap of at least DeltaPhiMax is a kill without a draw, and so
      a gap of no more than zero is one too (`eating` never asks about one). */
  lemma KillDecisionFacts(gap: real, deltaPhiMax: real, u: real)
    ensures InKillBand(gap, deltaPhiMax) ==>
              && 0.0 < KillProbability(gap, deltaPhiMax) < 1.0
              && (KillDecision(gap, deltaPhiMax, u) <==> u < gap / deltaPhiMax)
              && KillDraws(gap, deltaPhiMax) == 1
    ensures 0.0 < deltaPhiMax <= gap ==> KillDecision(gap, deltaPhiMax, u) && KillDraws(gap, deltaPhiMax) == 0
    ensures gap <= 0.0 ==> KillDecision(gap, deltaPhiMax, u) && KillDraws(gap, deltaPhiMax) == 0
  {
    if InKillBand(gap, deltaPhiMax) {
      DivideBelowOne(gap, deltaPhiMax);
    }
  }

  /** A positive number divided by a larger one lies strictly between 0 and 1. */
  lemma DivideBelowOne(a: real, b: real)
    requires 0.0 < a < b
    ensures 0.0 < a / b < 1.0
  {
    var q := a / b;
    assert q * b == a;
    if q >= 1.0 {
      ScaleMonotone(b, 1.0, q);
      assert false;
    }
  }

  /** What a hunting carnivore sees of one herbivore: its fitness and its weight. */
  datatype Prey = Prey(fitness: real, weight: real)

  /** The state of `Carnivore.eating` between herbivores: the carnivore's weight and fitness
      cache, `eaten_food`, the uniform stream's cursor, how many herbivores have had their
      fitness read, whether the loop has broken off, and the survivor mask so far. */
  datatype MealState = MealState(weight: real, cache: Option<real>, eaten: real, drawn: nat,
                                 examined: nat, stopped: bool, keep: seq<bool>)

  function MealStart(weight: real, cache: Option<real>, drawn: nat): MealState
  {
    MealState(weight, cache, 0.0, drawn, 0, false, [])
  }

  /** The carnivore's `fitness` property in a meal state. */
  function HunterFitness(env: Env, age: nat, s: MealState): real
  {
    match s.cache
    case Some(f) => f
    case None => FitnessOf(env, Carnivore, s.weight, age)
  }

  /** A kill: eat the herbivore's weight, or only what is left of the appetite F, and gain
      beta times what was eaten. Returns the new weight and the new `eaten_food`. */
  function Gorge(p: Params, weight: real, eaten: real, preyWeight: real): (real, real)
  {
    if eaten + preyWeight > p.F then (weight + (p.F - eaten) * p.beta, p.F)
    else (weight + preyWeight * p.beta, eaten + preyWeight)
  }

  /** One pass of the loop body of `Carnivore.eating` for herbivore `h`. */
  function MealStep(env: Env, age: nat, rng: Rng, s: MealState, h: Prey): MealState
    requires env.carnivore.deltaPhiMax.Some?
  {
    if s.stopped then s.(keep := s.keep + [true])
    else
      var cf := HunterFitness(env, age, s);
      if cf <= h.fitness || s.eaten == env.carnivore.F then
        s.(cache := Some(cf), examined := s.examined + 1, stopped := true, keep := s.keep + [true])
      else
        var gap := cf - h.fitness;
        var dpm := env.carnivore.deltaPhiMax.value;
        var drawn := s.drawn + KillDraws(gap, dpm);
        if KillDecision(gap, dpm, rng.UniformAt(s.drawn)) then
          var (w, e) := Gorge(env.carnivore, s.weight, s.eaten, h.weight);
          MealState(w, None, e, drawn, s.examined + 1, false, s.keep + [false])
        else
          s.(cache := Some(cf), drawn := drawn, examined := s.examined + 1, keep := s.keep + [true])
  }

  /** `Carnivore.eating` over the first `n` herbivores, one `MealStep` per herbivore. */
  function Meal(env: Env, age: nat, rng: Rng, s0: MealState, preys: seq<Prey>, n: nat): MealState
    requires env.carnivore.deltaPhiMax.Some? && n <= |preys|
  {
    if n == 0 then s0 else MealStep(env, age, rng, Meal(env, age, rng, s0, preys, n - 1), preys[n - 1])
  }

  /** `states[k]` is the meal state after the first `k` herbivores. */
  ghost predicate IsMealTrace(env: Env, age: nat, rng: Rng, s0: MealState, preys: seq<Prey>, states: seq<MealState>)
    requires env.carnivore.deltaPhiMax.Some?
  {
    && |states| == |preys| + 1
    && forall k {:trigger Meal(env, age, rng, s0, preys, k)} :: 0 <= k <= |preys| ==>
         states[k] == Meal(env, age, rng, s0, preys, k)
  }

  /** The herbivores as the carnivore sees them when the meal starts. */
  function Preys(env: Env, herbs: seq<Animal>): (r: seq<Prey>)
    reads herbs`weight, herbs`age, herbs`fitnessCache
    ensures |r| == |herbs|
    ensures forall j :: 0 <= j < |herbs| ==> r[j] == Prey(herbs[j].CurrentFitness(env), herbs[j].weight)
  {
    if herbs == [] then []
    else Preys(env, herbs[..|herbs| - 1]) + [Prey(herbs[|herbs| - 1].CurrentFitness(env), herbs[|herbs| - 1].weight)]
  }

  /** The mask has one entry per herbivore; a meal that has not broken off has read every
      herbivore's fitness, one that has broken off has read no more than all of them. */
  lemma {:induction false} MealShape(env: Env, age: nat, rng: Rng, s0: MealState, preys: seq<Prey>, n: nat)
    requires env.carnivore.deltaPhiMax.Some? && n <= |preys|
    requires s0.keep == [] && s0.examined == 0 && !s0.stopped
    ensures var s := Meal(env, age, rng, s0, preys, n);
      && |s.keep| == n
      && s.examined <= n
      && (!s.stopped ==> s.examined == n)
  {
    if n > 0 {
      MealShape(env, age, rng, s0, preys, n - 1);
    }
  }

  /** Once the loop has broken off, after herbivore `k`, every further herbivore survives and
      nothing else changes. */
  lemma {:induction false} MealAfterStop(env: Env, age: nat, rng: Rng, s0: MealState, preys: seq<Prey>, k: nat, n: nat)
    requires env.carnivore.deltaPhiMax.Some? && k <= n <= |preys|
    requires Meal(env, age, rng, s0, preys, k).stopped
    ensures var s := Meal(env, age, rng, s0, preys, k);
      Meal(env, age, rng, s0, preys, n) == s.(keep := s.keep + AllTrue(n - k))
  {
    var s := Meal(env, age, rng, s0, preys, k);
    if n == k {
      assert s.keep + AllTrue(0) == s.keep;
    } else {
      MealAfterStop(env, age, rng, s0, preys, k, n - 1);
      AllTrueExtend(n - 1 - k);
      assert s.keep + AllTrue(n - 1 - k) + [true] == s.keep + AllTrue(n - k);
    }
  }

  /** What the loop knows when it breaks off at herbivore `i`: the meal's end state is the
      state after `i`, and the survivors are the kept herbivores before `i` followed by all
      herbivores from `i` on. */
  lemma MealBreakFacts<T>(env: Env, age: nat, rng: Rng, s0: MealState, preys: seq<Prey>, xs: seq<T>, i: nat)
    requires env.carnivore.deltaPhiMax.Some? && i < |preys| == |xs|
    requires var s := Meal(env, age, rng, s0, preys, i);
      var t := Meal(env, age, rng, s0, preys, i + 1);
      |s.keep| == i && t.stopped && t.keep == s.keep + [true]
    ensures var s := Meal(env, age, rng, s0, preys, i);
      var t := Meal(env, age, rng, s0, preys, i + 1);
      var fin := Meal(env, age, rng, s0, preys, |preys|);
      && fin.weight == t.weight && fin.cache == t.cache && fin.drawn == t.drawn
      && fin.examined == t.examined && |fin.keep| == |xs|
      && Filter(xs, fin.keep) == Filter(xs[..i], s.keep) + xs[i..]
  {
    var s := Meal(env, age, rng, s0, preys, i);
    MealAfterStop(env, age, rng, s0, preys, i + 1, |preys|);
    FilterBreak(xs, s.keep, i);
  }

  /** When herbivore `j` is reached and the carnivore is not strictly fitter, or has already
      eaten F, herbivore `j` and every later one survive. */
  lemma MealEarlyExit(env: Env, age: nat, rng: Rng, s0: MealState, preys: seq<Prey>, j: nat)
    requires env.carnivore.deltaPhiMax.Some?
    requires s0.keep == [] && s0.examined == 0 && !s0.stopped
    requires j < |preys|
    requires var s := Meal(env, age, rng, s0, preys, j);
      !s.stopped && (HunterFitness(env, age, s) <= preys[j].fitness || s.eaten == env.carnivore.F)
    ensures var fin := Meal(env, age, rng, s0, preys, |preys|);
      |fin.keep| == |preys| && forall k :: j <= k < |preys| ==> fin.keep[k]
  {
    var s := Meal(env, age, rng, s0, preys, j);
    MealShape(env, age, rng, s0, preys, j);
    var t := Meal(env, age, rng, s0, preys, j + 1);
    assert t.stopped && t.keep == s.keep + [true];
    MealAfterStop(env, age, rng, s0, preys, j + 1, |preys|);
    var fin := Meal(env, age, rng, s0, preys, |preys|);
    assert fin.keep == s.keep + [true] + AllTrue(|preys| - j - 1);
    forall k | j <= k < |preys|
      ensures fin.keep[k]
    {
      if k > j {
        assert fin.keep[k] == AllTrue(|preys| - j - 1)[k - j - 1];
      }
    }
  }

  /** A carnivore with no appetite (F = 0) leaves every herbivore alive. */
  lemma MealNoAppetite(env: Env, age: nat, rng: Rng, s0: MealState, preys: seq<Prey>)
    requires env.carnivore.deltaPhiMax.Some? && env.carnivore.F == 0.0
    requires s0 == MealStart(s0.weight, s0.cache, s0.drawn)
    ensures Meal(env, age, rng, s0, preys, |preys|).keep == AllTrue(|preys|)
  {
    if preys != [] {
      MealEarlyExit(env, age, rng, s0, preys, 0);
    } else {
      assert Meal(env, age, rng, s0, preys, 0) == s0;
    }
  }

  /** A kill keeps `eaten_food` in [0, F], never lowers it, and keeps the weight at the
      starting weight plus beta times what has been eaten. */
  lemma GorgeEats(p: Params, w0: real, weight: real, eaten: real, preyWeight: real)
    requires preyWeight >= 0.0 && 0.0 <= eaten <= p.F && weight == w0 + p.beta * eaten
    ensures var (w, e) := Gorge(p, weight, eaten, preyWeight);
      eaten <= e <= p.F && w == w0 + p.beta * e
  {
    if eaten + preyWeight > p.F {
      GainIsBetaTimesEaten(w0, p.beta, eaten, p.F - eaten);
    } else {
      GainIsBetaTimesEaten(w0, p.beta, eaten, preyWeight);
    }
  }

  lemma GainIsBetaTimesEaten(w0: real, beta: real, eaten: real, more: real)
    ensures w0 + beta * eaten + more * beta == w0 + beta * (eaten + more)
  {
  }

  /** `eaten_food` is in [0, F] and the weight is the starting weight plus beta times it. */
  predicate Appetite(p: Params, w0: real, s: MealState)
  {
    0.0 <= s.eaten <= p.F && s.weight == w0 + p.beta * s.eaten
  }

  lemma MealStepEats(env: Env, age: nat, rng: Rng, s: MealState, h: Prey, w0: real)
    requires env.carnivore.deltaPhiMax.Some? && h.weight >= 0.0
    requires Appetite(env.carnivore, w0, s)
    ensures Appetite(env.carnivore, w0, MealStep(env, age, rng, s, h))
    ensures s.eaten <= MealStep(env, age, rng, s, h).eaten
  {
    GorgeEats(env.carnivore, w0, s.weight, s.eaten, h.weight);
  }

  /** The appetite bound and the weight gain: with F >= 0 and herbivores of non-negative
      weight, `eaten_food` stays in [0, F], and the weight is always the starting weight plus
      beta times what has been eaten. */
  lemma {:induction false} MealEats(env: Env, age: nat, rng: Rng, s0: MealState, preys: seq<Prey>, n: nat)
    requires env.carnivore.deltaPhiMax.Some? && env.carnivore.F >= 0.0 && n <= |preys|
    requires s0 == MealStart(s0.weight, s0.cache, s0.drawn)
    requires forall j :: 0 <= j < |preys| ==> preys[j].weight >= 0.0
    ensures Appetite(env.carnivore, s0.weight, Meal(env, age, rng, s0, preys, n))
  {
    if n == 0 {
      assert s0.weight + env.carnivore.beta * 0.0 == s0.weight;
    } else {
      MealEats(env, age, rng, s0, preys, n - 1);
      MealStepEats(env, age, rng, Meal(env, age, rng, s0, preys, n - 1), preys[n - 1], s0.weight);
    }
  }

  class Animal {
    const species: Species
    var weight: real
    var age: nat
    /** `_fitness`: `None`, or the fitness computed when it was last read. */
    var fitnessCache: Option<real>

    /** Any fitness cached is one the formula can produce, and the weight is not negative. */
    ghost predicate Valid()
      reads this
    {
      weight >= 0.0 && (fitnessCache.Some? ==> 0.0 < fitnessCache.value < 1.0)
    }

    /** The constructor proper, once `CheckNewAnimal` has passed. */
    constructor (species: Species, weight: real, age: nat)
      requires weight > 0.0
      ensures this.species == species && this.weight == weight && this.age == age
      ensures fitnessCache == None && Valid()
    {
      this.species := species;
      this.weight := weight;
      this.age := age;
      fitnessCache := None;
    }

    /** The value the `fitness` property returns now: the cache if set, the formula otherwise. */
    function CurrentFitness(env: Env): (f: real)
      reads this`weight, this`age, this`fitnessCache
      ensures Valid() ==> 0.0 < f < 1.0
    {
      match fitnessCache
      case Some(f) => f
      case None => FitnessOf(env, species, weight, age)
    }

    /** The cache holds the formula's value for the current weight, age and parameters. */
    predicate CacheFresh(env: Env)
      reads this
    {
      fitnessCache.Some? ==> fitnessCache.value == FitnessOf(env, species, weight, age)
    }

    /** The `fitness` property: compute on a miss, then remember. */
    method Fitness(env: Env) returns (f: real)
      modifies this`fitnessCache
      ensures f == old(CurrentFitness(env)) && fitnessCache == Some(f)
      ensures old(Valid()) ==> Valid()
      ensures old(CacheFresh(env)) ==> f == FitnessOf(env, species, weight, age) && CacheFresh(env)
    {
      if fitnessCache.None? {
        fitnessCache := Some(FitnessOf(env, species, weight, age));
      }
      f := fitnessCache.value;
    }

    /** The `weight` setter, which forgets the cached fitness. */
    method SetWeight(w: real)
      modifies this`weight, this`fitnessCache
      ensures weight == w && fitnessCache == None
    {
      weight := w;
      fitnessCache := None;
    }

    /** The `age` setter, which forgets the cached fitness. */
    method SetAge(a: nat)
      modifies this`age, this`fitnessCache
      ensures age == a && fitnessCache == None
    {
      age := a;
      fitnessCache := None;
    }

    /** `aging`. */
    method Aging()
      modifies this`age, this`fitnessCache
      ensures age == old(age) + 1 && fitnessCache == None
      ensures old(weight >= 0.0) ==> Valid()
    {
      SetAge(age + 1);
    }

    /** `weight_change`. */
    method WeightChange(env: Env)
      modifies this`weight, this`fitnessCache
      ensures weight == WeightAfterLoss(env.ParamsOf(species).eta, old(weight))
      ensures fitnessCache == None
    {
      var eta := env.ParamsOf(species).eta;
      WeightAfterLossFacts(eta, weight);
      SetWeight(weight - eta * weight);
    }

    /** `probability_birth`; it reads the fitness only when the weight reaches the threshold. */
    method ProbabilityBirth(env: Env, n: int) returns (prob: real)
      modifies this`fitnessCache
      ensures prob == BirthProbability(env.ParamsOf(species), weight, old(CurrentFitness(env)), n)
      ensures fitnessCache ==
                if weight < BirthThreshold(env.ParamsOf(species)) then old(fitnessCache)
                else Some(old(CurrentFitness(env)))
      ensures old(Valid()) ==> Valid()
    {
      var p := env.ParamsOf(species);
      if weight < p.zeta * (p.wBirth + p.sigmaBirth) {
        prob := 0.0;
      } else {
        var f := Fitness(env);
        prob := BirthProbability(p, weight, f, n);
      }
    }

    /** The outcome of `birth` for this animal's species, given its weight and fitness, the
        number of its kind, and the positions of both random streams. */
    function BirthOutcome(env: Env, w: real, fitness: real, n: int, rng: Rng, k: nat, g: nat): BirthOutcome
    {
      var p := env.ParamsOf(species);
      BirthOutcomeOf(p, w, BirthProbability(p, w, fitness, n), rng.UniformAt(k),
                     p.wBirth + p.sigmaBirth * rng.NormalAt(g))
    }

    /** `birth`: one uniform draw against the birth probability, then a newborn weight from the
        normal stream; the mother pays xi times the newborn's weight. */
    method Birth(env: Env, n: int, rng: Rng) returns (baby: Option<Animal>)
      modifies this`weight, this`fitnessCache, rng`drawn, rng`gaussDrawn
      ensures rng.drawn == old(rng.drawn) + 1
      ensures var prob := BirthProbability(env.ParamsOf(species), old(weight), old(CurrentFitness(env)), n);
        rng.gaussDrawn == old(rng.gaussDrawn) + (if rng.UniformAt(old(rng.drawn)) < prob then 1 else 0)
      ensures var o := BirthOutcome(env, old(weight), old(CurrentFitness(env)), n, rng, old(rng.drawn), old(rng.gaussDrawn));
        && (baby.Some? <==> o.Born?)
        && (baby.Some? ==>
              && fresh(baby.value) && baby.value.species == species
              && baby.value.weight == o.newbornWeight && baby.value.age == 0
              && baby.value.fitnessCache == None && baby.value.Valid()
              && weight == o.motherWeight && fitnessCache == None)
      ensures baby.None? ==> weight == old(weight)
      ensures baby.None? ==>
                fitnessCache == (if old(weight) < BirthThreshold(env.ParamsOf(species)) then old(fitnessCache)
                                 else Some(old(CurrentFitness(env))))
      ensures old(Valid()) ==> Valid()
    {
      ghost var o := BirthOutcome(env, weight, CurrentFitness(env), n, rng, rng.drawn, rng.gaussDrawn);
      var prob := ProbabilityBirth(env, n);
      var u := rng.Random();
      baby := None;
      if u < prob {
        baby := Deliver(env, rng, prob, u);
      } else {
        assert o == NoBirth;
      }
    }

    /** The part of `birth` after a draw `u` below the probability `prob`: the newborn
        weight, then the two rejection rules. */
    method Deliver(env: Env, rng: Rng, ghost prob: real, ghost u: real) returns (baby: Option<Animal>)
      requires u < prob
      modifies this`weight, this`fitnessCache, rng`gaussDrawn
      ensures rng.gaussDrawn == old(rng.gaussDrawn) + 1
      ensures var p := env.ParamsOf(species);
        var o := BirthOutcomeOf(p, old(weight), prob, u, p.wBirth + p.sigmaBirth * rng.NormalAt(old(rng.gaussDrawn)));
        && (baby.Some? <==> o.Born?)
        && (baby.Some? ==>
              && o.Born? && fresh(baby.value) && baby.value.species == species
              && baby.value.weight == o.newbornWeight && baby.value.age == 0
              && baby.value.fitnessCache == None && baby.value.Valid()
              && weight == o.motherWeight && fitnessCache == None)
        && (baby.None? ==> weight == old(weight) && fitnessCache == old(fitnessCache))
    {
      var p := env.ParamsOf(species);
      var w := rng.Gauss(p.wBirth, p.sigmaBirth);
      baby := None;
      if 0.0 < w < weight {
        var after := weight - p.xi * w;
        if after > 0.0 {
          SetWeight(after);
          var b := new Animal(species, w, 0);
          baby := Some(b);
        }
      }
    }

    /** `death`: a uniform draw below omega * (1 - fitness). */
    method Death(env: Env, rng: Rng) returns (dies: bool)
      modifies this`fitnessCache, rng`drawn
      ensures dies == (rng.UniformAt(old(rng.drawn)) < DeathProbability(env.ParamsOf(species), old(CurrentFitness(env))))
      ensures rng.drawn == old(rng.drawn) + 1 && fitnessCache == Some(old(CurrentFitness(env)))
      ensures old(Valid()) ==> Valid()
    {
      var u := rng.Random();
      var f := Fitness(env);
      dies := u < env.ParamsOf(species).omega * (1.0 - f);
    }

    /** `prob_migration`. */
    method ProbMigration(env: Env) returns (prob: real)
      modifies this`fitnessCache
      ensures prob == MigrationProbability(env.ParamsOf(species), old(CurrentFitness(env)))
      ensures fitnessCache == Some(old(CurrentFitness(env)))
      ensures old(Valid()) ==> Valid()
    {
      var f := Fitness(env);
      prob := env.ParamsOf(species).mu * f;
    }

    /** `Herbivore.eating`: raises on negative food, otherwise eats min(F, available) and
        gains beta times that. */
    method HerbivoreEating(env: Env, available: real) returns (r: Result<real, FoodError>)
      requires species == Herbivore
      modifies this`weight, this`fitnessCache
      ensures r == Grazing(env.herbivore.F, available)
      ensures r.Success? ==> weight == old(weight) + env.herbivore.beta * r.value && fitnessCache == None
      ensures r.Failure? ==> weight == old(weight) && fitnessCache == old(fitnessCache)
    {
      var p := env.herbivore;
      if available < 0.0 {
        return Failure(NegativeFood);
      }
      if p.F <= available {
        SetWeight(weight + p.beta * p.F);
        r := Success(p.F);
      } else {
        SetWeight(weight + p.beta * available);
        r := Success(available);
      }
    }

    /** `carn_kills_herb`: both fitness values are read (and cached) before the decision. */
    method KillsHerbivore(env: Env, herb: Animal, rng: Rng) returns (kill: bool)
      requires species == Carnivore && herb.species == Herbivore
      requires env.carnivore.deltaPhiMax.Some?
      modifies this`fitnessCache, herb`fitnessCache, rng`drawn
      ensures var gap := old(CurrentFitness(env)) - old(herb.CurrentFitness(env));
        var dpm := env.carnivore.deltaPhiMax.value;
        kill == KillDecision(gap, dpm, rng.UniformAt(old(rng.drawn)))
        && rng.drawn == old(rng.drawn) + KillDraws(gap, dpm)
      ensures fitnessCache == Some(old(CurrentFitness(env)))
      ensures herb.fitnessCache == Some(old(herb.CurrentFitness(env)))
      ensures old(Valid()) ==> Valid()
      ensures old(herb.Valid()) ==> herb.Valid()
    {
      var dpm := env.carnivore.deltaPhiMax.value;
      var cf := Fitness(env);
      var hf := herb.Fitness(env);
      if 0.0 < cf - hf < dpm {
        var u := rng.Random();
        kill := u < (cf - hf) / dpm;
      } else {
        kill := true;
      }
    }

    /** One pass of the loop body of `Carnivore.eating`, from meal state `s`, for a herbivore
        that looks like `prey`: whether the loop breaks off, whether the herbivore is killed, and
        the new `eaten_food`. */
    method Hunt(env: Env, herb: Animal, rng: Rng, eaten: real, ghost s: MealState, ghost prey: Prey)
      returns (stop: bool, kill: bool, eatenAfter: real)
      requires species == Carnivore && herb.species == Herbivore && env.carnivore.deltaPhiMax.Some?
      requires !s.stopped && weight == s.weight && fitnessCache == s.cache && eaten == s.eaten
      requires rng.drawn == s.drawn
      requires herb.CurrentFitness(env) == prey.fitness && herb.weight == prey.weight
      modifies this`weight, this`fitnessCache, herb`fitnessCache, rng`drawn
      ensures var t := MealStep(env, age, rng, s, prey);
        && weight == t.weight && fitnessCache == t.cache && eatenAfter == t.eaten && rng.drawn == t.drawn
        && stop == t.stopped && t.keep == s.keep + [stop || !kill] && t.examined == s.examined + 1
      ensures herb.fitnessCache == Some(prey.fitness)
    {
      var p := env.carnivore;
      var cf := Fitness(env);
      var hf := herb.Fitness(env);
      assert cf == HunterFitness(env, age, s);
      eatenAfter := eaten;
      if cf <= hf || eaten == p.F {
        return true, false, eaten;
      }
      stop := false;
      kill := KillsHerbivore(env, herb, rng);
      if kill {
        eatenAfter := Devour(env, eaten, herb.weight);
      }
    }

    /** A kill in `Carnivore.eating`: eat the herbivore's weight, or only what is left of the
        appetite F, and gain beta times what was eaten. */
    method Devour(env: Env, eaten: real, preyWeight: real) returns (eatenAfter: real)
      modifies this`weight, this`fitnessCache
      ensures (weight, eatenAfter) == Gorge(env.carnivore, old(weight), eaten, preyWeight)
      ensures fitnessCache == None
    {
      var p := env.carnivore;
      var w := weight;
      if eaten + preyWeight > p.F {
        w := w + (p.F - eaten) * p.beta;
        eatenAfter := p.F;
      } else {
        w := w + preyWeight * p.beta;
        eatenAfter := eaten + preyWeight;
      }
      assert Gorge(p, weight, eaten, preyWeight).0 == w;
      assert Gorge(p, weight, eaten, preyWeight).1 == eatenAfter;
      SetWeight(w);
    }

    /** One pass of the loop of `Carnivore.eating`, over herbivore `i`: the hunt, the
        survivor list it extends, and, when the loop breaks off, the survivors that follow. */
    method EatingStep(env: Env, herbs: seq<Animal>, herb: Animal, rng: Rng, i: nat, eaten: real,
                      survivors: seq<Animal>, ghost s0: MealState, ghost preys: seq<Prey>,
                      ghost states: seq<MealState>, ghost caches: seq<Option<real>>)
      returns (stop: bool, eatenAfter: real, survivorsAfter: seq<Animal>)
      requires species == Carnivore && env.carnivore.deltaPhiMax.Some?
      requires i < |herbs| == |preys| == |caches| && herb == herbs[i] && herb.species == Herbivore
      requires IsMealTrace(env, age, rng, s0, preys, states)
      requires this !in herbs && forall j :: 0 <= j < |herbs| && j != i ==> herbs[j] != herb
      requires forall j :: 0 <= j < |herbs| ==>
                 herbs[j].fitnessCache == (if j < i then Some(preys[j].fitness) else caches[j])
      requires herb.CurrentFitness(env) == preys[i].fitness && herb.weight == preys[i].weight
      requires !states[i].stopped && |states[i].keep| == i
      requires weight == states[i].weight && fitnessCache == states[i].cache
      requires eaten == states[i].eaten && rng.drawn == states[i].drawn
      requires survivors == Filter(herbs[..i], states[i].keep)
      modifies this`weight, this`fitnessCache, herb`fitnessCache, rng`drawn
      ensures weight == states[i + 1].weight && fitnessCache == states[i + 1].cache
      ensures eatenAfter == states[i + 1].eaten && rng.drawn == states[i + 1].drawn
      ensures stop == states[i + 1].stopped && states[i + 1].examined == states[i].examined + 1
      ensures |states[i + 1].keep| == i + 1
      ensures !stop ==> survivorsAfter == Filter(herbs[..i + 1], states[i + 1].keep)
      ensures stop ==>
        var t, fin := states[i + 1], states[|preys|];
        && fin.weight == t.weight && fin.cache == t.cache && fin.drawn == t.drawn
        && fin.examined == t.examined && |fin.keep| == |herbs|
        && survivorsAfter == Filter(herbs, fin.keep)
      ensures forall j :: 0 <= j < |herbs| ==>
                herbs[j].fitnessCache == (if j < i + 1 then Some(preys[j].fitness) else caches[j])
    {
      ghost var s := Meal(env, age, rng, s0, preys, i);
      assert states[i] == s && states[i + 1] == Meal(env, age, rng, s0, preys, i + 1);
      assert states[|preys|] == Meal(env, age, rng, s0, preys, |preys|);
      var kill;
      stop, kill, eatenAfter := Hunt(env, herb, rng, eaten, s, preys[i]);
      if stop {
        MealBreakFacts(env, age, rng, s0, preys, herbs, i);
        survivorsAfter := survivors + herbs[i..];
      } else {
        survivorsAfter := if kill then survivors else survivors + [herb];
        FilterPrefixStep(herbs, s.keep, i, !kill);
      }
    }

    /** `Carnivore.eating`: hunt the herbivores in list order, stop at the first one that is
        at least as fit or once F has been eaten, and return the survivors. The carnivore's
        fitness is read afresh after every kill, since the weight setter forgets it. */
    method CarnivoreEating(env: Env, herbs: seq<Animal>, rng: Rng) returns (survivors: seq<Animal>)
      requires species == Carnivore && env.carnivore.deltaPhiMax.Some?
      requires Distinct(herbs) && forall h :: h in herbs ==> h.species == Herbivore
      modifies this`weight, this`fitnessCache, rng`drawn, herbs`fitnessCache
      ensures var preys := old(Preys(env, herbs));
        var fin := Meal(env, age, rng, MealStart(old(weight), old(fitnessCache), old(rng.drawn)), preys, |herbs|);
        && |fin.keep| == |herbs|
        && survivors == Filter(herbs, fin.keep)
        && weight == fin.weight && fitnessCache == fin.cache && rng.drawn == fin.drawn
        && forall j :: 0 <= j < |herbs| ==>
             herbs[j].fitnessCache == (if j < fin.examined then Some(preys[j].fitness) else old(herbs[j].fitnessCache))
      ensures IsSubsequence(survivors, herbs)
    {
      ghost var preys := Preys(env, herbs);
      ghost var s0 := MealStart(weight, fitnessCache, rng.drawn);
      ghost var a := age;
      ghost var states := seq(|preys| + 1, k requires 0 <= k <= |preys| => Meal(env, a, rng, s0, preys, k));
      assert this !in herbs;
      survivors := Hunting(env, herbs, rng, s0, preys, states);
      assert states[|herbs|] == Meal(env, age, rng, s0, preys, |herbs|);
    }

    /** The loop of `Carnivore.eating`, following the meal states `states`. */
    method Hunting(env: Env, herbs: seq<Animal>, rng: Rng, ghost s0: MealState, ghost preys: seq<Prey>,
                   ghost states: seq<MealState>)
      returns (survivors: seq<Animal>)
      requires species == Carnivore && env.carnivore.deltaPhiMax.Some?
      requires Distinct(herbs) && this !in herbs && forall h :: h in herbs ==> h.species == Herbivore
      requires s0 == MealStart(weight, fitnessCache, rng.drawn) && |preys| == |herbs|
      requires IsMealTrace(env, age, rng, s0, preys, states) && states[0] == s0
      requires forall j :: 0 <= j < |herbs| ==>
                 preys[j] == Prey(herbs[j].CurrentFitness(env), herbs[j].weight)
      modifies this`weight, this`fitnessCache, rng`drawn, herbs`fitnessCache
      ensures var fin := states[|herbs|];
        && |fin.keep| == |herbs|
        && survivors == Filter(herbs, fin.keep)
        && weight == fin.weight && fitnessCache == fin.cache && rng.drawn == fin.drawn
        && forall j :: 0 <= j < |herbs| ==>
             herbs[j].fitnessCache == (if j < fin.examined then Some(preys[j].fitness) else old(herbs[j].fitnessCache))
    {
      ghost var caches := seq(|herbs|, j requires 0 <= j < |herbs| reads herbs => herbs[j].fitnessCache);
      var eaten := 0.0;
      survivors := [];
      var i := 0;
      while i < |herbs|
        invariant 0 <= i <= |herbs|
        invariant !states[i].stopped && states[i].examined == i && |states[i].keep| == i
        invariant weight == states[i].weight && fitnessCache == states[i].cache
        invariant eaten == states[i].eaten && rng.drawn == states[i].drawn
        invariant survivors == Filter(herbs[..i], states[i].keep)
        invariant forall j :: 0 <= j < |herbs| ==>
                    herbs[j].fitnessCache == (if j < i then Some(preys[j].fitness) else caches[j])
      {
        var stop;
        stop, eaten, survivors := EatingStep(env, herbs, herbs[i], rng, i, eaten, survivors, s0, preys, states, caches);
        if stop {
          break;
        }
        i := i + 1;
      }
      if i == |herbs| {
        TakeAll(herbs);
      }
    }
  }
}
