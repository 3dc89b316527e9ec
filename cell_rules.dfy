/** The value-level rules of a landscape cell: the five kinds of landscape and their class-level
    parameter tables, yearly fodder growth, the grid neighbours of a cell, and the migration
    arithmetic (relative abundance of fodder, propensities, move probabilities and the
    cumulative walk that picks a destination from one uniform draw). */
module CellRules {
  import opened Wrappers
  import opened Seqs
  import opened AnimalParams
  import FW = FitnessWorkers

  datatype Kind = Jungle | Savannah | Desert | Mountain | Ocean

  /** `animals_can_live_here`: only mountain and ocean override it with `False`. */
  predicate Habitable(k: Kind)
  {
    k != Mountain && k != Ocean
  }

  /** The class-level dictionaries `Jungle.params` and `Savannah.params`. */
  datatype CellParams = CellParams(jungleFmax: real, savannahFmax: real, savannahAlpha: real)

  const CellDefaults: CellParams := CellParams(800.0, 300.0, 0.3)

  /** The values the parameter checks admit: no negative value and alpha at most one. */
  predicate ValidCellParams(cp: CellParams)
  {
    cp.jungleFmax >= 0.0 && cp.savannahFmax >= 0.0 && 0.0 <= cp.savannahAlpha <= 1.0
  }

  lemma CellDefaultsValid()
    ensures ValidCellParams(CellDefaults)
  {
  }

  /** The fodder a new cell starts with: `fmax` in jungle and savannah, 0 elsewhere. */
  function InitialFood(k: Kind, cp: CellParams): (f: real)
    ensures ValidCellParams(cp) ==> f >= 0.0
    ensures !(k == Jungle || k == Savannah) ==> f == 0.0
  {
    match k
    case Jungle => cp.jungleFmax
    case Savannah => cp.savannahFmax
    case _ => 0.0
  }

  /** `food_growth`: jungle is refilled to `fmax`, savannah regrows the fraction alpha of what
      it lacks, and the other kinds keep what they have. */
  function FoodGrowth(k: Kind, cp: CellParams, food: real): real
  {
    match k
    case Jungle => cp.jungleFmax
    case Savannah => food + cp.savannahAlpha * (cp.savannahFmax - food)
    case _ => food
  }

  lemma ScaleGap(alpha: real, gap: real)
    requires 0.0 <= alpha <= 1.0 && gap >= 0.0
    ensures 0.0 <= alpha * gap <= gap
  {
    assert (1.0 - alpha) * gap >= 0.0;
  }

  /** Growth never lowers savannah fodder below what it was nor raises it above `fmax`; it is
      at its fixed point at `fmax`; jungle always ends at `fmax`; the other kinds never grow. */
  lemma FoodGrowthFacts(k: Kind, cp: CellParams, food: real)
    ensures k == Jungle ==> FoodGrowth(k, cp, food) == cp.jungleFmax
    ensures k == Savannah && ValidCellParams(cp) && food <= cp.savannahFmax ==>
              food <= FoodGrowth(k, cp, food) <= cp.savannahFmax
    ensures k == Savannah && food == cp.savannahFmax ==> FoodGrowth(k, cp, food) == food
    ensures k == Savannah && cp.savannahAlpha == 1.0 ==> FoodGrowth(k, cp, food) == cp.savannahFmax
    ensures !(k == Jungle || k == Savannah) ==> FoodGrowth(k, cp, food) == food
  {
    if k == Savannah && ValidCellParams(cp) && food <= cp.savannahFmax {
      ScaleGap(cp.savannahAlpha, cp.savannahFmax - food);
    }
  }

  /** Fodder in [0, fmax] stays in [0, fmax] of its kind, for every kind. */
  lemma FoodGrowthStaysInRange(k: Kind, cp: CellParams, food: real)
    requires ValidCellParams(cp) && 0.0 <= food
    requires k == Jungle ==> food <= cp.jungleFmax
    requires k == Savannah ==> food <= cp.savannahFmax
    ensures 0.0 <= FoodGrowth(k, cp, food)
    ensures k == Jungle ==> FoodGrowth(k, cp, food) <= cp.jungleFmax
    ensures k == Savannah ==> food <= FoodGrowth(k, cp, food) <= cp.savannahFmax
  {
    FoodGrowthFacts(k, cp, food);
  }

  /** Only jungle and savannah have a parameter dictionary; the others inherit `params = None`. */
  predicate HasParameterTable(k: Kind)
  {
    k == Jungle || k == Savannah
  }

  /** The keys of the parameter dictionary of a kind that has one. */
  function ParameterNames(k: Kind): set<string>
  {
    if k == Jungle then {"fmax"} else if k == Savannah then {"fmax", "alpha"} else {}
  }

  datatype CellParamError =
    | NoParameterTable
    | UnknownCellParameter(name: string)
    | NegativeCellValue(name: string)
    | AlphaAboveOne

  /** The first name, in dictionary order, that is not among `names`. */
  function FirstUnknown(names: set<string>, es: Entries): (r: Option<string>)
    decreases |es|
  {
    if es == [] then None
    else if es[0].0 !in names then Some(es[0].0)
    else FirstUnknown(names, es[1..])
  }

  /** The first name, in dictionary order, given a negative value. */
  function FirstNegative(es: Entries): (r: Option<string>)
    decreases |es|
  {
    if es == [] then None
    else if es[0].1 < 0.0 then Some(es[0].0)
    else FirstNegative(es[1..])
  }

  lemma {:induction false} FirstUnknownFacts(names: set<string>, es: Entries)
    ensures FirstUnknown(names, es).None? <==> forall i :: 0 <= i < |es| ==> es[i].0 in names
    ensures FirstUnknown(names, es).Some? ==>
              exists i :: 0 <= i < |es| && es[i].0 == FirstUnknown(names, es).value && es[i].0 !in names
                       && forall j :: 0 <= j < i ==> es[j].0 in names
    decreases |es|
  {
    if es != [] {
      FirstUnknownFacts(names, es[1..]);
      assert forall i :: 0 < i < |es| ==> es[i] == es[1..][i - 1];
      if es[0].0 in names && FirstUnknown(names, es[1..]).Some? {
        var i :| 0 <= i < |es[1..]| && es[1..][i].0 == FirstUnknown(names, es[1..]).value
                 && es[1..][i].0 !in names && forall j :: 0 <= j < i ==> es[1..][j].0 in names;
        assert es[i + 1].0 == FirstUnknown(names, es).value;
      }
    }
  }

  lemma {:induction false} FirstNegativeFacts(es: Entries)
    ensures FirstNegative(es).None? <==> forall i :: 0 <= i < |es| ==> es[i].1 >= 0.0
    ensures FirstNegative(es).Some? ==>
              exists i :: 0 <= i < |es| && es[i].0 == FirstNegative(es).value && es[i].1 < 0.0
                       && forall j :: 0 <= j < i ==> es[j].1 >= 0.0
    decreases |es|
  {
    if es != [] {
      FirstNegativeFacts(es[1..]);
      assert forall i :: 0 < i < |es| ==> es[i] == es[1..][i - 1];
      if es[0].1 >= 0.0 && FirstNegative(es[1..]).Some? {
        var i :| 0 <= i < |es[1..]| && es[1..][i].0 == FirstNegative(es[1..]).value
                 && es[1..][i].1 < 0.0 && forall j :: 0 <= j < i ==> es[1..][j].1 >= 0.0;
        assert es[i + 1].0 == FirstNegative(es).value;
      }
    }
  }

  /** `cls.params.update(new_params)` on the table of kind `k`. */
  function UpdateCell(k: Kind, cp: CellParams, es: Entries): CellParams
  {
    var fmax := Find(es, "fmax");
    var alpha := Find(es, "alpha");
    if k == Jungle then cp.(jungleFmax := if fmax.Some? then fmax.value else cp.jungleFmax)
    else if k == Savannah then
      cp.(savannahFmax := if fmax.Some? then fmax.value else cp.savannahFmax,
          savannahAlpha := if alpha.Some? then alpha.value else cp.savannahAlpha)
    else cp
  }

  /** `Landscape.set_parameters` as a class method of kind `k`: every name must be a key, then
      no value may be negative, then alpha may not exceed one, then the table is updated.
      Desert, mountain and ocean have no table, so the call always fails for them. */
  function CellSetParameters(k: Kind, cp: CellParams, es: Entries): Result<CellParams, CellParamError>
    requires DistinctKeys(es)
  {
    if !HasParameterTable(k) then Failure(NoParameterTable)
    else if FirstUnknown(ParameterNames(k), es).Some? then
      Failure(UnknownCellParameter(FirstUnknown(ParameterNames(k), es).value))
    else if FirstNegative(es).Some? then Failure(NegativeCellValue(FirstNegative(es).value))
    else if Find(es, "alpha").Some? && Find(es, "alpha").value > 1.0 then Failure(AlphaAboveOne)
    else Success(UpdateCell(k, cp, es))
  }

  /** The update succeeds exactly for a kind with a table, names among its keys, no negative
      value and an alpha, if any, of at most one. */
  lemma CellSetParametersIff(k: Kind, cp: CellParams, es: Entries)
    requires DistinctKeys(es)
    ensures CellSetParameters(k, cp, es).Success? <==>
              && HasParameterTable(k)
              && (forall i :: 0 <= i < |es| ==> es[i].0 in ParameterNames(k))
              && (forall i :: 0 <= i < |es| ==> es[i].1 >= 0.0)
              && (Find(es, "alpha").Some? ==> Find(es, "alpha").value <= 1.0)
  {
    FirstUnknownFacts(ParameterNames(k), es);
    FirstNegativeFacts(es);
  }

  /** The name check comes first: an unknown name is reported even when a negative value comes
      before it in the dictionary. */
  lemma CellSetParametersNamesFirst(k: Kind, cp: CellParams, es: Entries, i: nat)
    requires DistinctKeys(es) && HasParameterTable(k) && i < |es| && es[i].0 !in ParameterNames(k)
    ensures CellSetParameters(k, cp, es).Failure?
    ensures CellSetParameters(k, cp, es).error.UnknownCellParameter?
  {
    FirstUnknownFacts(ParameterNames(k), es);
  }

  /** A successful update overrides exactly the given values of its own kind and keeps the
      table within the admitted bounds. */
  lemma CellSetParametersUpdates(k: Kind, cp: CellParams, es: Entries)
    requires DistinctKeys(es) && CellSetParameters(k, cp, es).Success?
    ensures var r := CellSetParameters(k, cp, es).value;
      && (k == Jungle ==> r.savannahFmax == cp.savannahFmax && r.savannahAlpha == cp.savannahAlpha)
      && (k == Savannah ==> r.jungleFmax == cp.jungleFmax)
      && (k == Jungle && Find(es, "fmax").Some? ==> r.jungleFmax == Find(es, "fmax").value)
      && (k == Savannah && Find(es, "fmax").Some? ==> r.savannahFmax == Find(es, "fmax").value)
      && (k == Savannah && Find(es, "alpha").Some? ==> r.savannahAlpha == Find(es, "alpha").value)
      && (es == [] ==> r == cp)
      && (ValidCellParams(cp) ==> ValidCellParams(r))
  {
    CellSetParametersIff(k, cp, es);
    var fmax := Find(es, "fmax");
    if fmax.Some? {
      var i :| 0 <= i < |es| && es[i].0 == "fmax";
      FindAt(es, i);
    }
  }

  /** `neighbour_locations`: up, right, down, left. */
  function NeighbourLocations(loc: (int, int)): seq<(int, int)>
  {
    [(loc.0 - 1, loc.1), (loc.0, loc.1 + 1), (loc.0 + 1, loc.1), (loc.0, loc.1 - 1)]
  }

  function Abs(x: int): nat
  {
    if x < 0 then -x else x
  }

  predicate Adjacent(a: (int, int), b: (int, int))
  {
    Abs(a.0 - b.0) + Abs(a.1 - b.1) == 1
  }

  /** The four neighbours are distinct, each one step away, and stay on an R by C grid when the
      cell is not on its border. */
  lemma NeighbourLocationsFacts(loc: (int, int), rows: int, cols: int)
    ensures var ns := NeighbourLocations(loc);
      && |ns| == 4
      && (forall k :: 0 <= k < 4 ==> Adjacent(loc, ns[k]))
      && (forall k, l :: 0 <= k < l < 4 ==> ns[k] != ns[l])
      && (1 <= loc.0 < rows - 1 && 1 <= loc.1 < cols - 1 ==>
            forall k :: 0 <= k < 4 ==> 0 <= ns[k].0 < rows && 0 <= ns[k].1 < cols)
  {
  }

  /** What migration sees of one neighbouring cell, for one species: the fodder it offers, the
      animals of that species it holds (residents and immigrants) and whether it is habitable. */
  datatype View = View(fodder: real, count: nat, habitable: bool)

  /** `relative_abundance_of_fodder` for one neighbour: fodder / ((count + 1) * F). */
  function RelativeAbundance(v: View, F: real): real
    requires F != 0.0
  {
    v.fodder / ((v.count + 1) as real * F)
  }

  /** lambda times the relative abundance. */
  function Exponent(lambda: real, F: real, v: View): real
    requires F != 0.0
  {
    lambda * RelativeAbundance(v, F)
  }

  /** `propensity` for one neighbour: 0 if uninhabitable, exp(lambda * abundance) otherwise. */
  function Propensity(exp: FW.ExpFn, lambda: real, F: real, v: View): (e: real)
    requires F != 0.0
    ensures e >= 0.0 && (e > 0.0 <==> v.habitable)
  {
    if !v.habitable then 0.0 else FW.Exp(exp, Exponent(lambda, F, v))
  }

  function Propensities(exp: FW.ExpFn, lambda: real, F: real, vs: seq<View>): (e: seq<real>)
    requires F != 0.0
    ensures |e| == |vs|
    ensures forall k :: 0 <= k < |vs| ==> e[k] >= 0.0 && (e[k] > 0.0 <==> vs[k].habitable)
  {
    seq(|vs|, k requires 0 <= k < |vs| => Propensity(exp, lambda, F, vs[k]))
  }

  /** `prob_move`: the propensities normalised by their sum, or four zeros when the sum is 0. */
  function ProbMove(exp: FW.ExpFn, p: Params, vs: seq<View>): seq<real>
    requires p.F != 0.0
  {
    var e := Propensities(exp, p.lambda, p.F, vs);
    var total := Sum(e);
    if total == 0.0 then [0.0, 0.0, 0.0, 0.0]
    else DivideAll(e, total)
  }

  /** With four neighbours the move probabilities are never negative; they are all zero
      exactly when no neighbour is habitable; otherwise they sum to one and are positive
      exactly at the habitable neighbours. */
  lemma ProbMoveFacts(exp: FW.ExpFn, p: Params, vs: seq<View>)
    requires p.F != 0.0 && |vs| == 4
    ensures var r := ProbMove(exp, p, vs);
      && |r| == 4
      && (forall k :: 0 <= k < 4 ==> r[k] >= 0.0)
      && ((forall k :: 0 <= k < 4 ==> !vs[k].habitable) <==> Sum(r) == 0.0)
      && ((forall k :: 0 <= k < 4 ==> !vs[k].habitable) ==> r == [0.0, 0.0, 0.0, 0.0])
      && ((exists k :: 0 <= k < 4 && vs[k].habitable) ==>
            Sum(r) == 1.0 && forall k :: 0 <= k < 4 ==> (r[k] > 0.0 <==> vs[k].habitable))
  {
    var e := Propensities(exp, p.lambda, p.F, vs);
    SumZeroIff(e);
    SumNonNegative(e);
    if Sum(e) == 0.0 {
      Sum4([0.0, 0.0, 0.0, 0.0]);
    } else {
      ProbMoveNormalised(e, Sum(e));
    }
  }

  /** Non-negative terms divided by their positive sum: non-negative, summing to one, and
      positive exactly where the term is. */
  lemma ProbMoveNormalised(e: seq<real>, total: real)
    requires total > 0.0 && Sum(e) == total && forall k :: 0 <= k < |e| ==> e[k] >= 0.0
    ensures var r := DivideAll(e, total);
      && Sum(r) == 1.0 && forall k :: 0 <= k < |e| ==> r[k] >= 0.0 && (r[k] > 0.0 <==> e[k] > 0.0)
  {
    SumDivide(e, total);
    DivideSelf(total);
    var r := DivideAll(e, total);
    forall k | 0 <= k < |e|
      ensures r[k] >= 0.0 && (r[k] > 0.0 <==> e[k] > 0.0)
    {
      assert r[k] == e[k] / total;
    }
  }

  lemma DivideSelf(t: real)
    requires t > 0.0
    ensures t / t == 1.0
  {
  }

  lemma Sum4(s: seq<real>)
    requires |s| == 4
    ensures Sum(s) == s[0] + s[1] + s[2] + s[3]
  {
    SumPrefixStep(s, 0);
    SumPrefixStep(s, 1);
    SumPrefixStep(s, 2);
    SumPrefixStep(s, 3);
    assert s[..0] == [] && s[..4] == s;
  }

  lemma ExponentOrder(lambda: real, F: real, v1: View, v2: View)
    requires F > 0.0 && lambda > 0.0 && RelativeAbundance(v1, F) < RelativeAbundance(v2, F)
    ensures Exponent(lambda, F, v1) < Exponent(lambda, F, v2)
  {
    FW.ScaleStrict(lambda, RelativeAbundance(v1, F), RelativeAbundance(v2, F));
  }

  lemma PropensityHabitable(exp: FW.ExpFn, lambda: real, F: real, v: View)
    requires F != 0.0 && v.habitable
    ensures Propensity(exp, lambda, F, v) == FW.Exp(exp, Exponent(lambda, F, v))
  {
  }

  /** When `lambda > 0` a habitable neighbour with more relative fodder has the larger
      propensity: animals are drawn to where food per head is abundant. */
  lemma PropensityPrefersAbundance(exp: FW.ExpFn, lambda: real, F: real, v1: View, v2: View)
    requires F > 0.0 && lambda > 0.0 && FW.StrictlyIncreasing(exp)
    requires v1.habitable && v2.habitable && RelativeAbundance(v1, F) < RelativeAbundance(v2, F)
    ensures Propensity(exp, lambda, F, v1) < Propensity(exp, lambda, F, v2)
  {
    PropensityHabitable(exp, lambda, F, v1);
    PropensityHabitable(exp, lambda, F, v2);
    ExponentOrder(lambda, F, v1, v2);
    FW.ExpMonotone(exp, Exponent(lambda, F, v1), Exponent(lambda, F, v2));
  }

  datatype MoveError = NotNormalised | IndexOutOfRange | DivisionByZero

  /** The loop of `animal_moves_to` from position `pos` with running sum `acc`: advance while
      the running sum does not exceed the draw `u`, stopping at position 3 regardless. */
  function Walk(probs: seq<real>, u: real, pos: nat, acc: real): (r: Result<nat, MoveError>)
    requires pos < |probs|
    ensures r.Success? ==> pos <= r.value < |probs|
    decreases |probs| - pos
  {
    if acc > u then Success(pos)
    else if pos + 1 == |probs| then Failure(IndexOutOfRange)
    else if pos + 1 == 3 then Success(3)
    else Walk(probs, u, pos + 1, acc + probs[pos + 1])
  }

  /** The loop of `animal_moves_to` from its start. */
  function Walked(probs: seq<real>, u: real): (r: Result<nat, MoveError>)
    ensures r.Success? ==> r.value < |probs|
  {
    if probs == [] then Failure(IndexOutOfRange) else Walk(probs, u, 0, probs[0])
  }

  /** `animal_moves_to` for the draw `u`: the sum check, then the walk. */
  function MoveDestination(probs: seq<real>, u: real): (r: Result<nat, MoveError>)
    ensures r.Success? ==> r.value < |probs|
  {
    if Sum(probs) != 1.0 then Failure(NotNormalised) else Walked(probs, u)
  }

  /** Sum of the first `q + 1` probabilities. */
  function Cumulative(probs: seq<real>, q: nat): real
    requires q < |probs|
  {
    Sum(probs[..q + 1])
  }

  lemma {:induction false} WalkFacts(probs: seq<real>, u: real, pos: nat)
    requires |probs| == 4 && pos < 4 && Sum(probs) == 1.0 && u < 1.0
    requires forall q :: 0 <= q < pos ==> Cumulative(probs, q) <= u
    ensures var r := Walk(probs, u, pos, Cumulative(probs, pos));
      && r.Success? && pos <= r.value < 4 && Cumulative(probs, r.value) > u
      && forall q :: 0 <= q < r.value ==> Cumulative(probs, q) <= u
    decreases 4 - pos
  {
    assert probs[..4] == probs;
    if Cumulative(probs, pos) <= u && pos + 1 < 3 {
      SumPrefixStep(probs, pos + 1);
      WalkFacts(probs, u, pos + 1);
    }
  }

  /** With four probabilities summing to one and a draw in [0, 1), `animal_moves_to` returns
      the first position whose cumulative probability exceeds the draw, and that position has
      positive probability (an uninhabitable neighbour is never chosen). It fails exactly when
      the probabilities do not sum to one. */
  lemma MoveDestinationFacts(probs: seq<real>, u: real)
    requires |probs| == 4 && (forall k :: 0 <= k < 4 ==> probs[k] >= 0.0) && 0.0 <= u < 1.0
    ensures MoveDestination(probs, u) == Failure(NotNormalised) <==> Sum(probs) != 1.0
    ensures Sum(probs) == 1.0 ==>
              var r := MoveDestination(probs, u);
              && r.Success? && r.value < 4 && probs[r.value] > 0.0
              && Cumulative(probs, r.value) > u
              && forall q :: 0 <= q < r.value ==> Cumulative(probs, q) <= u
  {
    if Sum(probs) == 1.0 {
      SumPrefixStep(probs, 0);
      assert probs[..0] == [];
      WalkFacts(probs, u, 0);
      var d := MoveDestination(probs, u).value;
      SumPrefixStep(probs, d);
      if d > 0 {
        assert Cumulative(probs, d - 1) <= u;
        assert probs[..d - 1 + 1] == probs[..d];
      }
    }
  }

  /** The cumulative loop of `animal_moves_to`, run on a draw already taken. */
  method CumulativeChoice(probs: seq<real>, u: real) returns (r: Result<nat, MoveError>)
    ensures r == Walked(probs, u)
  {
    if probs == [] {
      return Failure(IndexOutOfRange);
    }
    var pos := 0;
    var acc := probs[0];
    while acc <= u
      invariant pos < |probs| && pos < 3
      invariant Walk(probs, u, pos, acc) == Walked(probs, u)
      decreases |probs| - pos
    {
      if pos + 1 == |probs| {
        return Failure(IndexOutOfRange);
      }
      pos := pos + 1;
      acc := acc + probs[pos];
      if pos == 3 {
        break;
      }
    }
    return Success(pos);
  }

  /** Where one animal ends up in a migration step: -1 if it stays, otherwise the neighbour it
      moves to. `u` is the draw compared with the migration probability `pm`, `u2` the draw of
      `animal_moves_to`, used only when the animal leaves. With F = 0 the relative abundance
      divides by zero, which raises as soon as an animal tries to leave. */
  function MoveOutcome(exp: FW.ExpFn, p: Params, u: real, pm: real, vs: seq<View>, u2: real): Result<int, MoveError>
  {
    if !(u < pm) then Success(-1) else LeaveOutcome(exp, p, vs, u2)
  }

  /** Where an animal that tries to leave ends up. */
  function LeaveOutcome(exp: FW.ExpFn, p: Params, vs: seq<View>, u2: real): Result<int, MoveError>
  {
    if p.F == 0.0 then Failure(DivisionByZero)
    else
      var probs := ProbMove(exp, p, vs);
      if Sum(probs) == 0.0 then Success(-1)
      else match MoveDestination(probs, u2)
        case Success(d) => Success(d as int)
        case Failure(e) => Failure(e)
  }

  /** Whatever the parameters, an animal that does not fail stays (-1) or names one of the
      four neighbours. */
  lemma MoveOutcomeRange(exp: FW.ExpFn, p: Params, u: real, pm: real, vs: seq<View>, u2: real)
    requires |vs| == 4
    ensures var r := MoveOutcome(exp, p, u, pm, vs, u2); r.Success? ==> -1 <= r.value < 4
  {
    if u < pm && p.F != 0.0 {
      ProbMoveFacts(exp, p, vs);
    }
  }

  /** The number of uniform values one migration step draws: the second only once
      `animal_moves_to` has passed its check of the sum. */
  function MoveDraws(exp: FW.ExpFn, p: Params, u: real, pm: real, vs: seq<View>): nat
  {
    if u < pm then 1 + LeaveDraws(exp, p, vs) else 1
  }

  /** The values drawn after an animal decides to leave. */
  function LeaveDraws(exp: FW.ExpFn, p: Params, vs: seq<View>): nat
  {
    if p.F != 0.0 && Sum(ProbMove(exp, p, vs)) == 1.0 then 1 else 0
  }

  /** With four neighbours and a draw in [0, 1) a migration step with F = 0 fails exactly
      when the animal tries to leave, and otherwise never fails; the animal stays exactly when
      its draw is not below its migration probability or no neighbour is habitable, and it
      only ever moves to a habitable neighbour, drawing a second value just then. */
  lemma MoveOutcomeFacts(exp: FW.ExpFn, p: Params, u: real, pm: real, vs: seq<View>, u2: real)
    requires |vs| == 4 && 0.0 <= u2 < 1.0
    ensures var r := MoveOutcome(exp, p, u, pm, vs, u2);
      p.F == 0.0 ==> (r.Failure? <==> u < pm) && MoveDraws(exp, p, u, pm, vs) == 1
    ensures var r := MoveOutcome(exp, p, u, pm, vs, u2);
      p.F != 0.0 ==>
        && r.Success? && -1 <= r.value < 4
        && (r.value == -1 <==> !(u < pm) || forall k :: 0 <= k < 4 ==> !vs[k].habitable)
        && (r.value >= 0 ==> vs[r.value].habitable)
        && (MoveDraws(exp, p, u, pm, vs) == 2 <==> r.value >= 0)
  {
    if p.F != 0.0 {
      var probs := ProbMove(exp, p, vs);
      ProbMoveFacts(exp, p, vs);
      if u < pm && Sum(probs) != 0.0 {
        MoveDestinationFacts(probs, u2);
      }
    }
  }
}