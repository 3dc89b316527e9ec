/** The class-level parameter dictionaries of `Herbivore` and `Carnivore`, and the
    all-or-nothing validation that `Animal.set_parameters` performs before `params.update`. */
module AnimalParams {
  import opened Wrappers

  datatype Species = Herbivore | Carnivore

  /** One species' `params`; `deltaPhiMax` is present only for carnivores. */
  datatype Params = Params(
    eta: real, omega: real, aHalf: real, wHalf: real, phiAge: real, phiWeight: real,
    gamma: real, wBirth: real, sigmaBirth: real, zeta: real, xi: real, beta: real,
    mu: real, lambda: real, F: real, deltaPhiMax: Option<real>)

  const HerbivoreDefaults: Params :=
    Params(0.05, 0.4, 40.0, 10.0, 0.2, 0.1, 0.2, 8.0, 1.5, 3.5, 1.2, 0.9, 0.25, 1.0, 10.0, None)

  const CarnivoreDefaults: Params :=
    Params(0.125, 0.9, 60.0, 4.0, 0.4, 0.4, 0.8, 6.0, 1.0, 3.5, 1.1, 0.75, 0.4, 1.0, 50.0, Some(10.0))

  function Defaults(s: Species): Params
  {
    if s == Herbivore then HerbivoreDefaults else CarnivoreDefaults
  }

  /** The parameter names either species' dictionary can hold. */
  datatype Key =
    | Eta | Omega | AHalf | WHalf | PhiAge | PhiWeight | Gamma | WBirth | SigmaBirth
    | Zeta | Xi | Beta | Mu | Lambda | FoodWanted | DeltaPhiMax

  function Name(k: Key): string
  {
    match k
    case Eta => "eta"
    case Omega => "omega"
    case AHalf => "a_half"
    case WHalf => "w_half"
    case PhiAge => "phi_age"
    case PhiWeight => "phi_weight"
    case Gamma => "gamma"
    case WBirth => "w_birth"
    case SigmaBirth => "sigma_birth"
    case Zeta => "zeta"
    case Xi => "xi"
    case Beta => "beta"
    case Mu => "mu"
    case Lambda => "lambda"
    case FoodWanted => "F"
    case DeltaPhiMax => "DeltaPhiMax"
  }

  function KeyOf(name: string): (r: Option<Key>)
    ensures r.Some? ==> Name(r.value) == name
  {
    if name == "eta" then Some(Eta)
    else if name == "omega" then Some(Omega)
    else if name == "a_half" then Some(AHalf)
    else if name == "w_half" then Some(WHalf)
    else if name == "phi_age" then Some(PhiAge)
    else if name == "phi_weight" then Some(PhiWeight)
    else if name == "gamma" then Some(Gamma)
    else if name == "w_birth" then Some(WBirth)
    else if name == "sigma_birth" then Some(SigmaBirth)
    else if name == "zeta" then Some(Zeta)
    else if name == "xi" then Some(Xi)
    else if name == "beta" then Some(Beta)
    else if name == "mu" then Some(Mu)
    else if name == "lambda" then Some(Lambda)
    else if name == "F" then Some(FoodWanted)
    else if name == "DeltaPhiMax" then Some(DeltaPhiMax)
    else None
  }

  /** Every key is recognised by its own name, so names and keys are in one-to-one correspondence. */
  lemma KeyOfName(k: Key)
    ensures KeyOf(Name(k)) == Some(k)
  {
  }

  /** `params[key]`, or `None` when the dictionary does not hold `key`. */
  function Lookup(p: Params, k: Key): Option<real>
  {
    match k
    case Eta => Some(p.eta)
    case Omega => Some(p.omega)
    case AHalf => Some(p.aHalf)
    case WHalf => Some(p.wHalf)
    case PhiAge => Some(p.phiAge)
    case PhiWeight => Some(p.phiWeight)
    case Gamma => Some(p.gamma)
    case WBirth => Some(p.wBirth)
    case SigmaBirth => Some(p.sigmaBirth)
    case Zeta => Some(p.zeta)
    case Xi => Some(p.xi)
    case Beta => Some(p.beta)
    case Mu => Some(p.mu)
    case Lambda => Some(p.lambda)
    case FoodWanted => Some(p.F)
    case DeltaPhiMax => p.deltaPhiMax
  }

  /** `params[key] = v`. */
  function Assign(p: Params, k: Key, v: real): (r: Params)
    ensures Lookup(r, k) == Some(v)
    ensures forall j :: j != k ==> Lookup(r, j) == Lookup(p, j)
  {
    match k
    case Eta => p.(eta := v)
    case Omega => p.(omega := v)
    case AHalf => p.(aHalf := v)
    case WHalf => p.(wHalf := v)
    case PhiAge => p.(phiAge := v)
    case PhiWeight => p.(phiWeight := v)
    case Gamma => p.(gamma := v)
    case WBirth => p.(wBirth := v)
    case SigmaBirth => p.(sigmaBirth := v)
    case Zeta => p.(zeta := v)
    case Xi => p.(xi := v)
    case Beta => p.(beta := v)
    case Mu => p.(mu := v)
    case Lambda => p.(lambda := v)
    case FoodWanted => p.(F := v)
    case DeltaPhiMax => p.(deltaPhiMax := Some(v))
  }

  /** The table `lower` of `set_parameters`: every key but `lambda` and `DeltaPhiMax` has
      lower bound 0. */
  predicate HasLowerBound(k: Key)
  {
    !(k.Lambda? || k.DeltaPhiMax?)
  }

  /** The table `upper`: these keys have upper bound 1. */
  predicate HasUpperBound(k: Key)
  {
    k.Eta? || k.Omega? || k.Gamma? || k.Beta? || k.Mu?
  }

  datatype ParamError =
    | NonPositiveDeltaPhiMax
    | UnknownParameter(name: string)
    | BelowLowerBound(name: string, bound: real)
    | AboveUpperBound(name: string, bound: real)

  /** The new parameters as a dictionary: pairs in insertion order, names distinct. */
  type Entries = seq<(string, real)>

  predicate DistinctKeys(es: Entries)
  {
    forall i, j :: 0 <= i < j < |es| ==> es[i].0 != es[j].0
  }

  /** `new_params[name]`, when present. */
  function Find(es: Entries, name: string): (r: Option<real>)
    ensures r.Some? <==> exists i :: 0 <= i < |es| && es[i].0 == name
  {
    if es == [] then None
    else if es[0].0 == name then Some(es[0].1)
    else Find(es[1..], name)
  }

  /** The checks the loop of `set_parameters` makes on one entry, in the order it makes them. */
  function EntryError(p: Params, name: string, v: real): Option<ParamError>
  {
    match KeyOf(name)
    case None => Some(UnknownParameter(name))
    case Some(k) =>
      if Lookup(p, k).None? then Some(UnknownParameter(name))
      else if HasLowerBound(k) && v < 0.0 then Some(BelowLowerBound(name, 0.0))
      else if HasUpperBound(k) && v > 1.0 then Some(AboveUpperBound(name, 1.0))
      else None
  }

  /** The name of an entry is a key of the dictionary: the name check of `set_parameters`,
      which comes before the bound checks of `EntryError`. */
  predicate Known(p: Params, name: string)
  {
    KeyOf(name).Some? && Lookup(p, KeyOf(name).value).Some?
  }

  /** The error of the first entry, in dictionary order, that fails a check. */
  function FirstEntryError(p: Params, es: Entries): Option<ParamError>
    decreases |es|
  {
    if es == [] then None
    else if EntryError(p, es[0].0, es[0].1).Some? then EntryError(p, es[0].0, es[0].1)
    else FirstEntryError(p, es[1..])
  }

  /** `params.update(new_params)`. */
  function UpdateAll(p: Params, es: Entries): Params
    requires forall i :: 0 <= i < |es| ==> KeyOf(es[i].0).Some?
    decreases |es|
  {
    if es == [] then p
    else UpdateAll(Assign(p, KeyOf(es[0].0).value, es[0].1), es[1..])
  }

  function DeltaPhiMaxCheck(es: Entries): Option<ParamError>
  {
    match Find(es, "DeltaPhiMax")
    case Some(v) => if v <= 0.0 then Some(NonPositiveDeltaPhiMax) else None
    case None => None
  }

  /** `set_parameters`: the DeltaPhiMax check, then each entry in order, then the update. */
  function SetParameters(p: Params, es: Entries): (r: Result<Params, ParamError>)
    requires DistinctKeys(es)
  {
    if DeltaPhiMaxCheck(es).Some? then Failure(DeltaPhiMaxCheck(es).value)
    else if FirstEntryError(p, es).Some? then Failure(FirstEntryError(p, es).value)
    else
      FirstEntryErrorNone(p, es);
      Success(UpdateAll(p, es))
  }

  lemma {:induction false} FirstEntryErrorNone(p: Params, es: Entries)
    ensures FirstEntryError(p, es).None? <==>
              forall i :: 0 <= i < |es| ==> EntryError(p, es[i].0, es[i].1).None?
    ensures FirstEntryError(p, es).None? ==> forall i :: 0 <= i < |es| ==> KeyOf(es[i].0).Some?
    decreases |es|
  {
    if es != [] {
      FirstEntryErrorNone(p, es[1..]);
      assert forall i :: 0 < i < |es| ==> es[i] == es[1..][i - 1];
    }
  }

  /** The bounds `set_parameters` admits for one key's value. */
  predicate WithinBounds(k: Key, v: real)
  {
    && (HasLowerBound(k) ==> v >= 0.0)
    && (HasUpperBound(k) ==> v <= 1.0)
    && (k == DeltaPhiMax ==> v > 0.0)
  }

  /** The parameters a species may hold: the bounds `set_parameters` enforces. */
  predicate ValidParams(p: Params)
  {
    && p.eta >= 0.0 && p.omega >= 0.0 && p.aHalf >= 0.0 && p.wHalf >= 0.0
    && p.phiAge >= 0.0 && p.phiWeight >= 0.0 && p.gamma >= 0.0 && p.wBirth >= 0.0
    && p.sigmaBirth >= 0.0 && p.zeta >= 0.0 && p.xi >= 0.0 && p.beta >= 0.0 && p.mu >= 0.0
    && p.F >= 0.0
    && p.eta <= 1.0 && p.omega <= 1.0 && p.gamma <= 1.0 && p.beta <= 1.0 && p.mu <= 1.0
    && (p.deltaPhiMax.Some? ==> p.deltaPhiMax.value > 0.0)
  }

  lemma ValidParamsByKey(p: Params)
    ensures ValidParams(p) <==>
              forall k :: Lookup(p, k).Some? ==> WithinBounds(k, Lookup(p, k).value)
  {
    if forall k :: Lookup(p, k).Some? ==> WithinBounds(k, Lookup(p, k).value) {
      assert WithinBounds(Eta, Lookup(p, Eta).value) && WithinBounds(Omega, Lookup(p, Omega).value);
      assert WithinBounds(AHalf, Lookup(p, AHalf).value) && WithinBounds(WHalf, Lookup(p, WHalf).value);
      assert WithinBounds(PhiAge, Lookup(p, PhiAge).value) && WithinBounds(PhiWeight, Lookup(p, PhiWeight).value);
      assert WithinBounds(Gamma, Lookup(p, Gamma).value) && WithinBounds(WBirth, Lookup(p, WBirth).value);
      assert WithinBounds(SigmaBirth, Lookup(p, SigmaBirth).value) && WithinBounds(Zeta, Lookup(p, Zeta).value);
      assert WithinBounds(Xi, Lookup(p, Xi).value) && WithinBounds(Beta, Lookup(p, Beta).value);
      assert WithinBounds(Mu, Lookup(p, Mu).value) && WithinBounds(FoodWanted, Lookup(p, FoodWanted).value);
      assert Lookup(p, DeltaPhiMax) == p.deltaPhiMax;
    }
  }

  /** `set_parameters` raises exactly when DeltaPhiMax is given and not positive, or some name
      is not a key of the dictionary, or some value is out of its bounds. */
  lemma SetParametersFailsIff(p: Params, es: Entries)
    requires DistinctKeys(es)
    ensures SetParameters(p, es).Failure? <==>
              (Find(es, "DeltaPhiMax").Some? && Find(es, "DeltaPhiMax").value <= 0.0)
              || exists i :: 0 <= i < |es| && EntryError(p, es[i].0, es[i].1).Some?
  {
    FirstEntryErrorNone(p, es);
  }

  /** The failing check that is reported: the DeltaPhiMax check before any entry's check. */
  lemma SetParametersErrorOrder(p: Params, es: Entries)
    requires DistinctKeys(es)
    requires Find(es, "DeltaPhiMax").Some? && Find(es, "DeltaPhiMax").value <= 0.0
    ensures SetParameters(p, es) == Failure(NonPositiveDeltaPhiMax)
  {
  }

  lemma {:induction false} FindAt(es: Entries, i: nat)
    requires DistinctKeys(es) && i < |es|
    ensures Find(es, es[i].0) == Some(es[i].1)
    decreases i
  {
    if i > 0 {
      assert forall j :: 0 <= j < |es[1..]| ==> es[1..][j] == es[j + 1];
      FindAt(es[1..], i - 1);
    }
  }

  lemma {:induction false} UpdateAllLookup(p: Params, es: Entries, k: Key)
    requires DistinctKeys(es)
    requires forall i :: 0 <= i < |es| ==> KeyOf(es[i].0).Some?
    ensures Lookup(UpdateAll(p, es), k) ==
              if Find(es, Name(k)).Some? then Find(es, Name(k)) else Lookup(p, k)
    decreases |es|
  {
    if es != [] {
      var k0 := KeyOf(es[0].0).value;
      var p' := Assign(p, k0, es[0].1);
      assert forall i :: 0 <= i < |es[1..]| ==> es[1..][i] == es[i + 1];
      UpdateAllLookup(p', es[1..], k);
      KeyOfName(k);
      if k == k0 {
        assert Find(es[1..], Name(k)).None?;
      }
    }
  }

  /** On success the parameters are the old ones overridden by the new values, and the set of
      keys the dictionary holds is unchanged. */
  lemma SetParametersUpdates(p: Params, es: Entries, k: Key)
    requires DistinctKeys(es) && SetParameters(p, es).Success?
    ensures Lookup(SetParameters(p, es).value, k) ==
              if Find(es, Name(k)).Some? then Find(es, Name(k)) else Lookup(p, k)
    ensures Lookup(SetParameters(p, es).value, k).Some? <==> Lookup(p, k).Some?
  {
    FirstEntryErrorNone(p, es);
    UpdateAllLookup(p, es, k);
    if Find(es, Name(k)).Some? {
      var i :| 0 <= i < |es| && es[i].0 == Name(k);
      KeyOfName(k);
      assert EntryError(p, es[i].0, es[i].1).None?;
    }
  }

  lemma KeyStaysWithinBounds(p: Params, es: Entries, k: Key)
    requires DistinctKeys(es) && SetParameters(p, es).Success?
    requires Lookup(p, k).Some? ==> WithinBounds(k, Lookup(p, k).value)
    ensures var r := SetParameters(p, es).value;
      Lookup(r, k).Some? ==> WithinBounds(k, Lookup(r, k).value)
  {
    SetParametersUpdates(p, es, k);
    FirstEntryErrorNone(p, es);
    if Find(es, Name(k)).Some? {
      var i :| 0 <= i < |es| && es[i].0 == Name(k);
      FindAt(es, i);
      KeyOfName(k);
      assert EntryError(p, es[i].0, es[i].1).None?;
    }
  }

  /** A successful update keeps the parameters within their bounds. */
  lemma SetParametersKeepsValid(p: Params, es: Entries)
    requires DistinctKeys(es) && ValidParams(p) && SetParameters(p, es).Success?
    ensures ValidParams(SetParameters(p, es).value)
  {
    var r := SetParameters(p, es).value;
    ValidParamsByKey(p);
    forall k | Lookup(r, k).Some?
      ensures WithinBounds(k, Lookup(r, k).value)
    {
      KeyStaysWithinBounds(p, es, k);
    }
    ValidParamsByKey(r);
  }

  lemma DefaultsValid(s: Species)
    ensures ValidParams(Defaults(s))
    ensures Defaults(s).deltaPhiMax.Some? <==> s == Carnivore
  {
  }
}
