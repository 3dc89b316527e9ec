/** `Landscape` and its subclasses `Jungle`, `Savannah`, `Desert`, `Mountain` and `Ocean`, as
    one class whose `kind` selects the subclass behaviour. A cell owns its resident herbivores
    and carnivores, the immigrants staged into it during a migration pass, and its available
    fodder; every phase of the year is a method that changes these in place. */
module Landscapes {
  import opened Wrappers
  import opened Seqs
  import opened Sorting
  import opened AnimalParams
  import opened RandomSource
  import opened Animals
  import opened CellRules
  import opened Roaming

  /** The `ValueError`s and the `IndexError` a cell can raise. */
  datatype CellError =
    | UnknownSpecies            // "Given species does not exist"
    | HerbIndexError            // `self.herb[k]` past the residents in `herb_eating`
    | InvalidSpecies            // "invalid species" in `add_population`
    | CannotLiveHere            // `add_population` on a Mountain or an Ocean
    | RejectedAnimal(e: AnimalError)

  /** The species names the cell methods accept, in either capitalisation. */
  function SpeciesNamed(name: string): (r: Option<Species>)
  {
    if name == "Herbivore" || name == "herbivore" then Some(Herbivore)
    else if name == "Carnivore" || name == "carnivore" then Some(Carnivore)
    else None
  }

  lemma SpeciesNamedFacts(name: string)
    ensures SpeciesNamed(name).Some? <==> name in {"Herbivore", "herbivore", "Carnivore", "carnivore"}
    ensures SpeciesNamed(name) == Some(Herbivore) <==> name in {"Herbivore", "herbivore"}
  {
  }

  /** The weights of a list of animals, in list order. */
  function Weights(animals: seq<Animal>): (r: seq<real>)
    reads animals`weight
    ensures |r| == |animals| && forall j {:trigger r[j]} :: 0 <= j < |animals| ==> r[j] == animals[j].weight
  {
    if animals == [] then []
    else Weights(animals[..|animals| - 1]) + [animals[|animals| - 1].weight]
  }

  /** The values the `fitness` property of each animal returns now, in list order. */
  function Fitnesses(env: Env, animals: seq<Animal>): (r: seq<real>)
    reads animals`weight, animals`age, animals`fitnessCache
    ensures |r| == |animals|
  {
    if animals == [] then []
    else Fitnesses(env, animals[..|animals| - 1]) + [animals[|animals| - 1].CurrentFitness(env)]
  }

  /** The fitness values are each animal's, in list order. */
  lemma {:induction false} FitnessesAt(env: Env, animals: seq<Animal>)
    ensures forall j :: 0 <= j < |animals| ==> Fitnesses(env, animals)[j] == animals[j].CurrentFitness(env)
    decreases |animals|
  {
    if animals != [] {
      FitnessesAt(env, animals[..|animals| - 1]);
    }
  }

  /** The fitness caches of a list of animals, in list order. */
  function Caches(animals: seq<Animal>): (r: seq<Option<real>>)
    reads animals`fitnessCache
    ensures |r| == |animals| && forall j {:trigger r[j]} :: 0 <= j < |animals| ==> r[j] == animals[j].fitnessCache
  {
    if animals == [] then []
    else Caches(animals[..|animals| - 1]) + [animals[|animals| - 1].fitnessCache]
  }

  /** Caches holding the values `keys`. */
  function Cached(keys: seq<real>): (r: seq<Option<real>>)
    ensures |r| == |keys| && forall j {:trigger r[j]} :: 0 <= j < |keys| ==> r[j] == Some(keys[j])
  {
    seq(|keys|, j requires 0 <= j < |keys| => Some(keys[j]))
  }

  /** Weights `w` after the first animals gained `gains`, one amount each. */
  function Gained(w: seq<real>, gains: seq<real>): (r: seq<real>)
    ensures |r| == |w|
    ensures forall j {:trigger r[j]} :: 0 <= j < |w| ==> r[j] == w[j] + (if j < |gains| then gains[j] else 0.0)
  {
    seq(|w|, j requires 0 <= j < |w| => w[j] + (if j < |gains| then gains[j] else 0.0))
  }

  /** Caches `c` after the first `k` animals forgot their fitness. */
  function Forgotten(c: seq<Option<real>>, k: nat): (r: seq<Option<real>>)
    ensures |r| == |c| && forall j {:trigger r[j]} :: 0 <= j < |c| ==> r[j] == (if j < k then None else c[j])
  {
    seq(|c|, j requires 0 <= j < |c| => if j < k then None else c[j])
  }

  /** The per-animal lists of a concatenation are the concatenated lists. */
  lemma FitnessesAppend(env: Env, a: seq<Animal>, b: seq<Animal>)
    ensures Fitnesses(env, a + b) == Fitnesses(env, a) + Fitnesses(env, b)
  {
    FitnessesAt(env, a);
    FitnessesAt(env, b);
    FitnessesAt(env, a + b);
  }

  lemma CachesAppend(a: seq<Animal>, b: seq<Animal>)
    ensures Caches(a + b) == Caches(a) + Caches(b)
  {
  }

  /** The keys of the residents of both species, read in one pass, split back. */
  lemma KeysSplit(fh: seq<real>, fc: seq<real>, keys: seq<real>, ch: seq<Option<real>>, cc: seq<Option<real>>)
    requires keys == fh + fc && ch + cc == Cached(keys) && |ch| == |fh|
    ensures keys[..|fh|] == fh && keys[|fh|..] == fc
    ensures ch == Cached(fh) && cc == Cached(fc)
  {
    assert keys[..|fh|] == fh && keys[|fh|..] == fc;
    assert (ch + cc)[..|fh|] == ch && (ch + cc)[|fh|..] == cc;
  }

  /** The key pass of `fitness_sorting`: the herbivores' fitness is read and cached, then the
      carnivores'. */
  method ReadKeys(env: Env, herbs: seq<Animal>, carns: seq<Animal>) returns (kh: seq<real>, kc: seq<real>)
    requires NoRepeats(multiset(herbs) + multiset(carns))
    modifies herbs`fitnessCache, carns`fitnessCache
    ensures kh == old(Fitnesses(env, herbs)) && kc == old(Fitnesses(env, carns))
    ensures Caches(herbs) == Cached(kh) && Caches(carns) == Cached(kc)
    ensures Weights(herbs) == old(Weights(herbs)) && Weights(carns) == old(Weights(carns))
  {
    var all := herbs + carns;
    assert multiset(all) == multiset(herbs) + multiset(carns);
    NoRepeatsDistinct(all);
    FitnessesAppend(env, herbs, carns);
    var keys := SortKeys(env, all);
    CachesAppend(herbs, carns);
    KeysSplit(old(Fitnesses(env, herbs)), old(Fitnesses(env, carns)), keys, Caches(herbs), Caches(carns));
    kh, kc := keys[..|herbs|], keys[|herbs|..];
  }

  /** `fitness_sorting` on the lists themselves: the key pass, then the two stable sorts. */
  method SortResidents(env: Env, herbDescending: bool, carnDescending: bool, herbs: seq<Animal>, carns: seq<Animal>)
    returns (h: seq<Animal>, c: seq<Animal>)
    requires NoRepeats(multiset(herbs) + multiset(carns))
    modifies herbs`fitnessCache, carns`fitnessCache
    ensures h == SortedItems(herbDescending, herbs, old(Fitnesses(env, herbs)))
    ensures c == SortedItems(carnDescending, carns, old(Fitnesses(env, carns)))
    ensures Caches(herbs) == Cached(old(Fitnesses(env, herbs))) && Caches(carns) == Cached(old(Fitnesses(env, carns)))
    ensures multiset(h) == multiset(herbs) && multiset(c) == multiset(carns)
  {
    var kh, kc := ReadKeys(env, herbs, carns);
    h, c := SortedItems(herbDescending, herbs, kh), SortedItems(carnDescending, carns, kc);
    SortedItemsFacts(herbDescending, herbs, kh);
    SortedItemsFacts(carnDescending, carns, kc);
  }

  /** What sorting a list of animals by `keys` keeps and how it moves their fields. */
  lemma SortedFacts(descending: bool, animals: seq<Animal>, keys: seq<real>)
    requires |keys| == |animals|
    ensures var s := SortedItems(descending, animals, keys);
      && multiset(s) == multiset(animals) && |s| == |animals| && (forall a :: a in s ==> a in animals)
      && Weights(s) == SortedItems(descending, Weights(animals), keys)
      && Caches(s) == SortedItems(descending, Caches(animals), keys)
  {
    SortedItemsFacts(descending, animals, keys);
    WeightsSorted(descending, animals, keys);
    CachesSorted(descending, animals, keys);
    var s := SortedItems(descending, animals, keys);
    forall a | a in s
      ensures a in animals
    {
      assert a in multiset(s);
    }
  }

  /** Sorting the animals sorts their weights alike. */
  lemma WeightsSorted(descending: bool, animals: seq<Animal>, keys: seq<real>)
    requires |keys| == |animals|
    ensures Weights(SortedItems(descending, animals, keys)) == SortedItems(descending, Weights(animals), keys)
  {
    var s, o, v := SortedItems(descending, animals, keys), Order(descending, keys), Weights(animals);
    forall i | 0 <= i < |s|
      ensures Weights(s)[i] == SortedItems(descending, v, keys)[i]
    {
      assert s[i] == animals[o[i]];
    }
  }

  /** Sorting the animals sorts their fitness caches alike. */
  lemma CachesSorted(descending: bool, animals: seq<Animal>, keys: seq<real>)
    requires |keys| == |animals|
    ensures Caches(SortedItems(descending, animals, keys)) == SortedItems(descending, Caches(animals), keys)
  {
    var s, o, v := SortedItems(descending, animals, keys), Order(descending, keys), Caches(animals);
    forall i | 0 <= i < |s|
      ensures Caches(s)[i] == SortedItems(descending, v, keys)[i]
    {
      assert s[i] == animals[o[i]];
    }
  }

  /** Every animal of the list is of species `sp`. */
  ghost predicate AllOf(animals: seq<Animal>, sp: Species)
  {
    forall j :: 0 <= j < |animals| ==> animals[j].species == sp
  }

  /** The amounts the herbivores eat in `herb_eating`, in turn, from `food`, when `n` of them
      are counted: each eats what `Herbivore.eating` returns for what is left, and the loop
      ends once the food is gone or `n` have eaten. */
  function Grazed(F: real, food: real, n: nat): seq<real>
    decreases n
  {
    if n == 0 || food <= 0.0 then []
    else match Grazing(F, food)
      case Success(e) => [e] + Grazed(F, food - e, n - 1)
      case Failure(_) => []
  }

  /** With a non-negative appetite F, at most `n` herbivores eat, each eats between 0 and F, the
      food never goes negative, and the food left is the food there was minus what was eaten;
      when fewer than `n` eat, the food is used up, and every herbivore but the last eats F. */
  lemma {:induction false} GrazedFacts(F: real, food: real, n: nat)
    requires F >= 0.0
    ensures var r := Grazed(F, food, n);
      && |r| <= n
      && (forall k :: 0 <= k < |r| ==> 0.0 <= r[k] <= F)
      && (food >= 0.0 ==> 0.0 <= Sum(r) <= food)
      && (food > 0.0 && |r| < n ==> Sum(r) == food)
      && (forall k :: 0 <= k < |r| - 1 ==> r[k] == F)
      && (food > 0.0 && n > 0 ==> |r| > 0)
    decreases n
  {
    var r := Grazed(F, food, n);
    if n > 0 && food > 0.0 {
      GrazingFacts(F, food);
      var e := Grazing(F, food).value;
      var rest := Grazed(F, food - e, n - 1);
      GrazedFacts(F, food - e, n - 1);
      assert r == [e] + rest;
      SumAppend([e], rest);
      assert Sum([e]) == e by { SumAppend([], [e]); }
      if rest != [] {
        assert food - e > 0.0;
        assert e == F;
      }
      forall k | 0 < k < |r|
        ensures r[k] == rest[k - 1]
      {
      }
    }
  }

  /** Grazing one more herbivore: the amounts from `food` are the first amount followed by the
      amounts from what is left. */
  lemma GrazedStep(F: real, food: real, n: nat)
    requires n > 0 && food > 0.0
    ensures Grazing(F, food).Success?
    ensures Grazed(F, food, n) == [Grazing(F, food).value] + Grazed(F, food - Grazing(F, food).value, n - 1)
  {
  }

  /** The key pass of `list.sort(key=lambda a: a.fitness)`: each animal's `fitness` property
      is read once, in list order, which caches it. */
  method SortKeys(env: Env, animals: seq<Animal>) returns (keys: seq<real>)
    requires Distinct(animals)
    modifies animals`fitnessCache
    ensures keys == old(Fitnesses(env, animals))
    ensures Caches(animals) == Cached(keys)
  {
    ghost var f0 := Fitnesses(env, animals);
    FitnessesAt(env, animals);
    keys := [];
    var i := 0;
    while i < |animals|
      invariant 0 <= i <= |animals| && keys == f0[..i]
      invariant forall j :: 0 <= j < i ==> animals[j].fitnessCache == Some(f0[j])
      invariant forall j :: i <= j < |animals| ==> animals[j].CurrentFitness(env) == f0[j]
    {
      var f := animals[i].Fitness(env);
      keys := keys + [f];
      i := i + 1;
    }
    assert Caches(animals) == Cached(keys);
  }

  /** Every animal of `m` is of species `sp`. */
  ghost predicate OfSpecies(m: multiset<Animal>, sp: Species)
  {
    forall a :: a in m ==> a.species == sp
  }

  /** The invariant of a cell's four lists: each holds animals of its own species, and no
      animal is both a resident and staged, or listed twice. It depends only on the
      lists' contents, so reordering the residents keeps it. */
  ghost predicate ValidLists(herb: seq<Animal>, herbStaged: seq<Animal>, carn: seq<Animal>, carnStaged: seq<Animal>)
  {
    && OfSpecies(multiset(herb) + multiset(herbStaged), Herbivore)
    && OfSpecies(multiset(carn) + multiset(carnStaged), Carnivore)
    && NoRepeats(multiset(herb) + multiset(herbStaged))
    && NoRepeats(multiset(carn) + multiset(carnStaged))
  }

  /** The residents of a valid cell: each list of its own species and duplicate-free, and no
      animal of both. */
  lemma ValidApart(h: seq<Animal>, hi: seq<Animal>, c: seq<Animal>, ci: seq<Animal>)
    requires ValidLists(h, hi, c, ci)
    ensures Distinct(h) && Distinct(c) && AllOf(h, Herbivore) && AllOf(c, Carnivore)
    ensures forall i, j :: 0 <= i < |h| && 0 <= j < |c| ==> h[i] != c[j]
  {
    assert forall x :: multiset(h)[x] <= (multiset(h) + multiset(hi))[x];
    assert forall x :: multiset(c)[x] <= (multiset(c) + multiset(ci))[x];
    NoRepeatsDistinct(h);
    NoRepeatsDistinct(c);
    forall i | 0 <= i < |h|
      ensures h[i].species == Herbivore
    {
      assert h[i] in multiset(h);
    }
    forall j | 0 <= j < |c|
      ensures c[j].species == Carnivore
    {
      assert c[j] in multiset(c);
    }
  }

  /** Validity depends on the lists only as multisets, so reordering the residents keeps it. */
  lemma ValidReordered(h0: seq<Animal>, h: seq<Animal>, hi: seq<Animal>, c0: seq<Animal>, c: seq<Animal>, ci: seq<Animal>)
    requires ValidLists(h0, hi, c0, ci)
    requires multiset(h) == multiset(h0) && multiset(c) == multiset(c0)
    ensures ValidLists(h, hi, c, ci)
  {
  }

  /** Validity survives losing herbivore residents. */
  lemma ValidShrunk(h0: seq<Animal>, h: seq<Animal>, hi: seq<Animal>, c: seq<Animal>, ci: seq<Animal>)
    requires ValidLists(h0, hi, c, ci) && multiset(h) <= multiset(h0)
    ensures ValidLists(h, hi, c, ci)
  {
    assert forall x :: (multiset(h) + multiset(hi))[x] <= (multiset(h0) + multiset(hi))[x];
  }

  /** Validity survives losing carnivore residents. */
  lemma ValidCarnShrunk(h: seq<Animal>, hi: seq<Animal>, c0: seq<Animal>, c: seq<Animal>, ci: seq<Animal>)
    requires ValidLists(h, hi, c0, ci) && multiset(c) <= multiset(c0)
    ensures ValidLists(h, hi, c, ci)
  {
    assert forall x :: (multiset(c) + multiset(ci))[x] <= (multiset(c0) + multiset(ci))[x];
  }

  /** The residents of one species in a valid cell are of that species and listed once. */
  lemma ResidentsOf(sp: Species, h: seq<Animal>, hi: seq<Animal>, c: seq<Animal>, ci: seq<Animal>)
    requires ValidLists(h, hi, c, ci)
    ensures NoRepeats(multiset(ListOf(sp, h, c))) && forall a :: a in ListOf(sp, h, c) ==> a.species == sp
  {
    var l, m := ListOf(sp, h, c), if sp == Herbivore then hi else ci;
    assert forall x :: multiset(l)[x] <= (multiset(l) + multiset(m))[x];
    forall a | a in l
      ensures a.species == sp
    {
      assert a in multiset(l) + multiset(m);
    }
  }

  /** Validity survives adding distinct new animals of the right species to the residents. */
  lemma ValidGrown(sp: Species, h: seq<Animal>, hi: seq<Animal>, c: seq<Animal>, ci: seq<Animal>, b: seq<Animal>)
    requires ValidLists(h, hi, c, ci) && NoRepeats(multiset(b))
    requires forall x :: x in b ==> x.species == sp && x !in h && x !in hi && x !in c && x !in ci
    ensures sp == Herbivore ==> ValidLists(h + b, hi, c, ci)
    ensures sp == Carnivore ==> ValidLists(h, hi, c + b, ci)
  {
    if sp == Herbivore {
      GrownApart(h, hi, b);
      assert multiset(h + b) + multiset(hi) == multiset(h) + multiset(hi) + multiset(b);
    } else {
      GrownApart(c, ci, b);
      assert multiset(c + b) + multiset(ci) == multiset(c) + multiset(ci) + multiset(b);
    }
  }

  /** Adding animals found in neither list keeps the multiset of both free of repeats. */
  lemma GrownApart(r: seq<Animal>, s: seq<Animal>, b: seq<Animal>)
    requires NoRepeats(multiset(r) + multiset(s)) && NoRepeats(multiset(b))
    requires forall x :: x in b ==> x !in r && x !in s
    ensures NoRepeats(multiset(r) + multiset(s) + multiset(b))
  {
    forall x | x in multiset(r) + multiset(s) + multiset(b)
      ensures (multiset(r) + multiset(s) + multiset(b))[x] <= 1
    {
      if x in b {
        assert x !in multiset(r) && x !in multiset(s);
      } else {
        assert multiset(b)[x] == 0;
      }
    }
  }

  /** No animal of a valid cell is resident twice, in one list or across both. */
  lemma ResidentsApart(h: seq<Animal>, hi: seq<Animal>, c: seq<Animal>, ci: seq<Animal>)
    requires ValidLists(h, hi, c, ci)
    ensures NoRepeats(multiset(h) + multiset(c))
  {
    forall x | x in multiset(h) + multiset(c)
      ensures (multiset(h) + multiset(c))[x] <= 1
    {
      if x in multiset(h) {
        assert x in multiset(h) + multiset(hi);
        assert x !in multiset(c) + multiset(ci);
      } else {
        assert x in multiset(c) + multiset(ci);
        assert x !in multiset(h) + multiset(hi);
      }
    }
  }

  /** The herbivore residents of a valid cell are herbivores, none listed twice. */
  lemma HerbivoresApart(h: seq<Animal>, hi: seq<Animal>, c: seq<Animal>, ci: seq<Animal>)
    requires ValidLists(h, hi, c, ci)
    ensures NoRepeats(multiset(h)) && OfSpecies(multiset(h), Herbivore)
  {
    assert forall x :: multiset(h)[x] <= (multiset(h) + multiset(hi))[x];
  }

  /** The carnivore residents of a valid cell are all carnivores. */
  lemma CarnivoresOf(h: seq<Animal>, hi: seq<Animal>, c: seq<Animal>, ci: seq<Animal>)
    requires ValidLists(h, hi, c, ci)
    ensures forall a :: a in c ==> a.species == Carnivore
  {
    forall a | a in c
      ensures a.species == Carnivore
    {
      assert a in multiset(c) + multiset(ci);
    }
  }

  /** A list whose multiset holds herbivores only holds herbivores. */
  lemma HerbivoresOf(h: seq<Animal>)
    requires OfSpecies(multiset(h), Herbivore)
    ensures forall a :: a in h ==> a.species == Herbivore
  {
    forall a | a in h
      ensures a.species == Herbivore
    {
      assert a in multiset(h);
    }
  }

  /** One pass of the loop of `herb_eating`: the herbivore eats from `left`, which holds the
      amount `eats[k]` of the grazing sequence. */
  method GrazeOne(env: Env, h: Animal, left: real, ghost eats: seq<real>, ghost k: nat) returns (eaten: real)
    requires h.species == Herbivore && left > 0.0
    requires k < |eats| && eats[k] == Grazing(env.herbivore.F, left).value
    modifies h`weight, h`fitnessCache
    ensures eaten == eats[k]
    ensures h.weight == old(h.weight) + Scale(env.herbivore.beta, eats)[k] && h.fitnessCache == None
  {
    var r := h.HerbivoreEating(env, left);
    ScaleAt(env.herbivore.beta, eats, k);
    eaten := r.value;
  }

  /** The loop of `herb_eating`, over the residents `herbs` in eating order, from `food`,
      with `n` herbivores counted; `left` is the food the loop leaves. The first `m`
      herbivores eat, `m` being the number of amounts grazing yields or the number of
      residents if that is smaller; each gains its share and forgets its fitness. */
  method Graze(env: Env, herbs: seq<Animal>, food: real, n: nat) returns (left: real, r: Result<(), CellError>)
    requires NoRepeats(multiset(herbs)) && OfSpecies(multiset(herbs), Herbivore)
    modifies herbs`weight, herbs`fitnessCache
    ensures var eats := Grazed(env.herbivore.F, food, n);
      var m := if |eats| < |herbs| then |eats| else |herbs|;
      && (r.Failure? <==> |eats| > |herbs|) && (r.Failure? ==> r.error == HerbIndexError)
      && left == food - Sum(eats[..m])
      && Weights(herbs) == Gained(old(Weights(herbs)), Scale(env.herbivore.beta, eats)[..m])
      && Caches(herbs) == Forgotten(old(Caches(herbs)), m)
  {
    var F := env.herbivore.F;
    NoRepeatsDistinct(herbs);
    forall j | 0 <= j < |herbs|
      ensures herbs[j].species == Herbivore
    {
      assert herbs[j] in multiset(herbs);
    }
    ghost var eats := Grazed(F, food, n);
    ghost var gains := Scale(env.herbivore.beta, eats);
    ghost var w0, c0 := Weights(herbs), Caches(herbs);
    left := food;
    var k := 0;
    while k < n && 0.0 < left && k < |herbs|
      invariant GrazingAt(env, herbs, food, n, eats, gains, w0, c0, k, left)
    {
      left := GrazeStep(env, herbs, food, n, eats, gains, w0, c0, herbs[k], k, left);
      k := k + 1;
    }
    GrazingDone(env, herbs, food, n, eats, gains, w0, c0, k, left);
    if k < n && 0.0 < left {
      // `self.herb[k]` with k == len(self.herb)
      r := Failure(HerbIndexError);
    } else {
      r := Success(());
    }
  }

  /** When the loop of `herb_eating` stops after `k` herbivores, `k` is the number that eat:
      the grazing amounts or the residents, whichever run out first. */
  lemma GrazingDone(env: Env, herbs: seq<Animal>, food: real, n: nat, eats: seq<real>, gains: seq<real>,
                    w0: seq<real>, c0: seq<Option<real>>, k: nat, left: real)
    requires GrazingAt(env, herbs, food, n, eats, gains, w0, c0, k, left)
    requires eats == Grazed(env.herbivore.F, food, n)
    requires !(k < n && 0.0 < left && k < |herbs|)
    ensures (k < n && 0.0 < left) <==> |eats| > |herbs|
    ensures k == (if |eats| < |herbs| then |eats| else |herbs|)
    ensures Weights(herbs) == Gained(w0, gains[..k]) && Caches(herbs) == Forgotten(c0, k)
  {
    if k < n && 0.0 < left {
      GrazedStep(env.herbivore.F, left, n - k);
    }
    assert Weights(herbs) == Gained(w0, gains[..k]);
    assert Caches(herbs) == Forgotten(c0, k);
  }

  /** The state of the `herb_eating` loop before herbivore `k` eats: the first `k` amounts of
      `eats` have been eaten and the rest is what grazing `left` would give; the first `k`
      herbivores have gained their share and forgotten their fitness, the others are as they
      were (`w0`, `c0`). */
  ghost predicate GrazingAt(env: Env, herbs: seq<Animal>, food: real, n: nat, eats: seq<real>, gains: seq<real>,
                            w0: seq<real>, c0: seq<Option<real>>, k: nat, left: real)
    reads herbs
  {
    && k <= n && k <= |eats| && k <= |herbs| && |gains| == |eats| && |w0| == |herbs| == |c0|
    && Grazed(env.herbivore.F, left, n - k) == eats[k..]
    && left == food - Sum(eats[..k])
    && (forall j :: 0 <= j < k ==> herbs[j].weight == w0[j] + gains[j] && herbs[j].fitnessCache == None)
    && (forall j :: k <= j < |herbs| ==> herbs[j].weight == w0[j] && herbs[j].fitnessCache == c0[j])
  }

  /** One pass of the loop of `herb_eating`. */
  method GrazeStep(env: Env, herbs: seq<Animal>, food: real, n: nat, ghost eats: seq<real>, ghost gains: seq<real>,
                   ghost w0: seq<real>, ghost c0: seq<Option<real>>, h: Animal, k: nat, left: real) returns (leftAfter: real)
    requires Distinct(herbs) && AllOf(herbs, Herbivore) && gains == Scale(env.herbivore.beta, eats)
    requires GrazingAt(env, herbs, food, n, eats, gains, w0, c0, k, left)
    requires k < n && 0.0 < left && k < |herbs| && h == herbs[k]
    modifies h`weight, h`fitnessCache
    ensures GrazingAt(env, herbs, food, n, eats, gains, w0, c0, k + 1, leftAfter)
  {
    var F := env.herbivore.F;
    GrazedStep(F, left, n - k);
    SliceStep(eats, k, Grazing(F, left).value, Grazed(F, left - Grazing(F, left).value, n - k - 1));
    var e := GrazeOne(env, h, left, eats, k);
    SumPrefixStep(eats, k);
    leftAfter := left - e;
  }

  /** Each list of the trace is non-empty and loses animals, keeping order, to become the next. */
  ghost predicate Shrinking(lists: seq<seq<Animal>>)
  {
    forall k :: 0 <= k < |lists| - 1 ==> lists[k] != [] && IsSubsequence(lists[k + 1], lists[k])
  }

  lemma ShrinkingStep(lists: seq<seq<Animal>>, next: seq<Animal>)
    requires Shrinking(lists) && |lists| > 0 && lists[|lists| - 1] != []
    requires IsSubsequence(next, lists[|lists| - 1])
    ensures Shrinking(lists + [next])
  {
    var l := lists + [next];
    forall k | 0 <= k < |l| - 1
      ensures l[k] != [] && IsSubsequence(l[k + 1], l[k])
    {
      assert l[k] == lists[k];
      if k + 1 < |lists| {
        assert l[k + 1] == lists[k + 1];
      }
    }
  }

  /** `babies` are of species `sp` and of age 0. */
  ghost predicate AreYoung(babies: seq<Animal>, sp: Species)
    reads babies`age
  {
    forall k :: 0 <= k < |babies| ==> babies[k].species == sp && babies[k].age == 0
  }

  /** `babies` are newborns of species `sp`: age 0 and no fitness cached. */
  ghost predicate AreNewborns(babies: seq<Animal>, sp: Species)
    reads babies`age, babies`fitnessCache
  {
    AreYoung(babies, sp) && forall k :: 0 <= k < |babies| ==> babies[k].fitnessCache == None
  }

  /** The first `i` entries of `done` followed by the rest of `todo`. */
  function Spliced<T>(done: seq<T>, todo: seq<T>, i: nat): (r: seq<T>)
    requires |done| == |todo|
    ensures |r| == |todo| && forall j {:trigger r[j]} :: 0 <= j < |todo| ==> r[j] == if j < i then done[j] else todo[j]
  {
    seq(|todo|, j requires 0 <= j < |todo| => if j < i then done[j] else todo[j])
  }

  /** Before the update the list is `todo`; after it, `done`. */
  lemma SplicedEnds<T>(done: seq<T>, todo: seq<T>)
    requires |done| == |todo|
    ensures Spliced(done, todo, 0) == todo && Spliced(done, todo, |todo|) == done
  {
  }

  /** Replacing entry `i` of a half-updated list advances the update by one. */
  lemma SplicedStep<T>(done: seq<T>, todo: seq<T>, i: nat)
    requires i < |done| == |todo|
    ensures Spliced(done, todo, i)[i := done[i]] == Spliced(done, todo, i + 1)
  {
  }

  /** A newborn appended to the newborns so far. */
  lemma NewbornAdded(before: seq<Animal>, b: Animal, sp: Species)
    requires NoRepeats(multiset(before)) && b !in before && AreNewborns(before, sp)
    requires b.species == sp && b.age == 0 && b.fitnessCache == None
    ensures NoRepeats(multiset(before + [b])) && AreNewborns(before + [b], sp)
    ensures Weights(before + [b]) == Weights(before) + [b.weight]
  {
    assert multiset(before + [b]) == multiset(before) + multiset{b};
  }

  /** The position of the normal stream before attempt `j` of `newborns` over animals of
      weights `w0` and fitness `f0`: one normal draw for each earlier attempt whose uniform
      draw (position `d0` onwards) fell below its birth probability. */
  function GaussPos(p: Params, w0: seq<real>, f0: seq<real>, rng: Rng, d0: nat, g0: nat, j: nat): nat
    requires j <= |w0| == |f0|
  {
    if j == 0 then g0
    else GaussPos(p, w0, f0, rng, d0, g0, j - 1)
         + (if rng.UniformAt(d0 + j - 1) < BirthProbability(p, w0[j - 1], f0[j - 1], |w0|) then 1 else 0)
  }

  /** Attempt `j` of `newborns`: `birth` with n the length of the whole list. */
  function Attempt(p: Params, w0: seq<real>, f0: seq<real>, rng: Rng, d0: nat, g0: nat, j: nat): BirthOutcome
    requires j < |w0| == |f0|
  {
    BirthOutcomeOf(p, w0[j], BirthProbability(p, w0[j], f0[j], |w0|), rng.UniformAt(d0 + j),
                   p.wBirth + p.sigmaBirth * rng.NormalAt(GaussPos(p, w0, f0, rng, d0, g0, j)))
  }

  /** Every attempt of `newborns`, in list order. */
  function Attempts(p: Params, w0: seq<real>, f0: seq<real>, rng: Rng, d0: nat, g0: nat): (os: seq<BirthOutcome>)
    requires |w0| == |f0|
    ensures |os| == |w0| && forall j {:trigger os[j]} :: 0 <= j < |w0| ==> os[j] == Attempt(p, w0, f0, rng, d0, g0, j)
  {
    seq(|w0|, j requires 0 <= j < |w0| => Attempt(p, w0, f0, rng, d0, g0, j))
  }

  /** The parents' weights after the attempts `os`: a mother pays for her newborn. */
  function MotherWeights(w0: seq<real>, os: seq<BirthOutcome>): (r: seq<real>)
    requires |os| == |w0|
    ensures |r| == |w0| && forall j {:trigger r[j]} :: 0 <= j < |w0| ==> r[j] == (if os[j].Born? then os[j].motherWeight else w0[j])
  {
    seq(|w0|, j requires 0 <= j < |w0| => if os[j].Born? then os[j].motherWeight else w0[j])
  }

  /** The parents' caches after the attempts `os`: a mother forgets her fitness; any other
      animal read it exactly when its weight reached the threshold. */
  function BirthCaches(p: Params, w0: seq<real>, f0: seq<real>, c0: seq<Option<real>>, os: seq<BirthOutcome>)
    : (r: seq<Option<real>>)
    requires |os| == |w0| == |f0| == |c0|
    ensures |r| == |w0|
    ensures forall j {:trigger r[j]} :: 0 <= j < |w0| ==>
              r[j] == (if os[j].Born? then None else if w0[j] < BirthThreshold(p) then c0[j] else Some(f0[j]))
  {
    seq(|w0|, j requires 0 <= j < |w0| =>
          if os[j].Born? then None else if w0[j] < BirthThreshold(p) then c0[j] else Some(f0[j]))
  }

  /** The newborns' weights, in the order of their mothers. */
  function NewbornWeights(os: seq<BirthOutcome>): seq<real>
  {
    if os == [] then []
    else NewbornWeights(os[..|os| - 1]) + (if os[|os| - 1].Born? then [os[|os| - 1].newbornWeight] else [])
  }

  /** A successful attempt gives a positive newborn lighter than its mother was, and the
      mother keeps a positive weight that with xi times the newborn's makes up her old one. */
  lemma AttemptFacts(p: Params, w0: seq<real>, f0: seq<real>, rng: Rng, d0: nat, g0: nat, j: nat)
    requires j < |w0| == |f0| && Attempt(p, w0, f0, rng, d0, g0, j).Born?
    ensures var o := Attempt(p, w0, f0, rng, d0, g0, j);
      && 0.0 < o.newbornWeight < w0[j] && o.motherWeight > 0.0
      && o.motherWeight + p.xi * o.newbornWeight == w0[j]
  {
    var prob, u := BirthProbability(p, w0[j], f0[j], |w0|), rng.UniformAt(d0 + j);
    var wn := p.wBirth + p.sigmaBirth * rng.NormalAt(GaussPos(p, w0, f0, rng, d0, g0, j));
    BirthOutcomeFacts(p, w0[j], prob, u, wn);
  }

  /** Nobody below the weight threshold gives birth, and a lone animal never does. */
  lemma NoBirthBelowThreshold(p: Params, w0: seq<real>, f0: seq<real>, rng: Rng, d0: nat, g0: nat, j: nat)
    requires j < |w0| == |f0| && rng.Valid()
    requires w0[j] < BirthThreshold(p) || |w0| == 1
    ensures Attempts(p, w0, f0, rng, d0, g0)[j] == NoBirth
  {
    var prob := BirthProbability(p, w0[j], f0[j], |w0|);
    BirthProbabilityFacts(p, w0[j], f0[j], |w0|);
    BirthOutcomeFacts(p, w0[j], prob, rng.UniformAt(d0 + j),
                      p.wBirth + p.sigmaBirth * rng.NormalAt(GaussPos(p, w0, f0, rng, d0, g0, j)));
  }

  /** There are exactly as many newborns as successful attempts. */
  lemma {:induction false} NewbornCount(os: seq<BirthOutcome>)
    ensures |NewbornWeights(os)| <= |os|
    ensures (forall j :: 0 <= j < |os| ==> os[j] == NoBirth) ==> NewbornWeights(os) == []
  {
    if os != [] {
      NewbornCount(os[..|os| - 1]);
    }
  }

  /** One pass of the loop of `newborns`, over animal `i`: its `birth` with n the length of
      the whole list, and the newborn, if any, added to `babies`. */
  method BirthStep(env: Env, sp: Species, animals: seq<Animal>, a: Animal, rng: Rng, i: nat, babies: seq<Animal>,
                   ghost w0: seq<real>, ghost f0: seq<real>, ghost d0: nat, ghost g0: nat)
    returns (babiesAfter: seq<Animal>)
    requires i < |animals| == |w0| == |f0| && a == animals[i] && a.species == sp
    requires forall j :: 0 <= j < |animals| && j != i ==> animals[j] != a
    requires a.weight == w0[i] && a.CurrentFitness(env) == f0[i]
    requires rng.drawn == d0 + i && rng.gaussDrawn == GaussPos(env.ParamsOf(sp), w0, f0, rng, d0, g0, i)
    modifies a`weight, a`fitnessCache, rng`drawn, rng`gaussDrawn
    ensures var p := env.ParamsOf(sp);
      var o := Attempt(p, w0, f0, rng, d0, g0, i);
      && Weights(animals) == old(Weights(animals))[i := if o.Born? then o.motherWeight else w0[i]]
      && Caches(animals) == old(Caches(animals))[i := if o.Born? then None
                                                     else if w0[i] < BirthThreshold(p) then old(a.fitnessCache)
                                                     else Some(f0[i])]
      && |babiesAfter| == |babies| + (if o.Born? then 1 else 0) && babiesAfter[..|babies|] == babies
      && (o.Born? ==>
            var b := babiesAfter[|babies|];
            fresh(b) && b.species == sp && b.weight == o.newbornWeight && b.age == 0 && b.fitnessCache == None)
    ensures rng.drawn == d0 + i + 1 && rng.gaussDrawn == GaussPos(env.ParamsOf(sp), w0, f0, rng, d0, g0, i + 1)
  {
    var baby := a.Birth(env, |animals|, rng);
    babiesAfter := babies;
    if baby.Some? {
      babiesAfter := babies + [baby.value];
    }
  }

  /** The animals `babies` weigh `ws`, one weight per animal in list order; stated
      animal by animal from the end of the list, so that it holds exactly when
      `Weights(babies) == ws` (`WeighIff`). */
  ghost predicate Weigh(babies: seq<Animal>, ws: seq<real>)
    reads babies`weight
  {
    && |babies| == |ws|
    && (babies != [] ==> Weigh(babies[..|babies| - 1], ws[..|ws| - 1]) && babies[|babies| - 1].weight == ws[|ws| - 1])
  }

  lemma {:induction false} WeighIff(babies: seq<Animal>, ws: seq<real>)
    ensures Weigh(babies, ws) <==> Weights(babies) == ws
  {
    if babies != [] && |babies| == |ws| {
      var n := |babies| - 1;
      WeighIff(babies[..n], ws[..n]);
      assert ws == ws[..n] + [ws[n]];
      if Weights(babies) == ws {
        assert Weights(babies[..n]) == ws[..n];
      }
    }
  }

  /** What `newborns` over `animals`, which had weights `w0`, fitness `f0` and caches `c0`
      with the random streams at `d0` and `g0`, leaves in the animals: the parents' new
      weights and caches, and `babies` the newborns in the order of their mothers. */
  ghost predicate Offspring(env: Env, sp: Species, animals: seq<Animal>, babies: seq<Animal>, rng: Rng,
                       w0: seq<real>, f0: seq<real>, c0: seq<Option<real>>, d0: nat, g0: nat)
    reads animals`weight, animals`fitnessCache, babies`weight, babies`age, babies`fitnessCache
  {
    var p := env.ParamsOf(sp);
    && |w0| == |f0| == |c0| == |animals|
    && var os := Attempts(p, w0, f0, rng, d0, g0);
    && Weights(animals) == MotherWeights(w0, os)
    && Caches(animals) == BirthCaches(p, w0, f0, c0, os)
    && Weigh(babies, NewbornWeights(os)) && AreNewborns(babies, sp)
  }

  /** The outcome of `newborns`: what `Offspring` says, with one uniform draw per animal and one
      normal draw per successful attempt. */
  ghost predicate Procreated(env: Env, sp: Species, animals: seq<Animal>, babies: seq<Animal>, rng: Rng,
                             w0: seq<real>, f0: seq<real>, c0: seq<Option<real>>, d0: nat, g0: nat)
    reads animals`weight, animals`fitnessCache, babies`weight, babies`age, babies`fitnessCache
    reads rng`drawn, rng`gaussDrawn
  {
    && |w0| == |f0| == |c0| == |animals|
    && Offspring(env, sp, animals, babies, rng, w0, f0, c0, d0, g0)
    && rng.drawn == d0 + |w0|
    && rng.gaussDrawn == GaussPos(env.ParamsOf(sp), w0, f0, rng, d0, g0, |w0|)
  }

  /** After `newborns` there is at most one newborn per parent and none for a lone parent. */
  lemma ProcreatedFacts(env: Env, sp: Species, animals: seq<Animal>, babies: seq<Animal>, rng: Rng,
                        w0: seq<real>, f0: seq<real>, c0: seq<Option<real>>, d0: nat, g0: nat)
    requires Procreated(env, sp, animals, babies, rng, w0, f0, c0, d0, g0)
    ensures rng.drawn == d0 + |animals| && |babies| <= |animals| && AreNewborns(babies, sp)
    ensures |animals| == 1 && rng.Valid() ==> babies == []
  {
    var os := Attempts(env.ParamsOf(sp), w0, f0, rng, d0, g0);
    NewbornCount(os);
    if |animals| == 1 && rng.Valid() {
      NoBirthBelowThreshold(env.ParamsOf(sp), w0, f0, rng, d0, g0, 0);
    }
  }

  /** The state of `newborns` after the attempts of the first `i` animals: the random
      streams have moved past those attempts, the first `i` parents hold their weights and
      caches after the attempts (`mw`, `bc`), the rest their old ones and their old fitness,
      and `babies` are the distinct newborns so far, in the order of their mothers. */
  ghost predicate BirthsUpTo(env: Env, sp: Species, animals: seq<Animal>, rng: Rng, i: nat, babies: seq<Animal>,
                             w0: seq<real>, f0: seq<real>, c0: seq<Option<real>>, d0: nat, g0: nat,
                             os: seq<BirthOutcome>, mw: seq<real>, bc: seq<Option<real>>)
    reads animals`weight, animals`age, animals`fitnessCache, rng`drawn, rng`gaussDrawn
    reads babies`weight, babies`age, babies`fitnessCache
  {
    && i <= |animals| == |w0| == |f0| == |c0| == |os| == |mw| == |bc|
    && rng.drawn == d0 + i && rng.gaussDrawn == GaussPos(env.ParamsOf(sp), w0, f0, rng, d0, g0, i)
    && Weights(animals) == Spliced(mw, w0, i) && Caches(animals) == Spliced(bc, c0, i)
    && (forall j :: i <= j < |animals| ==> animals[j].CurrentFitness(env) == f0[j])
    && Weights(babies) == NewbornWeights(os[..i]) && AreNewborns(babies, sp)
    && NoRepeats(multiset(babies))
  }

  /** Once every animal has had its attempt, the loop state is the outcome of `newborns`. */
  lemma BirthsComplete(env: Env, sp: Species, animals: seq<Animal>, rng: Rng, babies: seq<Animal>,
                       w0: seq<real>, f0: seq<real>, c0: seq<Option<real>>, d0: nat, g0: nat,
                       os: seq<BirthOutcome>, mw: seq<real>, bc: seq<Option<real>>)
    requires BirthsUpTo(env, sp, animals, rng, |animals|, babies, w0, f0, c0, d0, g0, os, mw, bc)
    requires os == Attempts(env.ParamsOf(sp), w0, f0, rng, d0, g0)
    requires mw == MotherWeights(w0, os) && bc == BirthCaches(env.ParamsOf(sp), w0, f0, c0, os)
    ensures Procreated(env, sp, animals, babies, rng, w0, f0, c0, d0, g0)
  {
    SplicedEnds(mw, w0);
    SplicedEnds(bc, c0);
    assert os[..|animals|] == os;
    WeighIff(babies, NewbornWeights(os));
  }

  /** The attempt at `birth` of animal `i` in the loop of `newborns`, with every list
      brought up to date. */
  method BirthTurn(env: Env, sp: Species, animals: seq<Animal>, rng: Rng, i: nat, babies: seq<Animal>,
                   ghost w0: seq<real>, ghost f0: seq<real>, ghost c0: seq<Option<real>>, ghost d0: nat, ghost g0: nat,
                   ghost os: seq<BirthOutcome>, ghost mw: seq<real>, ghost bc: seq<Option<real>>)
    returns (babiesAfter: seq<Animal>)
    requires BirthsUpTo(env, sp, animals, rng, i, babies, w0, f0, c0, d0, g0, os, mw, bc) && i < |animals|
    requires NoRepeats(multiset(animals)) && forall a :: a in animals ==> a.species == sp
    requires os[i] == Attempt(env.ParamsOf(sp), w0, f0, rng, d0, g0, i)
    requires mw[i] == (if os[i].Born? then os[i].motherWeight else w0[i])
    requires bc[i] == (if os[i].Born? then None else if w0[i] < BirthThreshold(env.ParamsOf(sp)) then c0[i] else Some(f0[i]))
    requires forall b :: b in babies ==> b !in animals
    modifies animals`weight, animals`fitnessCache, rng`drawn, rng`gaussDrawn
    ensures BirthsUpTo(env, sp, animals, rng, i + 1, babiesAfter, w0, f0, c0, d0, g0, os, mw, bc)
    ensures forall b :: b in babiesAfter ==> b in babies || fresh(b)
  {
    var a := animals[i];
    assert a in animals;
    NoRepeatsAt(animals, i);
    assert Weights(animals)[i] == a.weight && Caches(animals)[i] == a.fitnessCache;
    assert a.weight == w0[i] && a.fitnessCache == c0[i];
    babiesAfter := BirthStep(env, sp, animals, a, rng, i, babies, w0, f0, d0, g0);
    SplicedStep(mw, w0, i);
    SplicedStep(bc, c0, i);
    assert os[..i + 1][..i] == os[..i];
    if |babiesAfter| > |babies| {
      assert babiesAfter == babies + [babiesAfter[|babies|]];
      NewbornAdded(babies, babiesAfter[|babies|], sp);
    } else {
      assert babiesAfter == babies;
    }
  }

  /** `newborns`: every animal of the list makes one attempt at `birth`, with n the length of
      the list, and the newborns come back in the order of their mothers. */
  method Newborns(env: Env, sp: Species, animals: seq<Animal>, rng: Rng) returns (babies: seq<Animal>)
    requires NoRepeats(multiset(animals)) && forall a :: a in animals ==> a.species == sp
    modifies animals`weight, animals`fitnessCache, rng`drawn, rng`gaussDrawn
    ensures Procreated(env, sp, animals, babies, rng, old(Weights(animals)), old(Fitnesses(env, animals)),
                       old(Caches(animals)), old(rng.drawn), old(rng.gaussDrawn))
    ensures forall b :: b in babies ==> fresh(b)
    ensures NoRepeats(multiset(babies))
  {
    ghost var p, w0, f0, c0 := env.ParamsOf(sp), Weights(animals), Fitnesses(env, animals), Caches(animals);
    ghost var d0, g0 := rng.drawn, rng.gaussDrawn;
    ghost var os := Attempts(p, w0, f0, rng, d0, g0);
    ghost var mw, bc := MotherWeights(w0, os), BirthCaches(p, w0, f0, c0, os);
    FitnessesAt(env, animals);
    babies := [];
    var i := 0;
    SplicedEnds(mw, w0);
    SplicedEnds(bc, c0);
    while i < |animals|
      invariant BirthsUpTo(env, sp, animals, rng, i, babies, w0, f0, c0, d0, g0, os, mw, bc)
      invariant forall b :: b in babies ==> fresh(b)
    {
      babies := BirthTurn(env, sp, animals, rng, i, babies, w0, f0, c0, d0, g0, os, mw, bc);
      i := i + 1;
    }
    BirthsComplete(env, sp, animals, rng, babies, w0, f0, c0, d0, g0, os, mw, bc);
  }

  /** The resident list of species `sp` among the herbivores `h` and carnivores `c`. */
  function ListOf(sp: Species, h: seq<Animal>, c: seq<Animal>): seq<Animal>
  {
    if sp == Herbivore then h else c
  }

  /** The residents of species `sp` of valid lists: of that species, none listed twice. */
  lemma ListFacts(sp: Species, h: seq<Animal>, hi: seq<Animal>, c: seq<Animal>, ci: seq<Animal>)
    requires ValidLists(h, hi, c, ci)
    ensures NoRepeats(multiset(ListOf(sp, h, c))) && forall a :: a in ListOf(sp, h, c) ==> a.species == sp
  {
    if sp == Herbivore {
      HerbivoresApart(h, hi, c, ci);
      HerbivoresOf(h);
    } else {
      assert forall x :: multiset(c)[x] <= (multiset(c) + multiset(ci))[x];
      CarnivoresOf(h, hi, c, ci);
    }
  }

  /** The residents of valid lists are listed once each, and each list holds its own
      species. */
  lemma ListsApart(h: seq<Animal>, hi: seq<Animal>, c: seq<Animal>, ci: seq<Animal>)
    requires ValidLists(h, hi, c, ci)
    ensures NoRepeats(multiset(h)) && NoRepeats(multiset(c))
    ensures AllOf(h, Herbivore) && AllOf(c, Carnivore)
  {
    ListFacts(Herbivore, h, hi, c, ci);
    ListFacts(Carnivore, h, hi, c, ci);
    ValidApart(h, hi, c, ci);
  }

  /** `newborns` over the residents of species `sp` of a cell with lists `h`, `hi`, `c`
      and `ci`: at most one newborn per parent, none for a lone parent, one uniform draw per
      parent, nothing changed among the residents of the other species, and the lists
      still valid once the newborns join their parents. */
  method Procreate(env: Env, sp: Species, h: seq<Animal>, ghost hi: seq<Animal>, c: seq<Animal>, ghost ci: seq<Animal>,
                   rng: Rng)
    returns (babies: seq<Animal>)
    requires ValidLists(h, hi, c, ci)
    modifies ListOf(sp, h, c)`weight, ListOf(sp, h, c)`fitnessCache, rng`drawn, rng`gaussDrawn
    ensures var animals := ListOf(sp, h, c);
      && rng.drawn == old(rng.drawn) + |animals|
      && |babies| <= |animals| && AreNewborns(babies, sp)
      && (|animals| == 1 && rng.Valid() ==> babies == [])
    ensures var animals := ListOf(sp, h, c);
      Procreated(env, sp, animals, babies, rng, old(Weights(animals)), old(Fitnesses(env, animals)),
                 old(Caches(animals)), old(rng.drawn), old(rng.gaussDrawn))
    ensures var others := ListOf(Other(sp), h, c);
      forall j :: 0 <= j < |others| ==>
        others[j].weight == old(others[j].weight) && others[j].fitnessCache == old(others[j].fitnessCache)
    ensures sp == Herbivore ==> ValidLists(h + babies, hi, c, ci)
    ensures sp == Carnivore ==> ValidLists(h, hi, c + babies, ci)
    ensures forall b :: b in babies ==> fresh(b)
  {
    ghost var others := ListOf(Other(sp), h, c);
    var animals := ListOf(sp, h, c);
    ghost var w0, f0, c0 := Weights(animals), Fitnesses(env, animals), Caches(animals);
    ghost var d0, g0 := rng.drawn, rng.gaussDrawn;
    ListFacts(sp, h, hi, c, ci);
    ListFacts(Other(sp), h, hi, c, ci);
    babies := Newborns(env, sp, animals, rng);
    ProcreatedFacts(env, sp, animals, babies, rng, w0, f0, c0, d0, g0);
    forall j | 0 <= j < |others|
      ensures others[j].weight == old(others[j].weight) && others[j].fitnessCache == old(others[j].fitnessCache)
    {
      assert others[j] in others;
      assert others[j] !in animals;
    }
    ValidGrown(sp, h, hi, c, ci, babies);
  }

  /** The survivors' weights and fitness are the survivors among the herbivores' ones. */
  lemma {:induction false} PreysFilter(env: Env, herbs: seq<Animal>, keep: seq<bool>)
    requires |keep| == |herbs|
    ensures Preys(env, Filter(herbs, keep)) == Filter(Preys(env, herbs), keep)
  {
    if herbs != [] {
      var n := |herbs| - 1;
      PreysFilter(env, herbs[..n], keep[..n]);
      var ps := Preys(env, herbs);
      assert ps[..n] == Preys(env, herbs[..n]);
      assert keep[..n] == keep[..|ps| - 1];
      if keep[n] {
        var kept := Filter(herbs[..n], keep[..n]) + [herbs[n]];
        assert kept[..|kept| - 1] == Filter(herbs[..n], keep[..n]);
      }
    }
  }

  /** Herbivores whose fitness and weights are those of `ps` have `ps` as their preys. */
  lemma PreysAre(env: Env, herbs: seq<Animal>, ps: seq<Prey>)
    requires |ps| == |herbs|
    requires forall j :: 0 <= j < |herbs| ==> ps[j] == Prey(herbs[j].CurrentFitness(env), herbs[j].weight)
    ensures Preys(env, herbs) == ps
  {
  }

  /** A carnivore of age `age`, which weighed `w` and had fitness `f`, hunted the herbivores
      `before`, whose fitness and weights were `preys`, with the uniform stream at `d`: its
      meal left `after` alive, with fitness and weights `afterPreys`, left the carnivore
      weighing `w1` with fitness cache `cache1`, and the uniform stream at `d1`. */
  ghost predicate Hunted(env: Env, rng: Rng, age: nat, w: real, f: real, d: nat, preys: seq<Prey>,
                         before: seq<Animal>, after: seq<Animal>, afterPreys: seq<Prey>,
                         w1: real, cache1: Option<real>, d1: nat)
  {
    && env.carnivore.deltaPhiMax.Some? && |preys| == |before|
    && MealLeft(Meal(env, age, rng, MealStart(w, Some(f), d), preys, |before|), before, after, preys, afterPreys,
                w1, cache1, d1)
  }

  /** The finished meal `fin` over `before`, with fitness and weights `preys`, left `after`
      alive, with fitness and weights `afterPreys`, the carnivore weighing `w1` with cache
      `cache1`, and the uniform stream at `d1`. */
  ghost predicate MealLeft(fin: MealState, before: seq<Animal>, after: seq<Animal>, preys: seq<Prey>,
                           afterPreys: seq<Prey>, w1: real, cache1: Option<real>, d1: nat)
  {
    && |fin.keep| == |before| == |preys|
    && after == Filter(before, fin.keep) && afterPreys == Filter(preys, fin.keep)
    && w1 == fin.weight && cache1 == fin.cache && d1 == fin.drawn
  }

  /** One carnivore's turn in `carn_eating`: `stop` when no herbivore is left or the
      carnivore is less fit than the first, and then only fitness values are read;
      otherwise it makes its meal over `herbs` and `survivors` are left. The herbivores'
      weights and fitness stay as they were either way. */
  method CarnivoreTurn(env: Env, c: Animal, herbs: seq<Animal>, rng: Rng) returns (stop: bool, survivors: seq<Animal>)
    requires env.carnivore.deltaPhiMax.Some? && c.species == Carnivore
    requires Distinct(herbs) && forall h :: h in herbs ==> h.species == Herbivore
    modifies herbs`fitnessCache, c`weight, c`fitnessCache, rng`drawn
    ensures stop <==> herbs == [] || old(c.CurrentFitness(env) < herbs[0].CurrentFitness(env))
    ensures stop ==> survivors == herbs
    ensures stop && herbs != [] ==> c.CurrentFitness(env) < herbs[0].CurrentFitness(env)
    ensures stop ==> c.weight == old(c.weight) && c.CurrentFitness(env) == old(c.CurrentFitness(env))
                     && rng.drawn == old(rng.drawn)
    ensures !stop ==> Hunted(env, rng, c.age, old(c.weight), old(c.CurrentFitness(env)), old(rng.drawn),
                             old(Preys(env, herbs)), herbs, survivors, Preys(env, survivors),
                             c.weight, c.fitnessCache, rng.drawn)
    ensures Preys(env, herbs) == old(Preys(env, herbs))
    ensures IsSubsequence(survivors, herbs)
  {
    ghost var p0 := Preys(env, herbs);
    SubsequenceReflexive(herbs);
    survivors := herbs;
    if herbs == [] {
      return true, survivors;
    }
    assert herbs[0].species == Herbivore;
    var fc := c.Fitness(env);
    var fh := herbs[0].Fitness(env);
    forall j | 0 <= j < |herbs|
      ensures herbs[j].CurrentFitness(env) == old(herbs[j].CurrentFitness(env))
    {
      assert herbs[j] != c;
    }
    PreysAre(env, herbs, p0);
    if fc < fh {
      return true, survivors;
    }
    label Hunt:
    survivors := c.CarnivoreEating(env, herbs, rng);
    ghost var fin := Meal(env, c.age, rng, MealStart(old(c.weight), Some(fc), old(rng.drawn)), old(Preys(env, herbs)),
                          |herbs|);
    forall j | 0 <= j < |herbs|
      ensures herbs[j].CurrentFitness(env) == old@Hunt(herbs[j].CurrentFitness(env))
    {
      assert herbs[j] != c;
    }
    PreysAre(env, herbs, p0);
    PreysFilter(env, herbs, fin.keep);
    stop := false;
  }

  /** Four distinct cells. */
  predicate Apart(ns: seq<Landscape>)
  {
    forall j, k :: 0 <= j < k < |ns| ==> ns[j] != ns[k]
  }

  /** What a migration pass can see or change of a neighbour: its fodder for either
      species, its resident counts, its staged immigrants and whether it is habitable. */
  datatype Side = Side(food: real, herbMass: real, herbs: nat, carns: nat,
                       herbStaged: seq<Animal>, carnStaged: seq<Animal>, habitable: bool)

  function SideOf(c: Landscape): Side
    reads c`availableFood, c`herb, c`carn, c`herbImmigrants, c`carnImmigrants, c.herb`weight
  {
    Side(c.availableFood, Sum(Weights(c.herb)), |c.herb|, |c.carn|, c.herbImmigrants, c.carnImmigrants,
         c.AnimalsCanLiveHere())
  }

  /** The immigrants of species `sp` staged at each of the four neighbours `ns`. */
  function Stages(ns: seq<Landscape>, sp: Species): (st: seq<seq<Animal>>)
    requires |ns| == 4
    reads ns`herbImmigrants, ns`carnImmigrants
    ensures |st| == 4
  {
    [ns[0].Staged(sp), ns[1].Staged(sp), ns[2].Staged(sp), ns[3].Staged(sp)]
  }

  /** The staged lists `st` once each of `xs` is appended, in order, to the list its tag
      names; an animal tagged outside 0 to 3 goes nowhere. */
  function Dealt(st: seq<seq<Animal>>, xs: seq<Animal>, tags: seq<int>): (dt: seq<seq<Animal>>)
    requires |st| == 4 && |xs| == |tags|
    ensures |dt| == 4
  {
    [st[0] + Select(xs, tags, 0), st[1] + Select(xs, tags, 1), st[2] + Select(xs, tags, 2), st[3] + Select(xs, tags, 3)]
  }

  /** The staged lists of species `sp` in the sides `ss`. */
  function StagesOf(ss: seq<Side>, sp: Species): (st: seq<seq<Animal>>)
    requires |ss| == 4
    ensures |st| == 4
  {
    [StagedOf(ss[0], sp), StagedOf(ss[1], sp), StagedOf(ss[2], sp), StagedOf(ss[3], sp)]
  }

  lemma StagesOfSides(ns: seq<Landscape>, sp: Species)
    requires |ns| == 4
    ensures StagesOf(Sides(ns), sp) == Stages(ns, sp)
  {
  }

  /** The four neighbours `ns` as a migration pass sees them now. */
  function Sides(ns: seq<Landscape>): (ss: seq<Side>)
    requires |ns| == 4
    reads ns`availableFood, ns`herb, ns`carn, ns`herbImmigrants, ns`carnImmigrants, ns[0].herb`weight, ns[1].herb`weight, ns[2].herb`weight, ns[3].herb`weight
    ensures |ss| == 4
  {
    [SideOf(ns[0]), SideOf(ns[1]), SideOf(ns[2]), SideOf(ns[3])]
  }

  function StagedOf(s: Side, sp: Species): seq<Animal>
  {
    if sp == Herbivore then s.herbStaged else s.carnStaged
  }

  /** What an animal of species `sp` sees of a neighbour: the relevant fodder, the count
      of its species including staged immigrants, and whether the neighbour is habitable. */
  function SideView(s: Side, sp: Species): View
  {
    if sp == Herbivore then View(s.food, s.herbs + |s.herbStaged|, s.habitable)
    else View(s.herbMass, s.carns + |s.carnStaged|, s.habitable)
  }

  function ViewsOf(ss: seq<Side>, sp: Species): (vs: seq<View>)
    requires |ss| == 4
    ensures |vs| == 4
  {
    [SideView(ss[0], sp), SideView(ss[1], sp), SideView(ss[2], sp), SideView(ss[3], sp)]
  }

  /** What a migrating animal of species `sp` sees of the four neighbours `ns` now. */
  function Views(ns: seq<Landscape>, sp: Species): (vs: seq<View>)
    requires |ns| == 4
    reads ns`availableFood, ns`herb, ns`carn, ns`herbImmigrants, ns`carnImmigrants, ns[0].herb`weight, ns[1].herb`weight, ns[2].herb`weight, ns[3].herb`weight
    ensures |vs| == 4
  {
    ViewsOf(Sides(ns), sp)
  }

  /** A neighbour looks habitable exactly when animals can live there. */
  lemma ViewsHabitable(ns: seq<Landscape>, sp: Species)
    requires |ns| == 4
    ensures forall k :: 0 <= k < 4 ==> Views(ns, sp)[k].habitable == ns[k].AnimalsCanLiveHere()
  {
  }

  /** The side `s` once `a` is staged there as an immigrant of species `sp`. */
  function SideWith(s: Side, sp: Species, a: Animal): (t: Side)
    ensures StagedOf(t, sp) == StagedOf(s, sp) + [a]
  {
    if sp == Herbivore then s.(herbStaged := s.herbStaged + [a]) else s.(carnStaged := s.carnStaged + [a])
  }

  /** The sides `ss` once `a` is staged at neighbour `d`. */
  function Pushed(ss: seq<Side>, sp: Species, d: nat, a: Animal): (ts: seq<Side>)
    requires d < |ss|
    ensures |ts| == |ss|
  {
    ss[d := SideWith(ss[d], sp, a)]
  }

  /** Staging an animal shows at its destination as one more animal of its species and
      changes nothing an animal of the other species sees. */
  lemma PushedViews(ss: seq<Side>, sp: Species, d: nat, a: Animal)
    requires |ss| == 4 && d < 4
    ensures ViewsOf(Pushed(ss, sp, d, a), sp) == Arrived(ViewsOf(ss, sp), d)
    ensures ViewsOf(Pushed(ss, sp, d, a), Other(sp)) == ViewsOf(ss, Other(sp))
  {
    var ts := Pushed(ss, sp, d, a);
    SideWithViews(ss[d], sp, a);
    assert ViewsOf(ts, sp) == ViewsOf(ss, sp)[d := SideView(ts[d], sp)];
    assert ViewsOf(ts, Other(sp)) == ViewsOf(ss, Other(sp))[d := SideView(ts[d], Other(sp))];
  }

  lemma SideWithViews(s: Side, sp: Species, a: Animal)
    ensures var v := SideView(s, sp); SideView(SideWith(s, sp, a), sp) == View(v.fodder, v.count + 1, v.habitable)
    ensures SideView(SideWith(s, sp, a), Other(sp)) == SideView(s, Other(sp))
  {
  }

  /** `animal_moves_to`: raises unless the probabilities sum to one, and only then draws a
      value and walks the cumulative sums with it. */
  method AnimalMovesTo(probs: seq<real>, rng: Rng) returns (r: Result<nat, MoveError>)
    modifies rng`drawn
    ensures r == MoveDestination(probs, rng.UniformAt(old(rng.drawn)))
    ensures rng.drawn == old(rng.drawn) + (if Sum(probs) == 1.0 then 1 else 0)
  {
    if Sum(probs) != 1.0 {
      return Failure(NotNormalised);
    }
    var u := rng.Random();
    r := CumulativeChoice(probs, u);
  }

  /** The turn of one resident `a` in `herb_migration` or `carn_migration`: a draw against
      `prob_migration`, which caches its fitness, and, when the draw is below it, the rest of
      the turn. The result is the neighbour `a` is staged at, or -1 when it stays. */
  method MigrateOne(env: Env, sp: Species, a: Animal, ns: seq<Landscape>, rng: Rng) returns (r: Result<int, MoveError>)
    requires |ns| == 4 && Apart(ns) && a.species == sp
    modifies a`fitnessCache, rng`drawn, ns`herbImmigrants, ns`carnImmigrants
    ensures var u, pm := rng.UniformAt(old(rng.drawn)), MigrationProbability(env.ParamsOf(sp), old(a.CurrentFitness(env)));
      && r == MoveOutcome(env.exp, env.ParamsOf(sp), u, pm, old(Views(ns, sp)), rng.UniformAt(old(rng.drawn) + 1))
      && rng.drawn == old(rng.drawn) + MoveDraws(env.exp, env.ParamsOf(sp), u, pm, old(Views(ns, sp)))
    ensures a.fitnessCache == Some(old(a.CurrentFitness(env)))
    ensures Sides(ns) == if r.Success? && r.value >= 0 then Pushed(old(Sides(ns)), sp, r.value, a) else old(Sides(ns))
  {
    var u := rng.Random();
    var pm := a.ProbMigration(env);
    if !(u < pm) {
      return Success(-1);
    }
    r := Leave(env, sp, a, ns, rng);
  }

  /** The part of the turn after the draw says leave: the move probabilities over the
      neighbours, which divide by F, then `animal_moves_to` unless they are all zero, and
      the staging of `a` at the neighbour it picks. */
  method Leave(env: Env, sp: Species, a: Animal, ns: seq<Landscape>, rng: Rng) returns (r: Result<int, MoveError>)
    requires |ns| == 4 && Apart(ns)
    modifies rng`drawn, ns`herbImmigrants, ns`carnImmigrants
    ensures r == LeaveOutcome(env.exp, env.ParamsOf(sp), old(Views(ns, sp)), rng.UniformAt(old(rng.drawn)))
    ensures rng.drawn == old(rng.drawn) + LeaveDraws(env.exp, env.ParamsOf(sp), old(Views(ns, sp)))
    ensures Sides(ns) == if r.Success? && r.value >= 0 then Pushed(old(Sides(ns)), sp, r.value, a) else old(Sides(ns))
  {
    var p := env.ParamsOf(sp);
    if p.F == 0.0 {
      return Failure(DivisionByZero);
    }
    var probs := ProbMove(env.exp, p, Views(ns, sp));
    if Sum(probs) == 0.0 {
      return Success(-1);
    }
    var pos := MoveTo(sp, a, ns, probs, rng);
    r := match pos case Success(d) => Success(d as int) case Failure(e) => Failure(e);
  }

  /** `animal_moves_to` with the move probabilities `probs`, then the staging of `a` at the
      neighbour it picks. */
  method MoveTo(sp: Species, a: Animal, ns: seq<Landscape>, probs: seq<real>, rng: Rng) returns (r: Result<nat, MoveError>)
    requires |ns| == 4 && Apart(ns) && |probs| == 4
    modifies rng`drawn, ns`herbImmigrants, ns`carnImmigrants
    ensures r == MoveDestination(probs, rng.UniformAt(old(rng.drawn)))
    ensures rng.drawn == old(rng.drawn) + (if Sum(probs) == 1.0 then 1 else 0)
    ensures Sides(ns) == if r.Success? && r.value < 4 then Pushed(old(Sides(ns)), sp, r.value, a) else old(Sides(ns))
  {
    r := AnimalMovesTo(probs, rng);
    if r.Success? && r.value < 4 {
      Stage(sp, a, ns, r.value);
    }
  }

  /** `neighbours[pos].add_herb_immigrant` or `add_carn_immigrant`: `a` is staged at the
      neighbour `d` and nowhere else. */
  method Stage(sp: Species, a: Animal, ns: seq<Landscape>, d: nat)
    requires |ns| == 4 && Apart(ns) && d < 4
    modifies ns`herbImmigrants, ns`carnImmigrants
    ensures Sides(ns) == Pushed(old(Sides(ns)), sp, d, a)
  {
    ghost var ss := Sides(ns);
    StageAt(sp, a, ns, d);
    PushedAt(Sides(ns), ss, sp, d, a);
  }

  /** The staging itself, at one neighbour. */
  method StageAt(sp: Species, a: Animal, ns: seq<Landscape>, d: nat)
    requires |ns| == 4 && Apart(ns) && d < 4
    modifies ns`herbImmigrants, ns`carnImmigrants
    ensures SideOf(ns[d]) == SideWith(old(SideOf(ns[d])), sp, a)
    ensures forall k :: 0 <= k < 4 && k != d ==> SideOf(ns[k]) == old(SideOf(ns[k]))
  {
    var c := ns[d];
    c.AddImmigrant(sp, a);
  }

  /** Sides that agree with `ss` except for `a` staged at `d`. */
  lemma PushedAt(ts: seq<Side>, ss: seq<Side>, sp: Species, d: nat, a: Animal)
    requires |ts| == |ss| == 4 && d < 4
    requires ts[d] == SideWith(ss[d], sp, a) && forall k :: 0 <= k < 4 && k != d ==> ts[k] == ss[k]
    ensures ts == Pushed(ss, sp, d, a)
  {
  }

  /** The sides `ss` once each of `xs` with a tag from 0 to 3 is staged, in order, at the
      neighbour its tag names. */
  function PushAll(ss: seq<Side>, sp: Species, xs: seq<Animal>, tags: seq<int>): (ts: seq<Side>)
    requires |ss| == 4 && |xs| == |tags|
    ensures |ts| == 4
    decreases |xs|
  {
    if xs == [] then ss
    else
      var n := |xs| - 1;
      var ts := PushAll(ss, sp, xs[..n], tags[..n]);
      if 0 <= tags[n] < 4 then Pushed(ts, sp, tags[n], xs[n]) else ts
  }

  /** One more animal considered. */
  lemma PushAllStep(ss: seq<Side>, sp: Species, xs: seq<Animal>, tags: seq<int>, i: nat, o: int)
    requires |ss| == 4 && i < |xs| && |tags| == i && -1 <= o < 4
    ensures var ts := PushAll(ss, sp, xs[..i], tags);
      PushAll(ss, sp, xs[..i + 1], tags + [o]) == if o >= 0 then Pushed(ts, sp, o, xs[i]) else ts
  {
    assert xs[..i + 1][..i] == xs[..i] && (tags + [o])[..i] == tags;
  }

  /** After a pass each neighbour has, staged for `sp`, what it had and then the animals sent
      to it, in order, and what it had staged for the other species. */
  lemma {:induction false} PushAllStaged(ss: seq<Side>, sp: Species, xs: seq<Animal>, tags: seq<int>, k: nat)
    requires |ss| == 4 && |xs| == |tags| && k < 4
    ensures var t := PushAll(ss, sp, xs, tags)[k];
      && StagedOf(t, sp) == StagedOf(ss[k], sp) + Select(xs, tags, k)
      && StagedOf(t, Other(sp)) == StagedOf(ss[k], Other(sp))
    decreases |xs|
  {
    if xs == [] {
      assert Select(xs, tags, k) == [];
    } else {
      var n := |xs| - 1;
      PushAllStaged(ss, sp, xs[..n], tags[..n], k);
      PushedStaged(PushAll(ss, sp, xs[..n], tags[..n]), sp, tags[n], xs[n], k);
      SelectLast(xs, tags, k);
    }
  }

  /** Staging `a` at neighbour `d`, when `d` names one, adds `a` to what neighbour `k`
      stages for `sp` exactly when `d` is `k`. */
  lemma PushedStaged(ts: seq<Side>, sp: Species, d: int, a: Animal, k: nat)
    requires |ts| == 4 && k < 4
    ensures var t := (if 0 <= d < 4 then Pushed(ts, sp, d, a) else ts)[k];
      && StagedOf(t, sp) == StagedOf(ts[k], sp) + (if d == k then [a] else [])
      && StagedOf(t, Other(sp)) == StagedOf(ts[k], Other(sp))
  {
    if d == k {
      assert StagedOf(ts[k], sp) + [a] == StagedOf(SideWith(ts[k], sp, a), sp);
    }
  }

  /** A pass deals the animals it sends to the lists staged for their species, and leaves
      the lists staged for the other species alone. */
  lemma PushAllStages(ss: seq<Side>, sp: Species, xs: seq<Animal>, tags: seq<int>)
    requires |ss| == 4 && |xs| == |tags|
    ensures StagesOf(PushAll(ss, sp, xs, tags), sp) == Dealt(StagesOf(ss, sp), xs, tags)
    ensures StagesOf(PushAll(ss, sp, xs, tags), Other(sp)) == StagesOf(ss, Other(sp))
  {
    PushAllStaged(ss, sp, xs, tags, 0);
    PushAllStaged(ss, sp, xs, tags, 1);
    PushAllStaged(ss, sp, xs, tags, 2);
    PushAllStaged(ss, sp, xs, tags, 3);
  }

  /** The loop of `herb_migration` or `carn_migration` over the residents `res` of species
      `sp`: each takes its turn in order, those that stay are collected in `remaining`, and
      the others are staged at the neighbours `ns`. An error ends the loop at once. `s` is
      the pass as the model of one turn after another describes it. */
  method Wander(env: Env, sp: Species, res: seq<Animal>, ns: seq<Landscape>, rng: Rng,
                ghost fits: seq<real>, ghost s0: Roam, ghost ss0: seq<Side>, ghost c0: seq<Option<real>>)
    returns (r: Result<(), MoveError>, remaining: seq<Animal>, ghost s: Roam)
    requires |ns| == 4 && Apart(ns) && NoRepeats(multiset(res)) && forall a :: a in res ==> a.species == sp
    requires fits == Fitnesses(env, res) && s0 == Start(rng.drawn, Views(ns, sp)) && ss0 == Sides(ns) && c0 == Caches(res)
    modifies res`fitnessCache, rng`drawn, ns`herbImmigrants, ns`carnImmigrants
    ensures s == Roamed(env.exp, env.ParamsOf(sp), rng, fits, s0, |res|)
    ensures rng.drawn == s.drawn && (r.Failure? <==> s.error.Some?) && (r.Failure? ==> r.error == s.error.value)
    ensures r.Success? ==> |s.dest| == |res| && remaining == Select(res, s.dest, -1)
    ensures |s.dest| <= |res| && (forall j :: 0 <= j < |s.dest| ==> -1 <= s.dest[j] < 4)
    ensures Sides(ns) == PushAll(ss0, sp, res[..|s.dest|], s.dest)
    ensures Caches(res) == Spliced(Cached(fits), c0, |s.dest| + if r.Failure? then 1 else 0)
  {
    ghost var p := env.ParamsOf(sp);
    ghost var states;
    states := RoamTrace(env.exp, p, rng, fits, s0);
    FitnessesAt(env, res);
    ghost var n;
    r, remaining, n := WanderLoop(env, sp, res, ns, rng, fits, s0, ss0, c0, states);
    if r.Failure? {
      RoamedAfterFailure(env.exp, p, rng, fits, s0, n, |res|);
    }
    s := states[|res|];
    RoamedShape(env.exp, p, rng, fits, s0, |res|);
  }

  /** A cell is none of the animals `xs`: a pass over them leaves the cell's own fields alone. */
  lemma CellNotAnimal(c: Landscape, xs: seq<Animal>)
    ensures var os: seq<object> := xs; (c as object) !in os
  {
  }

  /** The loop of `Wander`, along the trace `states` of the pass. `n` is the number of
      residents that took their turn. */
  method WanderLoop(env: Env, sp: Species, res: seq<Animal>, ns: seq<Landscape>, rng: Rng,
                    ghost fits: seq<real>, ghost s0: Roam, ghost ss0: seq<Side>, ghost c0: seq<Option<real>>,
                    ghost states: seq<Roam>)
    returns (r: Result<(), MoveError>, remaining: seq<Animal>, ghost n: nat)
    requires |ns| == 4 && Apart(ns) && NoRepeats(multiset(res)) && forall a :: a in res ==> a.species == sp
    requires |fits| == |res| && |ss0| == 4 && IsRoamTrace(env.exp, env.ParamsOf(sp), rng, fits, s0, states)
    requires states[0] == s0 == Start(rng.drawn, Views(ns, sp)) && Sides(ns) == ss0 && Caches(res) == c0
    requires forall j :: 0 <= j < |res| ==> res[j].CurrentFitness(env) == fits[j]
    modifies res`fitnessCache, rng`drawn, ns`herbImmigrants, ns`carnImmigrants
    ensures Halted(sp, res, ns, rng, fits, ss0, c0, states, r, remaining, n) == true
  {
    remaining := [];
    var i := 0;
    WanderStart(env, sp, res, ns, rng, fits, s0, ss0, c0, states);
    while i < |res|
      invariant Wandering(env, sp, res, ns, rng, fits, ss0, c0, states, remaining, i) == true
    {
      var o: Result<int, MoveError>;
      o, remaining := WanderStep(env, sp, res, res[i], ns, rng, i, remaining, fits, s0, ss0, c0, states);
      if o.Failure? {
        r, n := Failure(o.error), i + 1;
        WanderFailed(sp, res, ns, rng, fits, ss0, c0, states, o.error, remaining, i);
        return;
      }
      i := i + 1;
    }
    WanderEnd(env, sp, res, ns, rng, fits, ss0, c0, states, remaining);
    r, n := Success(()), i;
  }

  /** A turn `i` that failed with `e` ends the loop of `Wander`. */
  lemma WanderFailed(sp: Species, res: seq<Animal>, ns: seq<Landscape>, rng: Rng, fits: seq<real>,
                     ss0: seq<Side>, c0: seq<Option<real>>, states: seq<Roam>, e: MoveError,
                     remaining: seq<Animal>, i: nat)
    requires |ns| == 4 && |ss0| == 4 && i < |res| == |fits| == |c0| && |states| == |res| + 1
    requires rng.drawn == states[i + 1].drawn && states[i + 1].error == Some(e) && |states[i + 1].dest| == i
    requires Sides(ns) == PushAll(ss0, sp, res[..|states[i + 1].dest|], states[i + 1].dest)
    requires Caches(res) == Spliced(Cached(fits), c0, i + 1)
    ensures Halted(sp, res, ns, rng, fits, ss0, c0, states, Failure(e), remaining, i + 1)
  {
  }

  /** How the loop of `Wander` ends after `n` turns with outcome `r`: the stream has moved on
      as the trace says, the animals that moved are staged, those that took their turn have
      their fitness cached, and on success the pass is complete and `remaining` holds those
      that stayed, while on failure the last turn's error is `r`'s. */
  ghost predicate Halted(sp: Species, res: seq<Animal>, ns: seq<Landscape>, rng: Rng, fits: seq<real>,
                         ss0: seq<Side>, c0: seq<Option<real>>, states: seq<Roam>,
                         r: Result<(), MoveError>, remaining: seq<Animal>, n: nat)
    requires |ns| == 4
    reads ns`availableFood, ns`herb, ns`carn, ns`herbImmigrants, ns`carnImmigrants, ns[0].herb`weight, ns[1].herb`weight, ns[2].herb`weight, ns[3].herb`weight, rng
    reads res`fitnessCache
  {
    && n <= |res| == |fits| == |c0| && |ss0| == 4 && n < |states| && rng.drawn == states[n].drawn
    && |states[n].dest| == (if r.Failure? then n - 1 else n)
    && Sides(ns) == PushAll(ss0, sp, res[..|states[n].dest|], states[n].dest)
    && (r.Success? ==> n == |res| && states[n].error.None? && remaining == Select(res, states[n].dest, -1))
    && (r.Failure? ==> states[n].error == Some(r.error))
    && Caches(res) == Spliced(Cached(fits), c0, n)
  }

  /** Before the first turn of `Wander`, the invariant of its loop holds. */
  lemma WanderStart(env: Env, sp: Species, res: seq<Animal>, ns: seq<Landscape>, rng: Rng,
                    fits: seq<real>, s0: Roam, ss0: seq<Side>, c0: seq<Option<real>>, states: seq<Roam>)
    requires |ns| == 4 && |fits| == |res| && |ss0| == 4 && IsRoamTrace(env.exp, env.ParamsOf(sp), rng, fits, s0, states)
    requires states[0] == s0 == Start(rng.drawn, Views(ns, sp)) && Sides(ns) == ss0 && Caches(res) == c0
    requires forall j :: 0 <= j < |res| ==> res[j].CurrentFitness(env) == fits[j]
    ensures Wandering(env, sp, res, ns, rng, fits, ss0, c0, states, [], 0)
  {
    SplicedEnds(Cached(fits), c0);
  }

  /** After the last turn of `Wander`, the invariant of its loop says how the pass ended. */
  lemma WanderEnd(env: Env, sp: Species, res: seq<Animal>, ns: seq<Landscape>, rng: Rng, fits: seq<real>,
                  ss0: seq<Side>, c0: seq<Option<real>>, states: seq<Roam>, remaining: seq<Animal>)
    requires |ns| == 4 && Wandering(env, sp, res, ns, rng, fits, ss0, c0, states, remaining, |res|)
    ensures Halted(sp, res, ns, rng, fits, ss0, c0, states, Success(()), remaining, |res|)
  {
    assert res[..|res|] == res;
  }

  /** The invariant of the loop of `Wander` after `i` residents: the pass has not failed,
      those that stayed are `remaining`, and the neighbours have the others staged. */
  ghost predicate Walked(sp: Species, res: seq<Animal>, ns: seq<Landscape>, rng: Rng, ss0: seq<Side>,
                         states: seq<Roam>, remaining: seq<Animal>, i: nat)
    requires |ns| == 4
    reads ns`availableFood, ns`herb, ns`carn, ns`herbImmigrants, ns`carnImmigrants, ns[0].herb`weight, ns[1].herb`weight, ns[2].herb`weight, ns[3].herb`weight, rng
  {
    WalkedOver(Sides(ns), rng.drawn, sp, res, ss0, states, remaining, i)
  }

  /** `Walked` for the neighbours seen as the sides `ss` and the stream at `drawn`. */
  ghost predicate WalkedOver(ss: seq<Side>, drawn: nat, sp: Species, res: seq<Animal>, ss0: seq<Side>,
                             states: seq<Roam>, remaining: seq<Animal>, i: nat)
  {
    && i <= |res| && |ss0| == 4 && i < |states|
    && states[i].error.None? && |states[i].dest| == i && |states[i].views| == 4
    && drawn == states[i].drawn && remaining == Select(res[..i], states[i].dest, -1)
    && ss == PushAll(ss0, sp, res[..i], states[i].dest)
    && ViewsOf(PushAll(ss0, sp, res[..i], states[i].dest), sp) == states[i].views
  }

  /** One successful turn, staging `res[i]` at `o` unless it stays, walks one step further. */
  lemma WalkedNext(sb: seq<Side>, sa: seq<Side>, drawn: nat, sp: Species, res: seq<Animal>, ss0: seq<Side>,
                   states: seq<Roam>, remaining: seq<Animal>, i: nat, o: int)
    requires i < |res| && i + 1 < |states| && WalkedOver(sb, states[i].drawn, sp, res, ss0, states, remaining, i)
    requires -1 <= o < 4 && |sb| == 4 && sa == (if o >= 0 then Pushed(sb, sp, o, res[i]) else sb)
    requires states[i + 1].dest == states[i].dest + [o] && states[i + 1].error.None?
    requires |states[i + 1].views| == 4 && ViewsOf(sa, sp) == states[i + 1].views && drawn == states[i + 1].drawn
    ensures WalkedOver(sa, drawn, sp, res, ss0, states, remaining + (if o == -1 then [res[i]] else []), i + 1)
  {
    PushAllStep(ss0, sp, res, states[i].dest, i, o);
    SelectPrefixStep(res, states[i].dest, i, o, -1);
  }

  /** The invariant of the loop of `Wander` after `i` residents, with the fitness caches of
      those that took their turn filled in and those of the rest as they were. */
  ghost predicate Wandering(env: Env, sp: Species, res: seq<Animal>, ns: seq<Landscape>, rng: Rng, fits: seq<real>,
                            ss0: seq<Side>, c0: seq<Option<real>>, states: seq<Roam>, remaining: seq<Animal>, i: nat)
    requires |ns| == 4
    reads ns`availableFood, ns`herb, ns`carn, ns`herbImmigrants, ns`carnImmigrants, ns[0].herb`weight, ns[1].herb`weight, ns[2].herb`weight, ns[3].herb`weight, rng
    reads res`weight, res`age, res`fitnessCache
  {
    && Walked(sp, res, ns, rng, ss0, states, remaining, i)
    && |res| == |fits| == |c0| && Caches(res) == Spliced(Cached(fits), c0, i)
    && forall j :: i <= j < |res| ==> res[j].CurrentFitness(env) == fits[j]
  }

  /** The body of the loop of `Wander` for the resident `res[i]`. */
  method WanderStep(env: Env, sp: Species, res: seq<Animal>, a: Animal, ns: seq<Landscape>, rng: Rng, i: nat,
                    remaining: seq<Animal>, ghost fits: seq<real>, ghost s0: Roam, ghost ss0: seq<Side>,
                    ghost c0: seq<Option<real>>, ghost states: seq<Roam>)
    returns (o: Result<int, MoveError>, remaining': seq<Animal>)
    requires |ns| == 4 && Apart(ns) && NoRepeats(multiset(res)) && forall a :: a in res ==> a.species == sp
    requires i < |res| == |fits| == |c0| && |ss0| == 4 && IsRoamTrace(env.exp, env.ParamsOf(sp), rng, fits, s0, states)
    requires Wandering(env, sp, res, ns, rng, fits, ss0, c0, states, remaining, i)
    requires a == res[i]
    modifies a`fitnessCache, rng`drawn, ns`herbImmigrants, ns`carnImmigrants
    ensures o.Failure? ==>
      && rng.drawn == states[i + 1].drawn && states[i + 1].error == Some(o.error) && |states[i + 1].dest| == i
      && Sides(ns) == PushAll(ss0, sp, res[..|states[i + 1].dest|], states[i + 1].dest)
      && Caches(res) == Spliced(Cached(fits), c0, i + 1)
    ensures o.Success? ==> Wandering(env, sp, res, ns, rng, fits, ss0, c0, states, remaining', i + 1)
  {
    NoRepeatsAt(res, i);
    ghost var c := Caches(res);
    o, remaining' := WanderWalk(env, sp, res, a, ns, rng, i, remaining, fits, s0, ss0, states);
    assert forall j :: 0 <= j < |res| ==> Caches(res)[j] == c[i := Some(fits[i])][j];
    SplicedStep(Cached(fits), c0, i);
  }

  /** The turn of `WanderStep` and what it does to the invariant of the loop. */
  method WanderWalk(env: Env, sp: Species, res: seq<Animal>, a: Animal, ns: seq<Landscape>, rng: Rng, i: nat,
                    remaining: seq<Animal>, ghost fits: seq<real>, ghost s0: Roam, ghost ss0: seq<Side>,
                    ghost states: seq<Roam>)
    returns (o: Result<int, MoveError>, remaining': seq<Animal>)
    requires |ns| == 4 && Apart(ns) && i < |res| == |fits| && a == res[i] && a.species == sp
    requires IsRoamTrace(env.exp, env.ParamsOf(sp), rng, fits, s0, states)
    requires Walked(sp, res, ns, rng, ss0, states, remaining, i) && a.CurrentFitness(env) == fits[i]
    modifies a`fitnessCache, rng`drawn, ns`herbImmigrants, ns`carnImmigrants
    ensures a.fitnessCache == Some(fits[i])
    ensures o.Failure? ==>
      && rng.drawn == states[i + 1].drawn && states[i + 1].error == Some(o.error) && |states[i + 1].dest| == i
      && Sides(ns) == PushAll(ss0, sp, res[..|states[i + 1].dest|], states[i + 1].dest)
    ensures o.Success? ==> Walked(sp, res, ns, rng, ss0, states, remaining', i + 1)
  {
    ghost var sb := Sides(ns);
    o := WanderTurn(env, sp, a, ns, rng, fits, s0, states, i);
    remaining' := remaining;
    if o.Success? {
      WalkedNext(sb, Sides(ns), rng.drawn, sp, res, ss0, states, remaining, i, o.value);
      if o.value == -1 {
        remaining' := remaining + [a];
      }
    }
  }

  /** One turn of the loop of `Wander`: the animal `a` of fitness `fits[i]` moves as the
      trace's next state says. */
  method WanderTurn(env: Env, sp: Species, a: Animal, ns: seq<Landscape>, rng: Rng, ghost fits: seq<real>,
                    ghost s0: Roam, ghost states: seq<Roam>, ghost i: nat)
    returns (o: Result<int, MoveError>)
    requires |ns| == 4 && Apart(ns) && a.species == sp && i < |fits| && a.CurrentFitness(env) == fits[i]
    requires IsRoamTrace(env.exp, env.ParamsOf(sp), rng, fits, s0, states)
    requires states[i].error.None? && |states[i].views| == 4
    requires Views(ns, sp) == states[i].views && rng.drawn == states[i].drawn
    modifies a`fitnessCache, rng`drawn, ns`herbImmigrants, ns`carnImmigrants
    ensures a.fitnessCache == Some(fits[i]) && rng.drawn == states[i + 1].drawn
    ensures o.Failure? <==> states[i + 1].error.Some?
    ensures o.Failure? ==> states[i + 1].error == Some(o.error) && states[i + 1].dest == states[i].dest
    ensures o.Success? ==>
      && -1 <= o.value < 4 && states[i + 1].dest == states[i].dest + [o.value] && |states[i + 1].views| == 4
      && Views(ns, sp) == states[i + 1].views && states[i + 1].error.None?
    ensures Sides(ns) == if o.Success? && o.value >= 0 then Pushed(old(Sides(ns)), sp, o.value, a) else old(Sides(ns))
  {
    ghost var p := env.ParamsOf(sp);
    ghost var before := states[i];
    ghost var ssb := Sides(ns);
    RoamTraceStep(env.exp, p, rng, fits, s0, states, i);
    o := MigrateOne(env, sp, a, ns, rng);
    MoveOutcomeRange(env.exp, p, rng.UniformAt(before.drawn), MigrationProbability(p, fits[i]), before.views,
                     rng.UniformAt(before.drawn + 1));
    if o.Success? && o.value >= 0 {
      PushedViews(ssb, sp, o.value, a);
    }
  }

  /** Two duplicate-free lists with no animal in common make a duplicate-free list. */
  lemma DistinctConcat(xs: seq<Animal>, ys: seq<Animal>)
    requires Distinct(xs) && Distinct(ys)
    requires forall i, j :: 0 <= i < |xs| && 0 <= j < |ys| ==> xs[i] != ys[j]
    ensures Distinct(xs + ys)
  {
    forall i, j | 0 <= i < j < |xs + ys|
      ensures (xs + ys)[i] != (xs + ys)[j]
    {
      if j < |xs| {
      } else if i < |xs| {
        assert (xs + ys)[j] == ys[j - |xs|];
      } else {
        assert (xs + ys)[i] == ys[i - |xs|] && (xs + ys)[j] == ys[j - |xs|];
      }
    }
  }

  /** `for animal in ...: animal.aging()` over the duplicate-free list `xs`: each animal is a
      year older and has forgotten its fitness. */
  method AgeAll(xs: seq<Animal>)
    requires Distinct(xs)
    modifies xs`age, xs`fitnessCache
    ensures forall j :: 0 <= j < |xs| ==> xs[j].age == old(xs[j].age) + 1 && xs[j].fitnessCache == None
  {
    for i := 0 to |xs|
      invariant forall j :: 0 <= j < i ==> xs[j].age == old(xs[j].age) + 1 && xs[j].fitnessCache == None
      invariant forall j :: i <= j < |xs| ==> xs[j].age == old(xs[j].age)
    {
      xs[i].Aging();
    }
  }

  /** `for animal in ...: animal.weight_change()` over the duplicate-free list `xs`: each
      animal loses the fraction eta of its species of its weight and forgets its fitness. */
  method LoseWeightAll(env: Env, xs: seq<Animal>)
    requires Distinct(xs)
    modifies xs`weight, xs`fitnessCache
    ensures forall j :: 0 <= j < |xs| ==>
              xs[j].weight == WeightAfterLoss(env.ParamsOf(xs[j].species).eta, old(xs[j].weight)) && xs[j].fitnessCache == None
  {
    for i := 0 to |xs|
      invariant forall j :: 0 <= j < i ==>
                  xs[j].weight == WeightAfterLoss(env.ParamsOf(xs[j].species).eta, old(xs[j].weight)) && xs[j].fitnessCache == None
      invariant forall j :: i <= j < |xs| ==> xs[j].weight == old(xs[j].weight)
    {
      xs[i].WeightChange(env);
    }
  }

  /** Which of the animals `xs`, of fitness `fits`, survive a death pass whose draws start at
      position `d0` of the uniform stream: the `j`-th dies when its draw falls below its death
      probability. */
  function Spared(env: Env, xs: seq<Animal>, fits: seq<real>, rng: Rng, d0: nat): (keep: seq<bool>)
    requires |fits| == |xs|
    ensures |keep| == |xs|
    ensures forall j :: 0 <= j < |xs| ==>
              keep[j] == (rng.UniformAt(d0 + j) >= DeathProbability(env.ParamsOf(xs[j].species), fits[j]))
  {
    seq(|xs|, j requires 0 <= j < |xs| => rng.UniformAt(d0 + j) >= DeathProbability(env.ParamsOf(xs[j].species), fits[j]))
  }

  /** The animals of `xs`, in order, that survive that death pass. */
  function Survivors(env: Env, xs: seq<Animal>, fits: seq<real>, rng: Rng, d0: nat): (r: seq<Animal>)
    requires |fits| == |xs|
    ensures multiset(r) <= multiset(xs)
  {
    FilterMultiset(xs, Spared(env, xs, fits, rng, d0));
    Filter(xs, Spared(env, xs, fits, rng, d0))
  }

  /** `[a for a in xs if not a.death()]` over the duplicate-free list `xs`: one draw per
      animal, in order; the survivors keep their order, and every animal has its fitness
      cached. */
  method Cull(env: Env, xs: seq<Animal>, rng: Rng, ghost fits: seq<real>, ghost d0: nat) returns (survivors: seq<Animal>)
    requires NoRepeats(multiset(xs)) && fits == Fitnesses(env, xs) && rng.drawn == d0
    modifies xs`fitnessCache, rng`drawn
    ensures survivors == Survivors(env, xs, fits, rng, d0)
    ensures rng.drawn == d0 + |xs|
    ensures Caches(xs) == Cached(fits)
  {
    ghost var keep := Spared(env, xs, fits, rng, d0);
    ghost var c0 := Caches(xs);
    FitnessesAt(env, xs);
    NoRepeatsDistinct(xs);
    SplicedEnds(Cached(fits), c0);
    survivors := [];
    for i := 0 to |xs|
      invariant rng.drawn == d0 + i
      invariant survivors == Filter(xs[..i], keep[..i])
      invariant Caches(xs) == Spliced(Cached(fits), c0, i)
      invariant forall j :: i <= j < |xs| ==> xs[j].CurrentFitness(env) == fits[j]
    {
      survivors := CullStep(env, xs, xs[i], rng, fits, keep, c0, d0, survivors, i);
    }
    assert xs[..|xs|] == xs && keep[..|xs|] == keep;
    SplicedEnds(Cached(fits), c0);
  }

  /** One animal of `Cull`: the `i`-th draws for its death and joins the survivors unless
      it dies. */
  method CullStep(env: Env, xs: seq<Animal>, a: Animal, rng: Rng, ghost fits: seq<real>, ghost keep: seq<bool>,
                  ghost c0: seq<Option<real>>, ghost d0: nat, survivors: seq<Animal>, i: nat)
    returns (survivors': seq<Animal>)
    requires Distinct(xs) && i < |xs| == |fits| && |c0| == |xs| && a == xs[i] && rng.drawn == d0 + i
    requires forall j :: i <= j < |xs| ==> xs[j].CurrentFitness(env) == fits[j]
    requires keep == Spared(env, xs, fits, rng, d0)
    requires survivors == Filter(xs[..i], keep[..i]) && Caches(xs) == Spliced(Cached(fits), c0, i)
    modifies a`fitnessCache, rng`drawn
    ensures rng.drawn == old(rng.drawn) + 1
    ensures survivors' == Filter(xs[..i + 1], keep[..i + 1]) && Caches(xs) == Spliced(Cached(fits), c0, i + 1)
    ensures forall j :: i < j < |xs| ==> xs[j].CurrentFitness(env) == fits[j]
  {
    ghost var c := Caches(xs);
    var dies := CullTurn(env, xs, a, rng, fits, keep, d0, i);
    assert forall j :: 0 <= j < |xs| ==> Caches(xs)[j] == c[i := Some(fits[i])][j];
    SplicedStep(Cached(fits), c0, i);
    FilterTakeStep(xs, keep, i);
    survivors' := survivors;
    if !dies {
      survivors' := survivors + [a];
    }
  }

  /** The death draw of `xs[i]` in the loop of `animal_death`: it dies exactly when the
      death pass says so. */
  method CullTurn(env: Env, xs: seq<Animal>, a: Animal, rng: Rng, ghost fits: seq<real>, ghost keep: seq<bool>,
                  ghost d0: nat, ghost i: nat)
    returns (dies: bool)
    requires i < |xs| == |fits| && a == xs[i] && rng.drawn == d0 + i && a.CurrentFitness(env) == fits[i]
    requires keep == Spared(env, xs, fits, rng, d0)
    modifies a`fitnessCache, rng`drawn
    ensures dies == !keep[i] && rng.drawn == old(rng.drawn) + 1 && a.fitnessCache == Some(fits[i])
  {
    dies := a.Death(env, rng);
  }

  /** One entry of the `pop` list of `add_population`: `species`, `age` and `weight`. */
  datatype AnimalRecord = AnimalRecord(species: string, age: real, weight: real)

  /** What `add_population` raises on one record: the species is checked first, then the
      `Herbivore` or `Carnivore` constructor checks the weight and the age. */
  function RecordError(rec: AnimalRecord): (e: Option<CellError>)
    ensures e.None? <==> SpeciesNamed(rec.species).Some? && CheckNewAnimal(rec.weight, rec.age).None?
    ensures SpeciesNamed(rec.species).None? ==> e == Some(InvalidSpecies)
  {
    if SpeciesNamed(rec.species).None? then Some(InvalidSpecies)
    else match CheckNewAnimal(rec.weight, rec.age)
      case Some(err) => Some(RejectedAnimal(err))
      case None => None
  }

  /** How many records, from the front, `add_population` gets through before one raises. */
  function Admitted(pop: seq<AnimalRecord>): (n: nat)
    ensures n <= |pop|
  {
    if pop == [] || RecordError(pop[0]).Some? then 0 else 1 + Admitted(pop[1..])
  }

  /** `add_population` gets through exactly the records before the first that raises:
      every record it admits is valid, and the one it stops at, if any, is not. */
  lemma {:induction false} AdmittedFacts(pop: seq<AnimalRecord>)
    ensures forall k :: 0 <= k < Admitted(pop) ==> RecordError(pop[k]).None?
    ensures Admitted(pop) < |pop| ==> RecordError(pop[Admitted(pop)]).Some?
  {
    if pop != [] && RecordError(pop[0]).None? {
      AdmittedFacts(pop[1..]);
      assert forall k :: 1 <= k < Admitted(pop) ==> pop[k] == pop[1..][k - 1];
    }
  }

  /** The records of `pop` naming species `sp`, in order. */
  function RecordsOf(pop: seq<AnimalRecord>, sp: Species): (r: seq<AnimalRecord>)
    ensures |r| <= |pop|
  {
    if pop == [] then []
    else RecordsOf(pop[..|pop| - 1], sp) + if SpeciesNamed(pop[|pop| - 1].species) == Some(sp) then [pop[|pop| - 1]] else []
  }

  /** An animal that matches the next record extends a description by one. */
  lemma DescribesGrown(xs: seq<Animal>, recs: seq<AnimalRecord>, a: Animal, rec: AnimalRecord)
    requires Describes(xs, recs) && Matches(a, rec)
    ensures Describes(xs + [a], recs + [rec])
  {
  }

  lemma RecordsOfStep(pop: seq<AnimalRecord>, i: nat, sp: Species)
    requires i < |pop|
    ensures RecordsOf(pop[..i + 1], sp) == RecordsOf(pop[..i], sp) + if SpeciesNamed(pop[i].species) == Some(sp) then [pop[i]] else []
  {
    assert pop[..i + 1][..i] == pop[..i];
  }

  /** An animal is the one a record describes: its species, weight and age. */
  ghost predicate Matches(a: Animal, rec: AnimalRecord)
    reads a
  {
    SpeciesNamed(rec.species) == Some(a.species) && a.weight == rec.weight && a.age as real == rec.age
  }

  /** The animals `xs` are those the records `recs` describe, one for one and in order. */
  ghost predicate Describes(xs: seq<Animal>, recs: seq<AnimalRecord>)
    reads xs
  {
    |xs| == |recs| && forall k :: 0 <= k < |xs| ==> Matches(xs[k], recs[k])
  }

  /** After the first `i` records of `pop`, the new herbivores and carnivores are the
      ones those records describe, species by species. */
  ghost predicate Placed(pop: seq<AnimalRecord>, i: nat, herbAdded: seq<Animal>, carnAdded: seq<Animal>)
    requires i <= |pop|
    reads herbAdded, carnAdded
  {
    Describes(herbAdded, RecordsOf(pop[..i], Herbivore)) && Describes(carnAdded, RecordsOf(pop[..i], Carnivore))
  }

  /** Every admitted record yields exactly one animal: after `n` admitted records the
      cell has gained `n` animals in all. */
  lemma PlacedCount(pop: seq<AnimalRecord>, n: nat, herbAdded: seq<Animal>, carnAdded: seq<Animal>)
    requires n <= Admitted(pop) && Placed(pop, n, herbAdded, carnAdded)
    ensures |herbAdded| + |carnAdded| == n
  {
    AdmittedFacts(pop);
    RecordsOfCount(pop, n);
  }

  lemma {:induction false} RecordsOfCount(pop: seq<AnimalRecord>, n: nat)
    requires n <= |pop| && forall k :: 0 <= k < n ==> RecordError(pop[k]).None?
    ensures |RecordsOf(pop[..n], Herbivore)| + |RecordsOf(pop[..n], Carnivore)| == n
  {
    if n > 0 {
      RecordsOfCount(pop, n - 1);
      RecordsOfStep(pop, n - 1, Herbivore);
      RecordsOfStep(pop, n - 1, Carnivore);
    }
  }

  /** Placing the animal that record `i` describes extends the placement by one record. */
  lemma PlacedStep(pop: seq<AnimalRecord>, i: nat, herbAdded: seq<Animal>, carnAdded: seq<Animal>, a: Animal)
    requires i < |pop| && Placed(pop, i, herbAdded, carnAdded) && Matches(a, pop[i])
    ensures a.species == Herbivore ==> Placed(pop, i + 1, herbAdded + [a], carnAdded)
    ensures a.species == Carnivore ==> Placed(pop, i + 1, herbAdded, carnAdded + [a])
  {
    RecordsOfStep(pop, i, Herbivore);
    RecordsOfStep(pop, i, Carnivore);
    if a.species == Herbivore {
      DescribesGrown(herbAdded, RecordsOf(pop[..i], Herbivore), a, pop[i]);
    } else {
      DescribesGrown(carnAdded, RecordsOf(pop[..i], Carnivore), a, pop[i]);
    }
  }

  /** The loop of `add_population` without its effect on the cell: the animals built from
      the records of `pop` that come before the first that raises, each species in order,
      and how many records that is. */
  method Recruit(pop: seq<AnimalRecord>) returns (n: nat, herbs: seq<Animal>, carns: seq<Animal>)
    ensures n == Admitted(pop) && Placed(pop, n, herbs, carns)
    ensures n < |pop| ==> RecordError(pop[n]).Some?
    ensures (forall a :: a in herbs ==> fresh(a) && a.fitnessCache == None && a.species == Herbivore)
    ensures forall a :: a in carns ==> fresh(a) && a.fitnessCache == None && a.species == Carnivore
    ensures NoRepeats(multiset(herbs)) && NoRepeats(multiset(carns))
  {
    herbs, carns := [], [];
    n := 0;
    assert pop[..0] == [];
    while n < |pop| && RecordError(pop[n]).None?
      invariant n <= Admitted(pop) && Placed(pop, n, herbs, carns)
      invariant (forall a :: a in herbs ==> fresh(a) && a.fitnessCache == None && a.species == Herbivore)
      invariant forall a :: a in carns ==> fresh(a) && a.fitnessCache == None && a.species == Carnivore
      invariant NoRepeats(multiset(herbs)) && NoRepeats(multiset(carns))
    {
      assert n < Admitted(pop) by { AdmittedFacts(pop); }
      var rec := pop[n];
      var a := new Animal(SpeciesNamed(rec.species).value, rec.weight, rec.age.Floor as nat);
      PlacedStep(pop, n, herbs, carns, a);
      if a.species == Herbivore {
        NoRepeatsSnoc(herbs, a);
        herbs := herbs + [a];
      } else {
        NoRepeatsSnoc(carns, a);
        carns := carns + [a];
      }
      n := n + 1;
    }
    assert Admitted(pop) == n by { AdmittedFacts(pop); }
  }

  class Landscape {
    const kind: Kind
    /** `loc`, the cell's coordinates on the island. */
    const loc: (int, int)
    var herb: seq<Animal>
    var carn: seq<Animal>
    var herbImmigrants: seq<Animal>
    var carnImmigrants: seq<Animal>
    /** `available_food`. */
    var availableFood: real

    /** Each list holds animals of its own species, and no animal appears twice among the
        residents and the staged immigrants of a species. */
    ghost predicate Valid()
      reads this`herb, this`carn, this`herbImmigrants, this`carnImmigrants
    {
      ValidLists(herb, herbImmigrants, carn, carnImmigrants)
    }

    /** The subclass constructors: empty lists, and fmax of their own kind as fodder in a
        Jungle or a Savannah, none elsewhere. */
    constructor (kind: Kind, loc: (int, int), cp: CellParams)
      ensures this.kind == kind && this.loc == loc
      ensures herb == [] && carn == [] && herbImmigrants == [] && carnImmigrants == []
      ensures availableFood == InitialFood(kind, cp)
      ensures Valid()
    {
      this.kind := kind;
      this.loc := loc;
      herb := [];
      carn := [];
      herbImmigrants := [];
      carnImmigrants := [];
      availableFood := InitialFood(kind, cp);
    }

    function Residents(sp: Species): seq<Animal>
      reads this`herb, this`carn
    {
      if sp == Herbivore then herb else carn
    }

    function Staged(sp: Species): seq<Animal>
      reads this`herbImmigrants, this`carnImmigrants
    {
      if sp == Herbivore then herbImmigrants else carnImmigrants
    }

    /** The animals of one species `total_num_animals` counts: residents and staged immigrants. */
    function Count(sp: Species): nat
      reads this`herb, this`carn, this`herbImmigrants, this`carnImmigrants
    {
      |Residents(sp)| + |Staged(sp)|
    }

    /** `total_num_animals`: residents plus staged immigrants of the named species; any other
        name raises. */
    function TotalNumAnimals(name: string): (r: Result<nat, CellError>)
      reads this`herb, this`carn, this`herbImmigrants, this`carnImmigrants
      ensures r.Failure? <==> name !in {"Herbivore", "herbivore", "Carnivore", "carnivore"}
      ensures r.Failure? ==> r.error == UnknownSpecies
      ensures name in {"Herbivore", "herbivore"} ==> r == Success(|herb| + |herbImmigrants|)
      ensures name in {"Carnivore", "carnivore"} ==> r == Success(|carn| + |carnImmigrants|)
    {
      match SpeciesNamed(name)
      case Some(sp) => Success(Count(sp))
      case None => Failure(UnknownSpecies)
    }

    /** `animals_can_live_here`: false exactly for a Mountain and an Ocean. */
    predicate AnimalsCanLiveHere()
    {
      Habitable(kind)
    }

    /** `get_available_fodder`: the fodder for a herbivore, the resident herbivores' total
        weight for a carnivore; any other name raises. */
    function AvailableFodder(name: string): (r: Result<real, CellError>)
      reads this`herb, this`availableFood, herb`weight
      ensures r.Failure? <==> SpeciesNamed(name).None?
      ensures SpeciesNamed(name) == Some(Herbivore) ==> r == Success(availableFood)
      ensures SpeciesNamed(name) == Some(Carnivore) ==> r == Success(Sum(Weights(herb)))
    {
      match SpeciesNamed(name)
      case Some(sp) => Success(Fodder(sp))
      case None => Failure(UnknownSpecies)
    }

    function Fodder(sp: Species): real
      reads this`herb, this`availableFood, herb`weight
    {
      if sp == Herbivore then availableFood else Sum(Weights(herb))
    }

    /** What a migrating animal of species `sp` sees of this cell when it is a neighbour. */
    function ViewFor(sp: Species): (v: View)
      reads this`herb, this`carn, this`herbImmigrants, this`carnImmigrants, this`availableFood, herb`weight
      ensures v.habitable == AnimalsCanLiveHere() && v.count == Count(sp) && v.fodder == Fodder(sp)
    {
      View(Fodder(sp), Count(sp), AnimalsCanLiveHere())
    }

    /** The fodder a carnivore sees is never negative while the herbivores' weights are not. */
    lemma CarnivoreFodderNonNegative()
      requires forall j :: 0 <= j < |herb| ==> herb[j].weight >= 0.0
      ensures Fodder(Carnivore) >= 0.0
    {
      SumNonNegative(Weights(herb));
    }

    /** `food_growth` of the cell's kind. */
    method FoodGrowth(cp: CellParams)
      modifies this`availableFood
      ensures availableFood == CellRules.FoodGrowth(kind, cp, old(availableFood))
    {
      match kind
      case Jungle => availableFood := cp.jungleFmax;
      case Savannah =>
        availableFood := availableFood + cp.savannahAlpha * (cp.savannahFmax - availableFood);
      case _ =>
    }

    /** `reduce_available`. */
    method ReduceAvailable(eatenFood: real)
      modifies this`availableFood
      ensures availableFood == old(availableFood) - eatenFood
    {
      availableFood := availableFood - eatenFood;
    }

    /** Residents of different species are different objects. */
    lemma SpeciesApart()
      requires Valid()
      ensures forall a, b :: a in herb && b in carn ==> a != b
    {
      forall a, b | a in herb && b in carn
        ensures a != b
      {
        assert a in multiset(herb) + multiset(herbImmigrants);
        assert b in multiset(carn) + multiset(carnImmigrants);
      }
    }

    /** `fitness_sorting`: both resident lists sorted stably by fitness, each in its own
        direction; every resident's fitness is cached on the way. */
    method FitnessSorting(env: Env, herbDescending: bool, carnDescending: bool)
      requires Valid()
      modifies this`herb, this`carn, herb`fitnessCache, carn`fitnessCache
      ensures herb == SortedItems(herbDescending, old(herb), old(Fitnesses(env, herb)))
      ensures carn == SortedItems(carnDescending, old(carn), old(Fitnesses(env, carn)))
      ensures Caches(old(herb)) == Cached(old(Fitnesses(env, herb)))
      ensures Caches(old(carn)) == Cached(old(Fitnesses(env, carn)))
      ensures multiset(herb) == multiset(old(herb)) && multiset(carn) == multiset(old(carn))
      ensures Valid()
    {
      ResidentsApart(herb, herbImmigrants, carn, carnImmigrants);
      var h, c := SortResidents(env, herbDescending, carnDescending, herb, carn);
      ValidReordered(herb, h, herbImmigrants, carn, c, carnImmigrants);
      herb, carn := h, c;
    }

    /** `herb_eating`: both lists are sorted (herbivores and carnivores by descending fitness),
        then the herbivores eat in that order, each as much as `Herbivore.eating` allows from
        what is left, while fewer than `total_num_animals('herbivore')` have eaten and food
        remains. The count includes staged immigrants, so when they are many the loop runs
        past the residents and raises `IndexError`, after the residents have eaten. */
    method HerbEating(env: Env) returns (r: Result<(), CellError>)
      requires Valid()
      modifies this`herb, this`carn, this`availableFood, herb`weight, herb`fitnessCache, carn`fitnessCache
      ensures herb == SortedItems(true, old(herb), old(Fitnesses(env, herb)))
      ensures carn == SortedItems(true, old(carn), old(Fitnesses(env, carn)))
      ensures Caches(old(carn)) == Cached(old(Fitnesses(env, carn)))
      ensures var eats := Grazed(env.herbivore.F, old(availableFood), old(Count(Herbivore)));
        var m := if |eats| < |herb| then |eats| else |herb|;
        && (r.Failure? <==> |eats| > |herb|) && (r.Failure? ==> r.error == HerbIndexError)
        && availableFood == old(availableFood) - Sum(eats[..m])
        && Weights(herb) == Gained(SortedItems(true, old(Weights(herb)), old(Fitnesses(env, herb))),
                                   Scale(env.herbivore.beta, eats)[..m])
        && Caches(herb) == Forgotten(SortedItems(true, Cached(old(Fitnesses(env, herb))), old(Fitnesses(env, herb))), m)
      ensures Valid()
    {
      var n := Count(Herbivore);
      ghost var h0, k0, c0 := herb, Fitnesses(env, herb), carn;
      CarnivoresOf(herb, herbImmigrants, carn, carnImmigrants);
      FitnessSorting(env, true, true);
      SortedFacts(true, h0, k0);
      SameMembers(herb, h0);
      forall i | 0 <= i < |herb|
        ensures exists j :: 0 <= j < |h0| && h0[j] == herb[i]
      {
        assert herb[i] in h0;
      }
      r := Feed(env, n, c0);
    }

    /** The loop of `herb_eating` over the residents in their current order, with `n`
        herbivores counted; the carnivores `others` are left alone. */
    method Feed(env: Env, n: nat, ghost others: seq<Animal>) returns (r: Result<(), CellError>)
      requires Valid() && forall a :: a in others ==> a.species == Carnivore
      modifies this`availableFood, herb`weight, herb`fitnessCache
      ensures var eats := Grazed(env.herbivore.F, old(availableFood), n);
        var m := if |eats| < |herb| then |eats| else |herb|;
        && (r.Failure? <==> |eats| > |herb|) && (r.Failure? ==> r.error == HerbIndexError)
        && availableFood == old(availableFood) - Sum(eats[..m])
        && Weights(herb) == Gained(old(Weights(herb)), Scale(env.herbivore.beta, eats)[..m])
        && Caches(herb) == Forgotten(old(Caches(herb)), m)
      ensures Caches(others) == old(Caches(others))
      ensures Valid()
    {
      HerbivoresApart(herb, herbImmigrants, carn, carnImmigrants);
      HerbivoresOf(herb);
      ghost var cc0 := Caches(others);
      availableFood, r := Graze(env, herb, availableFood, n);
      forall j | 0 <= j < |others|
        ensures others[j].fitnessCache == cc0[j]
      {
        assert others[j] !in herb;
      }
    }

    /** `carn_eating`: herbivores weakest first, carnivores fittest first; each carnivore in
        turn hunts the herbivores left, until none are left or the carnivore is less fit than
        the weakest herbivore, which ends the hunt for the whole cell. `fed` is the number of
        carnivores that hunted and `lists` the herbivores before and after each hunt. */
    method CarnEating(env: Env, rng: Rng) returns (ghost fed: nat, ghost lists: seq<seq<Animal>>)
      requires Valid() && env.carnivore.deltaPhiMax.Some?
      modifies this`herb, this`carn, herb`fitnessCache, carn`weight, carn`fitnessCache, rng`drawn
      ensures carn == SortedItems(true, old(carn), old(Fitnesses(env, carn)))
      ensures fed <= |carn| && |lists| == fed + 1 && lists[fed] == herb
      ensures lists[0] == SortedItems(false, old(herb), old(Fitnesses(env, herb)))
      ensures Shrinking(lists)
      ensures fed < |carn| ==> herb == [] || carn[fed].CurrentFitness(env) < herb[0].CurrentFitness(env)
      ensures IsSubsequence(herb, lists[0])
      ensures Valid()
    {
      ghost var h0, c0 := herb, carn;
      FitnessSorting(env, false, true);
      SameMembers(herb, h0);
      forall i | 0 <= i < |herb|
        ensures exists j :: 0 <= j < |h0| && h0[j] == herb[i]
      {
        assert herb[i] in h0;
      }
      SameMembers(carn, c0);
      forall i | 0 <= i < |carn|
        ensures exists j :: 0 <= j < |c0| && c0[j] == carn[i]
      {
        assert carn[i] in c0;
      }
      fed, lists := Predation(env, rng);
    }

    /** The loop of `carn_eating` over the residents in their current order. */
    method Predation(env: Env, rng: Rng) returns (ghost fed: nat, ghost lists: seq<seq<Animal>>)
      requires Valid() && env.carnivore.deltaPhiMax.Some?
      modifies this`herb, herb`fitnessCache, carn`weight, carn`fitnessCache, rng`drawn
      ensures fed <= |carn| && |lists| == fed + 1 && lists[0] == old(herb) && lists[fed] == herb
      ensures Shrinking(lists)
      ensures fed < |carn| ==> herb == [] || carn[fed].CurrentFitness(env) < herb[0].CurrentFitness(env)
      ensures IsSubsequence(herb, old(herb))
      ensures Valid()
    {
      ghost var h0 := herb;
      SubsequenceReflexive(herb);
      lists := [herb];
      var i := 0;
      while i < |carn|
        invariant 0 <= i <= |carn| && Valid() && multiset(herb) <= multiset(h0)
        invariant |lists| == i + 1 && lists[0] == h0 && lists[i] == herb && IsSubsequence(herb, h0)
        invariant Shrinking(lists)
      {
        forall j | 0 <= j < |herb|
          ensures exists k :: 0 <= k < |h0| && h0[k] == herb[j]
        {
          assert herb[j] in multiset(h0);
          assert herb[j] in h0;
        }
        ghost var before := herb;
        var stop := Turn(env, carn[i], rng);
        if stop {
          break;
        }
        SubsequenceTransitive(herb, before, h0);
        SubsequenceMultiset(herb, before);
        ShrinkingStep(lists, herb);
        lists := lists + [herb];
        i := i + 1;
      }
      fed := i;
    }

    /** One carnivore `c` of this cell takes its turn at the resident herbivores. */
    method Turn(env: Env, c: Animal, rng: Rng) returns (stop: bool)
      requires Valid() && env.carnivore.deltaPhiMax.Some? && c in carn
      modifies this`herb, herb`fitnessCache, c`weight, c`fitnessCache, rng`drawn
      ensures stop <==> old(herb) == [] || old(c.CurrentFitness(env) < herb[0].CurrentFitness(env))
      ensures stop ==> herb == old(herb)
      ensures stop && herb != [] ==> c.CurrentFitness(env) < herb[0].CurrentFitness(env)
      ensures !stop ==> old(herb) != [] && IsSubsequence(herb, old(herb))
      ensures stop ==> c.weight == old(c.weight) && c.CurrentFitness(env) == old(c.CurrentFitness(env))
                       && rng.drawn == old(rng.drawn)
      ensures !stop ==> Hunted(env, rng, c.age, old(c.weight), old(c.CurrentFitness(env)), old(rng.drawn),
                               old(Preys(env, herb)), old(herb), herb, Preys(env, herb),
                               c.weight, c.fitnessCache, rng.drawn)
      ensures Valid()
    {
      CarnivoresOf(herb, herbImmigrants, carn, carnImmigrants);
      HerbivoresApart(herb, herbImmigrants, carn, carnImmigrants);
      HerbivoresOf(herb);
      NoRepeatsDistinct(herb);
      var survivors;
      stop, survivors := CarnivoreTurn(env, c, herb, rng);
      if !stop {
        Survive(env, survivors);
      }
    }

    /** The herbivore residents become `survivors`. */
    method Survive(ghost env: Env, survivors: seq<Animal>)
      requires Valid() && IsSubsequence(survivors, herb)
      modifies this`herb
      ensures herb == survivors && Valid()
      ensures Preys(env, herb) == old(Preys(env, survivors))
    {
      SubsequenceMultiset(survivors, herb);
      ValidShrunk(herb, survivors, herbImmigrants, carn, carnImmigrants);
      herb := survivors;
    }

    /** `self.herb += self.newborns(self.herb)` or its carnivore counterpart: the residents
        of species `sp` make their attempts at birth, n being their number, and the
        newborns join them at the end. */
    method BirthIn(env: Env, sp: Species, rng: Rng) returns (babies: seq<Animal>)
      requires Valid()
      modifies this`herb, this`carn, Residents(sp)`weight, Residents(sp)`fitnessCache
      modifies rng`drawn, rng`gaussDrawn
      ensures Residents(sp) == old(Residents(sp)) + babies
      ensures rng.drawn == old(rng.drawn) + |old(Residents(sp))|
      ensures |babies| <= |old(Residents(sp))| && AreYoung(babies, sp)
      ensures forall b :: b in babies ==> fresh(b)
      ensures |old(Residents(sp))| == 1 && rng.Valid() ==> babies == []
      ensures sp == Herbivore ==> carn == old(carn) && forall j :: 0 <= j < |carn| ==>
                carn[j].weight == old(carn[j].weight) && carn[j].fitnessCache == old(carn[j].fitnessCache)
      ensures sp == Carnivore ==> herb == old(herb) && forall j :: 0 <= j < |herb| ==>
                herb[j].weight == old(herb[j].weight) && herb[j].fitnessCache == old(herb[j].fitnessCache)
      ensures Staged(Herbivore) == old(Staged(Herbivore)) && Staged(Carnivore) == old(Staged(Carnivore))
      ensures Valid()
    {
      ghost var animals := Residents(sp);
      ghost var w0, f0, c0 := Weights(animals), Fitnesses(env, animals), Caches(animals);
      ghost var d0, g0 := rng.drawn, rng.gaussDrawn;
      babies := Beget(env, sp, rng);
      ProcreatedFacts(env, sp, animals, babies, rng, w0, f0, c0, d0, g0);
    }

    /** The residents of species `sp` have their newborns `babies` by `newborns`, which then
        join them at the end of their list. */
    method Beget(env: Env, sp: Species, rng: Rng) returns (babies: seq<Animal>)
      requires Valid()
      modifies this`herb, this`carn, Residents(sp)`weight, Residents(sp)`fitnessCache
      modifies rng`drawn, rng`gaussDrawn
      ensures Residents(sp) == old(Residents(sp)) + babies
      ensures Procreated(env, sp, old(Residents(sp)), babies, rng, old(Weights(Residents(sp))),
                         old(Fitnesses(env, Residents(sp))), old(Caches(Residents(sp))), old(rng.drawn),
                         old(rng.gaussDrawn))
      ensures forall b :: b in babies ==> fresh(b)
      ensures sp == Herbivore ==> carn == old(carn) && forall j :: 0 <= j < |carn| ==>
                carn[j].weight == old(carn[j].weight) && carn[j].fitnessCache == old(carn[j].fitnessCache)
      ensures sp == Carnivore ==> herb == old(herb) && forall j :: 0 <= j < |herb| ==>
                herb[j].weight == old(herb[j].weight) && herb[j].fitnessCache == old(herb[j].fitnessCache)
      ensures Staged(Herbivore) == old(Staged(Herbivore)) && Staged(Carnivore) == old(Staged(Carnivore))
      ensures Valid()
    {
      babies := Bear(env, sp, rng);
      Join(env, sp, babies, rng, old(Residents(sp)), old(Weights(Residents(sp))), old(Fitnesses(env, Residents(sp))),
           old(Caches(Residents(sp))), old(rng.drawn), old(rng.gaussDrawn));
    }

    /** The residents of species `sp` have their newborns `babies` by `newborns`; the lists
        are left as they were, and would stay valid with the newborns added. */
    method Bear(env: Env, sp: Species, rng: Rng) returns (babies: seq<Animal>)
      requires Valid()
      modifies Residents(sp)`weight, Residents(sp)`fitnessCache, rng`drawn, rng`gaussDrawn
      ensures Procreated(env, sp, old(Residents(sp)), babies, rng, old(Weights(Residents(sp))),
                         old(Fitnesses(env, Residents(sp))), old(Caches(Residents(sp))), old(rng.drawn),
                         old(rng.gaussDrawn))
      ensures forall b :: b in babies ==> fresh(b)
      ensures sp == Herbivore ==> carn == old(carn) && forall j :: 0 <= j < |carn| ==>
                carn[j].weight == old(carn[j].weight) && carn[j].fitnessCache == old(carn[j].fitnessCache)
      ensures sp == Carnivore ==> herb == old(herb) && forall j :: 0 <= j < |herb| ==>
                herb[j].weight == old(herb[j].weight) && herb[j].fitnessCache == old(herb[j].fitnessCache)
      ensures sp == Herbivore ==> ValidLists(herb + babies, herbImmigrants, carn, carnImmigrants)
      ensures sp == Carnivore ==> ValidLists(herb, herbImmigrants, carn + babies, carnImmigrants)
    {
      assert ListOf(sp, herb, carn) == Residents(sp) && ListOf(Other(sp), herb, carn) == Residents(Other(sp));
      babies := Procreate(env, sp, herb, herbImmigrants, carn, carnImmigrants, rng);
    }

    /** The newborns `babies` of species `sp` join the residents at the end of their list;
        what `newborns` left in the animals and the random streams stays as it was. */
    method Join(env: Env, sp: Species, babies: seq<Animal>, rng: Rng, ghost animals: seq<Animal>, ghost w0: seq<real>,
                ghost f0: seq<real>, ghost c0: seq<Option<real>>, ghost d0: nat, ghost g0: nat)
      requires sp == Herbivore ==> ValidLists(herb + babies, herbImmigrants, carn, carnImmigrants)
      requires sp == Carnivore ==> ValidLists(herb, herbImmigrants, carn + babies, carnImmigrants)
      requires Procreated(env, sp, animals, babies, rng, w0, f0, c0, d0, g0)
      modifies this`herb, this`carn
      ensures Residents(sp) == old(Residents(sp)) + babies && Residents(Other(sp)) == old(Residents(Other(sp)))
      ensures Procreated(env, sp, animals, babies, rng, w0, f0, c0, d0, g0)
      ensures sp == Herbivore ==> carn == old(carn) && forall j :: 0 <= j < |carn| ==>
                carn[j].weight == old(carn[j].weight) && carn[j].fitnessCache == old(carn[j].fitnessCache)
      ensures sp == Carnivore ==> herb == old(herb) && forall j :: 0 <= j < |herb| ==>
                herb[j].weight == old(herb[j].weight) && herb[j].fitnessCache == old(herb[j].fitnessCache)
      ensures Valid()
    {
      if sp == Herbivore {
        herb := herb + babies;
      } else {
        carn := carn + babies;
      }
    }

    /** `animal_birth`: the herbivores, then the carnivores, make their attempts at birth,
        and each species' newborns join it at the end of its list. */
    method AnimalBirth(env: Env, rng: Rng) returns (ghost herbBorn: seq<Animal>, ghost carnBorn: seq<Animal>)
      requires Valid()
      modifies this`herb, this`carn, herb`weight, herb`fitnessCache, carn`weight, carn`fitnessCache
      modifies rng`drawn, rng`gaussDrawn
      ensures herb == old(herb) + herbBorn && carn == old(carn) + carnBorn
      ensures |herbBorn| <= |old(herb)| && |carnBorn| <= |old(carn)|
      ensures AreYoung(herbBorn, Herbivore) && AreYoung(carnBorn, Carnivore)
      ensures (forall b :: b in herbBorn ==> fresh(b)) && forall b :: b in carnBorn ==> fresh(b)
      ensures rng.drawn == old(rng.drawn) + |old(herb)| + |old(carn)|
      ensures rng.Valid() ==> (|old(herb)| == 1 ==> herbBorn == []) && (|old(carn)| == 1 ==> carnBorn == [])
      ensures herbImmigrants == old(herbImmigrants) && carnImmigrants == old(carnImmigrants)
      ensures Valid()
    {
      herbBorn := BirthIn(env, Herbivore, rng);
      carnBorn := BirthIn(env, Carnivore, rng);
    }

    /** `herb_migration` for `sp == Herbivore` and `carn_migration` for `sp == Carnivore`,
        `ns` being the four neighbours: each resident takes its turn in order, the movers are
        staged at the neighbours, and the residents become those that stayed, in order. When
        `relative_abundance_of_fodder`, reached through `prob_move`, divides by F = 0, the
        residents are left as they were, while the animals already staged stay staged. */
    method Migration(env: Env, sp: Species, ns: seq<Landscape>, rng: Rng) returns (r: Result<(), MoveError>, ghost s: Roam)
      requires Valid() && |ns| == 4 && Apart(ns) && this !in ns
      modifies this`herb, this`carn, Residents(sp)`fitnessCache, rng`drawn, ns`herbImmigrants, ns`carnImmigrants
      ensures var res := old(Residents(sp));
        s == Roamed(env.exp, env.ParamsOf(sp), rng, old(Fitnesses(env, res)), Start(old(rng.drawn), old(Views(ns, sp))), |res|)
      ensures rng.drawn == s.drawn && (r.Failure? <==> s.error.Some?) && (r.Failure? ==> r.error == s.error.value)
      ensures |s.dest| <= |old(Residents(sp))| && (r.Success? ==> |s.dest| == |old(Residents(sp))|)
      ensures Residents(sp) == if r.Success? then Select(old(Residents(sp)), s.dest, -1) else old(Residents(sp))
      ensures Residents(Other(sp)) == old(Residents(Other(sp)))
      ensures herbImmigrants == old(herbImmigrants) && carnImmigrants == old(carnImmigrants)
      ensures var res := old(Residents(sp));
        Stages(ns, sp) == Dealt(old(Stages(ns, sp)), res[..|s.dest|], s.dest)
      ensures Stages(ns, Other(sp)) == old(Stages(ns, Other(sp)))
      ensures var res := old(Residents(sp));
        Caches(res) == Spliced(Cached(old(Fitnesses(env, res))), old(Caches(res)), |s.dest| + if r.Failure? then 1 else 0)
      ensures Valid()
    {
      var remaining;
      r, remaining, s := Depart(env, sp, ns, rng);
      if r.Success? {
        SelectSubsequence(Residents(sp), s.dest, -1);
        KeepStayers(sp, remaining, ns, old(Residents(sp)));
      }
    }

    /** The pass of `Migration` up to the point where the residents become the stayers: it
        leaves the cell's own lists as they were. */
    method Depart(env: Env, sp: Species, ns: seq<Landscape>, rng: Rng)
      returns (r: Result<(), MoveError>, remaining: seq<Animal>, ghost s: Roam)
      requires Valid() && |ns| == 4 && Apart(ns) && this !in ns
      modifies Residents(sp)`fitnessCache, rng`drawn, ns`herbImmigrants, ns`carnImmigrants
      ensures var res := old(Residents(sp));
        s == Roamed(env.exp, env.ParamsOf(sp), rng, old(Fitnesses(env, res)), Start(old(rng.drawn), old(Views(ns, sp))), |res|)
      ensures rng.drawn == s.drawn && (r.Failure? <==> s.error.Some?) && (r.Failure? ==> r.error == s.error.value)
      ensures |s.dest| <= |old(Residents(sp))| && (r.Success? ==> |s.dest| == |old(Residents(sp))|)
      ensures r.Success? ==> remaining == Select(old(Residents(sp)), s.dest, -1)
      ensures herb == old(herb) && carn == old(carn) && herbImmigrants == old(herbImmigrants) && carnImmigrants == old(carnImmigrants)
      ensures var res := old(Residents(sp));
        Stages(ns, sp) == Dealt(old(Stages(ns, sp)), res[..|s.dest|], s.dest)
      ensures Stages(ns, Other(sp)) == old(Stages(ns, Other(sp)))
      ensures var res := old(Residents(sp));
        Caches(res) == Spliced(Cached(old(Fitnesses(env, res))), old(Caches(res)), |s.dest| + if r.Failure? then 1 else 0)
      ensures Valid()
    {
      var res := Residents(sp);
      ghost var ss0 := Sides(ns);
      StagesOfSides(ns, sp);
      StagesOfSides(ns, Other(sp));
      Migrants(sp);
      CellNotAnimal(this, res);
      r, remaining, s := Wander(env, sp, res, ns, rng, Fitnesses(env, res), Start(rng.drawn, Views(ns, sp)), ss0, Caches(res));
      StagesOfSides(ns, sp);
      StagesOfSides(ns, Other(sp));
      PushAllStages(ss0, sp, res[..|s.dest|], s.dest);
    }

    /** The residents of one species of a valid cell may set out on a migration pass. */
    lemma Migrants(sp: Species)
      requires Valid()
      ensures NoRepeats(multiset(Residents(sp))) && forall a :: a in Residents(sp) ==> a.species == sp
    {
      assert ListOf(sp, herb, carn) == Residents(sp);
      ResidentsOf(sp, herb, herbImmigrants, carn, carnImmigrants);
    }

    /** `self.herb = remaining_herb` or `self.carn = remaining_carn` (migration), and the
        list comprehensions that keep the survivors of the death pass: the residents of
        `sp` become `remaining`, drawn from them; nothing else of the cell, of the staged
        immigrants of the cells `ns`, or of the caches of the animals `xs` changes. */
    method KeepStayers(sp: Species, remaining: seq<Animal>, ghost ns: seq<Landscape>, ghost xs: seq<Animal>)
      requires Valid() && multiset(remaining) <= multiset(Residents(sp))
      modifies this`herb, this`carn
      ensures Residents(sp) == remaining && Residents(Other(sp)) == old(Residents(Other(sp)))
      ensures herbImmigrants == old(herbImmigrants) && carnImmigrants == old(carnImmigrants)
      ensures |ns| == 4 ==> Stages(ns, sp) == old(Stages(ns, sp)) && Stages(ns, Other(sp)) == old(Stages(ns, Other(sp)))
      ensures Caches(xs) == old(Caches(xs))
      ensures Valid()
    {
      if sp == Herbivore {
        ValidShrunk(herb, remaining, herbImmigrants, carn, carnImmigrants);
        herb := remaining;
      } else {
        ValidCarnShrunk(herb, herbImmigrants, carn, remaining, carnImmigrants);
        carn := remaining;
      }
    }

    /** The animals `hs` and `cs`, new to the cell, join its herbivores and carnivores. */
    method Enlist(hs: seq<Animal>, cs: seq<Animal>)
      requires Valid() && NoRepeats(multiset(hs)) && NoRepeats(multiset(cs))
      requires forall a :: a in hs ==> a.species == Herbivore && a !in herb && a !in herbImmigrants && a !in carn && a !in carnImmigrants
      requires forall a :: a in cs ==> a.species == Carnivore && a !in herb && a !in herbImmigrants && a !in carn && a !in carnImmigrants
      modifies this`herb, this`carn
      ensures herb == old(herb) + hs && carn == old(carn) + cs
      ensures Valid()
    {
      ValidGrown(Herbivore, herb, herbImmigrants, carn, carnImmigrants, hs);
      herb := herb + hs;
      ValidGrown(Carnivore, herb, herbImmigrants, carn, carnImmigrants, cs);
      carn := carn + cs;
    }

    /** `add_population`: on a Mountain or an Ocean it raises at once; elsewhere each record,
        in order, becomes a new animal appended to the residents of its species, until a
        record raises. The records before it stay placed: the update is not atomic. */
    method AddPopulation(pop: seq<AnimalRecord>) returns (r: Result<(), CellError>, ghost herbAdded: seq<Animal>, ghost carnAdded: seq<Animal>)
      requires Valid()
      modifies this`herb, this`carn
      ensures !Habitable(kind) ==> r == Failure(CannotLiveHere) && herbAdded == [] && carnAdded == []
      ensures Habitable(kind) ==>
                var n := Admitted(pop);
                && (r.Success? <==> n == |pop|)
                && (r.Failure? ==> n < |pop| && Some(r.error) == RecordError(pop[n]))
                && Placed(pop, n, herbAdded, carnAdded)
      ensures herb == old(herb) + herbAdded && carn == old(carn) + carnAdded
      ensures (forall a :: a in herbAdded ==> fresh(a) && a.fitnessCache == None)
      ensures forall a :: a in carnAdded ==> fresh(a) && a.fitnessCache == None
      ensures Valid()
    {
      if !AnimalsCanLiveHere() {
        return Failure(CannotLiveHere), [], [];
      }
      var n, hs, cs := Recruit(pop);
      Enlist(hs, cs);
      herbAdded, carnAdded := hs, cs;
      r := if n < |pop| then Failure(RecordError(pop[n]).value) else Success(());
    }

    /** `add_herb_immigrant` and `add_carn_immigrant`. */
    method AddImmigrant(sp: Species, a: Animal)
      modifies this`herbImmigrants, this`carnImmigrants
      ensures Staged(sp) == old(Staged(sp)) + [a] && Staged(Other(sp)) == old(Staged(Other(sp)))
    {
      if sp == Herbivore {
        herbImmigrants := herbImmigrants + [a];
      } else {
        carnImmigrants := carnImmigrants + [a];
      }
    }

    /** `add_immigrants_to_pop`: the staged animals join the residents after them, in order,
        and staging is emptied; the counts do not change, since they already included them. */
    method AddImmigrantsToPop()
      modifies this`herb, this`carn, this`herbImmigrants, this`carnImmigrants
      ensures herb == old(herb) + old(herbImmigrants) && carn == old(carn) + old(carnImmigrants)
      ensures herbImmigrants == [] && carnImmigrants == []
      ensures Count(Herbivore) == old(Count(Herbivore)) && Count(Carnivore) == old(Count(Carnivore))
      ensures old(Valid()) ==> Valid()
    {
      herb := herb + herbImmigrants;
      herbImmigrants := [];
      carn := carn + carnImmigrants;
      carnImmigrants := [];
      assert herb + herbImmigrants == herb;
      assert carn + carnImmigrants == carn;
    }

    /** `animal_aging`: every resident, herbivores first, is a year older and has forgotten
        its fitness. */
    method AnimalAging()
      requires Valid()
      modifies herb`age, herb`fitnessCache, carn`age, carn`fitnessCache
      ensures var all := herb + carn;
        forall j :: 0 <= j < |all| ==> all[j].age == old(all[j].age) + 1 && all[j].fitnessCache == None
    {
      ValidApart(herb, herbImmigrants, carn, carnImmigrants);
      DistinctConcat(herb, carn);
      AgeAll(herb + carn);
    }

    /** `animal_weight_change`: every resident, herbivores first, loses the fraction eta of
        its species of its weight and forgets its fitness. */
    method AnimalWeightChange(env: Env)
      requires Valid()
      modifies herb`weight, herb`fitnessCache, carn`weight, carn`fitnessCache
      ensures var all := herb + carn;
        forall j :: 0 <= j < |all| ==>
          all[j].weight == WeightAfterLoss(env.ParamsOf(all[j].species).eta, old(all[j].weight)) && all[j].fitnessCache == None
    {
      ValidApart(herb, herbImmigrants, carn, carnImmigrants);
      DistinctConcat(herb, carn);
      LoseWeightAll(env, herb + carn);
    }

    /** `animal_death`: the herbivores draw for their deaths in order, then the carnivores;
        each list becomes its survivors, in order, and every animal that drew has its
        fitness cached. */
    method AnimalDeath(env: Env, rng: Rng)
      requires Valid()
      modifies this`herb, this`carn, herb`fitnessCache, carn`fitnessCache, rng`drawn
      ensures herb == Survivors(env, old(herb), old(Fitnesses(env, herb)), rng, old(rng.drawn))
      ensures carn == Survivors(env, old(carn), old(Fitnesses(env, carn)), rng, old(rng.drawn) + |old(herb)|)
      ensures rng.drawn == old(rng.drawn) + |old(herb)| + |old(carn)|
      ensures Caches(old(herb)) == Cached(old(Fitnesses(env, herb))) && Caches(old(carn)) == Cached(old(Fitnesses(env, carn)))
      ensures Valid()
    {
      assert NoRepeats(multiset(herb)) && NoRepeats(multiset(carn)) && AllOf(herb, Herbivore) && AllOf(carn, Carnivore) by {
        ListsApart(herb, herbImmigrants, carn, carnImmigrants);
      }
      assert var os: seq<object> := herb + carn; (this as object) !in os by {
        CellNotAnimal(this, herb + carn);
      }
      ghost var h0, c0 := herb, carn;
      CullResidents(env, rng);
      ValidShrunk(h0, herb, herbImmigrants, c0, carnImmigrants);
      ValidCarnShrunk(herb, herbImmigrants, c0, carn, carnImmigrants);
    }

    /** The two passes of `animal_death` on the resident lists alone: each list becomes its
        survivors, the herbivores drawing first. */
    method CullResidents(env: Env, rng: Rng)
      requires NoRepeats(multiset(herb)) && NoRepeats(multiset(carn)) && AllOf(herb, Herbivore) && AllOf(carn, Carnivore)
      requires var os: seq<object> := herb + carn; (this as object) !in os
      modifies this`herb, this`carn, herb`fitnessCache, carn`fitnessCache, rng`drawn
      ensures herb == Survivors(env, old(herb), old(Fitnesses(env, herb)), rng, old(rng.drawn))
      ensures carn == Survivors(env, old(carn), old(Fitnesses(env, carn)), rng, old(rng.drawn + |herb|))
      ensures rng.drawn == old(rng.drawn) + |old(herb)| + |old(carn)|
      ensures Caches(old(herb)) == Cached(old(Fitnesses(env, herb))) && Caches(old(carn)) == Cached(old(Fitnesses(env, carn)))
    {
      var hs, cs := DeathPass(env, herb, carn, rng);
      herb, carn := hs, cs;
    }

  }

  /** The two passes of `animal_death` over herbivores `h` and carnivores `c`: the
      herbivores draw first, then the carnivores, from draw `d1` on; each list's survivors,
      in order. */
  method DeathPass(env: Env, h: seq<Animal>, c: seq<Animal>, rng: Rng) returns (hs: seq<Animal>, cs: seq<Animal>)
    requires NoRepeats(multiset(h)) && NoRepeats(multiset(c)) && AllOf(h, Herbivore) && AllOf(c, Carnivore)
    modifies h`fitnessCache, c`fitnessCache, rng`drawn
    ensures hs == Survivors(env, h, old(Fitnesses(env, h)), rng, old(rng.drawn))
    ensures cs == Survivors(env, c, old(Fitnesses(env, c)), rng, old(rng.drawn) + |h|)
    ensures rng.drawn == old(rng.drawn) + |h| + |c|
    ensures Caches(h) == Cached(old(Fitnesses(env, h))) && Caches(c) == Cached(old(Fitnesses(env, c)))
  {
    ghost var fc := Fitnesses(env, c);
    FitnessesAt(env, c);
    hs := Cull(env, h, rng, old(Fitnesses(env, h)), old(rng.drawn));
    FitnessesAt(env, c);
    assert forall j :: 0 <= j < |c| ==> Fitnesses(env, c)[j] == fc[j];
    ghost var ch := Caches(h);
    cs := Cull(env, c, rng, old(Fitnesses(env, c)), old(rng.drawn) + |h|);
    assert forall j :: 0 <= j < |h| ==> Caches(h)[j] == ch[j];
  }

  function Other(sp: Species): Species
  {
    if sp == Herbivore then Carnivore else Herbivore
  }
}
