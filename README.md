# biosim island core, modelled in Dafny

This project models the simulation core of *biosim*, an ecosystem of herbivores and
carnivores living on an island of landscape cells. The core has four files:

- `fitness_workers.py`: the fitness formula, a product of two logistic q-factors.
- `animals.py`: an animal has a weight, an age and a lazily cached fitness. It eats,
  gives birth, ages, loses weight, migrates and dies. Each decision compares a
  `random.random()` draw with a probability.
- `landscape.py`: the cells (Jungle, Savannah, Desert, Mountain, Ocean). A cell holds
  resident and staged (immigrant) animals of each species. It also holds fodder that grows
  each year. Its sweeps are feeding, birth, migration to its four neighbours, aging,
  weight loss and death.
- `island_nature.py`: the island. It parses the map text into a grid of cells, places
  populations, runs each sweep over every cell row by row, and runs the year
  (`annual_cycle`) as eight sweeps in a fixed order. Migration is the exception: it
  runs over the cells off the border, in a shuffled order.

How the model represents the Python code:

- **Mutable objects stay classes.** Animals, cells, the island and the random generator
  are Dafny classes whose methods update their fields in place. Each method is specified
  against pure functions of the old state: `Meal`, `Grazed`, `Roamed`, `Survivors`,
  `SortedItems`, `MapErrorOf`.
- **Properties are lemmas.** What the code promises is proved about those functions as
  lemmas: bounds, iff-conditions, the order of errors and the conservation of animals.
- **Parameters are values.** The class-level parameter dictionaries are records held in
  an `Env` value. `set_parameters` is a function that returns the new record or the error.
- **Randomness is explicit.** `random.random()` and `random.gauss` read explicit streams
  of an `Rng` object, each with a cursor. `random.shuffle` is an explicit permutation
  argument.
- **`math.exp` is abstract.** It is a function into the positive reals. Where monotonicity
  or `exp(0) = 1` is needed, the lemma requires it.

## Model

| member | source | states |
|---|---|---|
| FitnessWorkers.QFactor | biosim_project/biosim/fitness_workers.py:7-17 | a q-factor lies strictly between 0 and 1 |
| FitnessWorkers.Fitness | biosim_project/biosim/fitness_workers.py:19-32 | fitness, the product of the age and weight factors, lies strictly between 0 and 1 |
| FitnessWorkers.QFactorHalfAtMidpoint | biosim_project/biosim/fitness_workers.py:7-17 | with phi non-zero and exp(0) = 1, a q-factor is one half exactly when x = x_half |
| FitnessWorkers.QFactorAntitone | biosim_project/biosim/fitness_workers.py:7-17 | a larger value of exp at the exponent gives a smaller q-factor |
| FitnessWorkers.AgeFactorFalls | biosim_project/biosim/fitness_workers.py:31 | with phi_age > 0 the age factor strictly falls as age grows |
| FitnessWorkers.WeightFactorRises | biosim_project/biosim/fitness_workers.py:32 | with phi_weight > 0 the weight factor, whose phi is negated, strictly rises with weight |
| FitnessWorkers.FitnessFallsWithAge | biosim_project/biosim/fitness_workers.py:19-32 | at a fixed weight, an older animal is strictly less fit |
| FitnessWorkers.FitnessRisesWithWeight | biosim_project/biosim/fitness_workers.py:19-32 | at a fixed age, a heavier animal is strictly fitter |
| AnimalParams.Assign | biosim_project/biosim/animals.py:101 | assigning one key gives it the new value and leaves every other key as it was |
| AnimalParams.FirstEntryErrorNone | biosim_project/biosim/animals.py:88-99 | the loop over the entries raises nothing exactly when every entry passes its checks, and then every name is a key |
| AnimalParams.SetParametersFailsIff | biosim_project/biosim/animals.py:68-101 | `set_parameters` raises exactly when DeltaPhiMax is given and not positive, or some name is unknown, or some value breaks its lower or upper bound |
| AnimalParams.SetParametersErrorOrder | biosim_project/biosim/animals.py:84-86 | a non-positive DeltaPhiMax is the error reported, whatever the other entries hold |
| AnimalParams.SetParametersUpdates | biosim_project/biosim/animals.py:101 | on success each key holds the given value if there is one and its old value otherwise, and the set of keys is unchanged |
| AnimalParams.SetParametersKeepsValid | biosim_project/biosim/animals.py:77-101 | a successful update of admissible parameters leaves them admissible |
| AnimalParams.DefaultsValid | biosim_project/biosim/animals.py:229-232 | both species' default dictionaries are admissible, and only the carnivore's holds DeltaPhiMax |
| Animals.FitnessOf | biosim_project/biosim/animals.py:123-127 | an animal's fitness, from its species' parameters, lies strictly between 0 and 1 |
| Animals.CheckNewAnimalIff | biosim_project/biosim/animals.py:26-32 | the constructor refuses exactly a non-positive weight or an age that is not a non-negative whole number, and reports the weight first |
| Animals.Animal.constructor | biosim_project/biosim/animals.py:34-36 | a new animal has the given species, weight and age, and no cached fitness |
| Animals.Animal.CurrentFitness | biosim_project/biosim/animals.py:115-128 | the fitness a valid animal reports lies strictly between 0 and 1 |
| Animals.Animal.Fitness | biosim_project/biosim/animals.py:115-128 | returns the cached fitness, or on a miss computes it, and caches it; with a fresh cache the result is the formula's value |
| Animals.Animal.SetWeight | biosim_project/biosim/animals.py:43-51 | the weight setter stores the weight and forgets the cached fitness |
| Animals.Animal.SetAge | biosim_project/biosim/animals.py:58-66 | the age setter stores the age and forgets the cached fitness |
| Animals.Animal.Aging | biosim_project/biosim/animals.py:107-109 | age grows by one and the cached fitness is forgotten |
| Animals.Animal.WeightChange | biosim_project/biosim/animals.py:111-113 | the weight becomes `WeightAfterLoss(eta, old weight)` and the cached fitness is forgotten |
| Animals.WeightAfterLossFacts | biosim_project/biosim/animals.py:111-113 | the weight is scaled by 1 - eta: eta = 0 keeps it, eta = 1 empties it, and for eta in [0, 1] it stays in [0, w] |
| Animals.Animal.ProbabilityBirth | biosim_project/biosim/animals.py:130-146 | returns the birth probability and reads (caches) the fitness only when the weight reaches the threshold |
| Animals.BirthProbabilityFacts | biosim_project/biosim/animals.py:130-146 | the probability is 0 below zeta * (w_birth + sigma_birth) and for a lone animal; otherwise it is min(1, gamma * fitness * (n - 1)); it is a probability |
| Animals.Animal.Birth | biosim_project/biosim/animals.py:148-171 | one uniform draw; a normal draw only when it is below the probability; a newborn exactly when the outcome is a birth, with the newborn's weight, age 0 and the mother's reduced weight; otherwise the weight is unchanged |
| Animals.BirthOutcomeFacts | biosim_project/biosim/animals.py:159-171 | a birth happens iff the draw is below the probability and 0 < w_newborn < weight and weight - xi * w_newborn > 0; the mother then pays exactly xi times the newborn's weight |
| Animals.Animal.Death | biosim_project/biosim/animals.py:173-175 | dies iff the draw is below omega * (1 - fitness); one value is drawn and the fitness is cached |
| Animals.DeathProbabilityFacts | biosim_project/biosim/animals.py:173-175 | the death probability is a probability, falls as fitness rises and is 0 at fitness 1 |
| Animals.Animal.ProbMigration | biosim_project/biosim/animals.py:177-179 | returns mu * fitness and caches the fitness |
| Animals.MigrationProbabilityFacts | biosim_project/biosim/animals.py:177-179 | the migration probability lies in [0, mu] |
| Animals.Animal.HerbivoreEating | biosim_project/biosim/animals.py:202-218 | fails on negative food; otherwise eats min(F, available) and gains beta times that; on failure nothing changes |
| Animals.GrazingFacts | biosim_project/biosim/animals.py:202-218 | grazing fails exactly on negative food, and otherwise eats min(F, available), between 0 and the food on offer |
| Animals.GrazingGains | biosim_project/biosim/animals.py:213-218 | with admissible parameters a herbivore gains between 0 and beta * F by eating |
| Animals.Animal.KillsHerbivore | biosim_project/biosim/animals.py:250-262 | both fitness values are read and cached; the decision and the number of draws follow `KillDecision` and `KillDraws` on the fitness gap |
| Animals.KillDecisionFacts | biosim_project/biosim/animals.py:241-262 | inside the band 0 < gap < DeltaPhiMax the kill probability is in (0, 1), the herbivore dies iff the draw is below gap / DeltaPhiMax, and one value is drawn; at or above DeltaPhiMax it dies with no draw |
| Animals.Animal.Hunt | biosim_project/biosim/animals.py:276-292 | one pass of the loop of `Carnivore.eating` over one herbivore is one `MealStep` of the meal state |
| Animals.Animal.CarnivoreEating | biosim_project/biosim/animals.py:264-294 | the survivors are the herbivores the meal keeps, in order; the carnivore's weight, its cache and the draw cursor are those of the meal; every examined herbivore's fitness is cached |
| Animals.Animal.Hunting | biosim_project/biosim/animals.py:275-292 | the loop follows the meal trace step by step to the same survivors, weight, cache and cursor |
| Animals.MealShape | biosim_project/biosim/animals.py:275-292 | one keep flag per herbivore; a meal that does not break off examines every herbivore |
| Animals.MealAfterStop | biosim_project/biosim/animals.py:276-279 | after the loop breaks off, every later herbivore survives and nothing else changes |
| Animals.MealBreakFacts | biosim_project/biosim/animals.py:278 | when the loop breaks at herbivore i, the survivors are those kept before i followed by the whole rest `herbivores[i:]` |
| Animals.MealEarlyExit | biosim_project/biosim/animals.py:276-279 | a carnivore not strictly fitter than herbivore j, or already full, leaves j and every later herbivore alive |
| Animals.MealNoAppetite | biosim_project/biosim/animals.py:276-277 | a carnivore with F = 0 kills nobody |
| Animals.MealEats | biosim_project/biosim/animals.py:281-290 | a carnivore never eats more than F, and its weight is its starting weight plus beta times what it ate |
| RandomSource.Rng.Random | biosim_project/biosim/animals.py:160 | `random.random()` returns the next uniform value and advances the cursor by one |
| RandomSource.Rng.Gauss | biosim_project/biosim/animals.py:161-162 | `random.gauss(mu, sigma)` is mu + sigma * z for the next standard normal deviate z |
| Landscapes.Landscape.constructor | biosim_project/biosim/landscape.py:22-32 | a new cell has its kind and location, empty resident and immigrant lists, and `InitialFood` of its kind |
| CellRules.InitialFood | biosim_project/biosim/landscape.py:360-386 | a new cell's fodder is non-negative for admissible parameters, and 0 unless the cell is Jungle or Savannah |
| CellRules.CellDefaultsValid | biosim_project/biosim/landscape.py:358-378 | the default tables (Jungle fmax 800, Savannah fmax 300 and alpha 0.3) are admissible |
| Landscapes.Landscape.FoodGrowth | biosim_project/biosim/landscape.py:348-391 | the fodder becomes `FoodGrowth` of the cell's kind applied to the old fodder |
| CellRules.FoodGrowthFacts | biosim_project/biosim/landscape.py:368-391 | Jungle regrows to fmax; Savannah grows toward fmax without passing it, stays at fmax, and reaches it with alpha = 1; the other kinds never grow |
| CellRules.FoodGrowthStaysInRange | biosim_project/biosim/landscape.py:368-391 | fodder in [0, fmax] stays in [0, fmax] of its kind, and Savannah fodder never falls |
| CellRules.CellSetParametersIff | biosim_project/biosim/landscape.py:34-55 | the update succeeds exactly for a kind with a table, names among its keys, no negative value, and alpha at most 1 |
| CellRules.CellSetParametersNamesFirst | biosim_project/biosim/landscape.py:42-49 | an unknown name is reported even when a negative value comes before it |
| CellRules.CellSetParametersUpdates | biosim_project/biosim/landscape.py:55 | a successful update sets exactly the given keys of its own kind, leaves the other kinds and the empty update alone, and keeps the tables admissible |
| CellRules.FirstUnknownFacts | biosim_project/biosim/landscape.py:42-45 | the first loop reports the first unknown name in dictionary order, and reports nothing exactly when all names are known |
| CellRules.FirstNegativeFacts | biosim_project/biosim/landscape.py:47-49 | the second loop reports the first negative value in dictionary order, and reports nothing exactly when none is negative |
| Landscapes.SortKeys | biosim_project/biosim/landscape.py:67-68 | the key pass of `sort` reads every animal's fitness once, in list order, and caches it |
| Sorting.SortedItemsFacts | biosim_project/biosim/landscape.py:67-68 | sorting by key is a permutation whose keys are in order, ties kept in input order (Python's stable sort, in either direction) |
| Landscapes.Landscape.FitnessSorting | biosim_project/biosim/landscape.py:57-68 | both resident lists are stably sorted by fitness, each in its own direction, are permutations of the old lists, and every fitness is cached |
| Landscapes.Landscape.ReduceAvailable | biosim_project/biosim/landscape.py:70-76 | the fodder falls by the amount eaten |
| Landscapes.GrazedFacts | biosim_project/biosim/landscape.py:86-90 | at most n herbivores eat, each between 0 and F; all but the last eat F; the total is at most the food, and all of it when fewer than n eat |
| Landscapes.Graze | biosim_project/biosim/landscape.py:86-90 | the first min(eaters, residents) herbivores eat their share and gain beta times it; the loop reads past the residents (`IndexError`) exactly when more are due to eat than there are residents |
| Landscapes.Landscape.HerbEating | biosim_project/biosim/landscape.py:78-90 | the herbivores are sorted by descending fitness and then graze in that order; the fodder falls by what they eat; fails with `IndexError` exactly when more herbivores are due to eat than there are residents, which needs staged immigrants |
| Landscapes.CarnivoreTurn | biosim_project/biosim/landscape.py:99-105 | a carnivore stops iff there are no herbivores or it is less fit than the first, and then its weight, fitness and the uniform stream are unchanged; otherwise the survivors, the carnivore's new weight and cache and the number of uniform draws are exactly those of `Meal` over the herbivores' fitness and weights; the herbivores' weights and fitness stay as they were |
| Landscapes.Landscape.Turn | biosim_project/biosim/landscape.py:99-105 | the same for a carnivore of this cell: it stops iff there are no herbivores or it is less fit than the first, and then nothing changes; otherwise the resident herbivores become exactly `Meal`'s survivors, and the carnivore's weight and cache and the uniform stream are `Meal`'s |
| Landscapes.Landscape.CarnEating | biosim_project/biosim/landscape.py:92-105 | carnivores sorted by descending fitness and herbivores by ascending; each carnivore that hunts leaves a shrinking subsequence; the loop stops only at no herbivores or a carnivore less fit than the first herbivore |
| Landscapes.Landscape.Predation | biosim_project/biosim/landscape.py:99-105 | the loop over the carnivores in their current order: the first `fed` carnivores hunt, each leaving a subsequence of the herbivores before it; the loop ends at the last carnivore or at one with no herbivores or less fit than the first |
| Landscapes.Newborns | biosim_project/biosim/landscape.py:107-121 | every animal makes one birth attempt with n the list length; the newborns are distinct, fresh and in their mothers' order |
| Landscapes.ProcreatedFacts | biosim_project/biosim/landscape.py:107-121 | one uniform draw per parent, at most one newborn per parent, newborns of age 0 with no cached fitness, and none for a lone parent |
| Landscapes.NoBirthBelowThreshold | biosim_project/biosim/animals.py:137-142 | an animal under the weight threshold, or alone in its list, never gives birth |
| Landscapes.Procreate | biosim_project/biosim/landscape.py:107-121 | `newborns` over one species of a cell: the parents' new weights and caches and the newborns' weights are those the birth attempts give for the old weights and fitness and the random streams; one uniform draw per parent and one normal draw per birth; at most one newborn per parent, none for a lone parent; the other species is unchanged |
| Landscapes.Landscape.Beget | biosim_project/biosim/landscape.py:123-130 | the newborns of one species join the end of its resident list, with the parents' weights and caches, the newborns' weights and the draws exactly as in `Procreate`; the other species and the staged immigrants are unchanged |
| Landscapes.Landscape.BirthIn | biosim_project/biosim/landscape.py:129-130 | one line of `animal_birth`: the newborns join the end of the list; one uniform draw per parent; at most one newborn per parent, none for a lone parent; the other species and the staged immigrants are unchanged |
| Landscapes.Landscape.AnimalBirth | biosim_project/biosim/landscape.py:123-130 | each species' newborns join the end of its list, herbivores first; one draw per parent; a lone animal has no young; staged immigrants are untouched |
| CellRules.NeighbourLocationsFacts | biosim_project/biosim/landscape.py:132-147 | four distinct positions, each one step away, all on the grid for a cell off the border |
| Landscapes.Landscape.AvailableFodder | biosim_project/biosim/landscape.py:209-220 | the fodder for herbivores, the residents' total weight for carnivores, and an error for any other name |
| Landscapes.Landscape.TotalNumAnimals | biosim_project/biosim/landscape.py:297-304 | residents plus staged immigrants of the named species, and an error for any other name |
| Landscapes.Landscape.ViewFor | biosim_project/biosim/landscape.py:205-207 | what a migrating animal sees of a neighbour: whether it is habitable, its head count and its fodder |
| CellRules.Propensities | biosim_project/biosim/landscape.py:241-259 | one non-negative propensity per neighbour, positive exactly at the habitable ones |
| CellRules.PropensityPrefersAbundance | biosim_project/biosim/landscape.py:257 | with lambda > 0 a habitable neighbour with more fodder per head has the larger propensity |
| CellRules.ProbMoveFacts | biosim_project/biosim/landscape.py:222-239 | four non-negative probabilities; all zero exactly when no neighbour is habitable, otherwise summing to one and positive exactly at the habitable neighbours |
| CellRules.ProbMoveNormalised | biosim_project/biosim/landscape.py:239 | dividing non-negative terms by their positive sum gives non-negative values summing to one, positive where the term is |
| CellRules.MoveDestinationFacts | biosim_project/biosim/landscape.py:261-279 | raises exactly when the probabilities do not sum to one; otherwise picks a neighbour with positive probability, the first whose cumulative sum exceeds the draw |
| CellRules.CumulativeChoice | biosim_project/biosim/landscape.py:269-279 | the cumulative loop, stopping at position 3, computes the recursive walk `Walked` |
| Landscapes.AnimalMovesTo | biosim_project/biosim/landscape.py:261-279 | the sum check comes first, and a value is drawn only when it passes |
| CellRules.MoveOutcomeFacts | biosim_project/biosim/landscape.py:157-169 | with F = 0 the turn fails (division by zero) exactly when the animal decides to move; otherwise it stays or goes to a habitable neighbour, drawing a second value exactly when it goes |
| Landscapes.MigrateOne | biosim_project/biosim/landscape.py:157-169 | one animal's turn: its outcome and draw count are `MoveOutcome` and `MoveDraws`, and a leaving animal is staged at the chosen neighbour |
| Landscapes.Landscape.Migration | biosim_project/biosim/landscape.py:149-193 | the residents of one species take their turns in order; the stayers remain in order; the leavers are staged at the neighbours in order; the other species and the cell's own staging are untouched |
| Roaming.RoamedFacts | biosim_project/biosim/landscape.py:149-170 | with F non-zero a pass never fails, and every animal stays or goes to a habitable neighbour |
| Roaming.RoamedCounts | biosim_project/biosim/landscape.py:149-170 | each neighbour's count grows by the animals sent to it, and the pass draws one value per animal plus one per leaver |
| Roaming.RoamedWithoutF | biosim_project/biosim/landscape.py:205-206 | with F = 0 nobody moves, and the pass fails with a division by zero at the first animal whose draw says move |
| Roaming.RoamedMoves | biosim_project/biosim/landscape.py:149-193 | a pass stops only at a failure, which needs F = 0; every destination is -1 or a habitable neighbour |
| Landscapes.Landscape.AddImmigrant | biosim_project/biosim/landscape.py:281-287 | the animal is appended to the staged list of its species only |
| Landscapes.Landscape.AddImmigrantsToPop | biosim_project/biosim/landscape.py:289-295 | the staged animals join the residents after them, in order, staging is emptied, and the counts do not change |
| Landscapes.Landscape.AnimalAging | biosim_project/biosim/landscape.py:306-309 | every resident is a year older and has forgotten its fitness |
| Landscapes.Landscape.AnimalWeightChange | biosim_project/biosim/landscape.py:311-314 | every resident loses the fraction eta of its species of its weight and forgets its fitness |
| Landscapes.Spared | biosim_project/biosim/landscape.py:322-323 | an animal survives exactly when its draw is not below its death probability |
| Landscapes.Cull | biosim_project/biosim/landscape.py:322 | the list becomes its `Survivors`, in order, with one draw per animal and every fitness cached |
| Landscapes.Landscape.AnimalDeath | biosim_project/biosim/landscape.py:316-323 | herbivores then carnivores become their survivors, the carnivores drawing after all the herbivores; one draw per animal |
| Landscapes.SpeciesNamedFacts | biosim_project/biosim/landscape.py:333-340 | a species name is recognised exactly for the four spellings the code accepts |
| Landscapes.RecordError | biosim_project/biosim/landscape.py:332-342 | a record is rejected exactly for an unknown species or a weight or age the animal constructor refuses, with the species checked first |
| Landscapes.AdmittedFacts | biosim_project/biosim/landscape.py:332-342 | `add_population` admits exactly the records before the first one that raises |
| Landscapes.Recruit | biosim_project/biosim/landscape.py:332-342 | builds one fresh animal per admitted record, split by species in record order, and reports where it stopped |
| Landscapes.Landscape.AddPopulation | biosim_project/biosim/landscape.py:325-342 | Mountain and Ocean refuse; otherwise the admitted records join the lists in order; fails exactly at the first bad record, and keeps the ones before it |
| IslandMaps.Words | biosim_project/biosim/island_nature.py:26 | `str.split()` gives non-empty words without white space |
| IslandMaps.WordsOfLines | biosim_project/biosim/island_nature.py:26 | splitting rows written one per line gives the rows back |
| IslandMaps.Width | biosim_project/biosim/island_nature.py:28 | the width is the length of the longest row |
| IslandMaps.KindOf | biosim_project/biosim/island_nature.py:53-66 | exactly the letters J, S, D, M and O name a landscape, and O names the ocean |
| IslandMaps.MapErrorOfNone | biosim_project/biosim/island_nature.py:20-68 | the constructor accepts exactly the good maps: rectangular, ocean on the border, known letters |
| IslandMaps.MapErrorOrder | biosim_project/biosim/island_nature.py:28-48 | the errors come in the constructor's order: empty, then ragged, then a broken border |
| IslandMaps.InteriorLocationsFacts | biosim_project/biosim/island_nature.py:123-124 | the comprehension lists exactly the positions off the border, in row-major order |
| IslandMaps.InteriorCount | biosim_project/biosim/island_nature.py:123-124 | there are (rows - 2) * (cols - 2) such positions |
| Islands.NewIsland | biosim_project/biosim/island_nature.py:20-68 | fails exactly on a bad map, with the error the constructor raises first; otherwise gives a valid island of the split rows with no animals and nothing staged |
| Islands.Island.constructor | biosim_project/biosim/island_nature.py:45-68 | the cells are built row by row, one new empty cell per letter, of the kind the letter names |
| Islands.Island.PositionError | biosim_project/biosim/island_nature.py:78-89 | a position passes only when it lies on the map (an index below zero counts from the end) and its cell is habitable |
| Islands.Island.TargetAt | biosim_project/biosim/island_nature.py:85-86 | the cell at a good position is map cell (r, c), with a negative index counted from the end |
| Islands.Island.PlaceAnimals | biosim_project/biosim/island_nature.py:70-89 | the placements before the first failing one are placed, and so are the admitted records of the failing one; the error is that placement's; every cell gains exactly the animals brought to it; the island stays valid |
| Islands.Island.FoodGrowthInAllCells | biosim_project/biosim/island_nature.py:91-95 | every cell's fodder grows as its kind does, and no animal list changes |
| Islands.Island.AllHerbEating | biosim_project/biosim/island_nature.py:97-101 | every cell has grazed what its herbivores eat; no animal moves; the sweep fails only with staged immigrants |
| Islands.Island.AllCarnEating | biosim_project/biosim/island_nature.py:103-107 | every cell keeps part of its herbivores and all its carnivores, and the island stays valid |
| Islands.Island.AnimalsGiveBirth | biosim_project/biosim/island_nature.py:109-113 | every cell holds what it held plus its newborns, and every animal is an old one or a fresh one |
| Islands.Island.RandomizeCellStructure | biosim_project/biosim/island_nature.py:115-127 | one cell per shuffled interior position |
| Islands.Island.RandomizedCells | biosim_project/biosim/island_nature.py:115-127 | the shuffled cells are distinct, all off the border, and every interior cell appears |
| Seqs.ShuffledFacts | biosim_project/biosim/island_nature.py:125 | a shuffle loses and adds nothing, and keeps a list without repeats without them |
| Islands.Island.GetNeighbours | biosim_project/biosim/island_nature.py:145-154 | one cell per position, found at that position, with a negative index counted from the end |
| Islands.Island.NeighboursAround | biosim_project/biosim/island_nature.py:133-134 | an interior cell's neighbours are four different cells on the map, none of them the cell itself |
| Islands.Island.AnimalsMigrate | biosim_project/biosim/island_nature.py:129-143 | herbivores, then carnivores, migrate over the shuffled cells and are committed; no animal is lost or gained; a settled island ends settled; a pass fails only when F is 0 |
| Islands.Island.AllAnimalsAging | biosim_project/biosim/island_nature.py:156-160 | every resident is a year older and has forgotten its fitness, and no list changes |
| Islands.Island.AllAnimalsLoseWeight | biosim_project/biosim/island_nature.py:162-166 | every resident loses the fraction eta of its weight and forgets its fitness, and no list changes |
| Islands.Island.AnimalsDie | biosim_project/biosim/island_nature.py:168-172 | every cell keeps part of its animals of each species, and the island stays valid |
| Islands.Island.Feeding | biosim_project/biosim/island_nature.py:176-178 | growth, grazing and hunting leave each herd part of what it was; grazing fails only with staged immigrants |
| Islands.Island.Aftermath | biosim_project/biosim/island_nature.py:181-183 | aging, weight loss and death leave each herd part of what it was |
| Islands.Island.AnnualCycle | biosim_project/biosim/island_nature.py:174-183 | the eight sweeps run in the order of `annual_cycle`; the island stays valid; every animal at the end was there at the start or was born during the year; the year stops early only at the grazing `IndexError` (only with staged immigrants) or at a failed migration pass (only with an F of 0) |
| Islands.Island.NumberOfAnimals | biosim_project/biosim/island_nature.py:185-198 | the totals are the sizes of the herbivore and carnivore herds, counting staged immigrants |
| Islands.Island.NumHerbInCells | biosim_project/biosim/island_nature.py:200-208 | the grid holds each cell's herbivore count and sums to the herd's size |
| Islands.Island.NumCarnInCells | biosim_project/biosim/island_nature.py:210-218 | the grid holds each cell's carnivore count and sums to the herd's size |

## Left out

- RandomSource.Rng: `random.gauss` reads its own stream of standard normal deviates, with its own cursor. Python's `gauss` takes its values from the same generator as `random.random()`, and keeps a spare deviate between calls. So after a birth, the model's next uniform draws are not the ones Python would produce. The generator's internals are not modelled: both streams are arbitrary inputs, and every property holds for any streams.
- Islands.Island.AnimalsMigrate: `random.shuffle` at island_nature.py:125 draws from the same generator as `random.random()`. In the model the shuffle is a separate input, a permutation `perm` given to `Islands.Island.RandomizeCellStructure`, and it does not advance the uniform stream. So the migration's uniform draws after the shuffle are not the ones Python would read. Every property holds for any permutation and any stream.
- Animals.Animal.Birth: draws its newborn's weight from the separate normal stream, as described for RandomSource.Rng above.
- CellRules.MoveDestination: floats are exact reals. The check `round(sum(prob_move), 15) != 1` becomes `Sum(probs) != 1.0`. `ProbMoveFacts` proves that the probabilities sum to exactly one, so `Migration` never reaches the `ValueError`. Python reaches it only when rounding error in the float sum exceeds the rounding to 15 digits, and the model has no rounding error.
- Landscapes.Landscape.Migration: the same exact-real reading means a move never fails for want of normalisation.
- FitnessWorkers.Exp: `math.exp` is an abstract function into the positive reals. Its `OverflowError` for a large `lambda * ek` is not modelled, nor its underflow to 0.0 for a very negative argument, which would make a habitable neighbour's propensity 0.
- IslandMaps.MapErrorOf: the `ValueError` messages become constructors of `MapError`. For an empty map Python's `max()` at island_nature.py:28 raises its own `ValueError` before the explicit check at line 47. The model reports both as `EmptyMap`. In the same way, the messages of `ValueError` and `IndexError` become the constructors of `CellError`, `ParamError`, `CellParamError`, `MoveError` and `PlaceError`. The model keeps which exception is raised and where, not its text.
- Animals.Animal.CarnivoreEating: `herbivores.index(herb)` finds an animal by identity, since animals define no equality. The model requires `Distinct(herbs)` instead. The island invariant `Valid()` guarantees it: no animal is held twice. With a repeated animal, Python's `index` would find its first occurrence, and the model does not cover that case.
- Islands.Island.AllHerbEating: states each cell's fodder and that no animal moves. It does not state the herbivores' new weights, their new order or their caches at island level. `Landscapes.Landscape.HerbEating` states those for each cell. Chaining the per-cell contracts over the grid, with frames over every cell, did not fit the verifier's resource limit.
- Islands.Island.AllCarnEating: states only that each cell keeps part of its herbivores and all its carnivores. It does not state which herbivores survive, the carnivores' new weights or the number of draws. `Landscapes.Landscape.Turn`, `Landscapes.CarnivoreTurn` and `Animals.Animal.CarnivoreEating` state those for each cell, and the same resource limit applies.
- Islands.Island.AnimalsGiveBirth: states that each cell gains a list of fresh animals. It does not tie them to the birth draws, their number or their weights. `Landscapes.Landscape.Beget` and `Landscapes.Procreate` state those for each species of a cell, and the same resource limit applies.
- Landscapes.Landscape.AnimalBirth: states the newborns' place in the lists, the number of draws, at most one newborn per parent and none for a lone parent. It does not restate the parents' new weights and caches or the newborns' weights. `Landscapes.Landscape.Beget` states those for each species. Carrying them through both species in one method exceeded the verifier's resource limit.
- Landscapes.Landscape.BirthIn: states the same summary as `Landscapes.Landscape.AnimalBirth` for one species, for the same reason. Its callee `Landscapes.Landscape.Beget` states the weights, caches and draws.
- Landscapes.Landscape.Predation: states that each carnivore that hunts leaves a subsequence of the herbivores, and why the loop ends. It does not state each hunting carnivore's new weight and cache, the exact survivors or the number of uniform draws. `Landscapes.Landscape.Turn` states those for each carnivore's turn. Carrying them through the loop, with frames over the carnivores already fed, exceeded the verifier's resource limit.
- Landscapes.Landscape.CarnEating: states the sorting and what `Landscapes.Landscape.Predation` states, and no more, for the same reason.
- Islands.Island.AnimalsDie: states only that each cell keeps part of its animals. It does not state which ones survive or the number of draws. `Landscapes.Landscape.AnimalDeath` gives the exact `Survivors` for each cell, and the same resource limit applies.
- Islands.Island.AnimalsMigrate: states that the herds are unchanged and that a settled island ends settled. It does not state where each animal went. `Landscapes.Landscape.Migration` states that for each cell.
- Islands.Island.AnnualCycle: does not state that a settled island stays settled through the year. It states nothing cell by cell beyond what is listed under "## Model". Carrying those facts across all eight sweeps exceeded the verifier's resource limit.
- Islands.Island.Feeding: states only that each herd keeps part of what it was and when grazing fails. It does not state the fodder, the weights or which animals survive. The per-sweep contracts of `Islands.Island.AllHerbEating` and `Islands.Island.AllCarnEating` state more, and chaining them exceeded the verifier's resource limit.
- Islands.Island.Aftermath: states only that each herd keeps part of what it was. It does not state the new ages, the weights or which animals survive. The per-sweep contracts state more, for the same reason.
- Islands.Island.PlaceAnimals: states what each cell gains as a multiset, not where in the lists the animals go. `Landscapes.Landscape.AddPopulation` states the order for each cell.
- Landscapes.Landscape.AddPopulation: a population of `None` cannot be expressed. In Python, Mountain and Ocean accept `None` silently and refuse any list. The model always refuses.
- Parameter dictionaries: the class-level parameter dictionaries are shared mutable state in Python. Here they are an immutable record passed to every call, and `set_parameters` returns the new record. A running simulation's later updates are not modelled.
- Islands.Island.NumHerbInCells: `numpy.zeros` builds a float array; the model returns a grid of naturals.
- Islands.Island.NumCarnInCells: `numpy.zeros` builds a float array; the model returns a grid of naturals.
- `simulation.py`, plotting, file I/O and the `numpy`/`matplotlib` calls are not part of this model. The simulation loop that calls `annual_cycle` year after year is outside the core.
