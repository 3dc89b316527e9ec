/** `Island`: the grid of cells built from the textual map, and the yearly phases run over
    every cell in turn. */
module Islands {
  import opened Wrappers
  import opened Seqs
  import opened AnimalParams
  import opened RandomSource
  import opened Animals
  import opened CellRules
  import opened Roaming
  import opened Landscapes
  import opened Grids
  import opened IslandMaps

  /** The animals of species `sp` a cell holds: its residents and its staged immigrants. */
  ghost function Holding(x: Landscape, sp: Species): multiset<Animal>
    reads x`herb, x`carn, x`herbImmigrants, x`carnImmigrants
  {
    multiset(x.Residents(sp)) + multiset(x.Staged(sp))
  }

  /** A resident of a valid cell is of the species of its list, and held by the cell. */
  lemma Residence(x: Landscape, a: Animal)
    requires x.Valid()
    ensures a in x.herb ==> a.species == Herbivore && a in Holding(x, Herbivore)
    ensures a in x.carn ==> a.species == Carnivore && a in Holding(x, Carnivore)
  {
    if a in x.herb {
      assert a in multiset(x.herb);
    }
    if a in x.carn {
      assert a in multiset(x.carn);
    }
  }

  /** A herd of species `sp` with no animal twice and none of another species. */
  ghost predicate Sound(m: multiset<Animal>, sp: Species)
  {
    NoRepeats(m) && OfSpecies(m, sp)
  }

  /** What is left of a herd without repeats when part of it is taken away has no repeats. */
  lemma SoundPart(m: multiset<Animal>, part: multiset<Animal>, sp: Species)
    requires Sound(m, sp) && part <= m
    ensures Sound(part, sp)
  {
    forall x | x in part
      ensures part[x] <= 1 && x.species == sp
    {
      assert m[x] >= part[x];
    }
  }

  /** The holdings of species `sp` of each cell of a row. */
  ghost function RowHoldings(row: seq<Landscape>, sp: Species): (h: seq<multiset<Animal>>)
    reads row`herb, row`carn, row`herbImmigrants, row`carnImmigrants
    ensures |h| == |row|
  {
    if row == [] then [] else RowHoldings(row[..|row| - 1], sp) + [Holding(row[|row| - 1], sp)]
  }

  /** Entry `c` of the holdings of a row is what cell `c` of the row holds. */
  lemma {:induction false} RowHoldingsAt(row: seq<Landscape>, sp: Species)
    ensures forall c :: 0 <= c < |row| ==> RowHoldings(row, sp)[c] == Holding(row[c], sp)
    decreases |row|
  {
    if row != [] {
      RowHoldingsAt(row[..|row| - 1], sp);
    }
  }

  /** The cells of a grid, as a set. */
  ghost function Region(g: seq<seq<Landscape>>): set<Landscape>
  {
    set x | x in Flatten(g)
  }

  /** The cells of a grid are those of all its rows but the last, and those of the last. */
  lemma RegionLast(g: seq<seq<Landscape>>)
    requires g != []
    ensures Region(g[..|g| - 1]) <= Region(g) && forall x :: x in g[|g| - 1] ==> x in Region(g)
  {
    assert Flatten(g) == Flatten(g[..|g| - 1]) + g[|g| - 1];
  }

  /** The holdings of species `sp` of each cell of a grid. */
  ghost function GridHoldings(g: seq<seq<Landscape>>, sp: Species): (h: seq<seq<multiset<Animal>>>)
    reads Region(g)`herb, Region(g)`carn, Region(g)`herbImmigrants, Region(g)`carnImmigrants
    ensures |h| == |g|
  {
    if g == [] then []
    else
      RegionLast(g);
      GridHoldings(g[..|g| - 1], sp) + [RowHoldings(g[|g| - 1], sp)]
  }

  /** Row `r` of the holdings of a grid is the holdings of its row `r`. */
  lemma {:induction false} GridHoldingsAt(g: seq<seq<Landscape>>, sp: Species)
    ensures forall r :: 0 <= r < |g| ==> GridHoldings(g, sp)[r] == RowHoldings(g[r], sp)
    decreases |g|
  {
    if g != [] {
      GridHoldingsAt(g[..|g| - 1], sp);
    }
  }

  /** A cell as the constructor leaves it: no animals, and the fodder its kind starts
      with. */
  ghost predicate Pristine(x: Landscape, cp: CellParams)
    reads x`herb, x`carn, x`herbImmigrants, x`carnImmigrants, x`availableFood
  {
    && x.herb == [] && x.carn == [] && x.herbImmigrants == [] && x.carnImmigrants == []
    && x.availableFood == InitialFood(x.kind, cp)
  }

  /** A grid of cells laid out as the rows `geogr` say: cell `(r, c)` sits at `(r, c)` and is
      of the landscape the letter at `(r, c)` names. */
  ghost predicate Laid(geogr: seq<string>, grid: seq<seq<Landscape>>)
    requires GoodMap(geogr)
  {
    && |grid| == |geogr|
    && (forall r :: 0 <= r < |grid| ==> |grid[r]| == |geogr[0]|)
    && forall r, c :: 0 <= r < |grid| && 0 <= c < |grid[r]| ==>
         grid[r][c].loc == (r, c) && KindOf(geogr[r][c]) == Some(grid[r][c].kind)
  }

  /** The nested loops of `__init__` over a good map: row by row, one new cell per letter,
      of the landscape the letter names. */
  method BuildMap(geogr: seq<string>, cp: CellParams) returns (grid: seq<seq<Landscape>>)
    requires GoodMap(geogr)
    ensures Laid(geogr, grid)
    ensures forall r, c :: 0 <= r < |grid| && 0 <= c < |grid[r]| ==> fresh(grid[r][c]) && Pristine(grid[r][c], cp)
  {
    grid := [];
    for r := 0 to |geogr|
      invariant |grid| == r
      invariant forall r' :: 0 <= r' < r ==> |grid[r']| == |geogr[0]|
      invariant forall r', c :: 0 <= r' < r && 0 <= c < |grid[r']| ==>
        && grid[r'][c].loc == (r', c) && KindOf(geogr[r'][c]) == Some(grid[r'][c].kind)
        && fresh(grid[r'][c]) && Pristine(grid[r'][c], cp)
    {
      var row := BuildRow(geogr, r, cp);
      grid := grid + [row];
    }
  }

  /** The inner loop of `__init__`: the cells of row `r`, left to right. */
  method BuildRow(geogr: seq<string>, r: nat, cp: CellParams) returns (row: seq<Landscape>)
    requires GoodMap(geogr) && r < |geogr|
    ensures |row| == |geogr[0]|
    ensures forall c :: 0 <= c < |row| ==>
      && row[c].loc == (r, c) && KindOf(geogr[r][c]) == Some(row[c].kind) && fresh(row[c]) && Pristine(row[c], cp)
  {
    row := [];
    for c := 0 to |geogr[0]|
      invariant |row| == c
      invariant forall c' :: 0 <= c' < c ==>
        && row[c'].loc == (r, c') && KindOf(geogr[r][c']) == Some(row[c'].kind) && fresh(row[c']) && Pristine(row[c'], cp)
    {
      var cell := new Landscape(KindOf(geogr[r][c]).value, (r, c), cp);
      row := row + [cell];
    }
  }

  /** A `rows` by `cols` grid of zeros, as `np.zeros((rows, cols))`. */
  function Zeros(rows: nat, cols: nat): (g: seq<seq<nat>>)
    ensures |g| == rows && forall r :: 0 <= r < rows ==> |g[r]| == cols
  {
    seq(rows, _ => seq(cols, _ => 0))
  }

  /** No resident of `x` is a resident of `y`. */
  ghost predicate Disjoint(x: Landscape, y: Landscape)
    reads x`herb, x`carn, y`herb, y`carn
  {
    forall j :: 0 <= j < |x.herb + x.carn| ==> (x.herb + x.carn)[j] !in y.herb + y.carn
  }

  /** The residents of two cells whose holdings lie apart within sound herds: no resident
      of the one, `y`, is a resident of the other, `x`. */
  lemma Separate(hy: seq<Animal>, sy: seq<Animal>, cy: seq<Animal>, ty: seq<Animal>,
                 hx: seq<Animal>, sx: seq<Animal>, cx: seq<Animal>, tx: seq<Animal>,
                 mh: multiset<Animal>, mc: multiset<Animal>)
    requires (multiset(hy) + multiset(sy)) + (multiset(hx) + multiset(sx)) <= mh
    requires (multiset(cy) + multiset(ty)) + (multiset(cx) + multiset(tx)) <= mc
    requires Sound(mh, Herbivore) && Sound(mc, Carnivore)
    ensures forall j :: 0 <= j < |hy + cy| ==> (hy + cy)[j] !in hx + cx
  {
    forall j | 0 <= j < |hy + cy|
      ensures (hy + cy)[j] !in hx + cx
    {
      var a := (hy + cy)[j];
      if a in hy {
        assert multiset(hy)[a] >= 1 && a in mh && mh[a] <= 1 && a.species == Herbivore;
        assert mh[a] >= multiset(hy)[a] + multiset(hx)[a] && mc[a] >= multiset(cx)[a];
      } else {
        assert multiset(cy)[a] >= 1 && a in mc && mc[a] <= 1 && a.species == Carnivore;
        assert mc[a] >= multiset(cy)[a] + multiset(cx)[a] && mh[a] >= multiset(hx)[a];
      }
    }
  }

  /** Cell `(r', c')` comes before cell `(r, c)` in the row-by-row order of the sweeps. */
  predicate Precedes(r': nat, c': nat, r: nat, c: nat)
  {
    r' < r || (r' == r && c' < c)
  }

  /** What a cell's `herb_eating` leaves of its fodder `food` when its herbivores graze
      `eaten` of it: exactly the rest when the cell finishes; in any case, with a
      non-negative appetite, something between nothing and all there was. */
  ghost predicate Grazes(F: real, food: real, eaten: real, left: real, finished: bool)
  {
    && (finished ==> left == food - eaten)
    && (F >= 0.0 && food >= 0.0 ==> 0.0 <= left <= food)
  }

  /** However the appetite is set, no more herbivores graze than are counted. */
  lemma {:induction false} GrazedLength(F: real, food: real, n: nat)
    ensures |Grazed(F, food, n)| <= n
    decreases n
  {
    if n > 0 && food > 0.0 && Grazing(F, food).Success? {
      GrazedLength(F, food - Grazing(F, food).value, n - 1);
    }
  }

  /** What the first `m` grazing herbivores eat lies between nothing and all the fodder. */
  lemma GrazedPart(F: real, food: real, n: nat, m: nat)
    requires F >= 0.0 && food >= 0.0 && m <= |Grazed(F, food, n)|
    ensures 0.0 <= Sum(Grazed(F, food, n)[..m]) <= food
  {
    var eats := Grazed(F, food, n);
    GrazedFacts(F, food, n);
    assert eats == eats[..m] + eats[m..];
    SumAppend(eats[..m], eats[m..]);
    SumNonNegative(eats[..m]);
    SumNonNegative(eats[m..]);
  }

  /** What the herbivores of each cell graze, cell `(r, c)` counting `counts[r][c]` of them
      and having the fodder `f0[r][c]`. */
  ghost function Eaten(F: real, counts: seq<seq<nat>>, f0: seq<seq<real>>): (e: seq<seq<real>>)
    requires |counts| == |f0| && forall r :: 0 <= r < |f0| ==> |counts[r]| == |f0[r]|
    ensures |e| == |f0| && forall r :: 0 <= r < |f0| ==> |e[r]| == |f0[r]|
    ensures forall r, c :: 0 <= r < |f0| && 0 <= c < |f0[r]| ==> e[r][c] == Sum(Grazed(F, f0[r][c], counts[r][c]))
  {
    seq(|f0|, r requires 0 <= r < |f0| => seq(|f0[r]|, c requires 0 <= c < |f0[r]| => Sum(Grazed(F, f0[r][c], counts[r][c]))))
  }

  /** `eaten` has the shape of the grids, and holds what the herbivores of cell `(r, c)`
      graze: `gh[r][c]` of them, from the fodder `f0[r][c]`. */
  ghost predicate Appetites(F: real, gh: seq<seq<multiset<Animal>>>, f0: seq<seq<real>>, eaten: seq<seq<real>>)
  {
    && |gh| == |f0| == |eaten| && (forall r :: 0 <= r < |f0| ==> |gh[r]| == |f0[r]| == |eaten[r]|)
    && forall r, c :: 0 <= r < |f0| && 0 <= c < |f0[r]| ==> eaten[r][c] == Sum(Grazed(F, f0[r][c], |gh[r][c]|))
  }

  /** `cell.herb_eating()` seen from the island: the cell keeps the animals it holds, and its
      fodder is grazed as `Grazes` says; a cell without staged herbivores finishes. */
  method GrazeCell(env: Env, x: Landscape, ghost flock: set<Animal>, ghost eaten: real) returns (res: Result<(), CellError>)
    requires x.Valid() && eaten == Sum(Grazed(env.herbivore.F, x.availableFood, x.Count(Herbivore)))
    requires (forall i :: 0 <= i < |x.herb| ==> x.herb[i] in flock) && forall i :: 0 <= i < |x.carn| ==> x.carn[i] in flock
    modifies x`herb, x`carn, x`availableFood, flock`weight, flock`fitnessCache
    ensures Holding(x, Herbivore) == old(Holding(x, Herbivore)) && Holding(x, Carnivore) == old(Holding(x, Carnivore))
    ensures Grazes(env.herbivore.F, old(x.availableFood), eaten, x.availableFood, res.Success?)
    ensures x.herbImmigrants == [] ==> res.Success?
    ensures res.Failure? ==> res.error == HerbIndexError
  {
    ghost var h0, k0, c0, kc0, food0 := x.herb, Fitnesses(env, x.herb), x.carn, Fitnesses(env, x.carn), x.availableFood;
    ghost var n := x.Count(Herbivore);
    res := x.HerbEating(env);
    SortedFacts(true, h0, k0);
    SortedFacts(true, c0, kc0);
    GrazedLength(env.herbivore.F, food0, n);
    ghost var eats := Grazed(env.herbivore.F, food0, n);
    ghost var m := if |eats| < |x.herb| then |eats| else |x.herb|;
    if env.herbivore.F >= 0.0 && food0 >= 0.0 {
      GrazedPart(env.herbivore.F, food0, n, m);
    }
    assert res.Success? ==> eats[..m] == eats;
  }

  /** No animal of the multiset `m` lies outside `flock`. */
  ghost predicate Within(m: multiset<Animal>, flock: set<Animal>)
  {
    forall a :: a in m ==> a in flock
  }

  /** Every animal of `m` belongs to `flock` or to the newborns `born`. */
  ghost predicate Bounded(m: multiset<Animal>, flock: set<Animal>, born: seq<Animal>)
  {
    forall a :: a in m ==> a in flock || a in born
  }

  /** Grids whose pools are bounded by `flock` and `born`, whose entry `(r, c)` gains `hb`
      and `cb`, have pools bounded by `flock` and `born`, `hb` and `cb`. */
  lemma BoundedGrown(gh: seq<seq<multiset<Animal>>>, gc: seq<seq<multiset<Animal>>>, r: nat, c: nat, hb: seq<Animal>, cb: seq<Animal>,
                     mh: multiset<Animal>, mc: multiset<Animal>, flock: set<Animal>, born: seq<Animal>)
    requires r < |gh| && c < |gh[r]| && r < |gc| && c < |gc[r]| && Bounded(Pool(gh) + Pool(gc), flock, born)
    requires mh == gh[r][c] + multiset(hb) && mc == gc[r][c] + multiset(cb)
    ensures Bounded(Pool(gh[r := gh[r][c := mh]]) + Pool(gc[r := gc[r][c := mc]]), flock, born + hb + cb)
  {
    PoolGrown(gh, r, c, multiset(hb));
    PoolGrown(gc, r, c, multiset(cb));
    forall a | a in (Pool(gh) + multiset(hb)) + (Pool(gc) + multiset(cb))
      ensures a in flock || a in born + hb + cb
    {
      if a !in hb && a !in cb {
        assert a in Pool(gh) + Pool(gc);
      }
    }
  }

  /** An entry of grids pooled within `flock` lies within `flock`. */
  lemma FlockAt(gh: seq<seq<multiset<Animal>>>, gc: seq<seq<multiset<Animal>>>, flock: set<Animal>, r: nat, c: nat)
    requires r < |gh| && c < |gh[r]| && r < |gc| && c < |gc[r]| && Within(Pool(gh) + Pool(gc), flock)
    ensures Within(gh[r][c] + gc[r][c], flock)
  {
    PoolHas(gh, r, c);
    PoolHas(gc, r, c);
  }

  /** `cell.carn_eating()` seen from the island: the cell keeps its carnivores, and keeps
      some of its herbivores, no others. */
  method PreyCell(env: Env, x: Landscape, rng: Rng, ghost flock: set<Animal>) returns (ghost left: multiset<Animal>)
    requires x.Valid() && env.carnivore.deltaPhiMax.Some?
    requires (forall i :: 0 <= i < |x.herb| ==> x.herb[i] in flock) && forall i :: 0 <= i < |x.carn| ==> x.carn[i] in flock
    modifies x`herb, x`carn, flock`weight, flock`fitnessCache, rng`drawn
    ensures Holding(x, Herbivore) == left && left <= old(Holding(x, Herbivore)) && Holding(x, Carnivore) == old(Holding(x, Carnivore))
  {
    ghost var h0, k0, c0, kc0 := x.herb, Fitnesses(env, x.herb), x.carn, Fitnesses(env, x.carn);
    ghost var fed, lists := x.CarnEating(env, rng);
    SortedFacts(false, h0, k0);
    SortedFacts(true, c0, kc0);
    SubsequenceMultiset(x.herb, lists[0]);
    left := Holding(x, Herbivore);
  }

  /** Grid `g'` has the shape of grid `g` and holds part of each of its entries. */
  ghost predicate Under(g': seq<seq<multiset<Animal>>>, g: seq<seq<multiset<Animal>>>)
  {
    && |g'| == |g| && (forall r :: 0 <= r < |g| ==> |g'[r]| == |g[r]|)
    && forall r, c :: 0 <= r < |g| && 0 <= c < |g[r]| ==> g'[r][c] <= g[r][c]
  }

  /** Holding part of part of each entry is holding part of it. */
  lemma UnderTrans(g'': seq<seq<multiset<Animal>>>, g': seq<seq<multiset<Animal>>>, g: seq<seq<multiset<Animal>>>)
    requires Under(g'', g') && Under(g', g)
    ensures Under(g'', g)
  {
    forall r, c | 0 <= r < |g| && 0 <= c < |g[r]|
      ensures g''[r][c] <= g[r][c]
    {
      assert g''[r][c] <= g'[r][c];
    }
  }

  /** `a + b == d + m` with `m` part of `b` leaves `a` part of `d`. */
  lemma UnionBelow<T>(a: multiset<T>, b: multiset<T>, d: multiset<T>, m: multiset<T>)
    requires a + b == d + m && m <= b
    ensures a <= d
  {
    forall x | x in a
      ensures a[x] <= d[x]
    {
      assert (a + b)[x] == (d + m)[x];
    }
  }

  /** Keeping part `m` of entry `(r, c)` of a grid of sound herds keeps part of each entry,
      part of the pool and a sound pool, with no animal from outside `flock`. */
  lemma ShrinkCell(gk: seq<seq<multiset<Animal>>>, gc: seq<seq<multiset<Animal>>>, flock: set<Animal>, r: nat, c: nat, m: multiset<Animal>)
    requires r < |gk| && c < |gk[r]| && m <= gk[r][c]
    requires Sound(Pool(gk), Herbivore) && Within(Pool(gk) + Pool(gc), flock)
    ensures var g' := gk[r := gk[r][c := m]];
      && Under(g', gk) && Pool(g') <= Pool(gk)
      && Sound(Pool(g'), Herbivore) && Within(Pool(g') + Pool(gc), flock)
  {
    ShrinkOne(gk, Herbivore, r, c, m);
    WithinPart(Pool(gk), Pool(gc), Pool(gk[r := gk[r][c := m]]), Pool(gc), flock);
  }

  /** Keeping part `m` of entry `(r, c)` of a grid whose pool is a sound herd keeps part of
      each entry, part of the pool and a sound pool. */
  lemma ShrinkOne(g: seq<seq<multiset<Animal>>>, sp: Species, r: nat, c: nat, m: multiset<Animal>)
    requires r < |g| && c < |g[r]| && m <= g[r][c] && Sound(Pool(g), sp)
    ensures var g' := g[r := g[r][c := m]];
      Under(g', g) && Pool(g') <= Pool(g) && Sound(Pool(g'), sp)
  {
    var g' := g[r := g[r][c := m]];
    PoolUpdate(g, r, c, m);
    UnionBelow(Pool(g'), g[r][c], Pool(g), m);
    SoundPart(Pool(g), Pool(g'), sp);
    forall r', c' | 0 <= r' < |g| && 0 <= c' < |g[r']|
      ensures g'[r'][c'] <= g[r'][c']
    {
    }
  }

  /** Parts of two multisets pooled within `flock` pool within `flock`. */
  lemma WithinPart(a: multiset<Animal>, b: multiset<Animal>, a': multiset<Animal>, b': multiset<Animal>, flock: set<Animal>)
    requires a' <= a && b' <= b && Within(a + b, flock)
    ensures Within(a' + b', flock)
  {
    forall x | x in a' + b'
      ensures x in flock
    {
      assert x in a' || x in b';
    }
  }

  /** `a + x == d + (x + y)` leaves `a == d + y`. */
  lemma CancelUnion<T>(a: multiset<T>, x: multiset<T>, d: multiset<T>, y: multiset<T>)
    requires a + x == d + (x + y)
    ensures a == d + y
  {
    forall e
      ensures a[e] == (d + y)[e]
    {
      assert (a + x)[e] == (d + (x + y))[e];
    }
  }

  /** `cell.animal_birth()` seen from the island: the cell holds, of each species, what it
      held and the newborns `hb` and `cb`, new animals, so none of them in the herds `ph`
      and `pc`, that keep its herds sound. */
  method BirthCell(env: Env, x: Landscape, rng: Rng, ghost ph: multiset<Animal>, ghost pc: multiset<Animal>, ghost flock: set<Animal>)
    returns (ghost hb: seq<Animal>, ghost cb: seq<Animal>, ghost mh: multiset<Animal>, ghost mc: multiset<Animal>)
    requires x.Valid()
    requires (forall i :: 0 <= i < |x.herb| ==> x.herb[i] in flock) && forall i :: 0 <= i < |x.carn| ==> x.carn[i] in flock
    modifies x`herb, x`carn, flock`weight, flock`fitnessCache, rng`drawn, rng`gaussDrawn
    ensures Holding(x, Herbivore) == mh && Holding(x, Carnivore) == mc
    ensures mh == old(Holding(x, Herbivore)) + multiset(hb) && mc == old(Holding(x, Carnivore)) + multiset(cb)
    ensures Sound(mh, Herbivore) && Sound(mc, Carnivore)
    ensures (forall b :: b in hb ==> b !in ph) && forall b :: b in cb ==> b !in pc
    ensures (forall b :: b in hb ==> fresh(b)) && forall b :: b in cb ==> fresh(b)
  {
    ghost var h0, c0 := x.herb, x.carn;
    hb, cb := x.AnimalBirth(env, rng);
    Appended(h0, hb, x.herbImmigrants);
    Appended(c0, cb, x.carnImmigrants);
    mh, mc := Holding(x, Herbivore), Holding(x, Carnivore);
  }

  /** Appending `b` to the residents `h` of a cell with the staged list `s` adds `b` to
      what it holds. */
  lemma Appended(h: seq<Animal>, b: seq<Animal>, s: seq<Animal>)
    ensures multiset(h + b) + multiset(s) == (multiset(h) + multiset(s)) + multiset(b)
  {
    assert multiset(h + b) == multiset(h) + multiset(b);
  }

  /** `herb_migration` or `carn_migration` of cell `x` towards its neighbours `ns`, seen as
      lists: with `R`, `T` and `To` the cell's residents of species `sp` and the neighbours'
      staged lists of either species before the pass, each animal gets a destination in
      `dest`, -1 for staying, and only a habitable neighbour is ever chosen. On success the
      stayers remain, in order; on failure F was 0, nobody moved and the residents are as
      they were. The neighbours' staged lists gain the movers, in order. */
  method MigrateCell(env: Env, sp: Species, x: Landscape, ns: seq<Landscape>, rng: Rng, ghost flock: set<Animal>,
                     ghost R: seq<Animal>, ghost T: seq<seq<Animal>>, ghost To: seq<seq<Animal>>,
                     ghost hb: seq<seq<Animal>>, ghost cb: seq<seq<Animal>>)
    returns (r: Result<(), MoveError>, ghost dest: seq<int>)
    requires x.Valid() && |ns| == 4 && Apart(ns) && x !in ns && rng.Valid()
    requires R == x.Residents(sp) && T == Stages(ns, sp) && To == Stages(ns, Other(sp))
    requires |hb| == 4 && |cb| == 4 && forall k :: 0 <= k < 4 ==> ns[k].herb == hb[k] && ns[k].carn == cb[k]
    requires forall i :: 0 <= i < |R| ==> R[i] in flock
    modifies x`herb, x`carn, flock`fitnessCache, rng`drawn, ns`herbImmigrants, ns`carnImmigrants
    ensures |dest| <= |R| && (r.Success? ==> |dest| == |R|)
    ensures forall i :: 0 <= i < |dest| ==> -1 <= dest[i] < 4 && (dest[i] >= 0 ==> ns[dest[i]].AnimalsCanLiveHere())
    ensures r.Failure? ==> env.ParamsOf(sp).F == 0.0 && forall i :: 0 <= i < |dest| ==> dest[i] == -1
    ensures x.Residents(sp) == if r.Success? then Select(R, dest, -1) else R
    ensures x.Residents(Other(sp)) == old(x.Residents(Other(sp)))
    ensures x.herbImmigrants == old(x.herbImmigrants) && x.carnImmigrants == old(x.carnImmigrants)
    ensures Stages(ns, sp) == Dealt(T, R[..|dest|], dest) && Stages(ns, Other(sp)) == To
    ensures forall k :: 0 <= k < 4 ==> ns[k].herb == hb[k] && ns[k].carn == cb[k]
  {
    ViewsHabitable(ns, sp);
    ghost var fits, d0, vs0 := Fitnesses(env, R), rng.drawn, Views(ns, sp);
    ghost var s;
    r, s := x.Migration(env, sp, ns, rng);
    RoamedMoves(env.exp, env.ParamsOf(sp), rng, fits, d0, vs0, |R|);
    dest := s.dest;
  }

  /** `herb_migration` or `carn_migration` of cell `x`, seen as the lists of the cell and
      its neighbours: `x`, whose residents of species `sp` were `R`, keeps `left`; the
      staged lists of the neighbours, `Ts` before, become `st`, neighbour `k` gaining the
      animals `parts[k]`, and together `left` and the parts are `R`. Nothing reaches a
      neighbour where animals cannot live, and every other list is as it was. On failure
      F was 0. */
  method MoveLists(env: Env, sp: Species, x: Landscape, ns: seq<Landscape>, rng: Rng, ghost flock: set<Animal>,
                   ghost R: seq<Animal>, ghost S: seq<Animal>, ghost Ro: seq<Animal>, ghost So: seq<Animal>,
                   ghost Ts: seq<seq<Animal>>, ghost To: seq<seq<Animal>>, ghost hb: seq<seq<Animal>>, ghost cb: seq<seq<Animal>>)
    returns (r: Result<(), MoveError>, ghost left: seq<Animal>, ghost st: seq<seq<Animal>>, ghost parts: seq<multiset<Animal>>)
    requires x.Valid() && |ns| == 4 && Apart(ns) && x !in ns && rng.Valid()
    requires R == x.Residents(sp) && S == x.Staged(sp) && Ro == x.Residents(Other(sp)) && So == x.Staged(Other(sp))
    requires Ts == Stages(ns, sp) && To == Stages(ns, Other(sp)) && hb == Herbs(ns) && cb == Carns(ns)
    requires forall i :: 0 <= i < |R| ==> R[i] in flock
    modifies x`herb, x`carn, flock`fitnessCache, rng`drawn, {ns[0], ns[1], ns[2], ns[3]}`herbImmigrants, {ns[0], ns[1], ns[2], ns[3]}`carnImmigrants
    ensures x.Residents(sp) == left && x.Staged(sp) == S && x.Residents(Other(sp)) == Ro && x.Staged(Other(sp)) == So
    ensures Stages(ns, sp) == st && Stages(ns, Other(sp)) == To && Herbs(ns) == hb && Carns(ns) == cb
    ensures |parts| == 4 && multiset(left) + (parts[0] + parts[1] + parts[2] + parts[3]) == multiset(R)
    ensures forall k :: 0 <= k < 4 ==> multiset(st[k]) == multiset(Ts[k]) + parts[k]
    ensures forall k :: 0 <= k < 4 && !ns[k].AnimalsCanLiveHere() ==> parts[k] == multiset{} && st[k] == Ts[k]
    ensures r.Failure? ==> env.ParamsOf(sp).F == 0.0
  {
    assert forall i :: 0 <= i < |ns| ==> ns[i] in {ns[0], ns[1], ns[2], ns[3]};
    ghost var dest;
    r, dest := MigrateCell(env, sp, x, ns, rng, flock, R, Ts, To, hb, cb);
    left, st := x.Residents(sp), Stages(ns, sp);
    parts := Shares(R, Ts, dest, r.Success?, left, st, ns);
  }

  /** How a pass that sent resident `i` of `R` to `dest[i]` shares `R` out: what stays,
      `left`, and what each neighbour gains, `parts[k]`, make up `R`; the staged list `st[k]`
      of neighbour `k` is `Ts[k]` and its share, and a neighbour where animals cannot live
      gains nothing. */
  lemma Shares(R: seq<Animal>, Ts: seq<seq<Animal>>, dest: seq<int>, success: bool, left: seq<Animal>, st: seq<seq<Animal>>,
               ns: seq<Landscape>) returns (parts: seq<multiset<Animal>>)
    requires |Ts| == 4 && |ns| == 4 && |dest| <= |R| && (success ==> |dest| == |R|)
    requires forall i :: 0 <= i < |dest| ==> -1 <= dest[i] < 4 && (dest[i] >= 0 ==> ns[dest[i]].AnimalsCanLiveHere())
    requires !success ==> forall i :: 0 <= i < |dest| ==> dest[i] == -1
    requires left == (if success then Select(R, dest, -1) else R) && st == Dealt(Ts, R[..|dest|], dest)
    ensures |parts| == 4 && multiset(left) + (parts[0] + parts[1] + parts[2] + parts[3]) == multiset(R)
    ensures forall k :: 0 <= k < 4 ==> multiset(st[k]) == multiset(Ts[k]) + parts[k]
    ensures forall k :: 0 <= k < 4 && !ns[k].AnimalsCanLiveHere() ==> parts[k] == multiset{} && st[k] == Ts[k]
  {
    var moved := R[..|dest|];
    var sel := [Select(moved, dest, 0), Select(moved, dest, 1), Select(moved, dest, 2), Select(moved, dest, 3)];
    parts := [multiset(sel[0]), multiset(sel[1]), multiset(sel[2]), multiset(sel[3])];
    Kept(R, dest, left, success, parts);
    forall k | 0 <= k < 4
      ensures multiset(st[k]) == multiset(Ts[k]) + parts[k]
      ensures !ns[k].AnimalsCanLiveHere() ==> parts[k] == multiset{} && st[k] == Ts[k]
    {
      assert st[k] == Ts[k] + sel[k];
      if !ns[k].AnimalsCanLiveHere() {
        SelectNone(moved, dest, k);
      }
    }
  }

  /** The herbivore residents of the four neighbours `ns`. */
  function Herbs(ns: seq<Landscape>): (hb: seq<seq<Animal>>)
    requires |ns| == 4
    reads ns`herb
    ensures |hb| == 4 && forall k :: 0 <= k < 4 ==> hb[k] == ns[k].herb
  {
    [ns[0].herb, ns[1].herb, ns[2].herb, ns[3].herb]
  }

  /** The carnivore residents of the four neighbours `ns`. */
  function Carns(ns: seq<Landscape>): (cb: seq<seq<Animal>>)
    requires |ns| == 4
    reads ns`carn
    ensures |cb| == 4 && forall k :: 0 <= k < 4 ==> cb[k] == ns[k].carn
  {
    [ns[0].carn, ns[1].carn, ns[2].carn, ns[3].carn]
  }

  /** The list of species `so` among a cell's residents `herb` / `carn`. */
  function Pick(herb: seq<Animal>, carn: seq<Animal>, so: Species): seq<Animal>
  {
    if so == Herbivore then herb else carn
  }

  /** Cell `x`, with lists `xr`, `xs` of species `so`, and neighbours with residents `hb`,
      `cb` and staged lists `To` hold what those lists hold. */
  lemma Pinned(x: Landscape, ns: seq<Landscape>, so: Species, xr: seq<Animal>, xs: seq<Animal>,
               hb: seq<seq<Animal>>, cb: seq<seq<Animal>>, To: seq<seq<Animal>>, ho: multiset<Animal>, hno: seq<multiset<Animal>>)
    requires |ns| == 4 && |hno| == 4 && Stages(ns, so) == To
    requires x.Residents(so) == xr && x.Staged(so) == xs && ho == Holding(x, so)
    requires hb == Herbs(ns) && cb == Carns(ns) && NeighboursHold(ns, so, hno)
    ensures ho == multiset(xr) + multiset(xs)
    ensures forall k :: 0 <= k < 4 ==> hno[k] == multiset(Pick(hb[k], cb[k], so)) + multiset(To[k])
  {
    forall k | 0 <= k < 4
      ensures hno[k] == multiset(Pick(hb[k], cb[k], so)) + multiset(To[k])
    {
      assert Stages(ns, so)[k] == ns[k].Staged(so);
    }
  }

  /** The converse of `Pinned`: holdings computed from the lists are what the cells hold. */
  lemma Repinned(x: Landscape, ns: seq<Landscape>, so: Species, xr: seq<Animal>, xs: seq<Animal>,
                 hb: seq<seq<Animal>>, cb: seq<seq<Animal>>, To: seq<seq<Animal>>, ho: multiset<Animal>, hno: seq<multiset<Animal>>)
    requires |ns| == 4 && |hb| == 4 && |cb| == 4 && |hno| == 4 && Stages(ns, so) == To
    requires x.Residents(so) == xr && x.Staged(so) == xs && ho == multiset(xr) + multiset(xs)
    requires forall k :: 0 <= k < 4 ==> ns[k].herb == hb[k] && ns[k].carn == cb[k]
    requires forall k :: 0 <= k < 4 ==> hno[k] == multiset(Pick(hb[k], cb[k], so)) + multiset(To[k])
    ensures Holding(x, so) == ho && NeighboursHold(ns, so, hno)
  {
    assert Stages(ns, so)[0] == ns[0].Staged(so) && Stages(ns, so)[1] == ns[1].Staged(so);
    assert Stages(ns, so)[2] == ns[2].Staged(so) && Stages(ns, so)[3] == ns[3].Staged(so);
  }

  /** Each of the four neighbours `ns` where animals cannot live has no immigrants staged. */
  ghost predicate NeighboursHushed(ns: seq<Landscape>)
    requires |ns| == 4
    reads ns`herbImmigrants, ns`carnImmigrants
  {
    Hushed(ns[0]) && Hushed(ns[1]) && Hushed(ns[2]) && Hushed(ns[3])
  }

  /** A cell where animals cannot live has no immigrants staged. */
  ghost predicate Hushed(x: Landscape)
    reads x`herbImmigrants, x`carnImmigrants
  {
    !x.AnimalsCanLiveHere() ==> x.herbImmigrants == [] && x.carnImmigrants == []
  }

  /** Hushed neighbours have nothing staged where animals cannot live. */
  lemma Silent(ns: seq<Landscape>, sp: Species, Ts: seq<seq<Animal>>, To: seq<seq<Animal>>)
    requires |ns| == 4 && NeighboursHushed(ns) && Ts == Stages(ns, sp) && To == Stages(ns, Other(sp))
    ensures forall k :: 0 <= k < 4 && !ns[k].AnimalsCanLiveHere() ==> Ts[k] == [] && To[k] == []
  {
  }

  /** Neighbours that staged nothing where animals cannot live are hushed. */
  lemma Hushing(ns: seq<Landscape>, sp: Species, st: seq<seq<Animal>>, To: seq<seq<Animal>>)
    requires |ns| == 4 && Stages(ns, sp) == st && Stages(ns, Other(sp)) == To
    requires forall k :: 0 <= k < 4 && !ns[k].AnimalsCanLiveHere() ==> st[k] == [] && To[k] == []
    ensures NeighboursHushed(ns)
  {
    assert Stages(ns, sp)[0] == ns[0].Staged(sp) && Stages(ns, sp)[1] == ns[1].Staged(sp);
    assert Stages(ns, sp)[2] == ns[2].Staged(sp) && Stages(ns, sp)[3] == ns[3].Staged(sp);
    assert Stages(ns, Other(sp))[0] == ns[0].Staged(Other(sp)) && Stages(ns, Other(sp))[1] == ns[1].Staged(Other(sp));
    assert Stages(ns, Other(sp))[2] == ns[2].Staged(Other(sp)) && Stages(ns, Other(sp))[3] == ns[3].Staged(Other(sp));
  }

  /** A cell is hushed exactly when, if animals cannot live there, it has staged nothing of
      either species. */
  lemma Hushes(x: Landscape, sp: Species)
    ensures Hushed(x) <==> (!x.AnimalsCanLiveHere() ==> x.Staged(sp) == [] && x.Staged(Other(sp)) == [])
  {
  }

  /** After the pass, the cell `x`, with residents `left` and staged list `S` of species
      `sp`, holds `h0`; each neighbour holds what it held, `hn[k]`, and its share
      `parts[k]`; and `h0` and the shares make up what `x` held, `hx`. */
  lemma Recount(x: Landscape, ns: seq<Landscape>, sp: Species, R: seq<Animal>, S: seq<Animal>, hx: multiset<Animal>,
                hb: seq<seq<Animal>>, cb: seq<seq<Animal>>, Ts: seq<seq<Animal>>, hn: seq<multiset<Animal>>,
                left: seq<Animal>, st: seq<seq<Animal>>, parts: seq<multiset<Animal>>)
    returns (h0: multiset<Animal>)
    requires |ns| == 4 && |hn| == 4 && |Ts| == 4 && |parts| == 4 && |hb| == 4 && |cb| == 4
    requires hx == multiset(R) + multiset(S)
    requires forall k :: 0 <= k < 4 ==> hn[k] == multiset(Pick(hb[k], cb[k], sp)) + multiset(Ts[k])
    requires x.Residents(sp) == left && x.Staged(sp) == S
    requires Stages(ns, sp) == st && Herbs(ns) == hb && Carns(ns) == cb
    requires multiset(left) + (parts[0] + parts[1] + parts[2] + parts[3]) == multiset(R)
    requires forall k :: 0 <= k < 4 ==> multiset(st[k]) == multiset(Ts[k]) + parts[k]
    ensures h0 + (parts[0] + parts[1] + parts[2] + parts[3]) == hx
    ensures Holding(x, sp) == h0 && NeighboursGained(ns, sp, hn, parts)
  {
    h0 := Holding(x, sp);
    Regroup(multiset(left), multiset(S), parts[0] + parts[1] + parts[2] + parts[3], multiset(R));
    forall k | 0 <= k < 4
      ensures Holding(ns[k], sp) == hn[k] + parts[k]
    {
      assert ns[k].Staged(sp) == Stages(ns, sp)[k] && ns[k].Residents(sp) == Pick(hb[k], cb[k], sp);
    }
  }

  /** Each of the four neighbours `ns` holds `hs[k]` of species `sp`. */
  ghost predicate NeighboursHold(ns: seq<Landscape>, sp: Species, hs: seq<multiset<Animal>>)
    requires |ns| == 4 && |hs| == 4
    reads ns`herb, ns`carn, ns`herbImmigrants, ns`carnImmigrants
  {
    && Holding(ns[0], sp) == hs[0] && Holding(ns[1], sp) == hs[1]
    && Holding(ns[2], sp) == hs[2] && Holding(ns[3], sp) == hs[3]
  }

  /** Each of the four neighbours `ns` holds what it held, `hn[k]`, and its share `parts[k]`. */
  ghost predicate NeighboursGained(ns: seq<Landscape>, sp: Species, hn: seq<multiset<Animal>>, parts: seq<multiset<Animal>>)
    requires |ns| == 4 && |hn| == 4 && |parts| == 4
    reads ns`herb, ns`carn, ns`herbImmigrants, ns`carnImmigrants
  {
    && Holding(ns[0], sp) == hn[0] + parts[0] && Holding(ns[1], sp) == hn[1] + parts[1]
    && Holding(ns[2], sp) == hn[2] + parts[2] && Holding(ns[3], sp) == hn[3] + parts[3]
  }

  /** Regrouping a union of multisets: what stayed plus the staged part plus what left
      equals the whole plus the staged part. */
  lemma Regroup<T>(a: multiset<T>, s: multiset<T>, p: multiset<T>, whole: multiset<T>)
    requires a + p == whole
    ensures (a + s) + p == whole + s
  {
  }

  /** What the pass leaves of the residents `R` of a cell, `left`, and what it sends to the
      four neighbours, `parts`, account for all of `R`: on success the stayers and the
      movers share `R` out, and on failure nobody moved. */
  lemma Kept(R: seq<Animal>, dest: seq<int>, left: seq<Animal>, success: bool, parts: seq<multiset<Animal>>)
    requires |dest| <= |R| && (success ==> |dest| == |R|)
    requires forall i :: 0 <= i < |dest| ==> -1 <= dest[i] < 4
    requires !success ==> forall i :: 0 <= i < |dest| ==> dest[i] == -1
    requires left == if success then Select(R, dest, -1) else R
    requires parts == [multiset(Select(R[..|dest|], dest, 0)), multiset(Select(R[..|dest|], dest, 1)),
                       multiset(Select(R[..|dest|], dest, 2)), multiset(Select(R[..|dest|], dest, 3))]
    ensures multiset(left) + (parts[0] + parts[1] + parts[2] + parts[3]) == multiset(R)
  {
    var moved := R[..|dest|];
    if success {
      assert moved == R;
      SelectPartition(R, dest);
    } else {
      SelectNone(moved, dest, 0);
      SelectNone(moved, dest, 1);
      SelectNone(moved, dest, 2);
      SelectNone(moved, dest, 3);
    }
  }

  /** `cell.animal_death()` seen from the island: the cell holds `mh` and `mc`, part of
      what it held of each species. */
  method DeathCell(env: Env, x: Landscape, rng: Rng, ghost flock: set<Animal>) returns (ghost mh: multiset<Animal>, ghost mc: multiset<Animal>)
    requires x.Valid()
    requires (forall i :: 0 <= i < |x.herb| ==> x.herb[i] in flock) && forall i :: 0 <= i < |x.carn| ==> x.carn[i] in flock
    modifies x`herb, x`carn, flock`fitnessCache, rng`drawn
    ensures Holding(x, Herbivore) == mh && mh <= old(Holding(x, Herbivore))
    ensures Holding(x, Carnivore) == mc && mc <= old(Holding(x, Carnivore))
  {
    ghost var h0, c0 := x.herb, x.carn;
    x.AnimalDeath(env, rng);
    mh, mc := Holding(x, Herbivore), Holding(x, Carnivore);
  }

  /** The newborns grid `born` has the shape of `g0`, and `gk` holds at each entry what
      `g0` held and the newborns there; only the cells before `(r, c)` have newborns, and
      the pool of `gk` is sound. */
  ghost predicate Bred(g0: seq<seq<multiset<Animal>>>, born: seq<seq<seq<Animal>>>, gk: seq<seq<multiset<Animal>>>, sp: Species, r: nat, c: nat)
  {
    && |born| == |gk| == |g0| && (forall r' :: 0 <= r' < |g0| ==> |born[r']| == |gk[r']| == |g0[r']|)
    && (forall r', c' :: 0 <= r' < |g0| && 0 <= c' < |g0[r']| ==> gk[r'][c'] == g0[r'][c'] + multiset(born[r'][c']))
    && (forall r', c' :: 0 <= r' < |g0| && 0 <= c' < |g0[r']| && !Precedes(r', c', r, c) ==> born[r'][c'] == [])
    && Sound(Pool(gk), sp)
  }

  /** A grid of no newborns, the shape of `g`. */
  function NoBirths(g: seq<seq<multiset<Animal>>>): (born: seq<seq<seq<Animal>>>)
    ensures |born| == |g| && forall r :: 0 <= r < |g| ==> |born[r]| == |g[r]| && forall c :: 0 <= c < |g[r]| ==> born[r][c] == []
  {
    seq(|g|, r requires 0 <= r < |g| => seq(|g[r]|, _ => []))
  }

  /** Before the births: no cell has newborns. */
  lemma BredStart(g0: seq<seq<multiset<Animal>>>, sp: Species)
    requires Sound(Pool(g0), sp)
    ensures Bred(g0, NoBirths(g0), g0, sp, 0, 0)
  {
    forall r, c | 0 <= r < |g0| && 0 <= c < |g0[r]|
      ensures g0[r][c] == g0[r][c] + multiset(NoBirths(g0)[r][c])
    {
      assert multiset(NoBirths(g0)[r][c]) == multiset{};
    }
  }

  /** Cell `(r, c)` adds the newborns `b`, new to the pool and sound with what the cell
      held: the births go one cell further. */
  lemma BredStep(g0: seq<seq<multiset<Animal>>>, born: seq<seq<seq<Animal>>>, gk: seq<seq<multiset<Animal>>>, sp: Species,
                 r: nat, c: nat, b: seq<Animal>)
    requires Bred(g0, born, gk, sp, r, c) && r < |g0| && c < |g0[r]|
    requires Sound(gk[r][c] + multiset(b), sp) && forall a :: a in b ==> a !in Pool(gk)
    ensures Bred(g0, born[r := born[r][c := b]], gk[r := gk[r][c := gk[r][c] + multiset(b)]], sp, r, c + 1)
  {
    PoolGrown(gk, r, c, multiset(b));
    GrowSound(Pool(gk), gk[r][c], multiset(b), sp);
    BredShift(g0, born, gk, r, c, b);
  }

  /** Adding `n` to entry `(r, c)` of a grid adds `n` to its pool. */
  lemma PoolGrown(g: seq<seq<multiset<Animal>>>, r: nat, c: nat, n: multiset<Animal>)
    requires r < |g| && c < |g[r]|
    ensures Pool(g[r := g[r][c := g[r][c] + n]]) == Pool(g) + n
  {
    PoolUpdate(g, r, c, g[r][c] + n);
    CancelUnion(Pool(g[r := g[r][c := g[r][c] + n]]), g[r][c], Pool(g), n);
  }

  /** The grids of `Bred`, one cell further: entry `(r, c)` gets its newborns `b`. */
  lemma BredShift(g0: seq<seq<multiset<Animal>>>, born: seq<seq<seq<Animal>>>, gk: seq<seq<multiset<Animal>>>,
                  r: nat, c: nat, b: seq<Animal>)
    requires |born| == |gk| == |g0| && forall r' :: 0 <= r' < |g0| ==> |born[r']| == |gk[r']| == |g0[r']|
    requires forall r', c' :: 0 <= r' < |g0| && 0 <= c' < |g0[r']| ==> gk[r'][c'] == g0[r'][c'] + multiset(born[r'][c'])
    requires forall r', c' :: 0 <= r' < |g0| && 0 <= c' < |g0[r']| && !Precedes(r', c', r, c) ==> born[r'][c'] == []
    requires r < |g0| && c < |g0[r]|
    ensures var g', born' := gk[r := gk[r][c := gk[r][c] + multiset(b)]], born[r := born[r][c := b]];
      && |born'| == |g'| == |g0| && (forall r' :: 0 <= r' < |g0| ==> |born'[r']| == |g'[r']| == |g0[r']|)
      && (forall r', c' :: 0 <= r' < |g0| && 0 <= c' < |g0[r']| ==> g'[r'][c'] == g0[r'][c'] + multiset(born'[r'][c']))
      && forall r', c' :: 0 <= r' < |g0| && 0 <= c' < |g0[r']| && !Precedes(r', c', r, c + 1) ==> born'[r'][c'] == []
  {
    assert multiset(born[r][c]) == multiset{};
  }

  /** A sound herd `p` joined by newcomers `n`, none of them in `p`, that are sound with
      the part `m` of `p` stays sound. */
  lemma GrowSound(p: multiset<Animal>, m: multiset<Animal>, n: multiset<Animal>, sp: Species)
    requires Sound(p, sp) && Sound(m + n, sp) && forall a :: a in n ==> a !in p
    ensures Sound(p + n, sp)
  {
    forall a | a in p + n
      ensures (p + n)[a] <= 1 && a.species == sp
    {
      if a in n {
        assert a in m + n && (m + n)[a] <= 1;
      }
    }
  }

  /** Having bred all of row `r` is having bred everything before row `r + 1`. */
  lemma BredRow(g0: seq<seq<multiset<Animal>>>, born: seq<seq<seq<Animal>>>, gk: seq<seq<multiset<Animal>>>, sp: Species, r: nat)
    requires r < |g0| && Bred(g0, born, gk, sp, r, |g0[r]|)
    ensures Bred(g0, born, gk, sp, r + 1, 0)
  {
  }

  /** Keeping parts `mh` and `mc` of entry `(r, c)` of two grids of sound herds keeps part
      of each entry, part of each pool and sound pools, with no animal from outside `flock`. */
  lemma ShrinkBoth(gh: seq<seq<multiset<Animal>>>, gc: seq<seq<multiset<Animal>>>, flock: set<Animal>, r: nat, c: nat,
                   mh: multiset<Animal>, mc: multiset<Animal>)
    requires r < |gh| && c < |gh[r]| && r < |gc| && c < |gc[r]| && mh <= gh[r][c] && mc <= gc[r][c]
    requires Sound(Pool(gh), Herbivore) && Sound(Pool(gc), Carnivore) && Within(Pool(gh) + Pool(gc), flock)
    ensures var gh', gc' := gh[r := gh[r][c := mh]], gc[r := gc[r][c := mc]];
      && Under(gh', gh) && Under(gc', gc) && Pool(gh') <= Pool(gh) && Pool(gc') <= Pool(gc)
      && Sound(Pool(gh'), Herbivore) && Sound(Pool(gc'), Carnivore) && Within(Pool(gh') + Pool(gc'), flock)
  {
    ShrinkOne(gh, Herbivore, r, c, mh);
    ShrinkOne(gc, Carnivore, r, c, mc);
    WithinPart(Pool(gh), Pool(gc), Pool(gh[r := gh[r][c := mh]]), Pool(gc[r := gc[r][c := mc]]), flock);
  }

  /** Entry `(r, c)` of a grid of sound herds joined by newcomers `n`, none of them in the
      pool and sound with what the entry held, leaves a grid of sound herds. */
  lemma Joined(g: seq<seq<multiset<Animal>>>, r: nat, c: nat, n: multiset<Animal>, sp: Species)
    requires r < |g| && c < |g[r]| && Sound(Pool(g), sp) && Sound(g[r][c] + n, sp) && forall a :: a in n ==> a !in Pool(g)
    ensures Sound(Pool(g[r := g[r][c := g[r][c] + n]]), sp)
  {
    PoolGrown(g, r, c, n);
    GrowSound(Pool(g), g[r][c], n, sp);
  }

  /** One entry of the `population` list of `place_animals`: `loc`, the position of the
      cell counted from 1, and `pop`, the records handed to `add_population`. */
  datatype Placement = Placement(loc: (int, int), pop: seq<AnimalRecord>)

  /** What `place_animals` raises. */
  datatype PlaceError =
    | NoSuchPosition(row: int, col: int)  // "Position (row, col) does not exist on map"
    | PositionIndexError                  // `island_map[row][col]` out of range, Python's `IndexError`
    | CannotLiveAt(row: int, col: int)    // "Animals can not live in position (row, col)"
    | RecordRejected(e: CellError)        // what `add_population` raises on a record

  /** The animals the placements bring to cell `x`, in order: the lists `adds[i]` of the
      placements whose cell `xs[i]` is `x`. */
  function Gather(xs: seq<Landscape>, adds: seq<seq<Animal>>, x: Landscape): seq<Animal>
    requires |xs| == |adds|
  {
    if xs == [] then []
    else Gather(xs[..|xs| - 1], adds[..|adds| - 1], x) + if xs[|xs| - 1] == x then adds[|adds| - 1] else []
  }

  /** One more placement, into cell `y`, brings its animals `a` to `y` and nothing to any
      other cell. */
  lemma GatherSnoc(xs: seq<Landscape>, adds: seq<seq<Animal>>, y: Landscape, a: seq<Animal>, x: Landscape)
    requires |xs| == |adds|
    ensures Gather(xs + [y], adds + [a], x) == if y == x then Gather(xs, adds, x) + a else Gather(xs, adds, x)
  {
    assert (xs + [y])[..|xs|] == xs && (adds + [a])[..|adds|] == adds;
    assert Gather(xs, adds, x) + [] == Gather(xs, adds, x);
  }

  /** What stops a year of `annual_cycle`: the `IndexError` of `all_herb_eating` or the
      error of a pass of `animals_migrate`. */
  datatype CycleError = EatingFailed(cause: CellError) | MigrationFailed(reason: MoveError)

  class Island {
    /** `geogr`: the rows of the map, as `str.split()` left them. */
    const geogr: seq<string>
    /** `island_map`: the cells, row by row. */
    const islandMap: seq<seq<Landscape>>
    /** Every cell of the map. */
    ghost const cells: set<Landscape>

    /** The map was accepted, and `island_map[r][c]` is the landscape its letter at `(r, c)`
        names, located at `(r, c)`. */
    ghost predicate Charted()
    {
      GoodMap(geogr) && Laid(geogr, islandMap)
    }

    /** `cells` are exactly the cells of the map, and cell `(r, c)` sits at `(r, c)`; so no
        cell appears twice. */
    ghost predicate Shaped()
    {
      Covered() && Located() && cells == Region(islandMap)
    }

    /** Cell `(r, c)` sits at `(r, c)`. */
    ghost predicate Located()
    {
      forall r, c :: 0 <= r < |islandMap| && 0 <= c < |islandMap[r]| ==> islandMap[r][c].loc == (r, c)
    }

    /** The number of rows. */
    function Rows(): nat
    {
      |islandMap|
    }

    /** The number of columns. */
    function Cols(): nat
    {
      if islandMap == [] then 0 else |islandMap[0]|
    }


    /** The animals of species `sp` held in each cell, on the grid of the map. */
    ghost function Holdings(sp: Species): (g: seq<seq<multiset<Animal>>>)
      requires Shaped()
      reads cells`herb, cells`carn, cells`herbImmigrants, cells`carnImmigrants
      ensures |g| == |islandMap| && forall r :: 0 <= r < |g| ==> |g[r]| == |islandMap[r]|
    {
      GridHoldingsAt(islandMap, sp);
      GridHoldings(islandMap, sp)
    }

    /** Entry `(r, c)` of the holdings is what cell `(r, c)` holds. */
    lemma HoldingsAt(sp: Species)
      requires Shaped()
      ensures forall r, c :: 0 <= r < |islandMap| && 0 <= c < |islandMap[r]| ==> Holdings(sp)[r][c] == Holding(islandMap[r][c], sp)
    {
      GridHoldingsAt(islandMap, sp);
      forall r | 0 <= r < |islandMap| {
        RowHoldingsAt(islandMap[r], sp);
      }
    }

    /** Every animal of species `sp` on the island, resident or staged. */
    ghost function Herd(sp: Species): multiset<Animal>
      requires Shaped()
      reads cells`herb, cells`carn, cells`herbImmigrants, cells`carnImmigrants
    {
      Pool(Holdings(sp))
    }

    /** The island invariant: the map is well formed, and no animal is held twice, whether
        by one cell or by two, nor in a list of the other species. */
    ghost predicate Valid()
      reads cells`herb, cells`carn, cells`herbImmigrants, cells`carnImmigrants
    {
      Shaped() && Sound(Herd(Herbivore), Herbivore) && Sound(Herd(Carnivore), Carnivore)
    }

    /** No cell has immigrants waiting to be committed. */
    ghost predicate Settled()
      reads cells`herbImmigrants, cells`carnImmigrants
    {
      forall x :: x in cells ==> x.herbImmigrants == [] && x.carnImmigrants == []
    }

    /** Every position of the map holds one of its cells. */
    ghost predicate Covered()
    {
      forall r, c :: 0 <= r < |islandMap| && 0 <= c < |islandMap[r]| ==> islandMap[r][c] in cells
    }

    /** Every cell is valid. */
    ghost predicate CellsValid()
      reads cells`herb, cells`carn, cells`herbImmigrants, cells`carnImmigrants
    {
      Covered() && forall r, c :: 0 <= r < |islandMap| && 0 <= c < |islandMap[r]| ==> islandMap[r][c].Valid()
    }

    /** A valid island is ready for a sweep that changes its animals but not its lists:
        every cell is valid and no two share a resident. */
    lemma Prepare()
      requires Valid()
      ensures Segregated() && CellsValid()
    {
      CellsApart();
      AllCellsValid();
    }

    /** Every cell of a valid island is valid. */
    lemma AllCellsValid()
      requires Valid()
      ensures CellsValid()
    {
      forall r, c | 0 <= r < |islandMap| && 0 <= c < |islandMap[r]|
        ensures islandMap[r][c].Valid()
      {
        CellValid(r, c);
      }
    }

    /** Every position of the map holds one of its cells. */
    lemma CellsCover()
      requires cells == Region(islandMap)
      ensures Covered()
    {
      forall r, c | 0 <= r < |islandMap| && 0 <= c < |islandMap[r]|
        ensures islandMap[r][c] in cells
      {
        FlattenHas(islandMap, r, c);
      }
    }

    /** Each cell of a valid island is a valid cell. */
    lemma CellValid(r: nat, c: nat)
      requires Valid() && r < |islandMap| && c < |islandMap[r]|
      ensures islandMap[r][c].Valid()
    {
      HoldingsAt(Herbivore);
      HoldingsAt(Carnivore);
      PoolHas(Holdings(Herbivore), r, c);
      PoolHas(Holdings(Carnivore), r, c);
      SoundPart(Herd(Herbivore), Holding(islandMap[r][c], Herbivore), Herbivore);
      SoundPart(Herd(Carnivore), Holding(islandMap[r][c], Carnivore), Carnivore);
    }

    /** `number_of_animals`: the herbivores and the carnivores of every cell, residents and
        staged immigrants alike, summed row by row; that is, the size of each herd. */
    method NumberOfAnimals() returns (numHerbs: nat, numCarns: nat)
      requires Shaped()
      ensures numHerbs == |Herd(Herbivore)| && numCarns == |Herd(Carnivore)|
    {
      ghost var ch, cc := Census(Herbivore), Census(Carnivore);
      HerdSize(ch, Herbivore);
      HerdSize(cc, Carnivore);
      numHerbs, numCarns := Tally(ch, cc);
      assert unchanged(cells);
    }

    /** The loops of `number_of_animals`: `total_num_animals` of every cell, for each
        species, added up row by row; `ch` and `cc` are the counts they read. */
    method Tally(ghost ch: seq<seq<nat>>, ghost cc: seq<seq<nat>>) returns (numHerbs: nat, numCarns: nat)
      requires Shaped() && CountsOf(ch, Herbivore) && CountsOf(cc, Carnivore)
      ensures numHerbs == Total(ch) && numCarns == Total(cc)
    {
      numHerbs, numCarns := 0, 0;
      for r := 0 to |islandMap|
        invariant numHerbs == Total(ch[..r]) && numCarns == Total(cc[..r])
      {
        for c := 0 to |islandMap[r]|
          invariant numHerbs == Total(ch[..r]) + RowTotal(ch[r][..c])
          invariant numCarns == Total(cc[..r]) + RowTotal(cc[r][..c])
        {
          var h := islandMap[r][c].TotalNumAnimals("herbivore");
          var k := islandMap[r][c].TotalNumAnimals("carnivore");
          numHerbs, numCarns := numHerbs + h.value, numCarns + k.value;
          RowTotalPrefixStep(ch[r], c);
          RowTotalPrefixStep(cc[r], c);
        }
        assert ch[r][..|ch[r]|] == ch[r] && cc[r][..|cc[r]|] == cc[r];
        TotalPrefixStep(ch, r);
        TotalPrefixStep(cc, r);
      }
      assert ch[..|ch|] == ch && cc[..|cc|] == cc;
    }

    /** `num_herb_in_cells`: the rows-by-columns grid of the herbivores each cell holds;
        it sums to the size of the herd. */
    method NumHerbInCells() returns (herbivores: seq<seq<nat>>)
      requires Charted() && Shaped()
      ensures CountsOf(herbivores, Herbivore) && Total(herbivores) == |Herd(Herbivore)|
    {
      herbivores := CellCounts("herbivore", Herbivore);
    }

    /** `num_carn_in_cells`: the rows-by-columns grid of the carnivores each cell holds;
        it sums to the size of the herd. */
    method NumCarnInCells() returns (carnivores: seq<seq<nat>>)
      requires Charted() && Shaped()
      ensures CountsOf(carnivores, Carnivore) && Total(carnivores) == |Herd(Carnivore)|
    {
      carnivores := CellCounts("carnivore", Carnivore);
    }

    /** `grid` has the shape of the map, and holds at `(r, c)` the number of animals of
        species `sp` in cell `(r, c)`, residents and staged immigrants alike. */
    ghost predicate CountsOf(grid: seq<seq<nat>>, sp: Species)
      requires Shaped()
      reads cells`herb, cells`carn, cells`herbImmigrants, cells`carnImmigrants
    {
      && |grid| == |islandMap| && (forall r :: 0 <= r < |grid| ==> |grid[r]| == |islandMap[r]|)
      && forall r, c :: 0 <= r < |grid| && 0 <= c < |grid[r]| ==> grid[r][c] == islandMap[r][c].Count(sp)
    }

    /** The number of animals of species `sp` each cell holds, on the grid of the map. */
    ghost function Census(sp: Species): (grid: seq<seq<nat>>)
      requires Shaped()
      reads cells`herb, cells`carn, cells`herbImmigrants, cells`carnImmigrants
      ensures CountsOf(grid, sp)
    {
      HoldingsAt(sp);
      var h := Holdings(sp);
      seq(|h|, r requires 0 <= r < |h| => seq(|h[r]|, c requires 0 <= c < |h[r]| => |h[r][c]|))
    }

    /** The counts of every cell add up to the size of the herd. */
    lemma HerdSize(grid: seq<seq<nat>>, sp: Species)
      requires Shaped() && CountsOf(grid, sp)
      ensures Total(grid) == |Herd(sp)|
    {
      HoldingsAt(sp);
      PoolSize(Holdings(sp), grid);
    }

    /** The loops shared by `num_herb_in_cells` and `num_carn_in_cells`: a grid of zeros
        the size of the map, filled cell by cell with `total_num_animals(name)`. */
    method CellCounts(name: string, sp: Species) returns (grid: seq<seq<nat>>)
      requires Charted() && Shaped() && SpeciesNamed(name) == Some(sp)
      ensures CountsOf(grid, sp) && Total(grid) == |Herd(sp)|
    {
      SpeciesNamedFacts(name);
      grid := Zeros(|geogr|, |geogr[0]|);
      for r := 0 to |islandMap|
        invariant |grid| == |geogr| && forall r' :: 0 <= r' < |grid| ==> |grid[r']| == |geogr[0]|
        invariant forall r', c :: 0 <= r' < r && 0 <= c < |grid[r']| ==> grid[r'][c] == islandMap[r'][c].Count(sp)
      {
        for c := 0 to |islandMap[r]|
          invariant |grid| == |geogr| && forall r' :: 0 <= r' < |grid| ==> |grid[r']| == |geogr[0]|
          invariant forall r', c' :: 0 <= r' < r && 0 <= c' < |grid[r']| ==> grid[r'][c'] == islandMap[r'][c'].Count(sp)
          invariant forall c' :: 0 <= c' < c ==> grid[r][c'] == islandMap[r][c'].Count(sp)
        {
          var n := islandMap[r][c].TotalNumAnimals(name);
          grid := grid[r := grid[r][c := n.value]];
        }
      }
      HerdSize(grid, sp);
    }

    /** `food_growth_in_all_cells`: every cell, row by row, grows its fodder as its kind
        does; nothing else changes. */
    method FoodGrowthInAllCells(cp: CellParams)
      requires Shaped()
      modifies cells`availableFood
      ensures forall r, c :: 0 <= r < |islandMap| && 0 <= c < |islandMap[r]| ==>
        islandMap[r][c].availableFood == FoodGrowth(islandMap[r][c].kind, cp, old(islandMap[r][c].availableFood))
      ensures unchanged(cells`herb, cells`carn, cells`herbImmigrants, cells`carnImmigrants)
    {
      for r := 0 to |islandMap|
        invariant forall r', c' :: 0 <= r' < |islandMap| && 0 <= c' < |islandMap[r']| ==>
          islandMap[r'][c'].availableFood ==
            if Precedes(r', c', r, 0) then FoodGrowth(islandMap[r'][c'].kind, cp, old(islandMap[r'][c'].availableFood))
            else old(islandMap[r'][c'].availableFood)
      {
        for c := 0 to |islandMap[r]|
          invariant forall r', c' :: 0 <= r' < |islandMap| && 0 <= c' < |islandMap[r']| ==>
            islandMap[r'][c'].availableFood ==
              if Precedes(r', c', r, c) then FoodGrowth(islandMap[r'][c'].kind, cp, old(islandMap[r'][c'].availableFood))
              else old(islandMap[r'][c'].availableFood)
        {
          islandMap[r][c].FoodGrowth(cp);
        }
      }
    }

    /** Every resident animal of the island, herbivore or carnivore; staged immigrants are
        not residents. */
    ghost function Population(): set<Animal>
      reads cells`herb, cells`carn
    {
      set x, a | x in cells && a in x.herb + x.carn :: a
    }

    /** The residents of every cell belong to the population. */
    lemma InPopulation()
      requires Covered()
      ensures forall r, c, a :: 0 <= r < |islandMap| && 0 <= c < |islandMap[r]| && a in islandMap[r][c].herb + islandMap[r][c].carn ==> a in Population()
    {
    }

    /** Every member of the population is a resident of some cell. */
    lemma PopulationMember(a: Animal) returns (r: nat, c: nat)
      requires Shaped() && a in Population()
      ensures r < |islandMap| && c < |islandMap[r]| && a in islandMap[r][c].herb + islandMap[r][c].carn
    {
      var x :| x in cells && a in x.herb + x.carn;
      FlattenMember(islandMap, x);
      r, c :| 0 <= r < |islandMap| && 0 <= c < |islandMap[r]| && islandMap[r][c] == x;
    }

    /** On a valid island no resident of one cell is a resident of another. */
    lemma CellsApart()
      requires Valid()
      ensures Segregated()
    {
      forall r, c | 0 <= r < |islandMap| && 0 <= c < |islandMap[r]|
        ensures CellApart(r, c)
      {
        CellApartFrom(r, c);
      }
    }

    /** No resident of one cell is a resident of another. */
    ghost predicate Segregated()
      reads cells`herb, cells`carn
    {
      Covered() && forall r, c :: 0 <= r < |islandMap| && 0 <= c < |islandMap[r]| ==> CellApart(r, c)
    }

    /** No resident of another cell is a resident of cell `(r, c)`. */
    ghost predicate CellApart(r: nat, c: nat)
      reads cells`herb, cells`carn
    {
      Covered() && r < |islandMap| && c < |islandMap[r]| &&
      forall r', c' :: 0 <= r' < |islandMap| && 0 <= c' < |islandMap[r']| && (r' != r || c' != c) ==>
        Disjoint(islandMap[r'][c'], islandMap[r][c])
    }

    /** On a valid island no resident of another cell is a resident of cell `(r, c)`. */
    lemma CellApartFrom(r: nat, c: nat)
      requires Valid() && r < |islandMap| && c < |islandMap[r]|
      ensures CellApart(r, c)
    {
      forall r', c' | 0 <= r' < |islandMap| && 0 <= c' < |islandMap[r']| && (r' != r || c' != c)
        ensures Disjoint(islandMap[r'][c'], islandMap[r][c])
      {
        PairDisjoint(r, c, r', c');
      }
    }

    /** Two different cells of a valid island share no resident. */
    lemma PairDisjoint(r: nat, c: nat, r': nat, c': nat)
      requires Valid() && r < |islandMap| && c < |islandMap[r]| && r' < |islandMap| && c' < |islandMap[r']| && (r' != r || c' != c)
      ensures Disjoint(islandMap[r'][c'], islandMap[r][c])
    {
      var x, y := islandMap[r][c], islandMap[r'][c'];
      HoldingsAt(Herbivore);
      HoldingsAt(Carnivore);
      PoolHasTwo(Holdings(Herbivore), r', c', r, c);
      PoolHasTwo(Holdings(Carnivore), r', c', r, c);
      Separate(y.herb, y.herbImmigrants, y.carn, y.carnImmigrants, x.herb, x.herbImmigrants, x.carn, x.carnImmigrants,
               Herd(Herbivore), Herd(Carnivore));
    }

    /** `all_animals_aging`: every resident of the island, cell by cell, is a year older and
        has forgotten its fitness; no list changes. */
    method AllAnimalsAging()
      requires Valid()
      modifies Population()`age, Population()`fitnessCache
      ensures forall r, c, j :: 0 <= r < |islandMap| && 0 <= c < |islandMap[r]| && 0 <= j < |islandMap[r][c].herb + islandMap[r][c].carn| ==>
        var a := (islandMap[r][c].herb + islandMap[r][c].carn)[j];
        a.age == old(a.age) + 1 && a.fitnessCache == None
      ensures Valid() && unchanged(cells)
    {
      Prepare();
      AgeCells();
    }

    /** The loop of `all_animals_aging` over the rows. */
    method AgeCells()
      requires Segregated() && CellsValid()
      modifies Population()`age, Population()`fitnessCache
      ensures forall r, c, j :: 0 <= r < |islandMap| && 0 <= c < |islandMap[r]| && 0 <= j < |islandMap[r][c].herb + islandMap[r][c].carn| ==>
        var a := (islandMap[r][c].herb + islandMap[r][c].carn)[j];
        a.age == old(a.age) + 1 && a.fitnessCache == None
    {
      for r := 0 to |islandMap|
        invariant forall r', c', j :: 0 <= r' < |islandMap| && 0 <= c' < |islandMap[r']| && 0 <= j < |islandMap[r'][c'].herb + islandMap[r'][c'].carn| ==>
          var a := (islandMap[r'][c'].herb + islandMap[r'][c'].carn)[j];
          if r' < r then a.age == old(a.age) + 1 && a.fitnessCache == None
          else a.age == old(a.age) && a.fitnessCache == old(a.fitnessCache)
      {
        AgeRow(r);
      }
    }

    /** `cell.animal_aging()` for cell `(r, c)`: its residents age, no one else does. */
    method AgeCell(r: nat, c: nat)
      requires Segregated() && CellsValid() && r < |islandMap| && c < |islandMap[r]|
      modifies Population()`age, Population()`fitnessCache
      ensures forall r', c', j :: 0 <= r' < |islandMap| && 0 <= c' < |islandMap[r']| && 0 <= j < |islandMap[r'][c'].herb + islandMap[r'][c'].carn| ==>
        var a := (islandMap[r'][c'].herb + islandMap[r'][c'].carn)[j];
        if r' == r && c' == c then a.age == old(a.age) + 1 && a.fitnessCache == None
        else a.age == old(a.age) && a.fitnessCache == old(a.fitnessCache)
    {
      InPopulation();
      assert CellApart(r, c);
      islandMap[r][c].AnimalAging();
    }

    /** The loop of `all_animals_aging` over the cells of row `r`. */
    method AgeRow(r: nat)
      requires Segregated() && CellsValid() && r < |islandMap|
      modifies Population()`age, Population()`fitnessCache
      ensures forall r', c', j :: 0 <= r' < |islandMap| && 0 <= c' < |islandMap[r']| && 0 <= j < |islandMap[r'][c'].herb + islandMap[r'][c'].carn| ==>
        var a := (islandMap[r'][c'].herb + islandMap[r'][c'].carn)[j];
        if r' == r then a.age == old(a.age) + 1 && a.fitnessCache == None
        else a.age == old(a.age) && a.fitnessCache == old(a.fitnessCache)
    {
      for c := 0 to |islandMap[r]|
        invariant forall r', c', j :: 0 <= r' < |islandMap| && 0 <= c' < |islandMap[r']| && 0 <= j < |islandMap[r'][c'].herb + islandMap[r'][c'].carn| ==>
          var a := (islandMap[r'][c'].herb + islandMap[r'][c'].carn)[j];
          if r' == r && c' < c then a.age == old(a.age) + 1 && a.fitnessCache == None
          else a.age == old(a.age) && a.fitnessCache == old(a.fitnessCache)
      {
        AgeCell(r, c);
      }
    }

    /** `all_animals_lose_weight`: every resident of the island, cell by cell, loses the
        fraction eta of its species of its weight and forgets its fitness; no list changes. */
    method AllAnimalsLoseWeight(env: Env)
      requires Valid()
      modifies Population()`weight, Population()`fitnessCache
      ensures forall r, c, j :: 0 <= r < |islandMap| && 0 <= c < |islandMap[r]| && 0 <= j < |islandMap[r][c].herb + islandMap[r][c].carn| ==>
        var a := (islandMap[r][c].herb + islandMap[r][c].carn)[j];
        a.weight == WeightAfterLoss(env.ParamsOf(a.species).eta, old(a.weight)) && a.fitnessCache == None
      ensures Valid() && unchanged(cells)
    {
      Prepare();
      LoseWeightCells(env);
    }

    /** The loop of `all_animals_lose_weight` over the rows. */
    method LoseWeightCells(env: Env)
      requires Segregated() && CellsValid()
      modifies Population()`weight, Population()`fitnessCache
      ensures forall r, c, j :: 0 <= r < |islandMap| && 0 <= c < |islandMap[r]| && 0 <= j < |islandMap[r][c].herb + islandMap[r][c].carn| ==>
        var a := (islandMap[r][c].herb + islandMap[r][c].carn)[j];
        a.weight == WeightAfterLoss(env.ParamsOf(a.species).eta, old(a.weight)) && a.fitnessCache == None
    {
      for r := 0 to |islandMap|
        invariant forall r', c', j :: 0 <= r' < |islandMap| && 0 <= c' < |islandMap[r']| && 0 <= j < |islandMap[r'][c'].herb + islandMap[r'][c'].carn| ==>
          var a := (islandMap[r'][c'].herb + islandMap[r'][c'].carn)[j];
          if r' < r then a.weight == WeightAfterLoss(env.ParamsOf(a.species).eta, old(a.weight)) && a.fitnessCache == None
          else a.weight == old(a.weight) && a.fitnessCache == old(a.fitnessCache)
      {
        LoseWeightRow(env, r);
      }
    }

    /** `cell.animal_weight_change()` for cell `(r, c)`: its residents lose weight, no one
        else does. */
    method LoseWeightCell(env: Env, r: nat, c: nat)
      requires Segregated() && CellsValid() && r < |islandMap| && c < |islandMap[r]|
      modifies Population()`weight, Population()`fitnessCache
      ensures forall r', c', j :: 0 <= r' < |islandMap| && 0 <= c' < |islandMap[r']| && 0 <= j < |islandMap[r'][c'].herb + islandMap[r'][c'].carn| ==>
        var a := (islandMap[r'][c'].herb + islandMap[r'][c'].carn)[j];
        if r' == r && c' == c then a.weight == WeightAfterLoss(env.ParamsOf(a.species).eta, old(a.weight)) && a.fitnessCache == None
        else a.weight == old(a.weight) && a.fitnessCache == old(a.fitnessCache)
    {
      InPopulation();
      assert CellApart(r, c);
      islandMap[r][c].AnimalWeightChange(env);
    }

    /** The loop of `all_animals_lose_weight` over the cells of row `r`. */
    method LoseWeightRow(env: Env, r: nat)
      requires Segregated() && CellsValid() && r < |islandMap|
      modifies Population()`weight, Population()`fitnessCache
      ensures forall r', c', j :: 0 <= r' < |islandMap| && 0 <= c' < |islandMap[r']| && 0 <= j < |islandMap[r'][c'].herb + islandMap[r'][c'].carn| ==>
        var a := (islandMap[r'][c'].herb + islandMap[r'][c'].carn)[j];
        if r' == r then a.weight == WeightAfterLoss(env.ParamsOf(a.species).eta, old(a.weight)) && a.fitnessCache == None
        else a.weight == old(a.weight) && a.fitnessCache == old(a.fitnessCache)
    {
      for c := 0 to |islandMap[r]|
        invariant forall r', c', j :: 0 <= r' < |islandMap| && 0 <= c' < |islandMap[r']| && 0 <= j < |islandMap[r'][c'].herb + islandMap[r'][c'].carn| ==>
          var a := (islandMap[r'][c'].herb + islandMap[r'][c'].carn)[j];
          if r' == r && c' < c then a.weight == WeightAfterLoss(env.ParamsOf(a.species).eta, old(a.weight)) && a.fitnessCache == None
          else a.weight == old(a.weight) && a.fitnessCache == old(a.fitnessCache)
      {
        LoseWeightCell(env, r, c);
      }
    }

    /** `g` has the shape of the map and holds at `(r, c)` what cell `(r, c)` holds of
        species `sp`. */
    ghost predicate HeldAs(g: seq<seq<multiset<Animal>>>, sp: Species)
      reads cells`herb, cells`carn, cells`herbImmigrants, cells`carnImmigrants
    {
      && Covered() && |g| == |islandMap| && (forall r :: 0 <= r < |g| ==> |g[r]| == |islandMap[r]|)
      && forall r, c :: 0 <= r < |islandMap| && 0 <= c < |islandMap[r]| ==> g[r][c] == Holding(islandMap[r][c], sp)
    }

    /** The holdings are held as they are. */
    lemma HeldNow(sp: Species)
      requires Shaped()
      ensures HeldAs(Holdings(sp), sp)
    {
      HoldingsAt(sp);
    }

    /** A grid held by the cells is their holdings, and pools to the herd. */
    lemma HerdIs(g: seq<seq<multiset<Animal>>>, sp: Species)
      requires Shaped() && HeldAs(g, sp)
      ensures Holdings(sp) == g && Herd(sp) == Pool(g)
    {
      HoldingsAt(sp);
      var h := Holdings(sp);
      forall r | 0 <= r < |g|
        ensures h[r] == g[r]
      {
        assert forall c :: 0 <= c < |g[r]| ==> h[r][c] == g[r][c];
      }
    }

    /** A cell whose holdings lie within sound herds is a valid cell. */
    lemma CellValidIn(gh: seq<seq<multiset<Animal>>>, gc: seq<seq<multiset<Animal>>>, r: nat, c: nat)
      requires HeldAs(gh, Herbivore) && HeldAs(gc, Carnivore) && r < |islandMap| && c < |islandMap[r]|
      requires Sound(Pool(gh), Herbivore) && Sound(Pool(gc), Carnivore)
      ensures islandMap[r][c].Valid()
    {
      PoolHas(gh, r, c);
      PoolHas(gc, r, c);
      SoundPart(Pool(gh), gh[r][c], Herbivore);
      SoundPart(Pool(gc), gc[r][c], Carnivore);
    }

    /** The residents of a cell whose holdings are pooled within `flock` belong to `flock`. */
    lemma CellStock(gh: seq<seq<multiset<Animal>>>, gc: seq<seq<multiset<Animal>>>, flock: set<Animal>, r: nat, c: nat)
      requires HeldAs(gh, Herbivore) && HeldAs(gc, Carnivore) && r < |islandMap| && c < |islandMap[r]|
      requires Within(Pool(gh) + Pool(gc), flock)
      ensures var x := islandMap[r][c];
        (forall i :: 0 <= i < |x.herb| ==> x.herb[i] in flock) && forall i :: 0 <= i < |x.carn| ==> x.carn[i] in flock
    {
      FlockAt(gh, gc, flock, r, c);
      CellStockAt(gh, gc, flock, r, c);
    }

    /** The residents of a cell whose holdings lie within `flock` belong to `flock`. */
    lemma CellStockAt(gh: seq<seq<multiset<Animal>>>, gc: seq<seq<multiset<Animal>>>, flock: set<Animal>, r: nat, c: nat)
      requires HeldAs(gh, Herbivore) && HeldAs(gc, Carnivore) && r < |islandMap| && c < |islandMap[r]|
      requires Within(gh[r][c] + gc[r][c], flock)
      ensures var x := islandMap[r][c];
        (forall i :: 0 <= i < |x.herb| ==> x.herb[i] in flock) && forall i :: 0 <= i < |x.carn| ==> x.carn[i] in flock
    {
      var x := islandMap[r][c];
      forall i | 0 <= i < |x.herb|
        ensures x.herb[i] in flock
      {
        assert x.herb[i] in multiset(x.herb);
      }
      forall i | 0 <= i < |x.carn|
        ensures x.carn[i] in flock
      {
        assert x.carn[i] in multiset(x.carn);
      }
    }

    /** Every animal on the island, resident or staged. */
    ghost function Stock(): set<Animal>
      requires Shaped()
      reads cells`herb, cells`carn, cells`herbImmigrants, cells`carnImmigrants
    {
      set a | a in Herd(Herbivore) + Herd(Carnivore)
    }

    /** The fodder of each cell, on the grid of the map. */
    ghost function Foods(): (f: seq<seq<real>>)
      requires Covered()
      reads cells`availableFood
      ensures |f| == |islandMap| && forall r :: 0 <= r < |f| ==> |f[r]| == |islandMap[r]|
      ensures forall r, c :: 0 <= r < |islandMap| && 0 <= c < |islandMap[r]| ==> f[r][c] == islandMap[r][c].availableFood
    {
      FoodRows(|islandMap|)
    }

    /** The fodder of the cells of the first `n` rows. */
    ghost function FoodRows(n: nat): (f: seq<seq<real>>)
      requires Covered() && n <= |islandMap|
      reads cells`availableFood
      ensures |f| == n && forall r :: 0 <= r < n ==> |f[r]| == |islandMap[r]|
      ensures forall r, c :: 0 <= r < n && 0 <= c < |islandMap[r]| ==> f[r][c] == islandMap[r][c].availableFood
    {
      if n == 0 then [] else FoodRows(n - 1) + [FoodRow(n - 1, |islandMap[n - 1]|)]
    }

    /** The fodder of the first `n` cells of row `r`. */
    ghost function FoodRow(r: nat, n: nat): (f: seq<real>)
      requires Covered() && r < |islandMap| && n <= |islandMap[r]|
      reads cells`availableFood
      ensures |f| == n && forall c :: 0 <= c < n ==> f[c] == islandMap[r][c].availableFood
    {
      if n == 0 then [] else FoodRow(r, n - 1) + [islandMap[r][n - 1].availableFood]
    }

    /** The cells before `(r, c)` have grazed `eaten` of the fodder `f0` they had; the
        others keep `f0`. */
    ghost predicate FedUpTo(F: real, eaten: seq<seq<real>>, f0: seq<seq<real>>, r: nat, c: nat)
      reads cells`availableFood
    {
      && Covered() && |eaten| == |f0| == |islandMap|
      && (forall r' :: 0 <= r' < |islandMap| ==> |eaten[r']| == |f0[r']| == |islandMap[r']|)
      && forall r', c' :: 0 <= r' < |islandMap| && 0 <= c' < |islandMap[r']| ==>
           if Precedes(r', c', r, c) then Grazes(F, f0[r'][c'], eaten[r'][c'], islandMap[r'][c'].availableFood, true)
           else islandMap[r'][c'].availableFood == f0[r'][c']
    }

    /** The fodder of every cell is what `herb_eating` leaves of the fodder `f0[r][c]` it
        had, cell `(r, c)` counting `counts[r][c]` herbivores: all they graze when the sweep
        finishes, part of it at most otherwise. */
    ghost predicate GrazedFrom(F: real, f0: seq<seq<real>>, counts: seq<seq<nat>>, finished: bool)
      reads cells`availableFood
    {
      && Covered() && |counts| == |f0| == |islandMap| && (forall r :: 0 <= r < |f0| ==> |counts[r]| == |f0[r]| == |islandMap[r]|)
      && forall r, c :: 0 <= r < |islandMap| && 0 <= c < |islandMap[r]| ==>
           Grazes(F, f0[r][c], Sum(Grazed(F, f0[r][c], counts[r][c])), islandMap[r][c].availableFood, finished)
    }

    /** Every cell has grazed part of the fodder `f0` it had at most. */
    ghost predicate FedPartly(F: real, eaten: seq<seq<real>>, f0: seq<seq<real>>)
      reads cells`availableFood
    {
      && Covered() && |eaten| == |f0| == |islandMap|
      && (forall r' :: 0 <= r' < |islandMap| ==> |eaten[r']| == |f0[r']| == |islandMap[r']|)
      && forall r', c' :: 0 <= r' < |islandMap| && 0 <= c' < |islandMap[r']| ==>
           Grazes(F, f0[r'][c'], eaten[r'][c'], islandMap[r'][c'].availableFood, false)
    }

    /** `all_herb_eating`: cell by cell, row by row, the herbivores graze; a cell whose
        staged immigrants make its count run past its residents raises, which ends the sweep.
        No animal changes cell, so the island stays valid; an island without staged
        immigrants finishes, every cell having grazed all its herbivores count for. */
    method AllHerbEating(env: Env) returns (res: Result<(), CellError>)
      requires Valid()
      modifies cells`herb, cells`carn, cells`availableFood, Stock()`weight, Stock()`fitnessCache
      ensures Valid() && Holdings(Herbivore) == old(Holdings(Herbivore)) && Holdings(Carnivore) == old(Holdings(Carnivore))
      ensures res.Failure? ==> res.error == HerbIndexError && !old(Settled())
      ensures GrazedFrom(env.herbivore.F, old(Foods()), old(Census(Herbivore)), res.Success?)
    {
      res := HerbSweep(env, Holdings(Herbivore), Holdings(Carnivore), Foods(), Census(Herbivore), Settled());
    }

    /** The sweep of `all_herb_eating` over cells that hold `gh` and `gc` and have the fodder
        `f0`: the island stays valid, and every cell grazes what `counts` herbivores graze. */
    method HerbSweep(env: Env, ghost gh: seq<seq<multiset<Animal>>>, ghost gc: seq<seq<multiset<Animal>>>,
                     ghost f0: seq<seq<real>>, ghost counts: seq<seq<nat>>, ghost settled: bool) returns (res: Result<(), CellError>)
      requires Valid() && gh == Holdings(Herbivore) && gc == Holdings(Carnivore) && f0 == Foods() && counts == Census(Herbivore)
      requires settled == Settled()
      modifies cells`herb, cells`carn, cells`availableFood, Stock()`weight, Stock()`fitnessCache
      ensures Valid() && Holdings(Herbivore) == gh && Holdings(Carnivore) == gc
      ensures res.Failure? ==> res.error == HerbIndexError && !settled
      ensures GrazedFrom(env.herbivore.F, f0, counts, res.Success?)
    {
      ghost var eaten := Eaten(env.herbivore.F, counts, f0);
      HerbReady(env.herbivore.F, gh, gc, f0, counts, eaten);
      res := HerbEatCells(env, gh, gc, Stock(), f0, eaten);
      StillValid(gh, gc);
      HerbEnd(env.herbivore.F, f0, counts, eaten, res.Success?);
    }

    /** Sound herds that the cells still hold as before leave the island valid. */
    lemma StillValid(gh: seq<seq<multiset<Animal>>>, gc: seq<seq<multiset<Animal>>>)
      requires Shaped() && HeldAs(gh, Herbivore) && HeldAs(gc, Carnivore)
      requires Sound(Pool(gh), Herbivore) && Sound(Pool(gc), Carnivore)
      ensures Valid() && Holdings(Herbivore) == gh && Holdings(Carnivore) == gc
    {
      HerdIs(gh, Herbivore);
      HerdIs(gc, Carnivore);
    }

    /** Before the sweep: the grids are the holdings, no cell has grazed yet and each is to
        graze what its herbivores count for. */
    lemma HerbReady(F: real, gh: seq<seq<multiset<Animal>>>, gc: seq<seq<multiset<Animal>>>, f0: seq<seq<real>>,
                    counts: seq<seq<nat>>, eaten: seq<seq<real>>)
      requires Valid() && gh == Holdings(Herbivore) && gc == Holdings(Carnivore) && f0 == Foods()
      requires counts == Census(Herbivore) && eaten == Eaten(F, counts, f0)
      ensures Located() && HeldAs(gh, Herbivore) && HeldAs(gc, Carnivore) && FedUpTo(F, eaten, f0, 0, 0)
      ensures Appetites(F, gh, f0, eaten)
      ensures Sound(Pool(gh), Herbivore) && Sound(Pool(gc), Carnivore) && Within(Pool(gh) + Pool(gc), Stock())
    {
      Stocked(gh, gc);
      HerbStart(F, gh, f0, counts, eaten);
    }

    /** Before the sweep: no cell has grazed yet, and each is to graze what its herbivores
        count for. */
    lemma HerbStart(F: real, gh: seq<seq<multiset<Animal>>>, f0: seq<seq<real>>, counts: seq<seq<nat>>, eaten: seq<seq<real>>)
      requires Shaped() && HeldAs(gh, Herbivore) && f0 == Foods() && counts == Census(Herbivore) && eaten == Eaten(F, counts, f0)
      ensures FedUpTo(F, eaten, f0, 0, 0) && Appetites(F, gh, f0, eaten)
    {
      Ungrazed(F, eaten, f0);
      forall r, c | 0 <= r < |islandMap| && 0 <= c < |islandMap[r]|
        ensures counts[r][c] == |gh[r][c]|
      {
      }
    }

    /** Before the sweep every cell has the fodder `f0` it started with. */
    lemma Ungrazed(F: real, eaten: seq<seq<real>>, f0: seq<seq<real>>)
      requires Covered() && f0 == Foods() && |eaten| == |f0| && forall r :: 0 <= r < |f0| ==> |eaten[r]| == |f0[r]|
      ensures FedUpTo(F, eaten, f0, 0, 0)
    {
    }

    /** The herds, held as grids, are sound and make up the stock. */
    lemma Stocked(gh: seq<seq<multiset<Animal>>>, gc: seq<seq<multiset<Animal>>>)
      requires Valid() && gh == Holdings(Herbivore) && gc == Holdings(Carnivore)
      ensures Located() && HeldAs(gh, Herbivore) && HeldAs(gc, Carnivore)
      ensures Sound(Pool(gh), Herbivore) && Sound(Pool(gc), Carnivore) && Within(Pool(gh) + Pool(gc), Stock())
    {
      HeldNow(Herbivore);
      HeldNow(Carnivore);
    }

    /** After the sweep: every cell has grazed, or, the sweep having stopped, grazed part. */
    lemma HerbEnd(F: real, f0: seq<seq<real>>, counts: seq<seq<nat>>, eaten: seq<seq<real>>, finished: bool)
      requires |counts| == |f0| && (forall r :: 0 <= r < |f0| ==> |counts[r]| == |f0[r]|) && eaten == Eaten(F, counts, f0)
      requires if finished then FedUpTo(F, eaten, f0, |islandMap|, 0) else FedPartly(F, eaten, f0)
      ensures GrazedFrom(F, f0, counts, finished)
    {
      forall r, c | 0 <= r < |islandMap| && 0 <= c < |islandMap[r]|
        ensures Grazes(F, f0[r][c], Sum(Grazed(F, f0[r][c], counts[r][c])), islandMap[r][c].availableFood, finished)
      {
        assert eaten[r][c] == Sum(Grazed(F, f0[r][c], counts[r][c]));
      }
    }

    /** The loop of `all_herb_eating` over the rows. */
    method HerbEatCells(env: Env, ghost gh: seq<seq<multiset<Animal>>>, ghost gc: seq<seq<multiset<Animal>>>,
                        ghost flock: set<Animal>, ghost f0: seq<seq<real>>, ghost eaten: seq<seq<real>>) returns (res: Result<(), CellError>)
      requires Located() && HeldAs(gh, Herbivore) && HeldAs(gc, Carnivore) && FedUpTo(env.herbivore.F, eaten, f0, 0, 0)
      requires Appetites(env.herbivore.F, gh, f0, eaten)
      requires Sound(Pool(gh), Herbivore) && Sound(Pool(gc), Carnivore) && Within(Pool(gh) + Pool(gc), flock)
      modifies cells`herb, cells`carn, cells`availableFood, flock`weight, flock`fitnessCache
      ensures HeldAs(gh, Herbivore) && HeldAs(gc, Carnivore)
      ensures Settled() ==> res.Success?
      ensures res.Failure? ==> res.error == HerbIndexError
      ensures if res.Success? then FedUpTo(env.herbivore.F, eaten, f0, |islandMap|, 0) else FedPartly(env.herbivore.F, eaten, f0)
    {
      res := Success(());
      for r := 0 to |islandMap|
        invariant HeldAs(gh, Herbivore) && HeldAs(gc, Carnivore) && FedUpTo(env.herbivore.F, eaten, f0, r, 0)
        invariant res.Success?
      {
        res := HerbEatRow(env, r, gh, gc, flock, f0, eaten);
        if res.Failure? {
          return;
        }
      }
    }

    /** The loop of `all_herb_eating` over the cells of row `r`. */
    method HerbEatRow(env: Env, r: nat, ghost gh: seq<seq<multiset<Animal>>>, ghost gc: seq<seq<multiset<Animal>>>,
                      ghost flock: set<Animal>, ghost f0: seq<seq<real>>, ghost eaten: seq<seq<real>>) returns (res: Result<(), CellError>)
      requires Located() && HeldAs(gh, Herbivore) && HeldAs(gc, Carnivore) && r < |islandMap|
      requires FedUpTo(env.herbivore.F, eaten, f0, r, 0) && Appetites(env.herbivore.F, gh, f0, eaten)
      requires Sound(Pool(gh), Herbivore) && Sound(Pool(gc), Carnivore) && Within(Pool(gh) + Pool(gc), flock)
      modifies cells`herb, cells`carn, cells`availableFood, flock`weight, flock`fitnessCache
      ensures HeldAs(gh, Herbivore) && HeldAs(gc, Carnivore)
      ensures Settled() ==> res.Success?
      ensures res.Failure? ==> res.error == HerbIndexError
      ensures if res.Success? then FedUpTo(env.herbivore.F, eaten, f0, r + 1, 0) else FedPartly(env.herbivore.F, eaten, f0)
    {
      res := Success(());
      for c := 0 to |islandMap[r]|
        invariant HeldAs(gh, Herbivore) && HeldAs(gc, Carnivore) && FedUpTo(env.herbivore.F, eaten, f0, r, c)
        invariant res.Success?
      {
        res := HerbEatCell(env, islandMap[r][c], r, c, gh, gc, flock, f0, eaten, eaten[r][c]);
        if res.Failure? {
          return;
        }
      }
      FedRow(env.herbivore.F, eaten, f0, r);
    }

    /** Having grazed all of row `r` is having grazed everything before row `r + 1`. */
    lemma FedRow(F: real, eaten: seq<seq<real>>, f0: seq<seq<real>>, r: nat)
      requires r < |islandMap| && FedUpTo(F, eaten, f0, r, |islandMap[r]|)
      ensures FedUpTo(F, eaten, f0, r + 1, 0)
    {
      forall r', c' | 0 <= r' < |islandMap| && 0 <= c' < |islandMap[r']|
        ensures Precedes(r', c', r + 1, 0) == Precedes(r', c', r, |islandMap[r]|)
      {
      }
    }

    /** `cell.herb_eating()` for cell `(r, c)`, whose herbivores graze `e`: its lists are
        reordered and its herbivores graze; no other cell changes. */
    method HerbEatCell(env: Env, x: Landscape, r: nat, c: nat, ghost gh: seq<seq<multiset<Animal>>>, ghost gc: seq<seq<multiset<Animal>>>,
                       ghost flock: set<Animal>, ghost f0: seq<seq<real>>, ghost eaten: seq<seq<real>>, ghost e: real)
      returns (res: Result<(), CellError>)
      requires Located() && HeldAs(gh, Herbivore) && HeldAs(gc, Carnivore) && r < |islandMap| && c < |islandMap[r]|
      requires x == islandMap[r][c] && FedUpTo(env.herbivore.F, eaten, f0, r, c)
      requires e == eaten[r][c] && e == Sum(Grazed(env.herbivore.F, f0[r][c], |gh[r][c]|))
      requires Sound(Pool(gh), Herbivore) && Sound(Pool(gc), Carnivore) && Within(Pool(gh) + Pool(gc), flock)
      modifies x`herb, x`carn, x`availableFood, flock`weight, flock`fitnessCache
      ensures HeldAs(gh, Herbivore) && HeldAs(gc, Carnivore)
      ensures Settled() ==> res.Success?
      ensures res.Failure? ==> res.error == HerbIndexError
      ensures if res.Success? then FedUpTo(env.herbivore.F, eaten, f0, r, c + 1) else FedPartly(env.herbivore.F, eaten, f0)
    {
      CellValidIn(gh, gc, r, c);
      CellStock(gh, gc, flock, r, c);
      assert x.availableFood == f0[r][c] && |gh[r][c]| == x.Count(Herbivore) && x in cells;
      res := GrazeAt(env, x, r, c, gh, gc, flock, f0, eaten, e);
    }

    /** Cell `(r, c)`, valid and holding its share of the flock, grazes `e`: what each cell
        holds stays put. */
    method GrazeAt(env: Env, x: Landscape, r: nat, c: nat, ghost gh: seq<seq<multiset<Animal>>>, ghost gc: seq<seq<multiset<Animal>>>,
                   ghost flock: set<Animal>, ghost f0: seq<seq<real>>, ghost eaten: seq<seq<real>>, ghost e: real)
      returns (res: Result<(), CellError>)
      requires Located() && HeldAs(gh, Herbivore) && HeldAs(gc, Carnivore) && r < |islandMap| && c < |islandMap[r]|
      requires x == islandMap[r][c] && x.Valid() && FedUpTo(env.herbivore.F, eaten, f0, r, c)
      requires e == eaten[r][c] && e == Sum(Grazed(env.herbivore.F, x.availableFood, x.Count(Herbivore)))
      requires (forall i :: 0 <= i < |x.herb| ==> x.herb[i] in flock) && forall i :: 0 <= i < |x.carn| ==> x.carn[i] in flock
      modifies x`herb, x`carn, x`availableFood, flock`weight, flock`fitnessCache
      ensures HeldAs(gh, Herbivore) && HeldAs(gc, Carnivore)
      ensures x.herbImmigrants == [] ==> res.Success?
      ensures res.Failure? ==> res.error == HerbIndexError
      ensures if res.Success? then FedUpTo(env.herbivore.F, eaten, f0, r, c + 1) else FedPartly(env.herbivore.F, eaten, f0)
    {
      res := GrazeFed(env, x, r, c, flock, f0, eaten, e);
      forall r', c' | 0 <= r' < |islandMap| && 0 <= c' < |islandMap[r']|
        ensures gh[r'][c'] == Holding(islandMap[r'][c'], Herbivore) && gc[r'][c'] == Holding(islandMap[r'][c'], Carnivore)
      {
        if r' != r || c' != c {
          assert islandMap[r'][c'].loc != x.loc;
        }
      }
    }

    /** Cell `(r, c)` grazes `e`: the fodder of the island goes one cell further. */
    method GrazeFed(env: Env, x: Landscape, r: nat, c: nat, ghost flock: set<Animal>, ghost f0: seq<seq<real>>,
                    ghost eaten: seq<seq<real>>, ghost e: real) returns (res: Result<(), CellError>)
      requires Located() && r < |islandMap| && c < |islandMap[r]|
      requires x == islandMap[r][c] && x.Valid() && FedUpTo(env.herbivore.F, eaten, f0, r, c)
      requires e == eaten[r][c] && e == Sum(Grazed(env.herbivore.F, x.availableFood, x.Count(Herbivore)))
      requires (forall i :: 0 <= i < |x.herb| ==> x.herb[i] in flock) && forall i :: 0 <= i < |x.carn| ==> x.carn[i] in flock
      modifies x`herb, x`carn, x`availableFood, flock`weight, flock`fitnessCache
      ensures Holding(x, Herbivore) == old(Holding(x, Herbivore)) && Holding(x, Carnivore) == old(Holding(x, Carnivore))
      ensures x.herbImmigrants == [] ==> res.Success?
      ensures res.Failure? ==> res.error == HerbIndexError
      ensures if res.Success? then FedUpTo(env.herbivore.F, eaten, f0, r, c + 1) else FedPartly(env.herbivore.F, eaten, f0)
    {
      res := GrazeCell(env, x, flock, e);
      var F := env.herbivore.F;
      forall r', c' | 0 <= r' < |islandMap| && 0 <= c' < |islandMap[r']|
        ensures if Precedes(r', c', r, c) || (r', c') == (r, c) then Grazes(F, f0[r'][c'], eaten[r'][c'], islandMap[r'][c'].availableFood, res.Success?)
                else islandMap[r'][c'].availableFood == f0[r'][c']
      {
        if r' != r || c' != c {
          assert islandMap[r'][c'].loc != x.loc;
        }
      }
      if res.Success? {
        forall r', c' | 0 <= r' < |islandMap| && 0 <= c' < |islandMap[r']|
          ensures Precedes(r', c', r, c + 1) <==> Precedes(r', c', r, c) || (r', c') == (r, c)
        {
        }
      }
    }

    /** `all_carn_eating`: cell by cell, row by row, the carnivores hunt. No animal changes
        cell and none is born: every cell keeps its carnivores and some of its herbivores,
        so the island stays valid and its herbivores are some of those it had. */
    method AllCarnEating(env: Env, rng: Rng)
      requires Valid() && env.carnivore.deltaPhiMax.Some?
      modifies cells`herb, cells`carn, Stock()`weight, Stock()`fitnessCache, rng`drawn
      ensures Valid() && Holdings(Carnivore) == old(Holdings(Carnivore))
      ensures Thinned(old(Holdings(Herbivore)), Herbivore) && Herd(Herbivore) <= old(Herd(Herbivore))
    {
      CarnSweep(env, rng, Holdings(Herbivore), Holdings(Carnivore));
    }

    /** Every cell holds some of the animals of species `sp` grid `g` says it held. */
    ghost predicate Thinned(g: seq<seq<multiset<Animal>>>, sp: Species)
      reads cells`herb, cells`carn, cells`herbImmigrants, cells`carnImmigrants
    {
      && Covered() && |g| == |islandMap| && (forall r :: 0 <= r < |g| ==> |g[r]| == |islandMap[r]|)
      && forall r, c :: 0 <= r < |islandMap| && 0 <= c < |islandMap[r]| ==> Holding(islandMap[r][c], sp) <= g[r][c]
    }

    /** The sweep of `all_carn_eating` over cells that hold `gh` and `gc`. */
    method CarnSweep(env: Env, rng: Rng, ghost gh: seq<seq<multiset<Animal>>>, ghost gc: seq<seq<multiset<Animal>>>)
      requires Valid() && gh == Holdings(Herbivore) && gc == Holdings(Carnivore) && env.carnivore.deltaPhiMax.Some?
      modifies cells`herb, cells`carn, Stock()`weight, Stock()`fitnessCache, rng`drawn
      ensures Valid() && Holdings(Carnivore) == gc && Thinned(gh, Herbivore) && Herd(Herbivore) <= Pool(gh)
    {
      Stocked(gh, gc);
      UnderRefl(gh);
      ghost var gk := CarnEatCells(env, rng, gh, gc, Stock());
      StillValid(gk, gc);
      ThinnedFrom(gk, gh, Herbivore);
    }

    /** A grid holds all of itself. */
    lemma UnderRefl(g: seq<seq<multiset<Animal>>>)
      ensures Under(g, g)
    {
    }

    /** Cells that hold part of what `gh` says they held are thinned from `gh`. */
    lemma ThinnedFrom(gk: seq<seq<multiset<Animal>>>, gh: seq<seq<multiset<Animal>>>, sp: Species)
      requires HeldAs(gk, sp) && Under(gk, gh)
      ensures Thinned(gh, sp)
    {
    }

    /** What the hunt leaves: cells holding `gk` of the herbivores and still `gc` of the
        carnivores, `gk` being part of `gh` entry by entry and in the pool, and sound. */
    ghost predicate Preyed(gk: seq<seq<multiset<Animal>>>, gh: seq<seq<multiset<Animal>>>, gc: seq<seq<multiset<Animal>>>, flock: set<Animal>)
    {
      && Under(gk, gh) && Pool(gk) <= Pool(gh)
      && Sound(Pool(gk), Herbivore) && Sound(Pool(gc), Carnivore) && Within(Pool(gk) + Pool(gc), flock)
    }

    /** The loop of `all_carn_eating` over the rows. */
    method CarnEatCells(env: Env, rng: Rng, ghost gh: seq<seq<multiset<Animal>>>, ghost gc: seq<seq<multiset<Animal>>>, ghost flock: set<Animal>)
      returns (ghost gk: seq<seq<multiset<Animal>>>)
      requires Located() && HeldAs(gh, Herbivore) && HeldAs(gc, Carnivore) && env.carnivore.deltaPhiMax.Some?
      requires Preyed(gh, gh, gc, flock)
      modifies cells`herb, cells`carn, flock`weight, flock`fitnessCache, rng`drawn
      ensures HeldAs(gk, Herbivore) && HeldAs(gc, Carnivore) && Preyed(gk, gh, gc, flock)
    {
      gk := gh;
      for r := 0 to |islandMap|
        invariant HeldAs(gk, Herbivore) && HeldAs(gc, Carnivore) && Preyed(gk, gh, gc, flock)
      {
        gk := CarnEatRow(env, rng, r, gk, gh, gc, flock);
      }
    }

    /** The loop of `all_carn_eating` over the cells of row `r`. */
    method CarnEatRow(env: Env, rng: Rng, r: nat, ghost g0: seq<seq<multiset<Animal>>>, ghost gh: seq<seq<multiset<Animal>>>,
                      ghost gc: seq<seq<multiset<Animal>>>, ghost flock: set<Animal>) returns (ghost gk: seq<seq<multiset<Animal>>>)
      requires Located() && HeldAs(g0, Herbivore) && HeldAs(gc, Carnivore) && r < |islandMap| && env.carnivore.deltaPhiMax.Some?
      requires Preyed(g0, gh, gc, flock)
      modifies cells`herb, cells`carn, flock`weight, flock`fitnessCache, rng`drawn
      ensures HeldAs(gk, Herbivore) && HeldAs(gc, Carnivore) && Preyed(gk, gh, gc, flock)
    {
      gk := g0;
      for c := 0 to |islandMap[r]|
        invariant HeldAs(gk, Herbivore) && HeldAs(gc, Carnivore) && Preyed(gk, gh, gc, flock)
      {
        ghost var g' := CarnEatCell(env, islandMap[r][c], rng, r, c, gk, gc, flock);
        UnderTrans(g', gk, gh);
        gk := g';
      }
    }

    /** `cell.carn_eating()` for cell `(r, c)`: its herbivores are thinned, its carnivores
        kept; no other cell changes. */
    method CarnEatCell(env: Env, x: Landscape, rng: Rng, r: nat, c: nat, ghost gk: seq<seq<multiset<Animal>>>,
                       ghost gc: seq<seq<multiset<Animal>>>, ghost flock: set<Animal>) returns (ghost g': seq<seq<multiset<Animal>>>)
      requires Located() && HeldAs(gk, Herbivore) && HeldAs(gc, Carnivore) && r < |islandMap| && c < |islandMap[r]|
      requires x == islandMap[r][c] && env.carnivore.deltaPhiMax.Some?
      requires Sound(Pool(gk), Herbivore) && Sound(Pool(gc), Carnivore) && Within(Pool(gk) + Pool(gc), flock)
      modifies x`herb, x`carn, flock`weight, flock`fitnessCache, rng`drawn
      ensures HeldAs(g', Herbivore) && HeldAs(gc, Carnivore) && Under(g', gk) && Pool(g') <= Pool(gk)
      ensures Sound(Pool(g'), Herbivore) && Within(Pool(g') + Pool(gc), flock)
    {
      CellValidIn(gk, gc, r, c);
      CellStock(gk, gc, flock, r, c);
      ghost var m;
      m, g' := PreyAt(env, x, rng, r, c, gk, gc, flock);
      ShrinkCell(gk, gc, flock, r, c, m);
    }

    /** Cell `(r, c)`, valid and holding its share of the flock, hunts: it holds `m`, part
        of its herbivores, and the others hold what they held. */
    method PreyAt(env: Env, x: Landscape, rng: Rng, r: nat, c: nat, ghost gk: seq<seq<multiset<Animal>>>,
                  ghost gc: seq<seq<multiset<Animal>>>, ghost flock: set<Animal>) returns (ghost m: multiset<Animal>, ghost g': seq<seq<multiset<Animal>>>)
      requires Located() && HeldAs(gk, Herbivore) && HeldAs(gc, Carnivore) && r < |islandMap| && c < |islandMap[r]|
      requires x == islandMap[r][c] && x.Valid() && env.carnivore.deltaPhiMax.Some?
      requires (forall i :: 0 <= i < |x.herb| ==> x.herb[i] in flock) && forall i :: 0 <= i < |x.carn| ==> x.carn[i] in flock
      modifies x`herb, x`carn, flock`weight, flock`fitnessCache, rng`drawn
      ensures m <= gk[r][c] && g' == gk[r := gk[r][c := m]]
      ensures HeldAs(g', Herbivore) && HeldAs(gc, Carnivore)
    {
      m := PreyCell(env, x, rng, flock);
      g' := gk[r := gk[r][c := m]];
      forall r', c' | 0 <= r' < |islandMap| && 0 <= c' < |islandMap[r']|
        ensures g'[r'][c'] == Holding(islandMap[r'][c'], Herbivore) && gc[r'][c'] == Holding(islandMap[r'][c'], Carnivore)
      {
        if r' != r || c' != c {
          assert islandMap[r'][c'].loc != x.loc;
        }
      }
    }

    /** `animals_give_birth`: cell by cell, row by row, the animals give birth. No animal
        changes cell or dies: every cell holds, of each species, what it held and its
        newborns `bh` and `bc`; the island stays valid, so the newborns are new animals,
        none of them twice. */
    method AnimalsGiveBirth(env: Env, rng: Rng) returns (ghost bh: seq<seq<seq<Animal>>>, ghost bc: seq<seq<seq<Animal>>>)
      requires Valid()
      modifies cells`herb, cells`carn, Stock()`weight, Stock()`fitnessCache, rng`drawn, rng`gaussDrawn
      ensures Valid() && Gained(old(Holdings(Herbivore)), bh, Herbivore) && Gained(old(Holdings(Carnivore)), bc, Carnivore)
      ensures forall a :: a in Stock() ==> a in old(Stock()) || fresh(a)
    {
      bh, bc := BirthSweep(env, rng, Holdings(Herbivore), Holdings(Carnivore));
    }

    /** Every cell holds what grid `g0` says it held of species `sp`, and the newborns grid
        `born` holds at its position. */
    ghost predicate Gained(g0: seq<seq<multiset<Animal>>>, born: seq<seq<seq<Animal>>>, sp: Species)
      reads cells`herb, cells`carn, cells`herbImmigrants, cells`carnImmigrants
    {
      && Covered() && |g0| == |born| == |islandMap| && (forall r :: 0 <= r < |g0| ==> |g0[r]| == |born[r]| == |islandMap[r]|)
      && forall r, c :: 0 <= r < |islandMap| && 0 <= c < |islandMap[r]| ==> Holding(islandMap[r][c], sp) == g0[r][c] + multiset(born[r][c])
    }

    /** The sweep of `animals_give_birth` over cells that hold `gh` and `gc`. */
    method BirthSweep(env: Env, rng: Rng, ghost gh: seq<seq<multiset<Animal>>>, ghost gc: seq<seq<multiset<Animal>>>)
      returns (ghost bh: seq<seq<seq<Animal>>>, ghost bc: seq<seq<seq<Animal>>>)
      requires Valid() && gh == Holdings(Herbivore) && gc == Holdings(Carnivore)
      modifies cells`herb, cells`carn, Stock()`weight, Stock()`fitnessCache, rng`drawn, rng`gaussDrawn
      ensures Valid() && Gained(gh, bh, Herbivore) && Gained(gc, bc, Carnivore)
      ensures forall a :: a in Stock() ==> a in old(Stock()) || fresh(a)
    {
      Stocked(gh, gc);
      BredStart(gh, Herbivore);
      BredStart(gc, Carnivore);
      ghost var gk, gkc, born;
      gk, gkc, bh, bc, born := BirthCells(env, rng, gh, gc, Stock());
      StillValid(gk, gkc);
    }

    /** The loop of `animals_give_birth` over the rows. */
    method BirthCells(env: Env, rng: Rng, ghost gh: seq<seq<multiset<Animal>>>, ghost gc: seq<seq<multiset<Animal>>>, ghost flock: set<Animal>)
      returns (ghost gk: seq<seq<multiset<Animal>>>, ghost gkc: seq<seq<multiset<Animal>>>, ghost bh: seq<seq<seq<Animal>>>, ghost bc: seq<seq<seq<Animal>>>,
               ghost born: seq<Animal>)
      requires Located() && HeldAs(gh, Herbivore) && HeldAs(gc, Carnivore) && Within(Pool(gh) + Pool(gc), flock)
      requires Bred(gh, NoBirths(gh), gh, Herbivore, 0, 0) && Bred(gc, NoBirths(gc), gc, Carnivore, 0, 0)
      modifies cells`herb, cells`carn, flock`weight, flock`fitnessCache, rng`drawn, rng`gaussDrawn
      ensures HeldAs(gk, Herbivore) && HeldAs(gkc, Carnivore)
      ensures Bred(gh, bh, gk, Herbivore, |islandMap|, 0) && Bred(gc, bc, gkc, Carnivore, |islandMap|, 0)
      ensures Bounded(Pool(gk) + Pool(gkc), flock, born) && forall b :: b in born ==> fresh(b)
    {
      gk, gkc, bh, bc, born := gh, gc, NoBirths(gh), NoBirths(gc), [];
      for r := 0 to |islandMap|
        invariant HeldAs(gk, Herbivore) && HeldAs(gkc, Carnivore)
        invariant Bred(gh, bh, gk, Herbivore, r, 0) && Bred(gc, bc, gkc, Carnivore, r, 0)
        invariant Bounded(Pool(gk) + Pool(gkc), flock, born) && forall b :: b in born ==> fresh(b)
      {
        ghost var prev := born;
        gk, gkc, bh, bc, born := BirthRow(env, rng, r, gh, gc, flock, gk, gkc, bh, bc, born);
        forall b | b in born
          ensures fresh(b)
        {
          assert b in prev || fresh(b);
        }
      }
    }

    /** The loop of `animals_give_birth` over the cells of row `r`. */
    method BirthRow(env: Env, rng: Rng, r: nat, ghost gh: seq<seq<multiset<Animal>>>, ghost gc: seq<seq<multiset<Animal>>>, ghost flock: set<Animal>,
                    ghost gk0: seq<seq<multiset<Animal>>>, ghost gkc0: seq<seq<multiset<Animal>>>, ghost bh0: seq<seq<seq<Animal>>>, ghost bc0: seq<seq<seq<Animal>>>,
                    ghost born0: seq<Animal>)
      returns (ghost gk: seq<seq<multiset<Animal>>>, ghost gkc: seq<seq<multiset<Animal>>>, ghost bh: seq<seq<seq<Animal>>>, ghost bc: seq<seq<seq<Animal>>>,
               ghost born: seq<Animal>)
      requires Located() && HeldAs(gk0, Herbivore) && HeldAs(gkc0, Carnivore) && r < |islandMap| && Within(Pool(gh) + Pool(gc), flock)
      requires Bred(gh, bh0, gk0, Herbivore, r, 0) && Bred(gc, bc0, gkc0, Carnivore, r, 0)
      requires Bounded(Pool(gk0) + Pool(gkc0), flock, born0)
      modifies cells`herb, cells`carn, flock`weight, flock`fitnessCache, rng`drawn, rng`gaussDrawn
      ensures HeldAs(gk, Herbivore) && HeldAs(gkc, Carnivore)
      ensures Bred(gh, bh, gk, Herbivore, r + 1, 0) && Bred(gc, bc, gkc, Carnivore, r + 1, 0)
      ensures Bounded(Pool(gk) + Pool(gkc), flock, born) && forall b :: b in born ==> b in born0 || fresh(b)
    {
      gk, gkc, bh, bc, born := gk0, gkc0, bh0, bc0, born0;
      for c := 0 to |islandMap[r]|
        invariant HeldAs(gk, Herbivore) && HeldAs(gkc, Carnivore)
        invariant Bred(gh, bh, gk, Herbivore, r, c) && Bred(gc, bc, gkc, Carnivore, r, c)
        invariant Bounded(Pool(gk) + Pool(gkc), flock, born) && forall b :: b in born ==> b in born0 || fresh(b)
      {
        ghost var hb, cb;
        gk, gkc, bh, bc, hb, cb := GiveBirthCell(env, islandMap[r][c], rng, r, c, gh, gc, flock, gk, gkc, bh, bc, born);
        born := born + hb + cb;
      }
      BredRow(gh, bh, gk, Herbivore, r);
      BredRow(gc, bc, gkc, Carnivore, r);
    }

    /** `cell.animal_birth()` for cell `(r, c)`: its newborns `hb` and `cb`, new animals,
        join it, and the pools lie within `flock`, the newborns `born` so far and them; no
        other cell changes. */
    method GiveBirthCell(env: Env, x: Landscape, rng: Rng, r: nat, c: nat, ghost gh: seq<seq<multiset<Animal>>>, ghost gc: seq<seq<multiset<Animal>>>,
                         ghost flock: set<Animal>, ghost gk: seq<seq<multiset<Animal>>>, ghost gkc: seq<seq<multiset<Animal>>>,
                         ghost bh: seq<seq<seq<Animal>>>, ghost bc: seq<seq<seq<Animal>>>, ghost born: seq<Animal>)
      returns (ghost gk': seq<seq<multiset<Animal>>>, ghost gkc': seq<seq<multiset<Animal>>>, ghost bh': seq<seq<seq<Animal>>>, ghost bc': seq<seq<seq<Animal>>>,
               ghost hb: seq<Animal>, ghost cb: seq<Animal>)
      requires Located() && HeldAs(gk, Herbivore) && HeldAs(gkc, Carnivore) && r < |islandMap| && c < |islandMap[r]| && x == islandMap[r][c]
      requires Within(Pool(gh) + Pool(gc), flock) && Bred(gh, bh, gk, Herbivore, r, c) && Bred(gc, bc, gkc, Carnivore, r, c)
      requires Bounded(Pool(gk) + Pool(gkc), flock, born)
      modifies x`herb, x`carn, flock`weight, flock`fitnessCache, rng`drawn, rng`gaussDrawn
      ensures HeldAs(gk', Herbivore) && HeldAs(gkc', Carnivore)
      ensures Bred(gh, bh', gk', Herbivore, r, c + 1) && Bred(gc, bc', gkc', Carnivore, r, c + 1)
      ensures Bounded(Pool(gk') + Pool(gkc'), flock, born + hb + cb)
      ensures (forall b :: b in hb ==> fresh(b)) && forall b :: b in cb ==> fresh(b)
    {
      CellValidIn(gk, gkc, r, c);
      Unborn(gh, bh, gk, Herbivore, r, c);
      Unborn(gc, bc, gkc, Carnivore, r, c);
      FlockAt(gh, gc, flock, r, c);
      CellStockAt(gk, gkc, flock, r, c);
      ghost var mh, mc;
      hb, cb, mh, mc, gk', gkc' := BirthAt(env, x, rng, r, c, gk, gkc, Pool(gk), Pool(gkc), flock);
      BredStep(gh, bh, gk, Herbivore, r, c, hb);
      BredStep(gc, bc, gkc, Carnivore, r, c, cb);
      bh', bc' := bh[r := bh[r][c := hb]], bc[r := bc[r][c := cb]];
      BoundedGrown(gk, gkc, r, c, hb, cb, mh, mc, flock, born);
    }

    /** A cell the sweep has not reached holds what it held. */
    lemma Unborn(g0: seq<seq<multiset<Animal>>>, born: seq<seq<seq<Animal>>>, gk: seq<seq<multiset<Animal>>>, sp: Species, r: nat, c: nat)
      requires Bred(g0, born, gk, sp, r, c) && r < |g0| && c < |g0[r]|
      ensures gk[r][c] == g0[r][c]
    {
      assert multiset(born[r][c]) == multiset{};
    }

    /** Cell `(r, c)`, valid and holding its share of the flock, gives birth: it holds what
        it held and the newborns `hb` and `cb`, none of them in the pools `ph` and `pc` of
        the grids; the others hold what they held. */
    method BirthAt(env: Env, x: Landscape, rng: Rng, r: nat, c: nat, ghost gk: seq<seq<multiset<Animal>>>,
                   ghost gkc: seq<seq<multiset<Animal>>>, ghost ph: multiset<Animal>, ghost pc: multiset<Animal>, ghost flock: set<Animal>)
      returns (ghost hb: seq<Animal>, ghost cb: seq<Animal>, ghost mh: multiset<Animal>, ghost mc: multiset<Animal>,
               ghost g': seq<seq<multiset<Animal>>>, ghost gc': seq<seq<multiset<Animal>>>)
      requires Located() && HeldAs(gk, Herbivore) && HeldAs(gkc, Carnivore) && r < |islandMap| && c < |islandMap[r]|
      requires x == islandMap[r][c] && x.Valid()
      requires (forall i :: 0 <= i < |x.herb| ==> x.herb[i] in flock) && forall i :: 0 <= i < |x.carn| ==> x.carn[i] in flock
      modifies x`herb, x`carn, flock`weight, flock`fitnessCache, rng`drawn, rng`gaussDrawn
      ensures mh == gk[r][c] + multiset(hb) && mc == gkc[r][c] + multiset(cb) && g' == gk[r := gk[r][c := mh]] && gc' == gkc[r := gkc[r][c := mc]]
      ensures HeldAs(g', Herbivore) && HeldAs(gc', Carnivore)
      ensures Sound(mh, Herbivore) && Sound(mc, Carnivore)
      ensures (forall b :: b in hb ==> b !in ph) && forall b :: b in cb ==> b !in pc
      ensures (forall b :: b in hb ==> fresh(b)) && forall b :: b in cb ==> fresh(b)
    {
      assert HeldElsewhere(gk, Herbivore, x) && HeldElsewhere(gkc, Carnivore, x);
      hb, cb, mh, mc := BirthCell(env, x, rng, ph, pc, flock);
      Rejoin(gk, Herbivore, r, c, mh);
      Rejoin(gkc, Carnivore, r, c, mc);
      g', gc' := gk[r := gk[r][c := mh]], gkc[r := gkc[r][c := mc]];
    }

    /** Every cell but `x` holds what grid `g` says of species `sp`. */
    ghost predicate HeldElsewhere(g: seq<seq<multiset<Animal>>>, sp: Species, x: Landscape)
      reads (cells - {x})`herb, (cells - {x})`carn, (cells - {x})`herbImmigrants, (cells - {x})`carnImmigrants
    {
      && Covered() && |g| == |islandMap| && (forall r :: 0 <= r < |g| ==> |g[r]| == |islandMap[r]|)
      && forall r, c :: 0 <= r < |islandMap| && 0 <= c < |islandMap[r]| && islandMap[r][c] != x ==> g[r][c] == Holding(islandMap[r][c], sp)
    }

    /** When every cell but cell `(r, c)` holds what `g` says and cell `(r, c)` holds `m`,
        the grid `g` with `m` at `(r, c)` is what the cells hold. */
    lemma Rejoin(g: seq<seq<multiset<Animal>>>, sp: Species, r: nat, c: nat, m: multiset<Animal>)
      requires Located() && r < |islandMap| && c < |islandMap[r]|
      requires HeldElsewhere(g, sp, islandMap[r][c]) && Holding(islandMap[r][c], sp) == m
      ensures HeldAs(g[r := g[r][c := m]], sp)
    {
      forall r', c' | 0 <= r' < |islandMap| && 0 <= c' < |islandMap[r']|
        ensures g[r := g[r][c := m]][r'][c'] == Holding(islandMap[r'][c'], sp)
      {
        if r' != r || c' != c {
          assert islandMap[r'][c'].loc != islandMap[r][c].loc;
        }
      }
    }

    /** `animals_die`: cell by cell, row by row, the animals draw for their deaths. No animal
        changes cell and none is born: every cell holds some of what it held of each
        species, so the island stays valid and each herd is part of what it was. */
    method AnimalsDie(env: Env, rng: Rng)
      requires Valid()
      modifies cells`herb, cells`carn, Stock()`fitnessCache, rng`drawn
      ensures Valid() && Thinned(old(Holdings(Herbivore)), Herbivore) && Thinned(old(Holdings(Carnivore)), Carnivore)
      ensures Herd(Herbivore) <= old(Herd(Herbivore)) && Herd(Carnivore) <= old(Herd(Carnivore))
    {
      DeathSweep(env, rng, Holdings(Herbivore), Holdings(Carnivore));
    }

    /** The sweep of `animals_die` over cells that hold `gh` and `gc`. */
    method DeathSweep(env: Env, rng: Rng, ghost gh: seq<seq<multiset<Animal>>>, ghost gc: seq<seq<multiset<Animal>>>)
      requires Valid() && gh == Holdings(Herbivore) && gc == Holdings(Carnivore)
      modifies cells`herb, cells`carn, Stock()`fitnessCache, rng`drawn
      ensures Valid() && Thinned(gh, Herbivore) && Thinned(gc, Carnivore) && Herd(Herbivore) <= Pool(gh) && Herd(Carnivore) <= Pool(gc)
    {
      Stocked(gh, gc);
      UnderRefl(gh);
      UnderRefl(gc);
      ghost var gk, gkc := DieCells(env, rng, gh, gc, Stock());
      StillValid(gk, gkc);
      ThinnedFrom(gk, gh, Herbivore);
      ThinnedFrom(gkc, gc, Carnivore);
    }

    /** What the deaths leave: cells holding `gk` and `gkc`, part of `gh` and `gc` entry by
        entry and in the pool, and sound. */
    ghost predicate Culled(gk: seq<seq<multiset<Animal>>>, gkc: seq<seq<multiset<Animal>>>, gh: seq<seq<multiset<Animal>>>,
                           gc: seq<seq<multiset<Animal>>>, flock: set<Animal>)
    {
      && Under(gk, gh) && Under(gkc, gc) && Pool(gk) <= Pool(gh) && Pool(gkc) <= Pool(gc)
      && Sound(Pool(gk), Herbivore) && Sound(Pool(gkc), Carnivore) && Within(Pool(gk) + Pool(gkc), flock)
    }

    /** The loop of `animals_die` over the rows. */
    method DieCells(env: Env, rng: Rng, ghost gh: seq<seq<multiset<Animal>>>, ghost gc: seq<seq<multiset<Animal>>>, ghost flock: set<Animal>)
      returns (ghost gk: seq<seq<multiset<Animal>>>, ghost gkc: seq<seq<multiset<Animal>>>)
      requires Located() && HeldAs(gh, Herbivore) && HeldAs(gc, Carnivore) && Culled(gh, gc, gh, gc, flock)
      modifies cells`herb, cells`carn, flock`fitnessCache, rng`drawn
      ensures HeldAs(gk, Herbivore) && HeldAs(gkc, Carnivore) && Culled(gk, gkc, gh, gc, flock)
    {
      gk, gkc := gh, gc;
      for r := 0 to |islandMap|
        invariant HeldAs(gk, Herbivore) && HeldAs(gkc, Carnivore) && Culled(gk, gkc, gh, gc, flock)
      {
        gk, gkc := DieRow(env, rng, r, gk, gkc, gh, gc, flock);
      }
    }

    /** The loop of `animals_die` over the cells of row `r`. */
    method DieRow(env: Env, rng: Rng, r: nat, ghost gk0: seq<seq<multiset<Animal>>>, ghost gkc0: seq<seq<multiset<Animal>>>,
                  ghost gh: seq<seq<multiset<Animal>>>, ghost gc: seq<seq<multiset<Animal>>>, ghost flock: set<Animal>)
      returns (ghost gk: seq<seq<multiset<Animal>>>, ghost gkc: seq<seq<multiset<Animal>>>)
      requires Located() && HeldAs(gk0, Herbivore) && HeldAs(gkc0, Carnivore) && r < |islandMap| && Culled(gk0, gkc0, gh, gc, flock)
      modifies cells`herb, cells`carn, flock`fitnessCache, rng`drawn
      ensures HeldAs(gk, Herbivore) && HeldAs(gkc, Carnivore) && Culled(gk, gkc, gh, gc, flock)
    {
      gk, gkc := gk0, gkc0;
      for c := 0 to |islandMap[r]|
        invariant HeldAs(gk, Herbivore) && HeldAs(gkc, Carnivore) && Culled(gk, gkc, gh, gc, flock)
      {
        ghost var g', gc' := DieCell(env, islandMap[r][c], rng, r, c, gk, gkc, flock);
        UnderTrans(g', gk, gh);
        UnderTrans(gc', gkc, gc);
        gk, gkc := g', gc';
      }
    }

    /** `cell.animal_death()` for cell `(r, c)`: some of its animals die; no other cell
        changes. */
    method DieCell(env: Env, x: Landscape, rng: Rng, r: nat, c: nat, ghost gk: seq<seq<multiset<Animal>>>,
                   ghost gkc: seq<seq<multiset<Animal>>>, ghost flock: set<Animal>)
      returns (ghost g': seq<seq<multiset<Animal>>>, ghost gc': seq<seq<multiset<Animal>>>)
      requires Located() && HeldAs(gk, Herbivore) && HeldAs(gkc, Carnivore) && r < |islandMap| && c < |islandMap[r]| && x == islandMap[r][c]
      requires Sound(Pool(gk), Herbivore) && Sound(Pool(gkc), Carnivore) && Within(Pool(gk) + Pool(gkc), flock)
      modifies x`herb, x`carn, flock`fitnessCache, rng`drawn
      ensures HeldAs(g', Herbivore) && HeldAs(gc', Carnivore) && Under(g', gk) && Under(gc', gkc)
      ensures Pool(g') <= Pool(gk) && Pool(gc') <= Pool(gkc)
      ensures Sound(Pool(g'), Herbivore) && Sound(Pool(gc'), Carnivore) && Within(Pool(g') + Pool(gc'), flock)
    {
      CellValidIn(gk, gkc, r, c);
      CellStock(gk, gkc, flock, r, c);
      ghost var mh, mc;
      mh, mc, g', gc' := DeathAt(env, x, rng, r, c, gk, gkc, flock);
      ShrinkBoth(gk, gkc, flock, r, c, mh, mc);
    }

    /** Cell `(r, c)`, valid and holding its share of the flock, draws for deaths: it holds
        `mh` and `mc`, part of what it held, and the others hold what they held. */
    method DeathAt(env: Env, x: Landscape, rng: Rng, r: nat, c: nat, ghost gk: seq<seq<multiset<Animal>>>,
                   ghost gkc: seq<seq<multiset<Animal>>>, ghost flock: set<Animal>)
      returns (ghost mh: multiset<Animal>, ghost mc: multiset<Animal>, ghost g': seq<seq<multiset<Animal>>>, ghost gc': seq<seq<multiset<Animal>>>)
      requires Located() && HeldAs(gk, Herbivore) && HeldAs(gkc, Carnivore) && r < |islandMap| && c < |islandMap[r]|
      requires x == islandMap[r][c] && x.Valid()
      requires (forall i :: 0 <= i < |x.herb| ==> x.herb[i] in flock) && forall i :: 0 <= i < |x.carn| ==> x.carn[i] in flock
      modifies x`herb, x`carn, flock`fitnessCache, rng`drawn
      ensures mh <= gk[r][c] && mc <= gkc[r][c] && g' == gk[r := gk[r][c := mh]] && gc' == gkc[r := gkc[r][c := mc]]
      ensures HeldAs(g', Herbivore) && HeldAs(gc', Carnivore)
    {
      mh, mc := DeathCell(env, x, rng, flock);
      g', gc' := gk[r := gk[r][c := mh]], gkc[r := gkc[r][c := mc]];
      forall r', c' | 0 <= r' < |islandMap| && 0 <= c' < |islandMap[r']|
        ensures g'[r'][c'] == Holding(islandMap[r'][c'], Herbivore) && gc'[r'][c'] == Holding(islandMap[r'][c'], Carnivore)
      {
        if r' != r || c' != c {
          assert islandMap[r'][c'].loc != x.loc;
        }
      }
    }

    /** Position `(r, c)` lies off the border of the map. */
    predicate Inner(r: int, c: int)
    {
      1 <= r < Rows() - 1 && 1 <= c < Cols() - 1
    }

    /** Every row is as wide as the first. */
    ghost predicate Even()
    {
      forall r :: 0 <= r < |islandMap| ==> |islandMap[r]| == Cols()
    }

    /** The rows are even, and animals cannot live in a cell on the border. */
    ghost predicate Walled()
    {
      && Even()
      && forall r, c :: 0 <= r < |islandMap| && 0 <= c < |islandMap[r]| && !Inner(r, c) ==> !islandMap[r][c].AnimalsCanLiveHere()
    }

    /** A map that was accepted is walled by the ocean, and its cells sit where they are. */
    lemma ChartedWalled()
      requires Charted()
      ensures Walled() && Located() && Rows() == |geogr| && Cols() == |geogr[0]|
    {
      forall r, c | 0 <= r < |islandMap| && 0 <= c < |islandMap[r]| && !Inner(r, c)
        ensures !islandMap[r][c].AnimalsCanLiveHere()
      {
        assert OnBorder(|geogr|, |geogr[0]|, r, c);
        assert KindOf(geogr[r][c]) == Some(islandMap[r][c].kind);
      }
    }

    /** `randomize_cell_structure`, given the permutation `random.shuffle` draws: the
        positions off the border, row by row, shuffled, and the cells at them. */
    function RandomizeCellStructure(perm: seq<nat>): (order: seq<Landscape>)
      requires Charted() && Permutation(perm, |InteriorLocations(|geogr|, |geogr[0]|)|)
      ensures |order| == |perm|
    {
      var locs := Shuffled(InteriorLocations(|geogr|, |geogr[0]|), perm);
      InteriorLocationsFacts(|geogr|, |geogr[0]|);
      ShuffledFacts(InteriorLocations(|geogr|, |geogr[0]|), perm);
      assert forall i :: 0 <= i < |locs| ==> locs[i] in locs;
      seq(|locs|, i requires 0 <= i < |locs| => islandMap[locs[i].0][locs[i].1])
    }

    /** The shuffled cells are the cells off the border, each exactly once: there are
        `(rows - 2) * (cols - 2)` of them, none when the map is under three letters high or
        wide. */
    lemma RandomizedCells(perm: seq<nat>)
      requires Charted() && Permutation(perm, |InteriorLocations(|geogr|, |geogr[0]|)|)
      ensures Walled() && Located()
      ensures |RandomizeCellStructure(perm)| == Span(Rows()) * Span(Cols())
      ensures forall i :: 0 <= i < |RandomizeCellStructure(perm)| ==> Placed(RandomizeCellStructure(perm)[i])
      ensures Distinct(RandomizeCellStructure(perm))
      ensures forall r, c :: 0 <= r < |islandMap| && 0 <= c < |islandMap[r]| && Inner(r, c) ==> islandMap[r][c] in RandomizeCellStructure(perm)
    {
      ChartedWalled();
      var locs0 := InteriorLocations(|geogr|, |geogr[0]|);
      var locs := Shuffled(locs0, perm);
      var order := RandomizeCellStructure(perm);
      InteriorCount(|geogr|, |geogr[0]|);
      InteriorLocationsFacts(|geogr|, |geogr[0]|);
      ShuffledFacts(locs0, perm);
      assert forall i :: 0 <= i < |locs| ==> locs[i] in locs;
      forall i | 0 <= i < |order|
        ensures Placed(order[i])
      {
        assert order[i] == islandMap[locs[i].0][locs[i].1];
      }
      assert Distinct(locs0) by {
        forall i, j | 0 <= i < j < |locs0|
          ensures locs0[i] != locs0[j]
        {
          assert RowMajor(locs0[i], locs0[j]);
        }
      }
      forall i, j | 0 <= i < j < |order|
        ensures order[i] != order[j]
      {
        assert order[i].loc == locs[i] && order[j].loc == locs[j];
      }
      forall r, c | 0 <= r < |islandMap| && 0 <= c < |islandMap[r]| && Inner(r, c)
        ensures islandMap[r][c] in order
      {
        assert Interior(|geogr|, |geogr[0]|, (r, c));
        var i :| 0 <= i < |locs| && locs[i] == (r, c);
        assert order[i] == islandMap[r][c];
      }
    }

    /** Cell `x` is the cell of the map at its own position, off the border. */
    ghost predicate Placed(x: Landscape)
    {
      Inner(x.loc.0, x.loc.1) && x.loc.1 < |islandMap[x.loc.0]| && x == islandMap[x.loc.0][x.loc.1]
    }

    /** `get_neighbours`: the cells at the positions `locs`, an index below zero counting
        from the end of its row or column as Python's does. */
    function GetNeighbours(locs: seq<(int, int)>): (ns: seq<Landscape>)
      requires OnMap(locs)
      ensures |ns| == |locs|
      ensures Located() ==> forall i :: 0 <= i < |locs| && 0 <= locs[i].0 && 0 <= locs[i].1 ==> ns[i].loc == locs[i]
    {
      seq(|locs|, i requires 0 <= i < |locs| => At(At(islandMap, locs[i].0), locs[i].1))
    }

    /** Every position of `locs` names a cell, counting as Python does for an index below
        zero. */
    predicate OnMap(locs: seq<(int, int)>)
    {
      forall i :: 0 <= i < |locs| ==>
        -|islandMap| <= locs[i].0 < |islandMap| && -|At(islandMap, locs[i].0)| <= locs[i].1 < |At(islandMap, locs[i].0)|
    }

    /** The four cells next to cell `(r, c)`: up, right, down and left. */
    ghost function Neighbours(r: nat, c: nat): (ns: seq<Landscape>)
      requires Even() && Inner(r, c)
      ensures |ns| == 4
    {
      [islandMap[r - 1][c], islandMap[r][c + 1], islandMap[r + 1][c], islandMap[r][c - 1]]
    }

    /** For a cell off the border, `get_neighbours(cell.neighbour_locations())` finds its
        four neighbours on the map, four different cells, none of them the cell itself. */
    lemma NeighboursAround(r: nat, c: nat)
      requires Located() && Even() && Inner(r, c)
      ensures OnMap(NeighbourLocations(islandMap[r][c].loc))
      ensures GetNeighbours(NeighbourLocations(islandMap[r][c].loc)) == Neighbours(r, c)
      ensures Apart(Neighbours(r, c)) && islandMap[r][c] !in Neighbours(r, c)
    {
      var ns := Neighbours(r, c);
      assert ns[0].loc == (r - 1, c) && ns[1].loc == (r, c + 1) && ns[2].loc == (r + 1, c) && ns[3].loc == (r, c - 1);
    }

    /** The four neighbours of cell `(r, c)`. */
    ghost function Ring(r: nat, c: nat): set<Landscape>
      requires Even() && Inner(r, c)
    {
      {islandMap[r - 1][c], islandMap[r][c + 1], islandMap[r + 1][c], islandMap[r][c - 1]}
    }

    /** Cell `(r, c)` and its neighbours are cells of the island. */
    lemma Inside(r: nat, c: nat)
      requires Covered() && Even() && Inner(r, c)
      ensures islandMap[r][c] in cells && Ring(r, c) <= cells
    {
    }

    /** Cell `(r, c)` and its four neighbours. */
    ghost function Tile(r: nat, c: nat): set<Landscape>
      requires Even() && Inner(r, c)
    {
      {islandMap[r][c], islandMap[r - 1][c], islandMap[r][c + 1], islandMap[r + 1][c], islandMap[r][c - 1]}
    }

    /** `g` has the shape of the map, and every cell outside `S` holds what `g` says of
        species `sp`. */
    ghost predicate HeldOff(g: seq<seq<multiset<Animal>>>, sp: Species, S: set<Landscape>)
      reads (cells - S)`herb, (cells - S)`carn, (cells - S)`herbImmigrants, (cells - S)`carnImmigrants
    {
      && Covered() && |g| == |islandMap| && (forall r :: 0 <= r < |g| ==> |g[r]| == |islandMap[r]|)
      && forall r, c :: 0 <= r < |islandMap| && 0 <= c < |islandMap[r]| && islandMap[r][c] !in S ==> g[r][c] == Holding(islandMap[r][c], sp)
    }

    /** No immigrants are staged where animals cannot live. */
    ghost predicate Quiet()
      reads cells`herbImmigrants, cells`carnImmigrants
    {
      Covered() && forall r, c :: 0 <= r < |islandMap| && 0 <= c < |islandMap[r]| ==> Hushed(islandMap[r][c])
    }

    /** No immigrants are staged where animals cannot live, outside `S`. */
    ghost predicate QuietOff(S: set<Landscape>)
      reads (cells - S)`herbImmigrants, (cells - S)`carnImmigrants
    {
      Covered() && forall r, c :: 0 <= r < |islandMap| && 0 <= c < |islandMap[r]| && islandMap[r][c] !in S ==> Hushed(islandMap[r][c])
    }

    /** Every cell outside tile `(r, c)` holds what `g` says, the tile holds what `g'` says,
        and `g'`, of the shape of `g`, agrees with `g` away from the tile. */
    ghost predicate Patched(g: seq<seq<multiset<Animal>>>, g': seq<seq<multiset<Animal>>>, sp: Species, r: nat, c: nat)
      requires Even() && Inner(r, c)
      reads cells`herb, cells`carn, cells`herbImmigrants, cells`carnImmigrants
    {
      && HeldOff(g, sp, Tile(r, c))
      && |g'| == |g| && (forall i :: 0 <= i < |g| ==> |g'[i]| == |g[i]|)
      && (forall i, j :: 0 <= i < |g| && 0 <= j < |g[i]| && Far(r, c, i, j) ==> g'[i][j] == g[i][j])
      && Holding(islandMap[r][c], sp) == g'[r][c]
      && (NeighboursCovered(r, c);
          NeighboursHold(Neighbours(r, c), sp, [g'[r - 1][c], g'[r][c + 1], g'[r + 1][c], g'[r][c - 1]]))
    }

    /** The neighbours of a cell off the border are cells of the island. */
    lemma NeighboursCovered(r: nat, c: nat)
      requires Even() && Inner(r, c) && Covered()
      ensures forall x :: x in Neighbours(r, c) ==> x in cells
    {
    }

    /** When every cell outside tile `(r, c)` holds what `g` says and the tile holds what
        `g'` says, which agrees with `g` away from the tile, the cells hold `g'`. */
    lemma Rejoined(g: seq<seq<multiset<Animal>>>, g': seq<seq<multiset<Animal>>>, sp: Species, r: nat, c: nat)
      requires Located() && Even() && Inner(r, c) && Patched(g, g', sp, r, c)
      ensures HeldAs(g', sp)
    {
      forall i, j | 0 <= i < |islandMap| && 0 <= j < |islandMap[i]|
        ensures g'[i][j] == Holding(islandMap[i][j], sp)
      {
        RejoinedAt(g, g', sp, r, c, i, j);
      }
    }

    /** `Rejoined` at position `(i, j)`. */
    lemma RejoinedAt(g: seq<seq<multiset<Animal>>>, g': seq<seq<multiset<Animal>>>, sp: Species, r: nat, c: nat, i: nat, j: nat)
      requires Located() && Even() && Inner(r, c) && Patched(g, g', sp, r, c)
      requires i < |islandMap| && j < |islandMap[i]|
      ensures g'[i][j] == Holding(islandMap[i][j], sp)
    {
      if Far(r, c, i, j) {
        Distant(r, c, i, j);
      } else {
        assert Neighbours(r, c)[0] == islandMap[r - 1][c] && Neighbours(r, c)[1] == islandMap[r][c + 1];
        assert Neighbours(r, c)[2] == islandMap[r + 1][c] && Neighbours(r, c)[3] == islandMap[r][c - 1];
        TileHeld(g', sp, r, c, i, j);
      }
    }

    /** A position of tile `(r, c)` holds what `g'` says when the centre and the four
        neighbours do. */
    lemma TileHeld(g': seq<seq<multiset<Animal>>>, sp: Species, r: nat, c: nat, i: nat, j: nat)
      requires 1 <= r < |islandMap| - 1 && 1 <= c && c + 1 < |islandMap[r]| && c < |islandMap[r - 1]| && c < |islandMap[r + 1]|
      requires i < |islandMap| && j < |islandMap[i]| && !Far(r, c, i, j)
      requires |g'| == |islandMap| && forall i :: 0 <= i < |g'| ==> |g'[i]| == |islandMap[i]|
      requires Holding(islandMap[r][c], sp) == g'[r][c]
      requires Holding(islandMap[r - 1][c], sp) == g'[r - 1][c] && Holding(islandMap[r][c + 1], sp) == g'[r][c + 1]
      requires Holding(islandMap[r + 1][c], sp) == g'[r + 1][c] && Holding(islandMap[r][c - 1], sp) == g'[r][c - 1]
      ensures g'[i][j] == Holding(islandMap[i][j], sp)
    {
      if i == r - 1 {
        assert j == c;
      } else if i == r + 1 {
        assert j == c;
      } else if j == c + 1 {
        assert i == r;
      } else if j == c - 1 {
        assert i == r;
      } else {
        assert i == r && j == c;
      }
    }

    /** A cell away from tile `(r, c)` is not in it. */
    lemma Distant(r: nat, c: nat, i: nat, j: nat)
      requires Located() && Even() && Inner(r, c) && i < |islandMap| && j < |islandMap[i]| && Far(r, c, i, j)
      ensures islandMap[i][j] !in Tile(r, c)
    {
      assert islandMap[i][j].loc == (i, j);
      assert islandMap[r][c].loc == (r, c) && islandMap[r - 1][c].loc == (r - 1, c) && islandMap[r][c + 1].loc == (r, c + 1);
      assert islandMap[r + 1][c].loc == (r + 1, c) && islandMap[r][c - 1].loc == (r, c - 1);
    }

    /** Cells that hold what `g` says: the four neighbours of cell `(r, c)` hold what `g`
        says at their positions. */
    lemma HeldAround(g: seq<seq<multiset<Animal>>>, sp: Species, r: nat, c: nat)
      requires Even() && Inner(r, c) && HeldAs(g, sp)
      ensures NeighboursHold(Neighbours(r, c), sp, [g[r - 1][c], g[r][c + 1], g[r + 1][c], g[r][c - 1]])
    {
    }

    /** A quiet island is quiet away from tile `(r, c)`, and each cell of the tile is hushed. */
    lemma QuietTile(r: nat, c: nat)
      requires Even() && Inner(r, c) && Quiet()
      ensures QuietOff(Tile(r, c)) && Hushed(islandMap[r][c]) && NeighboursHushed(Neighbours(r, c))
    {
    }

    /** Quiet away from tile `(r, c)`, with every cell of the tile hushed, is quiet. */
    lemma QuietBack(r: nat, c: nat)
      requires Even() && Inner(r, c) && QuietOff(Tile(r, c))
      requires Hushed(islandMap[r][c]) && NeighboursHushed(Neighbours(r, c))
      ensures Quiet()
    {
      forall i, j | 0 <= i < |islandMap| && 0 <= j < |islandMap[i]| && islandMap[i][j] in Tile(r, c)
        ensures Hushed(islandMap[i][j])
      {
        var y := islandMap[i][j];
        assert y == islandMap[r][c] || y == islandMap[r - 1][c] || y == islandMap[r][c + 1] || y == islandMap[r + 1][c] || y == islandMap[r][c - 1];
      }
    }

    /** Cell `(r, c)`, off the border, valid and holding its share of `flock`, is ready to
        move its animals of species `sp`. */
    lemma CellReady(g: seq<seq<multiset<Animal>>>, go: seq<seq<multiset<Animal>>>, sp: Species, flock: set<Animal>, r: nat, c: nat)
      requires HeldAs(g, sp) && HeldAs(go, Other(sp)) && r < |islandMap| && c < |islandMap[r]|
      requires Sound(Pool(g), sp) && Sound(Pool(go), Other(sp)) && Within(Pool(g) + Pool(go), flock)
      ensures islandMap[r][c].Valid()
      ensures forall i :: 0 <= i < |islandMap[r][c].Residents(sp)| ==> islandMap[r][c].Residents(sp)[i] in flock
    {
      if sp == Herbivore {
        CellValidIn(g, go, r, c);
        CellStock(g, go, flock, r, c);
      } else {
        CellValidIn(go, g, r, c);
        assert Pool(go) + Pool(g) == Pool(g) + Pool(go);
        CellStock(go, g, flock, r, c);
      }
    }

    /** `cell.herb_migration(neighbours)` (or `carn_migration`) for cell `(r, c)`, seen on
        the holdings grids: the animals of species `sp` the cells hold become `g'`, with
        the same pool, what the other species holds does not change, and no immigrants
        come to a cell where animals cannot live. On failure F was 0. */
    method MoveAt(env: Env, sp: Species, x: Landscape, rng: Rng, ghost r: nat, ghost c: nat, ghost g: seq<seq<multiset<Animal>>>,
                  ghost go: seq<seq<multiset<Animal>>>, ghost flock: set<Animal>, ghost quiet: bool)
      returns (res: Result<(), MoveError>, ghost g': seq<seq<multiset<Animal>>>)
      requires Located() && Even() && Inner(r, c) && x == islandMap[r][c] && rng.Valid()
      requires HeldAs(g, sp) && HeldAs(go, Other(sp))
      requires Sound(Pool(g), sp) && Sound(Pool(go), Other(sp)) && Within(Pool(g) + Pool(go), flock)
      requires quiet ==> Quiet()
      modifies x`herb, x`carn, flock`fitnessCache, rng`drawn, Ring(r, c)`herbImmigrants, Ring(r, c)`carnImmigrants
      ensures HeldAs(g', sp) && HeldAs(go, Other(sp)) && Pool(g') == Pool(g) && (quiet ==> Quiet())
      ensures res.Failure? ==> env.ParamsOf(sp).F == 0.0
    {
      NeighboursAround(r, c);
      var ns := GetNeighbours(NeighbourLocations(x.loc));
      CellReady(g, go, sp, flock, r, c);
      ghost var hn := [g[r - 1][c], g[r][c + 1], g[r + 1][c], g[r][c - 1]];
      ghost var hno := [go[r - 1][c], go[r][c + 1], go[r + 1][c], go[r][c - 1]];
      assert HeldOff(g, sp, Tile(r, c)) && HeldOff(go, Other(sp), Tile(r, c));
      HeldAround(g, sp, r, c);
      HeldAround(go, Other(sp), r, c);
      if quiet {
        QuietTile(r, c);
      }
      ghost var Ts, To := Stages(ns, sp), Stages(ns, Other(sp));
      if quiet {
        Silent(ns, sp, Ts, To);
      }
      res, g' := MoveTile(env, sp, x, ns, rng, r, c, g, go, flock, quiet, hn, hno, Ts, To);
    }

    /** `MoveAt` once the tile is known: `x` and its neighbours `ns` hold what `g` and `go`
        say, `hn` and `hno` for the neighbours, and `Ts`, `To` are what the neighbours have
        staged. */
    method MoveTile(env: Env, sp: Species, x: Landscape, ns: seq<Landscape>, rng: Rng, ghost r: nat, ghost c: nat,
                    ghost g: seq<seq<multiset<Animal>>>, ghost go: seq<seq<multiset<Animal>>>, ghost flock: set<Animal>, ghost quiet: bool,
                    ghost hn: seq<multiset<Animal>>, ghost hno: seq<multiset<Animal>>, ghost Ts: seq<seq<Animal>>, ghost To: seq<seq<Animal>>)
      returns (res: Result<(), MoveError>, ghost g': seq<seq<multiset<Animal>>>)
      requires Located() && Even() && Inner(r, c) && x == islandMap[r][c] && ns == Neighbours(r, c)
      requires x.Valid() && Apart(ns) && x !in ns && rng.Valid()
      requires forall i :: 0 <= i < |x.Residents(sp)| ==> x.Residents(sp)[i] in flock
      requires HeldOff(g, sp, Tile(r, c)) && HeldOff(go, Other(sp), Tile(r, c))
      requires g[r][c] == Holding(x, sp) && go[r][c] == Holding(x, Other(sp))
      requires hn == [g[r - 1][c], g[r][c + 1], g[r + 1][c], g[r][c - 1]] && NeighboursHold(ns, sp, hn)
      requires hno == [go[r - 1][c], go[r][c + 1], go[r + 1][c], go[r][c - 1]] && NeighboursHold(ns, Other(sp), hno)
      requires Ts == Stages(ns, sp) && To == Stages(ns, Other(sp))
      requires quiet ==> QuietOff(Tile(r, c)) && Hushed(x)
      requires quiet ==> forall k :: 0 <= k < 4 && !ns[k].AnimalsCanLiveHere() ==> Ts[k] == [] && To[k] == []
      modifies x`herb, x`carn, flock`fitnessCache, rng`drawn, {ns[0], ns[1], ns[2], ns[3]}`herbImmigrants, {ns[0], ns[1], ns[2], ns[3]}`carnImmigrants
      ensures HeldAs(g', sp) && HeldAs(go, Other(sp)) && Pool(g') == Pool(g) && (quiet ==> Quiet())
      ensures res.Failure? ==> env.ParamsOf(sp).F == 0.0
    {
      ghost var R, S, Ro, So := x.Residents(sp), x.Staged(sp), x.Residents(Other(sp)), x.Staged(Other(sp));
      ghost var hb, cb := Herbs(ns), Carns(ns);
      Pinned(x, ns, sp, R, S, hb, cb, Ts, g[r][c], hn);
      Pinned(x, ns, Other(sp), Ro, So, hb, cb, To, go[r][c], hno);
      Hushes(x, sp);
      ghost var left, st, parts;
      res, left, st, parts := MoveFramed(env, sp, x, ns, rng, r, c, g, go, flock, quiet, R, S, Ro, So, Ts, To, hb, cb);
      Repinned(x, ns, Other(sp), Ro, So, hb, cb, To, go[r][c], hno);
      ghost var h0 := Recount(x, ns, sp, R, S, g[r][c], hb, cb, Ts, hn, left, st, parts);
      Staying(go, Other(sp), r, c, hno);
      if quiet {
        Hushes(x, sp);
        Hushing(ns, sp, st, To);
        QuietBack(r, c);
      }
      g' := Spread(g, r, c, h0, parts);
      Spreading(g, sp, r, c, h0, parts, hn);
      SpreadPool(g, r, c, h0, parts);
    }

    /** `MoveLists` for cell `(r, c)` of the map: besides what it says of the lists of the
        cell and its neighbours, every cell off the tile keeps what it holds of both species
        and, if it was quiet, stays quiet. */
    method MoveFramed(env: Env, sp: Species, x: Landscape, ns: seq<Landscape>, rng: Rng, ghost r: nat, ghost c: nat,
                      ghost g: seq<seq<multiset<Animal>>>, ghost go: seq<seq<multiset<Animal>>>, ghost flock: set<Animal>, ghost quiet: bool,
                      ghost R: seq<Animal>, ghost S: seq<Animal>, ghost Ro: seq<Animal>, ghost So: seq<Animal>,
                      ghost Ts: seq<seq<Animal>>, ghost To: seq<seq<Animal>>, ghost hb: seq<seq<Animal>>, ghost cb: seq<seq<Animal>>)
      returns (res: Result<(), MoveError>, ghost left: seq<Animal>, ghost st: seq<seq<Animal>>, ghost parts: seq<multiset<Animal>>)
      requires Located() && Even() && Inner(r, c) && x == islandMap[r][c] && ns == Neighbours(r, c)
      requires x.Valid() && Apart(ns) && x !in ns && rng.Valid()
      requires R == x.Residents(sp) && S == x.Staged(sp) && Ro == x.Residents(Other(sp)) && So == x.Staged(Other(sp))
      requires Ts == Stages(ns, sp) && To == Stages(ns, Other(sp)) && hb == Herbs(ns) && cb == Carns(ns)
      requires forall i :: 0 <= i < |R| ==> R[i] in flock
      requires HeldOff(g, sp, Tile(r, c)) && HeldOff(go, Other(sp), Tile(r, c)) && (quiet ==> QuietOff(Tile(r, c)))
      modifies x`herb, x`carn, flock`fitnessCache, rng`drawn, {ns[0], ns[1], ns[2], ns[3]}`herbImmigrants, {ns[0], ns[1], ns[2], ns[3]}`carnImmigrants
      ensures HeldOff(g, sp, Tile(r, c)) && HeldOff(go, Other(sp), Tile(r, c)) && (quiet ==> QuietOff(Tile(r, c)))
      ensures x.Residents(sp) == left && x.Staged(sp) == S && x.Residents(Other(sp)) == Ro && x.Staged(Other(sp)) == So
      ensures Stages(ns, sp) == st && Stages(ns, Other(sp)) == To && Herbs(ns) == hb && Carns(ns) == cb
      ensures |parts| == 4 && multiset(left) + (parts[0] + parts[1] + parts[2] + parts[3]) == multiset(R)
      ensures forall k :: 0 <= k < 4 ==> multiset(st[k]) == multiset(Ts[k]) + parts[k]
      ensures forall k :: 0 <= k < 4 && !ns[k].AnimalsCanLiveHere() ==> parts[k] == multiset{} && st[k] == Ts[k]
      ensures res.Failure? ==> env.ParamsOf(sp).F == 0.0
    {
      assert x in Tile(r, c) && ns[0] in Tile(r, c) && ns[1] in Tile(r, c) && ns[2] in Tile(r, c) && ns[3] in Tile(r, c);
      res, left, st, parts := MoveLists(env, sp, x, ns, rng, flock, R, S, Ro, So, Ts, To, hb, cb);
    }

    /** The cells hold the spread grid once the centre of tile `(r, c)` holds `h0` and each
        neighbour what it held, `hn[k]`, and `parts[k]`. */
    lemma Spreading(g: seq<seq<multiset<Animal>>>, sp: Species, r: nat, c: nat, h0: multiset<Animal>,
                    parts: seq<multiset<Animal>>, hn: seq<multiset<Animal>>)
      requires Located() && Even() && Inner(r, c) && HeldOff(g, sp, Tile(r, c)) && |parts| == 4
      requires hn == [g[r - 1][c], g[r][c + 1], g[r + 1][c], g[r][c - 1]]
      requires Holding(islandMap[r][c], sp) == h0 && NeighboursGained(Neighbours(r, c), sp, hn, parts)
      ensures HeldAs(Spread(g, r, c, h0, parts), sp)
    {
      var g' := Spread(g, r, c, h0, parts);
      SpreadAt(g, r, c, h0, parts);
      Rejoined(g, g', sp, r, c);
    }

    /** The cells still hold `go` once tile `(r, c)` holds what it held. */
    lemma Staying(go: seq<seq<multiset<Animal>>>, so: Species, r: nat, c: nat, hno: seq<multiset<Animal>>)
      requires Located() && Even() && Inner(r, c) && HeldOff(go, so, Tile(r, c))
      requires hno == [go[r - 1][c], go[r][c + 1], go[r + 1][c], go[r][c - 1]]
      requires Holding(islandMap[r][c], so) == go[r][c] && NeighboursHold(Neighbours(r, c), so, hno)
      ensures HeldAs(go, so)
    {
      Rejoined(go, go, so, r, c);
    }

    /** `animals_migrate`, given the permutation `random.shuffle` draws for
        `randomize_cell_structure`: in the shuffled order of the cells off the border, the
        herbivores of each cell move out to the staging lists of its neighbours, then every
        such cell commits what it was sent; the carnivores do the same, in the same order.
        No animal is lost or made: each herd is what it was and the island stays valid, and
        an island with nothing staged ends with nothing staged. The migration stops at the
        first cell whose pass fails, which happens only when the F of its species is 0. */
    method AnimalsMigrate(env: Env, rng: Rng, perm: seq<nat>) returns (res: Result<(), MoveError>)
      requires Valid() && Charted() && rng.Valid() && Permutation(perm, |InteriorLocations(|geogr|, |geogr[0]|)|)
      modifies cells`herb, cells`carn, cells`herbImmigrants, cells`carnImmigrants, Stock()`fitnessCache, rng`drawn
      ensures Valid() && Herd(Herbivore) == old(Herd(Herbivore)) && Herd(Carnivore) == old(Herd(Carnivore))
      ensures old(Settled()) && res.Success? ==> Settled()
      ensures res.Failure? ==> env.ParamsOf(Herbivore).F == 0.0 || env.ParamsOf(Carnivore).F == 0.0
    {
      var order := RandomizeCellStructure(perm);
      RandomizedCells(perm);
      res := MigrateSweep(env, order, rng, Holdings(Herbivore), Holdings(Carnivore), Settled());
    }

    /** The four passes of `animals_migrate` over the cells `order`, which hold `gh` and
        `gc`; `settled` says whether nothing was staged. */
    method MigrateSweep(env: Env, order: seq<Landscape>, rng: Rng, ghost gh: seq<seq<multiset<Animal>>>,
                        ghost gc: seq<seq<multiset<Animal>>>, ghost settled: bool)
      returns (res: Result<(), MoveError>)
      requires Valid() && Walled() && Located() && rng.Valid()
      requires gh == Holdings(Herbivore) && gc == Holdings(Carnivore) && settled == Settled()
      requires forall i :: 0 <= i < |order| ==> Placed(order[i])
      requires forall r, c :: 0 <= r < |islandMap| && 0 <= c < |islandMap[r]| && Inner(r, c) ==> islandMap[r][c] in order
      modifies cells`herb, cells`carn, cells`herbImmigrants, cells`carnImmigrants, Stock()`fitnessCache, rng`drawn
      ensures Valid() && Herd(Herbivore) == Pool(gh) && Herd(Carnivore) == Pool(gc)
      ensures settled && res.Success? ==> Settled()
      ensures res.Failure? ==> env.ParamsOf(Herbivore).F == 0.0 || env.ParamsOf(Carnivore).F == 0.0
    {
      Stocked(gh, gc);
      if settled {
        SettledQuiet();
      }
      ghost var flock := Stock();
      ghost var gh1, gc1 := gh, gc;
      res, gh1 := MovePass(env, Herbivore, order, rng, gh, gc, flock, settled);
      if res.Success? {
        CommitPass(order, gh1, gc, settled);
        assert Pool(gc) + Pool(gh1) == Pool(gh1) + Pool(gc);
        res, gc1 := MovePass(env, Carnivore, order, rng, gc, gh1, flock, settled);
        if res.Success? {
          CommitPass(order, gh1, gc1, settled);
          if settled {
            Calm(order);
          }
        }
      }
      StillValid(gh1, gc1);
    }

    /** An island with nothing staged is quiet. */
    lemma SettledQuiet()
      requires Covered() && Settled()
      ensures Quiet()
    {
    }

    /** A quiet walled island whose cells off the border have all committed their
        immigrants has nothing staged. */
    lemma Calm(order: seq<Landscape>)
      requires Shaped() && Walled() && Quiet()
      requires forall r, c :: 0 <= r < |islandMap| && 0 <= c < |islandMap[r]| && Inner(r, c) ==> islandMap[r][c] in order
      requires forall i :: 0 <= i < |order| ==> order[i].herbImmigrants == [] && order[i].carnImmigrants == []
      ensures Settled()
    {
      forall x | x in cells
        ensures x.herbImmigrants == [] && x.carnImmigrants == []
      {
        FlattenMember(islandMap, x);
        var r, c :| 0 <= r < |islandMap| && 0 <= c < |islandMap[r]| && islandMap[r][c] == x;
        if Inner(r, c) {
          var i :| 0 <= i < |order| && order[i] == x;
        } else {
          assert Hushed(islandMap[r][c]);
        }
      }
    }

    /** One pass of `herb_migration` (or `carn_migration`) over the cells `order`: the
        animals of species `sp` the cells hold become `g'`, with the same pool, the other
        species stays where it is, and a quiet island stays quiet. The pass stops at the
        first cell that fails, which happens only when F is 0. */
    method MovePass(env: Env, sp: Species, order: seq<Landscape>, rng: Rng, ghost g: seq<seq<multiset<Animal>>>,
                    ghost go: seq<seq<multiset<Animal>>>, ghost flock: set<Animal>, ghost quiet: bool)
      returns (res: Result<(), MoveError>, ghost g': seq<seq<multiset<Animal>>>)
      requires Located() && Even() && rng.Valid() && forall i :: 0 <= i < |order| ==> Placed(order[i])
      requires HeldAs(g, sp) && HeldAs(go, Other(sp))
      requires Sound(Pool(g), sp) && Sound(Pool(go), Other(sp)) && Within(Pool(g) + Pool(go), flock)
      requires quiet ==> Quiet()
      modifies cells`herb, cells`carn, cells`herbImmigrants, cells`carnImmigrants, flock`fitnessCache, rng`drawn
      ensures HeldAs(g', sp) && HeldAs(go, Other(sp)) && Pool(g') == Pool(g) && (quiet ==> Quiet())
      ensures res.Failure? ==> env.ParamsOf(sp).F == 0.0
    {
      res, g' := Success(()), g;
      for i := 0 to |order|
        invariant HeldAs(g', sp) && HeldAs(go, Other(sp)) && Pool(g') == Pool(g) && (quiet ==> Quiet())
        invariant res.Success?
      {
        var x := order[i];
        Inside(x.loc.0, x.loc.1);
        res, g' := MoveAt(env, sp, x, rng, x.loc.0, x.loc.1, g', go, flock, quiet);
        if res.Failure? {
          return;
        }
      }
    }

    /** `add_immigrants_to_pop` for every cell of `order`: each commits its staged animals,
        so none of them has any staged, and what every cell holds of each species, `gh` and
        `gc`, does not change. */
    method CommitPass(order: seq<Landscape>, ghost gh: seq<seq<multiset<Animal>>>, ghost gc: seq<seq<multiset<Animal>>>, ghost quiet: bool)
      requires Located() && Even() && forall i :: 0 <= i < |order| ==> Placed(order[i])
      requires HeldAs(gh, Herbivore) && HeldAs(gc, Carnivore) && (quiet ==> Quiet())
      modifies cells`herb, cells`carn, cells`herbImmigrants, cells`carnImmigrants
      ensures HeldAs(gh, Herbivore) && HeldAs(gc, Carnivore) && (quiet ==> Quiet())
      ensures forall i :: 0 <= i < |order| ==> order[i].herbImmigrants == [] && order[i].carnImmigrants == []
    {
      for i := 0 to |order|
        invariant HeldAs(gh, Herbivore) && HeldAs(gc, Carnivore) && (quiet ==> Quiet())
        invariant forall j :: 0 <= j < i ==> order[j].herbImmigrants == [] && order[j].carnImmigrants == []
      {
        Inside(order[i].loc.0, order[i].loc.1);
        CommitAt(order[i], order, i, gh, gc, quiet);
      }
    }

    /** `add_immigrants_to_pop` for cell `x`, the `i`th of `order`: it has nothing staged
        afterwards, nor has any cell of `order` before it, and every cell holds what it held
        of each species. */
    method CommitAt(x: Landscape, ghost order: seq<Landscape>, ghost i: nat, ghost gh: seq<seq<multiset<Animal>>>,
                    ghost gc: seq<seq<multiset<Animal>>>, ghost quiet: bool)
      requires Located() && Even() && i < |order| && x == order[i] && Placed(x)
      requires HeldAs(gh, Herbivore) && HeldAs(gc, Carnivore) && (quiet ==> Quiet())
      requires forall j :: 0 <= j < i ==> order[j].herbImmigrants == [] && order[j].carnImmigrants == []
      modifies x`herb, x`carn, x`herbImmigrants, x`carnImmigrants
      ensures HeldAs(gh, Herbivore) && HeldAs(gc, Carnivore) && (quiet ==> Quiet())
      ensures forall j :: 0 <= j <= i ==> order[j].herbImmigrants == [] && order[j].carnImmigrants == []
    {
      ghost var hh, hc := Holding(x, Herbivore), Holding(x, Carnivore);
      ghost var h0, i0, c0, j0 := x.herb, x.herbImmigrants, x.carn, x.carnImmigrants;
      x.AddImmigrantsToPop();
      forall j | 0 <= j < i && order[j] != x
        ensures order[j].herbImmigrants == [] && order[j].carnImmigrants == []
      {
      }
      assert multiset(h0 + i0) == multiset(h0) + multiset(i0) && multiset(c0 + j0) == multiset(c0) + multiset(j0);
      forall r, c | 0 <= r < |islandMap| && 0 <= c < |islandMap[r]|
        ensures gh[r][c] == Holding(islandMap[r][c], Herbivore) && gc[r][c] == Holding(islandMap[r][c], Carnivore)
        ensures quiet ==> Hushed(islandMap[r][c])
      {
        if islandMap[r][c] != x {
          assert islandMap[r][c].loc != x.loc;
        }
      }
    }

    /** What `place_animals` raises at the 0-indexed position `(row, col)`, if anything:
        past the last row, or past the last column of the first row, "does not exist"; an
        index that still misses the map, Python's `IndexError`; a Mountain or an Ocean,
        "can not live". An index below zero counts from the end, as Python's does. */
    function PositionError(row: int, col: int): (e: Option<PlaceError>)
      ensures e.None? ==> 0 <= row + Rows() && row < Rows() && 0 <= col + |At(islandMap, row)| && col < |At(islandMap, row)|
      ensures e.None? ==> At(At(islandMap, row), col).AnimalsCanLiveHere()
      ensures e.Some? ==> !e.value.RecordRejected?
    {
      if Rows() - 1 < row then Some(NoSuchPosition(row, col))
      else if Rows() == 0 then Some(PositionIndexError)
      else if Cols() - 1 < col then Some(NoSuchPosition(row, col))
      else if row + Rows() < 0 || col + |At(islandMap, row)| < 0 || |At(islandMap, row)| <= col then Some(PositionIndexError)
      else if !At(At(islandMap, row), col).AnimalsCanLiveHere() then Some(CannotLiveAt(row, col))
      else None
    }

    /** The cell `place_animals` puts the animals in for a good 0-indexed position
        `(row, col)`, read as Python reads an index. */
    function Target(row: int, col: int): (x: Landscape)
      requires PositionError(row, col).None?
    {
      At(At(islandMap, row), col)
    }

    /** Position `loc` is good, and `x` is the cell there: `loc` less one in each
        coordinate. */
    predicate Reaches(loc: (int, int), x: Landscape)
    {
      PositionError(loc.0 - 1, loc.1 - 1).None? && x == Target(loc.0 - 1, loc.1 - 1)
    }

    /** The cell at a good position `(row, col)` is cell `(r, c)` of the map, with an index
        below zero counted from the end. */
    lemma TargetAt(row: int, col: int) returns (r: nat, c: nat)
      requires PositionError(row, col).None?
      ensures r < |islandMap| && c < |islandMap[r]| && Target(row, col) == islandMap[r][c]
      ensures r == if row < 0 then |islandMap| + row else row
    {
      r := if row < 0 then |islandMap| + row else row;
      c := if col < 0 then |islandMap[r]| + col else col;
    }

    /** What `place_animals` raises on placement `p`: the error of its position, or else
        the error of the first record of `p.pop` that `add_population` rejects (a record
        past `Admitted(p.pop)` always raises, by `AdmittedFacts`). */
    function PlacementError(p: Placement): Option<PlaceError>
    {
      match PositionError(p.loc.0 - 1, p.loc.1 - 1)
      case Some(e) => Some(e)
      case None =>
        if Admitted(p.pop) == |p.pop| then None
        else match RecordError(p.pop[Admitted(p.pop)])
          case Some(e) => Some(RecordRejected(e))
          case None => None
    }

    /** `place_animals`: for each placement in turn, its position less one in each
        coordinate is checked and its records are added to the cell there, until one
        raises. The `n` placements before it stay placed, and so do the records of the
        failing one that `add_population` got through: loading is not atomic. `xs` are the
        cells reached and `hs`, `cs` the new herbivores and carnivores each placement
        brought; every cell's lists are what they were followed by the animals brought to
        it, and the island stays valid. */
    method PlaceAnimals(population: seq<Placement>)
      returns (res: Result<(), PlaceError>, ghost n: nat, ghost xs: seq<Landscape>, ghost hs: seq<seq<Animal>>, ghost cs: seq<seq<Animal>>)
      requires Valid() && Charted()
      modifies cells`herb, cells`carn
      ensures Valid()
      ensures n <= |population| && forall k :: 0 <= k < n ==> PlacementError(population[k]).None?
      ensures res.Success? <==> n == |population|
      ensures res.Failure? ==> Some(res.error) == PlacementError(population[n])
      ensures |hs| == |cs| == |xs| == if res.Failure? && res.error.RecordRejected? then n + 1 else n
      ensures forall i :: 0 <= i < |xs| ==> Reaches(population[i].loc, xs[i])
      ensures forall i :: 0 <= i < |xs| ==> Landscapes.Placed(population[i].pop, Admitted(population[i].pop), hs[i], cs[i])
      ensures forall r, c :: 0 <= r < |islandMap| && 0 <= c < |islandMap[r]| ==>
                && Holding(islandMap[r][c], Herbivore) == old(Holding(islandMap[r][c], Herbivore)) + multiset(Gather(xs, hs, islandMap[r][c]))
                && Holding(islandMap[r][c], Carnivore) == old(Holding(islandMap[r][c], Carnivore)) + multiset(Gather(xs, cs, islandMap[r][c]))
    {
      ChartedWalled();
      ghost var gh, gc := Holdings(Herbivore), Holdings(Carnivore);
      Stocked(gh, gc);
      ghost var gk, gkc;
      res, n, xs, hs, cs, gk, gkc := PlaceAll(population, gh, gc);
      StillValid(gk, gkc);
      HoldingsAt(Herbivore);
      HoldingsAt(Carnivore);
    }

    /** The loop of `place_animals` over cells holding `gh` and `gc`, sound herds: they end
        up holding `gk` and `gkc`, sound herds too. */
    method PlaceAll(population: seq<Placement>, ghost gh: seq<seq<multiset<Animal>>>, ghost gc: seq<seq<multiset<Animal>>>)
      returns (res: Result<(), PlaceError>, ghost n: nat, ghost xs: seq<Landscape>, ghost hs: seq<seq<Animal>>, ghost cs: seq<seq<Animal>>,
               ghost gk: seq<seq<multiset<Animal>>>, ghost gkc: seq<seq<multiset<Animal>>>)
      requires Located() && Even() && HeldAs(gh, Herbivore) && HeldAs(gc, Carnivore)
      requires Sound(Pool(gh), Herbivore) && Sound(Pool(gc), Carnivore)
      modifies cells`herb, cells`carn
      ensures HeldAs(gk, Herbivore) && HeldAs(gkc, Carnivore) && Sound(Pool(gk), Herbivore) && Sound(Pool(gkc), Carnivore)
      ensures n <= |population| && forall k :: 0 <= k < n ==> PlacementError(population[k]).None?
      ensures res.Success? <==> n == |population|
      ensures res.Failure? ==> Some(res.error) == PlacementError(population[n])
      ensures |hs| == |cs| == |xs| == if res.Failure? && res.error.RecordRejected? then n + 1 else n
      ensures forall i :: 0 <= i < |xs| ==> Reaches(population[i].loc, xs[i])
      ensures forall i :: 0 <= i < |xs| ==> Landscapes.Placed(population[i].pop, Admitted(population[i].pop), hs[i], cs[i])
      ensures Tracks(gh, gk, xs, hs) && Tracks(gc, gkc, xs, cs)
    {
      xs, hs, cs, gk, gkc := [], [], [], gh, gc;
      for i := 0 to |population|
        invariant |hs| == |cs| == |xs| == i && forall k :: 0 <= k < i ==> PlacementError(population[k]).None?
        invariant HeldAs(gk, Herbivore) && HeldAs(gkc, Carnivore) && Sound(Pool(gk), Herbivore) && Sound(Pool(gkc), Carnivore)
        invariant forall k :: 0 <= k < i ==> Reaches(population[k].loc, xs[k])
        invariant forall k :: 0 <= k < i ==> Landscapes.Placed(population[k].pop, Admitted(population[k].pop), hs[k], cs[k])
        invariant Tracks(gh, gk, xs, hs) && Tracks(gc, gkc, xs, cs)
      {
        var e;
        e, xs, hs, cs, gk, gkc := PlaceNext(population[i], population, i, gh, gc, xs, hs, cs, gk, gkc);
        if e.Some? {
          return Failure(e.value), i, xs, hs, cs, gk, gkc;
        }
        NoneMore(population, i);
      }
      res, n := Success(()), |population|;
    }

    /** One turn of the loop of `place_animals`, on placement `p`, the `i`th: what it raises,
        and the cells reached, the animals placed and the cells' holdings after it. */
    method PlaceNext(p: Placement, ghost population: seq<Placement>, ghost i: nat,
                     ghost gh: seq<seq<multiset<Animal>>>, ghost gc: seq<seq<multiset<Animal>>>,
                     ghost xs: seq<Landscape>, ghost hs: seq<seq<Animal>>, ghost cs: seq<seq<Animal>>,
                     ghost gk: seq<seq<multiset<Animal>>>, ghost gkc: seq<seq<multiset<Animal>>>)
      returns (e: Option<PlaceError>, ghost xs': seq<Landscape>, ghost hs': seq<seq<Animal>>, ghost cs': seq<seq<Animal>>,
               ghost gk': seq<seq<multiset<Animal>>>, ghost gkc': seq<seq<multiset<Animal>>>)
      requires Located() && i < |population| && p == population[i] && |hs| == |cs| == |xs| == i
      requires HeldAs(gk, Herbivore) && HeldAs(gkc, Carnivore) && Sound(Pool(gk), Herbivore) && Sound(Pool(gkc), Carnivore)
      requires forall k {:trigger xs[k]} :: 0 <= k < i ==> Reaches(population[k].loc, xs[k])
      requires forall k :: 0 <= k < i ==> Landscapes.Placed(population[k].pop, Admitted(population[k].pop), hs[k], cs[k])
      requires Tracks(gh, gk, xs, hs) && Tracks(gc, gkc, xs, cs)
      modifies cells`herb, cells`carn
      ensures e == PlacementError(p)
      ensures |hs'| == |cs'| == |xs'| == if e.Some? && !e.value.RecordRejected? then i else i + 1
      ensures HeldAs(gk', Herbivore) && HeldAs(gkc', Carnivore) && Sound(Pool(gk'), Herbivore) && Sound(Pool(gkc'), Carnivore)
      ensures forall k :: 0 <= k < |xs'| ==> Reaches(population[k].loc, xs'[k])
      ensures forall k :: 0 <= k < |xs'| ==> Landscapes.Placed(population[k].pop, Admitted(population[k].pop), hs'[k], cs'[k])
      ensures Tracks(gh, gk', xs', hs') && Tracks(gc, gkc', xs', cs')
    {
      var row, col := p.loc.0 - 1, p.loc.1 - 1;
      e := PositionError(row, col);
      if e.Some? {
        PositionRejected(p);
        return e, xs, hs, cs, gk, gkc;
      }
      ghost var x, r, c, hb, cb;
      e, x, r, c, hb, cb, gk', gkc' := PlaceAtPosition(p, row, col, population, i, hs, cs, gk, gkc);
      ReachedMore(population, xs, hs, cs, p, x, hb, cb);
      xs', hs', cs' := xs + [x], hs + [hb], cs + [cb];
      Extended(gh, gk, r, c, xs, hs, hb, gk', xs', hs');
      Extended(gc, gkc, r, c, xs, cs, cb, gkc', xs', cs');
    }

    /** The turn of placement `p`, the `i`th, at a good position: its records go to the
        cell there. */
    method PlaceAtPosition(p: Placement, row: int, col: int, ghost population: seq<Placement>, ghost i: nat,
                           ghost hs: seq<seq<Animal>>, ghost cs: seq<seq<Animal>>,
                           ghost gk: seq<seq<multiset<Animal>>>, ghost gkc: seq<seq<multiset<Animal>>>)
      returns (e: Option<PlaceError>, x: Landscape, ghost r: nat, ghost c: nat, ghost hb: seq<Animal>, ghost cb: seq<Animal>,
               ghost gk': seq<seq<multiset<Animal>>>, ghost gkc': seq<seq<multiset<Animal>>>)
      requires Located() && i < |population| && p == population[i] && |hs| == |cs| == i
      requires row == p.loc.0 - 1 && col == p.loc.1 - 1 && PositionError(row, col).None?
      requires HeldAs(gk, Herbivore) && HeldAs(gkc, Carnivore) && Sound(Pool(gk), Herbivore) && Sound(Pool(gkc), Carnivore)
      requires forall k :: 0 <= k < i ==> Landscapes.Placed(population[k].pop, Admitted(population[k].pop), hs[k], cs[k])
      modifies cells`herb, cells`carn
      ensures e == PlacementError(p) && (e.None? || e.value.RecordRejected?)
      ensures Reaches(p.loc, x) && Landscapes.Placed(p.pop, Admitted(p.pop), hb, cb)
      ensures r < |islandMap| && c < |islandMap[r]| && x == islandMap[r][c]
      ensures forall k :: 0 <= k < i ==> Landscapes.Placed(population[k].pop, Admitted(population[k].pop), hs[k], cs[k])
      ensures HeldAs(gk', Herbivore) && HeldAs(gkc', Carnivore) && Sound(Pool(gk'), Herbivore) && Sound(Pool(gkc'), Carnivore)
      ensures gk' == gk[r := gk[r][c := gk[r][c] + multiset(hb)]] && gkc' == gkc[r := gkc[r][c := gkc[r][c] + multiset(cb)]]
    {
      r, c := TargetAt(row, col);
      x := Target(row, col);
      e, hb, cb, gk', gkc' := PlaceAt(x, r, c, p, population, hs, cs, gk, gkc);
    }

    /** `cell.add_population(pop)` on a cell where animals can live, seen from the island:
        the cell's lists gain the new animals `hb` and `cb` that the records before the first
        rejected one describe, and it holds, of each species, what it held and those, new
        animals, so none of them in the herds `ph` and `pc`, that keep it valid. */
    method PopulateCell(x: Landscape, pop: seq<AnimalRecord>, ghost gk: seq<seq<multiset<Animal>>>, ghost gkc: seq<seq<multiset<Animal>>>,
                        ghost ph: multiset<Animal>, ghost pc: multiset<Animal>,
                        ghost population: seq<Placement>, ghost hs: seq<seq<Animal>>, ghost cs: seq<seq<Animal>>)
      returns (r: Result<(), CellError>, ghost hb: seq<Animal>, ghost cb: seq<Animal>, ghost mh: multiset<Animal>, ghost mc: multiset<Animal>)
      requires x.Valid() && x.AnimalsCanLiveHere()
      requires HeldElsewhere(gk, Herbivore, x) && HeldElsewhere(gkc, Carnivore, x)
      requires |hs| == |cs| <= |population|
      requires forall k :: 0 <= k < |hs| ==> Landscapes.Placed(population[k].pop, Admitted(population[k].pop), hs[k], cs[k])
      modifies x`herb, x`carn
      ensures x.herb == old(x.herb) + hb && x.carn == old(x.carn) + cb
      ensures r.Success? <==> Admitted(pop) == |pop|
      ensures r.Failure? ==> Some(r.error) == RecordError(pop[Admitted(pop)])
      ensures Landscapes.Placed(pop, Admitted(pop), hb, cb)
      ensures (forall a :: a in hb ==> fresh(a)) && forall a :: a in cb ==> fresh(a)
      ensures Holding(x, Herbivore) == mh && Holding(x, Carnivore) == mc
      ensures mh == old(Holding(x, Herbivore)) + multiset(hb) && mc == old(Holding(x, Carnivore)) + multiset(cb)
      ensures Sound(mh, Herbivore) && Sound(mc, Carnivore)
      ensures (forall b :: b in hb ==> b !in ph) && forall b :: b in cb ==> b !in pc
      ensures HeldElsewhere(gk, Herbivore, x) && HeldElsewhere(gkc, Carnivore, x)
      ensures forall k :: 0 <= k < |hs| ==> Landscapes.Placed(population[k].pop, Admitted(population[k].pop), hs[k], cs[k])
    {
      ghost var h0, c0 := x.herb, x.carn;
      r, hb, cb := x.AddPopulation(pop);
      Appended(h0, hb, x.herbImmigrants);
      Appended(c0, cb, x.carnImmigrants);
      mh, mc := Holding(x, Herbivore), Holding(x, Carnivore);
    }

    /** `add_population` for placement `p` into cell `(r, c)`, `x`, the cell at its good
        position: the placement raises what `add_population` raises, the cell's lists gain
        the new animals `hb` and `cb`, and the cells hold `g'` and `gc'`, sound herds. */
    method PlaceAt(x: Landscape, ghost r: nat, ghost c: nat, p: Placement, ghost population: seq<Placement>,
                   ghost hs: seq<seq<Animal>>, ghost cs: seq<seq<Animal>>,
                   ghost gk: seq<seq<multiset<Animal>>>, ghost gkc: seq<seq<multiset<Animal>>>)
      returns (e: Option<PlaceError>, ghost hb: seq<Animal>, ghost cb: seq<Animal>,
               ghost g': seq<seq<multiset<Animal>>>, ghost gc': seq<seq<multiset<Animal>>>)
      requires Located() && r < |islandMap| && c < |islandMap[r]| && x == islandMap[r][c] && Reaches(p.loc, x)
      requires |hs| == |cs| <= |population|
      requires forall k :: 0 <= k < |hs| ==> Landscapes.Placed(population[k].pop, Admitted(population[k].pop), hs[k], cs[k])
      requires HeldAs(gk, Herbivore) && HeldAs(gkc, Carnivore) && Sound(Pool(gk), Herbivore) && Sound(Pool(gkc), Carnivore)
      modifies x`herb, x`carn
      ensures e == PlacementError(p) && (e.None? || e.value.RecordRejected?)
      ensures Landscapes.Placed(p.pop, Admitted(p.pop), hb, cb)
      ensures forall k :: 0 <= k < |hs| ==> Landscapes.Placed(population[k].pop, Admitted(population[k].pop), hs[k], cs[k])
      ensures HeldAs(g', Herbivore) && HeldAs(gc', Carnivore) && Sound(Pool(g'), Herbivore) && Sound(Pool(gc'), Carnivore)
      ensures g' == gk[r := gk[r][c := gk[r][c] + multiset(hb)]] && gc' == gkc[r := gkc[r][c := gkc[r][c] + multiset(cb)]]
    {
      CellValidIn(gk, gkc, r, c);
      assert HeldElsewhere(gk, Herbivore, x) && HeldElsewhere(gkc, Carnivore, x);
      ghost var mh, mc;
      var res;
      res, hb, cb, mh, mc := PopulateCell(x, p.pop, gk, gkc, Pool(gk), Pool(gkc), population, hs, cs);
      e := if res.Failure? then Some(RecordRejected(res.error)) else None;
      PlacementRejected(p, res);
      Rejoin(gk, Herbivore, r, c, mh);
      Rejoin(gkc, Carnivore, r, c, mc);
      Joined(gk, r, c, multiset(hb), Herbivore);
      Joined(gkc, r, c, multiset(cb), Carnivore);
      g', gc' := gk[r := gk[r][c := mh]], gkc[r := gkc[r][c := mc]];
    }

    /** Grid `g` holds at each entry what grid `g0` held there and the animals `adds`
        that the placements into cells `xs` brought to that cell. */
    ghost predicate Tracks(g0: seq<seq<multiset<Animal>>>, g: seq<seq<multiset<Animal>>>, xs: seq<Landscape>, adds: seq<seq<Animal>>)
    {
      && |xs| == |adds| && |g0| == |g| == |islandMap| && (forall r :: 0 <= r < |g| ==> |g0[r]| == |g[r]| == |islandMap[r]|)
      && forall r, c {:trigger Gather(xs, adds, islandMap[r][c])} :: 0 <= r < |islandMap| && 0 <= c < |islandMap[r]| ==>
           g[r][c] == g0[r][c] + multiset(Gather(xs, adds, islandMap[r][c]))
    }

    /** Adding `b` at entry `(r, c)` is one more placement, into cell `(r, c)`: the other
        cells are other cells, so their entries gather nothing new. */
    lemma Extended(g0: seq<seq<multiset<Animal>>>, g: seq<seq<multiset<Animal>>>, r: nat, c: nat,
                   xs: seq<Landscape>, adds: seq<seq<Animal>>, b: seq<Animal>,
                   g': seq<seq<multiset<Animal>>>, xs': seq<Landscape>, adds': seq<seq<Animal>>)
      requires Located() && Tracks(g0, g, xs, adds) && r < |islandMap| && c < |islandMap[r]|
      requires g' == g[r := g[r][c := g[r][c] + multiset(b)]] && xs' == xs + [islandMap[r][c]] && adds' == adds + [b]
      ensures Tracks(g0, g', xs', adds')
    {
      forall i, j | 0 <= i < |islandMap| && 0 <= j < |islandMap[i]|
        ensures g'[i][j] == g0[i][j] + multiset(Gather(xs + [islandMap[r][c]], adds + [b], islandMap[i][j]))
      {
        GatherSnoc(xs, adds, islandMap[r][c], b, islandMap[i][j]);
        if i == r && j == c {
          assert multiset(Gather(xs, adds, islandMap[i][j]) + b) == multiset(Gather(xs, adds, islandMap[i][j])) + multiset(b);
        } else {
          assert islandMap[i][j].loc != islandMap[r][c].loc;
        }
      }
    }

    /** The placements before `i` and placement `i` raise nothing: those before `i + 1` do not. */
    lemma NoneMore(population: seq<Placement>, i: nat)
      requires i < |population| && PlacementError(population[i]).None?
      requires forall k :: 0 <= k < i ==> PlacementError(population[k]).None?
      ensures forall k :: 0 <= k < i + 1 ==> PlacementError(population[k]).None?
    {
    }

    /** One more placement reached its cell `x` and placed `hb` and `cb` there. */
    lemma ReachedMore(population: seq<Placement>, xs: seq<Landscape>, hs: seq<seq<Animal>>, cs: seq<seq<Animal>>,
                      p: Placement, x: Landscape, hb: seq<Animal>, cb: seq<Animal>)
      requires |xs| == |hs| == |cs| < |population|
      requires forall k :: 0 <= k < |xs| ==> Reaches(population[k].loc, xs[k])
      requires forall k :: 0 <= k < |xs| ==> Landscapes.Placed(population[k].pop, Admitted(population[k].pop), hs[k], cs[k])
      requires p == population[|xs|] && Reaches(p.loc, x) && Landscapes.Placed(p.pop, Admitted(p.pop), hb, cb)
      ensures forall k :: 0 <= k < |xs| + 1 ==> Reaches(population[k].loc, (xs + [x])[k])
      ensures forall k :: 0 <= k < |xs| + 1 ==> Landscapes.Placed(population[k].pop, Admitted(population[k].pop), (hs + [hb])[k], (cs + [cb])[k])
    {
    }

    /** A placement at a bad position raises what its position raises. */
    lemma PositionRejected(p: Placement)
      requires PositionError(p.loc.0 - 1, p.loc.1 - 1).Some?
      ensures PlacementError(p) == PositionError(p.loc.0 - 1, p.loc.1 - 1)
    {
    }

    /** A placement at a good position raises what `add_population` raises on its records,
        if anything. */
    lemma PlacementRejected(p: Placement, res: Result<(), CellError>)
      requires PositionError(p.loc.0 - 1, p.loc.1 - 1).None?
      requires res.Success? <==> Admitted(p.pop) == |p.pop|
      requires res.Failure? ==> Some(res.error) == RecordError(p.pop[Admitted(p.pop)])
      ensures PlacementError(p) == if res.Failure? then Some(RecordRejected(res.error)) else None
    {
    }

    /** The loops of `__init__` that build `island_map` once the map is known to be good:
        row by row, one new cell per letter, of the landscape the letter names. */
    constructor (geogr: seq<string>, cp: CellParams)
      requires GoodMap(geogr)
      ensures this.geogr == geogr && Shaped() && Charted()
      ensures forall r, c :: 0 <= r < |islandMap| && 0 <= c < |islandMap[r]| ==> Pristine(islandMap[r][c], cp)
      ensures Herd(Herbivore) == multiset{} && Herd(Carnivore) == multiset{}
      ensures Valid() && Settled()
    {
      var grid := BuildMap(geogr, cp);
      this.geogr := geogr;
      islandMap := grid;
      cells := Region(grid);
      new;
      CellsCover();
      Emptied(cp);
    }

    /** An island whose cells are all as the constructor leaves them holds no animals. */
    lemma Emptied(cp: CellParams)
      requires Shaped()
      requires forall r, c :: 0 <= r < |islandMap| && 0 <= c < |islandMap[r]| ==> Pristine(islandMap[r][c], cp)
      ensures Herd(Herbivore) == multiset{} && Herd(Carnivore) == multiset{}
      ensures Valid() && Settled()
    {
      HoldingsAt(Herbivore);
      HoldingsAt(Carnivore);
      PoolEmpty(Holdings(Herbivore));
      PoolEmpty(Holdings(Carnivore));
      forall x | x in cells
        ensures x.herbImmigrants == [] && x.carnImmigrants == []
      {
        FlattenMember(islandMap, x);
      }
    }

    /** Every resident of a cell is an animal of the herds. */
    lemma PopulationStocked()
      requires Shaped()
      ensures forall a :: a in Population() ==> a in Stock()
    {
      forall a | a in Population()
        ensures a in Stock()
      {
        var r, c := PopulationMember(a);
        HoldingsAt(Herbivore);
        HoldingsAt(Carnivore);
        PoolHas(Holdings(Herbivore), r, c);
        PoolHas(Holdings(Carnivore), r, c);
        assert a in Holding(islandMap[r][c], Herbivore) || a in Holding(islandMap[r][c], Carnivore);
      }
    }

    /** `annual_cycle`: one year, the eight sweeps in their order: fodder grows, the
        herbivores graze, the carnivores hunt, the animals give birth, migrate, age, lose
        weight and die. The island stays valid, and every animal it holds at the end it held
        at the start or was born during the year. The year stops at the `IndexError` of the
        grazing, which only an island with staged immigrants raises, or at a failed pass of
        the migration, which only an F of 0 causes. */
    method AnnualCycle(env: Env, cp: CellParams, rng: Rng, perm: seq<nat>) returns (res: Result<(), CycleError>)
      requires Valid() && Charted() && rng.Valid() && env.carnivore.deltaPhiMax.Some?
      requires Permutation(perm, |InteriorLocations(|geogr|, |geogr[0]|)|)
      modifies cells`availableFood, cells`herb, cells`carn, cells`herbImmigrants, cells`carnImmigrants
      modifies Stock()`weight, Stock()`age, Stock()`fitnessCache, rng`drawn, rng`gaussDrawn
      ensures Valid()
      ensures forall a :: a in Stock() ==> a in old(Stock()) || fresh(a)
      ensures res.Failure? && res.error.EatingFailed? ==> res.error.cause == HerbIndexError && !old(Settled())
      ensures res.Failure? && res.error.MigrationFailed? ==> env.ParamsOf(Herbivore).F == 0.0 || env.ParamsOf(Carnivore).F == 0.0
    {
      ghost var s0 := Stock();
      ghost var h0, c0 := Herd(Herbivore), Herd(Carnivore);
      var eaten := Feeding(env, cp, rng);
      StockWithin(h0, c0);
      assert Stock() <= s0;
      if eaten.Failure? {
        return Failure(EatingFailed(eaten.error));
      }
      ghost var bh, bc := AnimalsGiveBirth(env, rng);
      ghost var s1 := Stock();
      assert forall a :: a in s1 ==> a in s0 || fresh(a);
      h0, c0 := Herd(Herbivore), Herd(Carnivore);
      var moved := AnimalsMigrate(env, rng, perm);
      StockWithin(h0, c0);
      assert Stock() <= s1;
      if moved.Failure? {
        return Failure(MigrationFailed(moved.error));
      }
      h0, c0 := Herd(Herbivore), Herd(Carnivore);
      Aftermath(env, rng);
      StockWithin(h0, c0);
      assert Stock() <= s1;
      res := Success(());
    }

    /** The first three sweeps of `annual_cycle`: fodder grows, the herbivores graze and the
        carnivores hunt. The island stays valid and keeps what it staged, and each herd is
        part of what it was. */
    method Feeding(env: Env, cp: CellParams, rng: Rng) returns (res: Result<(), CellError>)
      requires Valid() && env.carnivore.deltaPhiMax.Some?
      modifies cells`availableFood, cells`herb, cells`carn, Stock()`weight, Stock()`fitnessCache, rng`drawn
      ensures Valid() && Herd(Herbivore) <= old(Herd(Herbivore)) && Herd(Carnivore) <= old(Herd(Carnivore))
      ensures res.Failure? ==> res.error == HerbIndexError && !old(Settled())
    {
      ghost var h0, c0 := Herd(Herbivore), Herd(Carnivore);
      FoodGrowthInAllCells(cp);
      assert Herd(Herbivore) == h0 && Herd(Carnivore) == c0;
      res := AllHerbEating(env);
      if res.Success? {
        assert Herd(Herbivore) == h0 && Herd(Carnivore) == c0;
        AllCarnEating(env, rng);
      }
    }

    /** The last three sweeps of `annual_cycle`: the animals age, lose weight and die. The
        island stays valid, and each herd is part of what it was. */
    method Aftermath(env: Env, rng: Rng)
      requires Valid()
      modifies cells`herb, cells`carn, Stock()`weight, Stock()`age, Stock()`fitnessCache, rng`drawn
      ensures Valid() && Herd(Herbivore) <= old(Herd(Herbivore)) && Herd(Carnivore) <= old(Herd(Carnivore))
    {
      ghost var h0, c0 := Herd(Herbivore), Herd(Carnivore);
      PopulationStocked();
      AllAnimalsAging();
      assert Herd(Herbivore) == h0 && Herd(Carnivore) == c0;
      PopulationStocked();
      AllAnimalsLoseWeight(env);
      assert Herd(Herbivore) == h0 && Herd(Carnivore) == c0;
      AnimalsDie(env, rng);
    }

    /** Herds that are parts of `h0` and `c0` hold only animals of `h0` and `c0`. */
    lemma StockWithin(h0: multiset<Animal>, c0: multiset<Animal>)
      requires Shaped() && Herd(Herbivore) <= h0 && Herd(Carnivore) <= c0
      ensures Stock() <= set a | a in h0 + c0
    {
    }
  }

  /** `Island(geogr)`: the map is split into rows and checked, in the order
      `Island.__init__` of island_nature.py checks it, for a row at all, equal widths, an
      ocean border and known letters; a good map becomes an island of empty cells. */
  method NewIsland(text: string, cp: CellParams) returns (r: Result<Island, MapError>)
    ensures r.Failure? <==> MapErrorOf(Words(text)).Some?
    ensures r.Failure? ==> Some(r.error) == MapErrorOf(Words(text))
    ensures r.Success? ==> fresh(r.value) && r.value.geogr == Words(text) && r.value.Charted()
    ensures r.Success? ==> r.value.Valid() && r.value.Settled()
    ensures r.Success? ==> r.value.Herd(Herbivore) == multiset{} && r.value.Herd(Carnivore) == multiset{}
  {
    var rows := Words(text);
    var e := MapErrorOf(rows);
    if e.Some? {
      return Failure(e.value);
    }
    MapErrorOfNone(rows);
    var island := new Island(rows, cp);
    return Success(island);
  }
}
