/** Sums over the rows-by-columns grids of the island: the number of animals summed over
    every cell, and the animals themselves pooled into one multiset. */
module Grids {
  import opened Seqs

  /** The cells of a grid in row-major order: the rows one after another. */
  function Flatten<T>(g: seq<seq<T>>): (r: seq<T>)
  {
    if g == [] then [] else Flatten(g[..|g| - 1]) + g[|g| - 1]
  }

  /** Every entry of the grid is in its flattening. */
  lemma {:induction false} FlattenHas<T>(g: seq<seq<T>>, r: nat, c: nat)
    requires r < |g| && c < |g[r]|
    ensures g[r][c] in Flatten(g)
    decreases |g|
  {
    if r < |g| - 1 {
      FlattenHas(g[..|g| - 1], r, c);
    }
  }

  /** Everything in the flattening comes from some entry of the grid. */
  lemma {:induction false} FlattenMember<T>(g: seq<seq<T>>, x: T)
    requires x in Flatten(g)
    ensures exists r, c :: 0 <= r < |g| && 0 <= c < |g[r]| && g[r][c] == x
    decreases |g|
  {
    var n := |g| - 1;
    if x in Flatten(g[..n]) {
      FlattenMember(g[..n], x);
      var r, c :| 0 <= r < n && 0 <= c < |g[..n][r]| && g[..n][r][c] == x;
      assert g[r][c] == x;
    } else {
      var c :| 0 <= c < |g[n]| && g[n][c] == x;
    }
  }

  /** The sum of a row of counts. */
  function RowTotal(row: seq<nat>): nat
  {
    if row == [] then 0 else RowTotal(row[..|row| - 1]) + row[|row| - 1]
  }

  /** The sum of a grid of counts, row by row. */
  function Total(g: seq<seq<nat>>): nat
  {
    if g == [] then 0 else Total(g[..|g| - 1]) + RowTotal(g[|g| - 1])
  }

  /** The total of the first `r + 1` rows adds row `r` to that of the first `r`. */
  lemma TotalPrefixStep(g: seq<seq<nat>>, r: nat)
    requires r < |g|
    ensures Total(g[..r + 1]) == Total(g[..r]) + RowTotal(g[r])
  {
    assert g[..r + 1][..r] == g[..r];
  }

  /** The total of the first `c + 1` entries of a row adds entry `c` to that of the first `c`. */
  lemma RowTotalPrefixStep(row: seq<nat>, c: nat)
    requires c < |row|
    ensures RowTotal(row[..c + 1]) == RowTotal(row[..c]) + row[c]
  {
    assert row[..c + 1][..c] == row[..c];
  }

  /** The multisets of a row, pooled. */
  function RowPool<T>(row: seq<multiset<T>>): multiset<T>
  {
    if row == [] then multiset{} else RowPool(row[..|row| - 1]) + row[|row| - 1]
  }

  /** The multisets of a grid, pooled row by row. */
  function Pool<T>(g: seq<seq<multiset<T>>>): multiset<T>
  {
    if g == [] then multiset{} else Pool(g[..|g| - 1]) + RowPool(g[|g| - 1])
  }

  /** The pool of the first `r + 1` rows adds row `r` to that of the first `r`. */
  lemma PoolPrefixStep<T>(g: seq<seq<multiset<T>>>, r: nat)
    requires r < |g|
    ensures Pool(g[..r + 1]) == Pool(g[..r]) + RowPool(g[r])
  {
    assert g[..r + 1][..r] == g[..r];
  }

  /** The pool of the first `c + 1` entries of a row adds entry `c` to that of the first `c`. */
  lemma RowPoolPrefixStep<T>(row: seq<multiset<T>>, c: nat)
    requires c < |row|
    ensures RowPool(row[..c + 1]) == RowPool(row[..c]) + row[c]
  {
    assert row[..c + 1][..c] == row[..c];
  }

  /** Replacing one entry of a row replaces its share of the pool. */
  lemma {:induction false} RowPoolUpdate<T>(row: seq<multiset<T>>, c: nat, m: multiset<T>)
    requires c < |row|
    ensures RowPool(row[c := m]) + row[c] == RowPool(row) + m
    decreases |row|
  {
    var n := |row| - 1;
    var row' := row[c := m];
    assert RowPool(row) == RowPool(row[..n]) + row[n] && RowPool(row') == RowPool(row'[..n]) + row'[n];
    if c < n {
      RowPoolUpdate(row[..n], c, m);
      assert row'[..n] == row[..n][c := m] && row'[n] == row[n] && row[..n][c] == row[c];
      UnionShift(RowPool(row'[..n]), row[c], RowPool(row[..n]), m, row[n]);
    } else {
      assert row'[..n] == row[..n] && row'[n] == m;
    }
  }

  /** Replacing one entry of a grid replaces its share of the pool: nothing else moves. */
  lemma {:induction false} PoolUpdate<T>(g: seq<seq<multiset<T>>>, r: nat, c: nat, m: multiset<T>)
    requires r < |g| && c < |g[r]|
    ensures Pool(g[r := g[r][c := m]]) + g[r][c] == Pool(g) + m
    decreases |g|
  {
    var n := |g| - 1;
    var g' := g[r := g[r][c := m]];
    assert Pool(g) == Pool(g[..n]) + RowPool(g[n]) && Pool(g') == Pool(g'[..n]) + RowPool(g'[n]);
    if r < n {
      PoolUpdate(g[..n], r, c, m);
      assert g[..n][r] == g[r] && g'[..n] == g[..n][r := g[r][c := m]] && g'[n] == g[n];
      UnionShift(Pool(g'[..n]), g[r][c], Pool(g[..n]), m, RowPool(g[n]));
    } else {
      assert g'[..n] == g[..n] && g'[n] == g[r][c := m];
      RowPoolUpdate(g[r], c, m);
      UnionShift(RowPool(g'[n]), g[r][c], RowPool(g[r]), m, Pool(g[..n]));
      assert Pool(g') == RowPool(g'[n]) + Pool(g[..n]) && Pool(g) == RowPool(g[r]) + Pool(g[..n]);
    }
  }

  /** Adding the same multiset `e` to both sides of `a + b == d + m` keeps them equal. */
  lemma UnionShift<T>(a: multiset<T>, b: multiset<T>, d: multiset<T>, m: multiset<T>, e: multiset<T>)
    requires a + b == d + m
    ensures (a + e) + b == (d + e) + m
  {
    assert (a + e) + b == (a + b) + e;
    assert (d + e) + m == (d + m) + e;
  }

  /** A grid of empty entries pools to nothing. */
  lemma {:induction false} PoolEmpty<T>(g: seq<seq<multiset<T>>>)
    requires forall r, c :: 0 <= r < |g| && 0 <= c < |g[r]| ==> g[r][c] == multiset{}
    ensures Pool(g) == multiset{}
    decreases |g|
  {
    if g != [] {
      var n := |g| - 1;
      PoolEmpty(g[..n]);
      RowPoolEmpty(g[n]);
    }
  }

  /** A row of empty entries pools to nothing. */
  lemma {:induction false} RowPoolEmpty<T>(row: seq<multiset<T>>)
    requires forall c :: 0 <= c < |row| ==> row[c] == multiset{}
    ensures RowPool(row) == multiset{}
    decreases |row|
  {
    if row != [] {
      RowPoolEmpty(row[..|row| - 1]);
    }
  }

  /** Each entry of a row is part of its pool. */
  lemma {:induction false} RowPoolHas<T>(row: seq<multiset<T>>, c: nat)
    requires c < |row|
    ensures row[c] <= RowPool(row)
    decreases |row|
  {
    if c < |row| - 1 {
      RowPoolHas(row[..|row| - 1], c);
    }
  }

  /** Each entry of a grid is part of its pool. */
  lemma {:induction false} PoolHas<T>(g: seq<seq<multiset<T>>>, r: nat, c: nat)
    requires r < |g| && c < |g[r]|
    ensures g[r][c] <= Pool(g)
    decreases |g|
  {
    if r < |g| - 1 {
      PoolHas(g[..|g| - 1], r, c);
    } else {
      RowPoolHas(g[r], c);
    }
  }

  /** Two different entries of a row, pooled together, are part of the pool. */
  lemma {:induction false} RowPoolHasTwo<T>(row: seq<multiset<T>>, c: nat, d: nat)
    requires c < d < |row|
    ensures row[c] + row[d] <= RowPool(row)
    decreases |row|
  {
    var n := |row| - 1;
    if d < n {
      RowPoolHasTwo(row[..n], c, d);
    } else {
      RowPoolHas(row[..n], c);
    }
  }

  /** Two different entries of a grid, pooled together, are part of the pool. */
  lemma {:induction false} PoolHasTwo<T>(g: seq<seq<multiset<T>>>, r: nat, c: nat, r': nat, c': nat)
    requires r < |g| && c < |g[r]| && r' < |g| && c' < |g[r']| && (r, c) != (r', c')
    ensures g[r][c] + g[r'][c'] <= Pool(g)
    decreases |g|
  {
    var n := |g| - 1;
    if r < n && r' < n {
      PoolHasTwo(g[..n], r, c, r', c');
    } else if r == n && r' == n {
      if c < c' {
        RowPoolHasTwo(g[n], c, c');
      } else {
        RowPoolHasTwo(g[n], c', c);
      }
    } else if r == n {
      PoolHas(g[..n], r', c');
      RowPoolHas(g[n], c);
    } else {
      PoolHas(g[..n], r, c);
      RowPoolHas(g[n], c');
    }
  }

  /** When no element is pooled twice, no element is held by two different entries. */
  lemma PoolApart<T>(g: seq<seq<multiset<T>>>, r: nat, c: nat, r': nat, c': nat, x: T)
    requires r < |g| && c < |g[r]| && r' < |g| && c' < |g[r']| && (r, c) != (r', c')
    requires NoRepeats(Pool(g))
    ensures !(x in g[r][c] && x in g[r'][c'])
  {
    PoolHasTwo(g, r, c, r', c');
    assert (g[r][c] + g[r'][c'])[x] == g[r][c][x] + g[r'][c'][x];
  }

  /** The size of a pool is the total of the sizes of its entries. */
  lemma {:induction false} RowPoolSize<T>(row: seq<multiset<T>>, counts: seq<nat>)
    requires |counts| == |row| && forall c :: 0 <= c < |row| ==> counts[c] == |row[c]|
    ensures |RowPool(row)| == RowTotal(counts)
    decreases |row|
  {
    if row != [] {
      RowPoolSize(row[..|row| - 1], counts[..|row| - 1]);
    }
  }

  /** The size of a pool is the total of the sizes of its entries. */
  lemma {:induction false} PoolSize<T>(g: seq<seq<multiset<T>>>, counts: seq<seq<nat>>)
    requires |counts| == |g|
    requires forall r :: 0 <= r < |g| ==> |counts[r]| == |g[r]| && forall c :: 0 <= c < |g[r]| ==> counts[r][c] == |g[r][c]|
    ensures |Pool(g)| == Total(counts)
    decreases |g|
  {
    if g != [] {
      var n := |g| - 1;
      PoolSize(g[..n], counts[..n]);
      RowPoolSize(g[n], counts[n]);
    }
  }

  /** Grid `g` with entry `(r, c)` replaced by `m`. */
  function Put<T>(g: seq<seq<T>>, r: nat, c: nat, m: T): (g': seq<seq<T>>)
    requires r < |g| && c < |g[r]|
    ensures |g'| == |g| && forall i :: 0 <= i < |g| ==> |g'[i]| == |g[i]|
  {
    g[r := g[r][c := m]]
  }

  /** Entry `(r, c)` and its four neighbours (up, right, down, left) lie inside grid `g`. */
  predicate Around<T>(g: seq<seq<T>>, r: nat, c: nat)
  {
    1 <= r < |g| - 1 && 1 <= c && c + 1 < |g[r]| && c < |g[r - 1]| && c < |g[r + 1]|
  }

  /** The grid once entry `(r, c)` keeps `h0` of what it held and its four neighbours, up,
      right, down and left, gain `parts[0]` to `parts[3]`. */
  function Spread<T>(g: seq<seq<multiset<T>>>, r: nat, c: nat, h0: multiset<T>, parts: seq<multiset<T>>): (g': seq<seq<multiset<T>>>)
    requires Around(g, r, c) && |parts| == 4
    ensures |g'| == |g| && forall i :: 0 <= i < |g| ==> |g'[i]| == |g[i]|
  {
    var g1 := Put(g, r, c, h0);
    var g2 := Put(g1, r - 1, c, g[r - 1][c] + parts[0]);
    var g3 := Put(g2, r, c + 1, g[r][c + 1] + parts[1]);
    var g4 := Put(g3, r + 1, c, g[r + 1][c] + parts[2]);
    Put(g4, r, c - 1, g[r][c - 1] + parts[3])
  }

  /** Entry by entry, the spread grid: the centre holds `h0`, each neighbour what it held and
      its part, and every other entry what it held. */
  lemma SpreadAt<T>(g: seq<seq<multiset<T>>>, r: nat, c: nat, h0: multiset<T>, parts: seq<multiset<T>>)
    requires Around(g, r, c) && |parts| == 4
    ensures var g' := Spread(g, r, c, h0, parts);
      && g'[r][c] == h0 && g'[r - 1][c] == g[r - 1][c] + parts[0] && g'[r][c + 1] == g[r][c + 1] + parts[1]
      && g'[r + 1][c] == g[r + 1][c] + parts[2] && g'[r][c - 1] == g[r][c - 1] + parts[3]
      && forall i, j :: 0 <= i < |g| && 0 <= j < |g[i]| && Far(r, c, i, j) ==> g'[i][j] == g[i][j]
  {
  }

  /** Position `(i, j)` is neither `(r, c)` nor one of its four neighbours. */
  predicate Far(r: int, c: int, i: int, j: int)
  {
    (i, j) != (r, c) && (i, j) != (r - 1, c) && (i, j) != (r, c + 1) && (i, j) != (r + 1, c) && (i, j) != (r, c - 1)
  }

  /** Adding `p` to entry `(r, c)`, which holds `b`, adds `p` to the pool. */
  lemma PoolAdd<T>(g: seq<seq<multiset<T>>>, r: nat, c: nat, b: multiset<T>, p: multiset<T>)
    requires r < |g| && c < |g[r]| && g[r][c] == b
    ensures Pool(Put(g, r, c, b + p)) == Pool(g) + p
  {
    PoolUpdate(g, r, c, b + p);
    Cancel(Pool(Put(g, r, c, b + p)), Pool(g) + p, b);
  }

  /** Multiset union cancels. */
  lemma Cancel<T>(a: multiset<T>, b: multiset<T>, m: multiset<T>)
    requires a + m == b + m
    ensures a == b
  {
    assert forall x :: a[x] == (a + m)[x] - m[x] == (b + m)[x] - m[x] == b[x];
  }

  /** An entry that shares out what it held, keeping `h0` and passing `parts` to its four
      neighbours, leaves the pool as it was: nothing is lost and nothing is made. */
  lemma SpreadPool<T>(g: seq<seq<multiset<T>>>, r: nat, c: nat, h0: multiset<T>, parts: seq<multiset<T>>)
    requires Around(g, r, c) && |parts| == 4 && h0 + (parts[0] + parts[1] + parts[2] + parts[3]) == g[r][c]
    ensures Pool(Spread(g, r, c, h0, parts)) == Pool(g)
  {
    var g1 := Put(g, r, c, h0);
    PoolUpdate(g, r, c, h0);
    var g2 := Put(g1, r - 1, c, g[r - 1][c] + parts[0]);
    PoolAdd(g1, r - 1, c, g[r - 1][c], parts[0]);
    var g3 := Put(g2, r, c + 1, g[r][c + 1] + parts[1]);
    PoolAdd(g2, r, c + 1, g[r][c + 1], parts[1]);
    var g4 := Put(g3, r + 1, c, g[r + 1][c] + parts[2]);
    PoolAdd(g3, r + 1, c, g[r + 1][c], parts[2]);
    var g5 := Put(g4, r, c - 1, g[r][c - 1] + parts[3]);
    PoolAdd(g4, r, c - 1, g[r][c - 1], parts[3]);
    assert Spread(g, r, c, h0, parts) == g5;
    Settle(Pool(g), Pool(g1), Pool(g2), Pool(g3), Pool(g4), Pool(g5), h0, parts[0], parts[1], parts[2], parts[3], g[r][c]);
  }

  /** The multiset algebra of `SpreadPool`: the pools `p1` to `p5` of the steps, from the
      pool `p` of the grid whose entry `m` keeps `h0` and passes on `q0` to `q3`. */
  lemma Settle<T>(p: multiset<T>, p1: multiset<T>, p2: multiset<T>, p3: multiset<T>, p4: multiset<T>, p5: multiset<T>,
                  h0: multiset<T>, q0: multiset<T>, q1: multiset<T>, q2: multiset<T>, q3: multiset<T>, m: multiset<T>)
    requires p1 + m == p + h0 && h0 + (q0 + q1 + q2 + q3) == m
    requires p2 == p1 + q0 && p3 == p2 + q1 && p4 == p3 + q2 && p5 == p4 + q3
    ensures p5 == p
  {
    assert p5 + h0 == p1 + m;
    Cancel(p5, p, h0);
  }
}
