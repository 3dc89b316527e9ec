/** Sequence vocabulary shared by the model: sums, masks (order-preserving selections),
    subsequences, distinctness and Python's `list.index`. */
module Seqs {

  /** Python's `sum` over a list of reals, folded from the left. */
  function Sum(s: seq<real>): real
  {
    if s == [] then 0.0 else Sum(s[..|s| - 1]) + s[|s| - 1]
  }

  lemma {:induction false} SumAppend(s: seq<real>, t: seq<real>)
    ensures Sum(s + t) == Sum(s) + Sum(t)
    decreases |t|
  {
    if t == [] {
      assert s + t == s;
    } else {
      assert (s + t)[..|s + t| - 1] == s + t[..|t| - 1];
      SumAppend(s, t[..|t| - 1]);
    }
  }

  lemma {:induction false} SumNonNegative(s: seq<real>)
    requires forall i :: 0 <= i < |s| ==> s[i] >= 0.0
    ensures Sum(s) >= 0.0
    decreases |s|
  {
    if s != [] {
      SumNonNegative(s[..|s| - 1]);
    }
  }

  lemma SumPrefixStep(s: seq<real>, k: nat)
    requires k < |s|
    ensures Sum(s[..k + 1]) == Sum(s[..k]) + s[k]
  {
    assert s[..k + 1][..k] == s[..k];
  }

  /** A sum of non-negative terms is zero exactly when every term is. */
  lemma {:induction false} SumZeroIff(s: seq<real>)
    requires forall i :: 0 <= i < |s| ==> s[i] >= 0.0
    ensures Sum(s) == 0.0 <==> forall i :: 0 <= i < |s| ==> s[i] == 0.0
    decreases |s|
  {
    if s != [] {
      var n := |s|;
      SumZeroIff(s[..n - 1]);
      SumNonNegative(s[..n - 1]);
    }
  }

  /** Reading one element off the front of a suffix. */
  lemma SliceStep<T>(s: seq<T>, k: nat, x: T, rest: seq<T>)
    requires k <= |s| && s[k..] == [x] + rest
    ensures k < |s| && s[k] == x && s[k + 1..] == rest
  {
    assert s[k..][0] == s[k];
    assert s[k + 1..] == s[k..][1..];
  }

  /** Every term multiplied by `c`. Its terms are reached through `ScaleAt`, which keeps the
      products out of the arithmetic a caller does with the whole sequence. */
  function Scale(c: real, s: seq<real>): (r: seq<real>)
    ensures |r| == |s|
  {
    if s == [] then [] else Scale(c, s[..|s| - 1]) + [c * s[|s| - 1]]
  }

  lemma {:induction false} ScaleAt(c: real, s: seq<real>, k: nat)
    requires k < |s|
    ensures Scale(c, s)[k] == c * s[k]
    decreases |s|
  {
    if k < |s| - 1 {
      ScaleAt(c, s[..|s| - 1], k);
    }
  }

  /** Every term divided by `t`. */
  function DivideAll(s: seq<real>, t: real): (r: seq<real>)
    requires t != 0.0
    ensures |r| == |s| && forall i :: 0 <= i < |s| ==> r[i] == s[i] / t
  {
    seq(|s|, i requires 0 <= i < |s| => s[i] / t)
  }

  /** Dividing every term by `t` divides the sum by `t`. */
  lemma {:induction false} SumDivide(s: seq<real>, t: real)
    requires t != 0.0
    ensures Sum(DivideAll(s, t)) == Sum(s) / t
    decreases |s|
  {
    if s != [] {
      var n := |s|;
      var p := s[..n - 1];
      SumDivide(p, t);
      assert DivideAll(s, t)[..n - 1] == DivideAll(p, t);
      DivideAdd(Sum(p), s[n - 1], t);
    }
  }

  lemma DivideAdd(a: real, b: real, t: real)
    requires t != 0.0
    ensures a / t + b / t == (a + b) / t
  {
  }

  /** The elements of `s` whose mask bit is set, in their original order. */
  function Filter<T>(s: seq<T>, keep: seq<bool>): (r: seq<T>)
    requires |keep| == |s|
    ensures |r| <= |s|
  {
    if s == [] then []
    else Filter(s[..|s| - 1], keep[..|s| - 1]) + (if keep[|s| - 1] then [s[|s| - 1]] else [])
  }

  lemma TakeAll<T>(s: seq<T>)
    ensures s[..|s|] == s
  {
  }

  /** Number of set bits in a mask. */
  function CountTrue(m: seq<bool>): nat
  {
    if m == [] then 0 else CountTrue(m[..|m| - 1]) + (if m[|m| - 1] then 1 else 0)
  }

  function AllTrue(n: nat): (m: seq<bool>)
    ensures |m| == n && forall i :: 0 <= i < n ==> m[i]
  {
    seq(n, i => true)
  }

  lemma {:induction false} FilterLength<T>(s: seq<T>, keep: seq<bool>)
    requires |keep| == |s|
    ensures |Filter(s, keep)| == CountTrue(keep)
    decreases |s|
  {
    if s != [] {
      FilterLength(s[..|s| - 1], keep[..|s| - 1]);
    }
  }

  lemma FilterSnoc<T>(s: seq<T>, keep: seq<bool>, x: T, b: bool)
    requires |keep| == |s|
    ensures Filter(s + [x], keep + [b]) == Filter(s, keep) + (if b then [x] else [])
  {
    assert (s + [x])[..|s|] == s;
    assert (keep + [b])[..|s|] == keep;
  }

  /** One more element of `s` considered: the selection from the next prefix. */
  lemma FilterPrefixStep<T>(s: seq<T>, keep: seq<bool>, i: nat, b: bool)
    requires i < |s| && |keep| == i
    ensures Filter(s[..i + 1], keep + [b]) == Filter(s[..i], keep) + (if b then [s[i]] else [])
  {
    assert s[..i + 1] == s[..i] + [s[i]];
    FilterSnoc(s[..i], keep, s[i], b);
  }

  /** One more element considered, with the mask cut at the same place. */
  lemma FilterTakeStep<T>(s: seq<T>, keep: seq<bool>, i: nat)
    requires |keep| == |s| && i < |s|
    ensures Filter(s[..i + 1], keep[..i + 1]) == Filter(s[..i], keep[..i]) + (if keep[i] then [s[i]] else [])
  {
    assert keep[..i + 1] == keep[..i] + [keep[i]];
    FilterPrefixStep(s, keep[..i], i, keep[i]);
  }

  /** A mask that keeps everything from position `|keep|` on selects the whole suffix there. */
  lemma {:induction false} FilterKeepSuffix<T>(s: seq<T>, keep: seq<bool>)
    requires |keep| <= |s|
    ensures Filter(s, keep + AllTrue(|s| - |keep|)) == Filter(s[..|keep|], keep) + s[|keep|..]
    decreases |s|
  {
    var k, n := |keep|, |s|;
    if n == k {
      assert keep + AllTrue(0) == keep && s[..k] == s && s[k..] == [];
    } else {
      FilterKeepSuffix(s[..n - 1], keep);
      KeepSuffixStep(s, keep);
    }
  }

  lemma KeepSuffixStep<T>(s: seq<T>, keep: seq<bool>)
    requires |keep| < |s|
    requires var p := s[..|s| - 1];
      Filter(p, keep + AllTrue(|p| - |keep|)) == Filter(p[..|keep|], keep) + p[|keep|..]
    ensures Filter(s, keep + AllTrue(|s| - |keep|)) == Filter(s[..|keep|], keep) + s[|keep|..]
  {
    var k, n := |keep|, |s|;
    var p := s[..n - 1];
    MaskTake(keep, n - 1 - k);
    assert p[..k] == s[..k] && p[k..] + [s[n - 1]] == s[k..];
  }

  lemma MaskTake(keep: seq<bool>, m: nat)
    ensures var mask := keep + AllTrue(m + 1);
      mask[..|keep| + m] == keep + AllTrue(m) && mask[|keep| + m]
  {
    var mask := keep + AllTrue(m + 1);
    assert forall j :: 0 <= j < |keep| + m ==> mask[..|keep| + m][j] == (keep + AllTrue(m))[j];
  }

  lemma AllTrueExtend(n: nat)
    ensures [true] + AllTrue(n) == AllTrue(n + 1) && AllTrue(n) + [true] == AllTrue(n + 1)
  {
    var a, b, c := [true] + AllTrue(n), AllTrue(n) + [true], AllTrue(n + 1);
    assert forall k :: 0 <= k < n + 1 ==> a[k] == c[k] && b[k] == c[k];
  }

  /** Keeping everything from position `i` on appends the suffix from `i`. */
  lemma FilterBreak<T>(s: seq<T>, keep: seq<bool>, i: nat)
    requires i < |s| && |keep| == i
    ensures Filter(s, keep + [true] + AllTrue(|s| - i - 1)) == Filter(s[..i], keep) + s[i..]
  {
    FilterKeepSuffix(s, keep);
    AllTrueExtend(|s| - i - 1);
    assert keep + [true] + AllTrue(|s| - i - 1) == keep + AllTrue(|s| - i);
  }

  lemma {:induction false} FilterAllTrue<T>(s: seq<T>)
    ensures Filter(s, AllTrue(|s|)) == s
    decreases |s|
  {
    if s != [] {
      assert AllTrue(|s|)[..|s| - 1] == AllTrue(|s| - 1);
      FilterAllTrue(s[..|s| - 1]);
      assert s[..|s| - 1] + [s[|s| - 1]] == s;
    }
  }

  lemma {:induction false} FilterMembers<T>(s: seq<T>, keep: seq<bool>, x: T)
    requires |keep| == |s|
    ensures x in Filter(s, keep) ==> x in s
    decreases |s|
  {
    if s != [] {
      FilterMembers(s[..|s| - 1], keep[..|s| - 1], x);
      if x in Filter(s[..|s| - 1], keep[..|s| - 1]) {
        assert x in s[..|s| - 1];
      }
    }
  }

  lemma {:induction false} FilterMultiset<T>(s: seq<T>, keep: seq<bool>)
    requires |keep| == |s|
    ensures multiset(Filter(s, keep)) <= multiset(s)
    decreases |s|
  {
    if s != [] {
      FilterMultiset(s[..|s| - 1], keep[..|s| - 1]);
      assert s == s[..|s| - 1] + [s[|s| - 1]];
    }
  }

  /** The mask over `b` that selects what `m2` selects from `Filter(b, m1)`. */
  function Compose(m1: seq<bool>, m2: seq<bool>): (m: seq<bool>)
    requires |m2| == CountTrue(m1)
    ensures |m| == |m1|
  {
    if m1 == [] then []
    else if m1[|m1| - 1] then Compose(m1[..|m1| - 1], m2[..|m2| - 1]) + [m2[|m2| - 1]]
    else Compose(m1[..|m1| - 1], m2) + [false]
  }

  lemma {:induction false} FilterCompose<T>(b: seq<T>, m1: seq<bool>, m2: seq<bool>)
    requires |m1| == |b| && |m2| == CountTrue(m1)
    ensures |m2| == |Filter(b, m1)|
    ensures Filter(Filter(b, m1), m2) == Filter(b, Compose(m1, m2))
    decreases |b|
  {
    FilterLength(b, m1);
    if b != [] {
      var n := |b|;
      var b', m1' := b[..n - 1], m1[..n - 1];
      var c := Compose(m1, m2);
      if m1[n - 1] {
        var m2' := m2[..|m2| - 1];
        FilterCompose(b', m1', m2');
        var f := Filter(b', m1');
        assert Filter(b, m1) == f + [b[n - 1]];
        FilterSnoc(f, m2', b[n - 1], m2[|m2| - 1]);
        assert m2 == m2' + [m2[|m2| - 1]];
        assert c[..n - 1] == Compose(m1', m2');
      } else {
        FilterCompose(b', m1', m2);
        assert Filter(b, m1) == Filter(b', m1');
        assert c[..n - 1] == Compose(m1', m2);
      }
    }
  }

  /** `a` is an order-preserving subsequence of `b`. */
  ghost predicate IsSubsequence<T>(a: seq<T>, b: seq<T>)
  {
    exists m: seq<bool> :: |m| == |b| && Filter(b, m) == a
  }

  lemma SubsequenceTransitive<T>(a: seq<T>, b: seq<T>, c: seq<T>)
    requires IsSubsequence(a, b) && IsSubsequence(b, c)
    ensures IsSubsequence(a, c)
  {
    var mb: seq<bool> :| |mb| == |c| && Filter(c, mb) == b;
    var ma: seq<bool> :| |ma| == |b| && Filter(b, ma) == a;
    FilterLength(c, mb);
    FilterCompose(c, mb, ma);
  }

  /** A subsequence takes no element more often than the original holds it. */
  lemma SubsequenceMultiset<T>(a: seq<T>, b: seq<T>)
    requires IsSubsequence(a, b)
    ensures multiset(a) <= multiset(b)
  {
    var m: seq<bool> :| |m| == |b| && Filter(b, m) == a;
    FilterMultiset(b, m);
  }

  lemma SubsequenceReflexive<T>(a: seq<T>)
    ensures IsSubsequence(a, a)
  {
    FilterAllTrue(a);
  }

  predicate Distinct<T(==)>(s: seq<T>)
  {
    forall i, j :: 0 <= i < j < |s| ==> s[i] != s[j]
  }

  lemma {:induction false} DistinctFilter<T>(s: seq<T>, keep: seq<bool>)
    requires |keep| == |s| && Distinct(s)
    ensures Distinct(Filter(s, keep))
    decreases |s|
  {
    if s != [] {
      var n := |s|;
      DistinctFilter(s[..n - 1], keep[..n - 1]);
      FilterMembers(s[..n - 1], keep[..n - 1], s[n - 1]);
    }
  }

  /** Python's `list.index`: the position of the first occurrence of `x`. */
  function IndexOf<T(==)>(s: seq<T>, x: T): (k: nat)
    requires x in s
    ensures k < |s| && s[k] == x && forall j :: 0 <= j < k ==> s[j] != x
  {
    if s[0] == x then 0 else 1 + IndexOf(s[1..], x)
  }

  lemma IndexOfDistinct<T>(s: seq<T>, k: nat)
    requires Distinct(s) && k < |s|
    ensures IndexOf(s, s[k]) == k
  {
  }

  /** No element of a duplicate-free sequence occurs more than once in its multiset. */
  lemma {:induction false} DistinctOccursOnce<T>(s: seq<T>, x: T)
    requires Distinct(s)
    ensures multiset(s)[x] <= 1
    decreases |s|
  {
    if s != [] {
      var n := |s|;
      DistinctOccursOnce(s[..n - 1], x);
      assert s == s[..n - 1] + [s[n - 1]];
      if x == s[n - 1] {
        assert x !in s[..n - 1];
      }
    }
  }

  /** Two equal positions make an element occur at least twice. */
  lemma DuplicateOccursTwice<T>(s: seq<T>, i: nat, j: nat)
    requires i < j < |s| && s[i] == s[j]
    ensures multiset(s)[s[i]] >= 2
  {
    assert s == s[..j] + [s[j]] + s[j + 1..];
    assert s[i] in s[..j];
  }

  /** No element occurs more than once in `m`. */
  ghost predicate NoRepeats<T>(m: multiset<T>)
  {
    forall x :: x in m ==> m[x] <= 1
  }

  /** Appending an element not yet present keeps a sequence free of repeats. */
  lemma NoRepeatsSnoc<T>(s: seq<T>, x: T)
    requires NoRepeats(multiset(s)) && x !in s
    ensures NoRepeats(multiset(s + [x]))
  {
    assert multiset(s + [x]) == multiset(s) + multiset{x};
  }

  /** A sequence whose multiset has no repeats is duplicate-free, and conversely. */
  lemma NoRepeatsDistinct<T>(s: seq<T>)
    ensures NoRepeats(multiset(s)) <==> Distinct(s)
  {
    if Distinct(s) {
      forall x
        ensures multiset(s)[x] <= 1
      {
        DistinctOccursOnce(s, x);
      }
    }
    forall i, j | 0 <= i < j < |s| && s[i] == s[j]
      ensures multiset(s)[s[i]] >= 2
    {
      DuplicateOccursTwice(s, i, j);
    }
  }

  /** In a sequence without repeats, no other position holds the element at `i`. */
  lemma NoRepeatsAt<T>(s: seq<T>, i: nat)
    requires NoRepeats(multiset(s)) && i < |s|
    ensures forall j :: 0 <= j < |s| && j != i ==> s[j] != s[i]
  {
    NoRepeatsDistinct(s);
  }

  /** A rearrangement holds the same elements. */
  lemma SameMembers<T>(a: seq<T>, b: seq<T>)
    requires multiset(a) == multiset(b)
    ensures forall x :: x in a <==> x in b
  {
    forall x
      ensures x in a <==> x in b
    {
      assert x in a <==> x in multiset(a);
      assert x in b <==> x in multiset(b);
    }
  }

  /** `perm` lists each of `0` to `n - 1` once: the rearrangement `random.shuffle` makes of a
      list of length `n`, position `i` receiving the element at `perm[i]`. */
  predicate Permutation(perm: seq<nat>, n: nat)
  {
    |perm| == n && (forall i :: 0 <= i < n ==> perm[i] < n) && Distinct(perm)
  }

  /** The naturals below `n`, as many as `n`. */
  function Below(n: nat): (s: set<nat>)
    ensures |s| == n && forall k :: k in s <==> 0 <= k < n
  {
    if n == 0 then {} else Below(n - 1) + {n - 1}
  }

  /** A duplicate-free sequence drawn from `b` is no longer than `b` is large. */
  lemma {:induction false} DistinctWithin<T>(s: seq<T>, b: set<T>)
    requires Distinct(s) && forall i :: 0 <= i < |s| ==> s[i] in b
    ensures |s| <= |b|
    decreases |s|
  {
    if s != [] {
      var n := |s| - 1;
      DistinctWithin(s[..n], b - {s[n]});
    }
  }

  /** A permutation of `0` to `n - 1` lists every one of them. */
  lemma PermutationCovers(perm: seq<nat>, n: nat, k: nat)
    requires Permutation(perm, n) && k < n
    ensures k in perm
  {
    if k !in perm {
      DistinctWithin(perm, Below(n) - {k});
    }
  }

  /** `random.shuffle` of `s`, given the permutation it draws: position `i` receives the
      element at `perm[i]`. */
  function Shuffled<T>(s: seq<T>, perm: seq<nat>): (t: seq<T>)
    requires Permutation(perm, |s|)
    ensures |t| == |s| && forall i :: 0 <= i < |t| ==> t[i] == s[perm[i]]
  {
    seq(|s|, i requires 0 <= i < |s| => s[perm[i]])
  }

  /** A shuffle loses and adds nothing, and a list without repeats stays without them. */
  lemma ShuffledFacts<T>(s: seq<T>, perm: seq<nat>)
    requires Permutation(perm, |s|)
    ensures forall x :: x in Shuffled(s, perm) <==> x in s
    ensures Distinct(s) ==> Distinct(Shuffled(s, perm))
  {
    var t := Shuffled(s, perm);
    forall x | x in s
      ensures x in t
    {
      var k :| 0 <= k < |s| && s[k] == x;
      PermutationCovers(perm, |s|, k);
      var i :| 0 <= i < |perm| && perm[i] == k;
      assert t[i] == x;
    }
  }

  /** Python's `s[i]` for `-len(s) <= i < len(s)`: a negative index counts from the end. */
  function At<T>(s: seq<T>, i: int): (x: T)
    requires -|s| <= i < |s|
    ensures 0 <= i ==> x == s[i]
    ensures i < 0 ==> x == s[|s| + i]
  {
    if i < 0 then s[|s| + i] else s[i]
  }
}
