/** The bookkeeping of one pass of `herb_migration` or `carn_migration` over the residents of
    one species: where each animal goes, how the four neighbours look to the animals after
    it, how many uniform values the pass draws and the error that stops it, if any. */
module Roaming {
  import opened Wrappers
  import opened Seqs
  import opened AnimalParams
  import FW = FitnessWorkers
  import opened RandomSource
  import opened Animals
  import opened CellRules

  /** The mask of the positions whose tag is `t`. */
  function Tagged(tags: seq<int>, t: int): (m: seq<bool>)
    ensures |m| == |tags| && forall i :: 0 <= i < |tags| ==> (m[i] <==> tags[i] == t)
  {
    seq(|tags|, i requires 0 <= i < |tags| => tags[i] == t)
  }

  /** The elements of `xs` tagged `t`, in their order. */
  function Select<T>(xs: seq<T>, tags: seq<int>, t: int): seq<T>
    requires |tags| == |xs|
  {
    Filter(xs, Tagged(tags, t))
  }

  lemma SelectSnoc<T>(xs: seq<T>, tags: seq<int>, x: T, o: int, t: int)
    requires |tags| == |xs|
    ensures Select(xs + [x], tags + [o], t) == Select(xs, tags, t) + (if o == t then [x] else [])
  {
    assert Tagged(tags + [o], t) == Tagged(tags, t) + [o == t];
    FilterSnoc(xs, Tagged(tags, t), x, o == t);
  }

  /** The selection from a non-empty sequence: that of all but its last element, and the
      last element when its tag is `t`. */
  lemma SelectLast<T>(xs: seq<T>, tags: seq<int>, t: int)
    requires |tags| == |xs| > 0
    ensures var n := |xs| - 1;
      Select(xs, tags, t) == Select(xs[..n], tags[..n], t) + (if tags[n] == t then [xs[n]] else [])
  {
    var n := |xs| - 1;
    assert xs == xs[..n] + [xs[n]];
    assert tags == tags[..n] + [tags[n]];
    SelectSnoc(xs[..n], tags[..n], xs[n], tags[n], t);
  }

  /** One more element considered: the selection from the next prefix. */
  lemma SelectPrefixStep<T>(xs: seq<T>, tags: seq<int>, i: nat, o: int, t: int)
    requires i < |xs| && |tags| == i
    ensures Select(xs[..i + 1], tags + [o], t) == Select(xs[..i], tags, t) + (if o == t then [xs[i]] else [])
  {
    assert xs[..i + 1] == xs[..i] + [xs[i]];
    SelectSnoc(xs[..i], tags, xs[i], o, t);
  }

  /** Every selection is an order-preserving subsequence. */
  lemma SelectSubsequence<T>(xs: seq<T>, tags: seq<int>, t: int)
    requires |tags| == |xs|
    ensures IsSubsequence(Select(xs, tags, t), xs) && multiset(Select(xs, tags, t)) <= multiset(xs)
  {
    assert |Tagged(tags, t)| == |xs| && Filter(xs, Tagged(tags, t)) == Select(xs, tags, t);
    FilterMultiset(xs, Tagged(tags, t));
  }

  /** One more element tagged `o`: only the selection for `o` gains it. */
  lemma SelectStepMultiset<T>(xs: seq<T>, tags: seq<int>, x: T, o: int, t: int)
    requires |tags| == |xs|
    ensures multiset(Select(xs + [x], tags + [o], t))
            == multiset(Select(xs, tags, t)) + (if o == t then multiset{x} else multiset{})
  {
    SelectSnoc(xs, tags, x, o, t);
  }

  /** The five selections of `xs` tagged -1, 0, 1, 2 and 3, together. */
  function Shares<T>(xs: seq<T>, tags: seq<int>): multiset<T>
    requires |tags| == |xs|
  {
    multiset(Select(xs, tags, -1)) + multiset(Select(xs, tags, 0)) + multiset(Select(xs, tags, 1))
    + multiset(Select(xs, tags, 2)) + multiset(Select(xs, tags, 3))
  }

  /** Appending an element with a tag among -1..3 adds it to exactly one selection. */
  lemma SharesStep<T>(xs: seq<T>, tags: seq<int>, x: T, o: int)
    requires |tags| == |xs| && -1 <= o < 4
    ensures Shares(xs + [x], tags + [o]) == Shares(xs, tags) + multiset{x}
  {
    var xs', tags' := xs + [x], tags + [o];
    var m0, m1, m2, m3, m4 := multiset(Select(xs, tags, -1)), multiset(Select(xs, tags, 0)),
                              multiset(Select(xs, tags, 1)), multiset(Select(xs, tags, 2)),
                              multiset(Select(xs, tags, 3));
    var n0, n1, n2, n3, n4 := multiset(Select(xs', tags', -1)), multiset(Select(xs', tags', 0)),
                              multiset(Select(xs', tags', 1)), multiset(Select(xs', tags', 2)),
                              multiset(Select(xs', tags', 3));
    SelectStepMultiset(xs, tags, x, o, -1);
    SelectStepMultiset(xs, tags, x, o, 0);
    SelectStepMultiset(xs, tags, x, o, 1);
    SelectStepMultiset(xs, tags, x, o, 2);
    SelectStepMultiset(xs, tags, x, o, 3);
    var e := multiset{x};
    assert Shares(xs', tags') == n0 + n1 + n2 + n3 + n4;
    assert Shares(xs, tags) == m0 + m1 + m2 + m3 + m4;
    if o == -1 {
      assert n0 == m0 + e && n1 == m1 && n2 == m2 && n3 == m3 && n4 == m4;
    } else if o == 0 {
      assert n0 == m0 && n1 == m1 + e && n2 == m2 && n3 == m3 && n4 == m4;
    } else if o == 1 {
      assert n0 == m0 && n1 == m1 && n2 == m2 + e && n3 == m3 && n4 == m4;
    } else if o == 2 {
      assert n0 == m0 && n1 == m1 && n2 == m2 && n3 == m3 + e && n4 == m4;
    } else {
      assert n0 == m0 && n1 == m1 && n2 == m2 && n3 == m3 && n4 == m4 + e;
    }
    UnionShift(m0, m1, m2, m3, m4, e);
  }

  lemma UnionShift<T>(a: multiset<T>, b: multiset<T>, c: multiset<T>, d: multiset<T>, f: multiset<T>, e: multiset<T>)
    ensures var s := a + b + c + d + f + e;
      && (a + e) + b + c + d + f == s && a + (b + e) + c + d + f == s && a + b + (c + e) + d + f == s
      && a + b + c + (d + e) + f == s && a + b + c + d + (f + e) == s
  {
  }

  /** When every tag is one of -1, 0, 1, 2, 3, the five selections share out `xs` exactly:
      nothing is lost and nothing is duplicated. */
  lemma {:induction false} SelectPartition<T>(xs: seq<T>, tags: seq<int>)
    requires |tags| == |xs| && forall i :: 0 <= i < |tags| ==> -1 <= tags[i] < 4
    ensures multiset(xs) == Shares(xs, tags)
    decreases |xs|
  {
    if xs != [] {
      var n := |xs|;
      var xs', tags' := xs[..n - 1], tags[..n - 1];
      SelectPartition(xs', tags');
      assert xs == xs' + [xs[n - 1]] && tags == tags' + [tags[n - 1]];
      SharesStep(xs', tags', xs[n - 1], tags[n - 1]);
    } else {
      assert Select(xs, tags, -1) == Select(xs, tags, 0) == Select(xs, tags, 1) == [];
      assert Select(xs, tags, 2) == Select(xs, tags, 3) == [];
    }
  }

  /** No element is tagged `t`: nothing is selected. */
  lemma {:induction false} SelectNone<T>(xs: seq<T>, tags: seq<int>, t: int)
    requires |tags| == |xs| && forall i :: 0 <= i < |tags| ==> tags[i] != t
    ensures Select(xs, tags, t) == []
    decreases |xs|
  {
    if xs != [] {
      var n := |xs| - 1;
      SelectNone(xs[..n], tags[..n], t);
      assert xs == xs[..n] + [xs[n]] && tags == tags[..n] + [tags[n]];
      SelectSnoc(xs[..n], tags[..n], xs[n], tags[n], t);
    } else {
      assert Tagged(tags, t) == [];
    }
  }

  /** The state of a migration pass: the position of the uniform stream, how the four
      neighbours look, where each animal so far went (-1 for staying, else the neighbour's
      index) and the error that stopped the pass, if any. */
  datatype Roam = Roam(drawn: nat, views: seq<View>, dest: seq<int>, error: Option<MoveError>)

  /** The neighbours after one more immigrant has been staged at neighbour `o`, if any. */
  function Arrived(views: seq<View>, o: int): (r: seq<View>)
    ensures |r| == |views|
  {
    if 0 <= o < |views| then views[o := View(views[o].fodder, views[o].count + 1, views[o].habitable)]
    else views
  }

  lemma ArrivedAt(views: seq<View>, o: int, k: nat)
    requires k < |views|
    ensures Arrived(views, o)[k] == View(views[k].fodder, views[k].count + (if o == k then 1 else 0), views[k].habitable)
  {
  }

  /** The turn of one animal of fitness `fit`: a uniform draw against its migration
      probability and, when it leaves, the draw of `animal_moves_to`. A failed pass stays
      as it is. */
  function RoamStep(exp: FW.ExpFn, p: Params, rng: Rng, fit: real, s: Roam): Roam
  {
    if s.error.Some? then s
    else
      var u := rng.UniformAt(s.drawn);
      var pm := MigrationProbability(p, fit);
      var d := s.drawn + MoveDraws(exp, p, u, pm, s.views);
      match MoveOutcome(exp, p, u, pm, s.views, rng.UniformAt(s.drawn + 1))
      case Success(o) => Roam(d, Arrived(s.views, o), s.dest + [o], None)
      case Failure(e) => Roam(d, s.views, s.dest, Some(e))
  }

  /** The pass over the first `n` animals, of fitness `fits`, from the state `s0`. */
  function Roamed(exp: FW.ExpFn, p: Params, rng: Rng, fits: seq<real>, s0: Roam, n: nat): Roam
    requires n <= |fits|
  {
    if n == 0 then s0 else RoamStep(exp, p, rng, fits[n - 1], Roamed(exp, p, rng, fits, s0, n - 1))
  }

  /** `states[k]` is the pass after the first `k` animals. */
  ghost predicate IsRoamTrace(exp: FW.ExpFn, p: Params, rng: Rng, fits: seq<real>, s0: Roam, states: seq<Roam>)
  {
    && |states| == |fits| + 1
    && forall k {:trigger Roamed(exp, p, rng, fits, s0, k)} :: 0 <= k <= |fits| ==>
         states[k] == Roamed(exp, p, rng, fits, s0, k)
  }

  /** The trace of the whole pass. */
  lemma RoamTrace(exp: FW.ExpFn, p: Params, rng: Rng, fits: seq<real>, s0: Roam) returns (states: seq<Roam>)
    ensures IsRoamTrace(exp, p, rng, fits, s0, states) && states[0] == s0
  {
    states := seq(|fits| + 1, k requires 0 <= k <= |fits| => Roamed(exp, p, rng, fits, s0, k));
  }

  /** Consecutive states of a trace are one turn apart. */
  lemma RoamTraceStep(exp: FW.ExpFn, p: Params, rng: Rng, fits: seq<real>, s0: Roam, states: seq<Roam>, i: nat)
    requires IsRoamTrace(exp, p, rng, fits, s0, states) && i < |fits|
    ensures states[i + 1] == RoamStep(exp, p, rng, fits[i], states[i])
  {
    assert states[i + 1] == Roamed(exp, p, rng, fits, s0, i + 1);
    assert states[i] == Roamed(exp, p, rng, fits, s0, i);
  }

  /** Once the pass has failed, the animals after take no turn. */
  lemma {:induction false} RoamedAfterFailure(exp: FW.ExpFn, p: Params, rng: Rng, fits: seq<real>, s0: Roam, m: nat, n: nat)
    requires m <= n <= |fits| && Roamed(exp, p, rng, fits, s0, m).error.Some?
    ensures Roamed(exp, p, rng, fits, s0, n) == Roamed(exp, p, rng, fits, s0, m)
    decreases n - m
  {
    if m < n {
      RoamedAfterFailure(exp, p, rng, fits, s0, m, n - 1);
    }
  }

  /** Whatever the parameters: a pass over `n` animals stops after its first failure and
      otherwise records one destination, among -1..3, per animal. */
  lemma {:induction false} RoamedShape(exp: FW.ExpFn, p: Params, rng: Rng, fits: seq<real>, s0: Roam, n: nat)
    requires n <= |fits| && |s0.views| == 4 && s0.dest == [] && s0.error.None?
    ensures var s := Roamed(exp, p, rng, fits, s0, n);
      && |s.views| == 4 && |s.dest| <= n && (s.error.None? ==> |s.dest| == n)
      && (forall i :: 0 <= i < |s.dest| ==> -1 <= s.dest[i] < 4)
    decreases n
  {
    if n > 0 {
      RoamedShape(exp, p, rng, fits, s0, n - 1);
      var s' := Roamed(exp, p, rng, fits, s0, n - 1);
      if s'.error.None? {
        MoveOutcomeRange(exp, p, rng.UniformAt(s'.drawn), MigrationProbability(p, fits[n - 1]), s'.views,
                         rng.UniformAt(s'.drawn + 1));
      }
    }
  }

  /** The start of a pass: the stream at `d0`, the neighbours as `vs0`, nobody moved yet. */
  function Start(d0: nat, vs0: seq<View>): Roam
  {
    Roam(d0, vs0, [], None)
  }

  /** One turn with F not 0, four neighbours and a valid stream: it does not fail, and the
      animal stays or goes to a habitable neighbour, drawing a second value just then. */
  lemma RoamStepFacts(exp: FW.ExpFn, p: Params, rng: Rng, fit: real, s: Roam)
    requires |s.views| == 4 && rng.Valid() && p.F != 0.0 && s.error.None?
    ensures var t := RoamStep(exp, p, rng, fit, s);
      && t.error.None? && |t.dest| == |s.dest| + 1 && t.dest[..|s.dest|] == s.dest
      && var o := t.dest[|s.dest|];
      && -1 <= o < 4 && (o >= 0 ==> s.views[o].habitable)
      && t.views == Arrived(s.views, o) && t.drawn == s.drawn + (if o >= 0 then 2 else 1)
  {
    var u, u2 := rng.UniformAt(s.drawn), rng.UniformAt(s.drawn + 1);
    MoveOutcomeFacts(exp, p, u, MigrationProbability(p, fit), s.views, u2);
  }

  /** The number of animals tagged `k` grows by one exactly when the next one is. */
  lemma CountTaggedStep(tags: seq<int>, o: int, k: int)
    ensures CountTrue(Tagged(tags + [o], k)) == CountTrue(Tagged(tags, k)) + (if o == k then 1 else 0)
  {
    assert Tagged(tags + [o], k)[..|tags|] == Tagged(tags, k);
  }

  /** What a pass promises, with F not 0, four neighbours and a valid stream: it never
      fails, and each animal stays or goes to a habitable neighbour. */
  lemma {:induction false} RoamedFacts(exp: FW.ExpFn, p: Params, rng: Rng, fits: seq<real>, d0: nat, vs0: seq<View>, n: nat)
    requires n <= |fits| && |vs0| == 4 && rng.Valid() && p.F != 0.0
    ensures var s := Roamed(exp, p, rng, fits, Start(d0, vs0), n);
      && s.error.None? && |s.dest| == n && |s.views| == 4
      && (forall k :: 0 <= k < 4 ==> s.views[k].habitable == vs0[k].habitable)
      && (forall i :: 0 <= i < n ==> -1 <= s.dest[i] < 4)
      && (forall i :: 0 <= i < n && s.dest[i] >= 0 ==> vs0[s.dest[i]].habitable)
    decreases n
  {
    if n > 0 {
      RoamedFacts(exp, p, rng, fits, d0, vs0, n - 1);
      var s' := Roamed(exp, p, rng, fits, Start(d0, vs0), n - 1);
      RoamStepFacts(exp, p, rng, fits[n - 1], s');
      FactsAdvance(s', RoamStep(exp, p, rng, fits[n - 1], s'), vs0, n - 1);
    }
  }

  /** One turn keeps the facts of `RoamedFacts`, one animal further on. */
  lemma FactsAdvance(s: Roam, t: Roam, vs0: seq<View>, n: nat)
    requires |s.dest| == n && |s.views| == 4 && |vs0| == 4
    requires forall k :: 0 <= k < 4 ==> s.views[k].habitable == vs0[k].habitable
    requires forall i :: 0 <= i < n ==> -1 <= s.dest[i] < 4
    requires forall i :: 0 <= i < n && s.dest[i] >= 0 ==> vs0[s.dest[i]].habitable
    requires |t.dest| == n + 1 && t.dest[..n] == s.dest && -1 <= t.dest[n] < 4
    requires t.dest[n] >= 0 ==> s.views[t.dest[n]].habitable
    requires t.views == Arrived(s.views, t.dest[n])
    ensures |t.views| == 4
    ensures forall k :: 0 <= k < 4 ==> t.views[k].habitable == vs0[k].habitable
    ensures forall i :: 0 <= i < n + 1 ==> -1 <= t.dest[i] < 4
    ensures forall i :: 0 <= i < n + 1 && t.dest[i] >= 0 ==> vs0[t.dest[i]].habitable
  {
    forall i | 0 <= i < n + 1
      ensures -1 <= t.dest[i] < 4 && (t.dest[i] >= 0 ==> vs0[t.dest[i]].habitable)
    {
      if i < n {
        assert t.dest[i] == s.dest[i];
      }
    }
    forall k | 0 <= k < 4
      ensures t.views[k].habitable == vs0[k].habitable
    {
      ArrivedAt(s.views, t.dest[n], k);
    }
  }

  /** Under the same conditions a neighbour's count grows by the number of animals sent to
      it and nothing else about it changes, and the pass draws one value per animal and one
      more per animal that leaves. */
  lemma {:induction false} RoamedCounts(exp: FW.ExpFn, p: Params, rng: Rng, fits: seq<real>, d0: nat, vs0: seq<View>, n: nat)
    requires n <= |fits| && |vs0| == 4 && rng.Valid() && p.F != 0.0
    ensures var s := Roamed(exp, p, rng, fits, Start(d0, vs0), n);
      && |s.dest| == n && |s.views| == 4
      && (forall k :: 0 <= k < 4 ==> s.views[k].fodder == vs0[k].fodder)
      && (forall k :: 0 <= k < 4 ==> s.views[k].count == vs0[k].count + CountTrue(Tagged(s.dest, k)))
      && s.drawn == d0 + n + (n - CountTrue(Tagged(s.dest, -1)))
    decreases n
  {
    if n == 0 {
      var s := Start(d0, vs0);
      forall k | -1 <= k < 4
        ensures CountTrue(Tagged(s.dest, k)) == 0
      {
        assert Tagged(s.dest, k) == [];
      }
    } else {
      RoamedCounts(exp, p, rng, fits, d0, vs0, n - 1);
      RoamedFacts(exp, p, rng, fits, d0, vs0, n - 1);
      var s' := Roamed(exp, p, rng, fits, Start(d0, vs0), n - 1);
      RoamStepFacts(exp, p, rng, fits[n - 1], s');
      CountsAdvance(s', RoamStep(exp, p, rng, fits[n - 1], s'), vs0, d0, n - 1);
    }
  }

  /** One turn keeps the counts of `RoamedCounts`, one animal further on. */
  lemma CountsAdvance(s: Roam, t: Roam, vs0: seq<View>, d0: nat, n: nat)
    requires |s.dest| == n && |s.views| == 4 && |vs0| == 4
    requires forall k :: 0 <= k < 4 ==> s.views[k].fodder == vs0[k].fodder
    requires forall k :: 0 <= k < 4 ==> s.views[k].count == vs0[k].count + CountTrue(Tagged(s.dest, k))
    requires s.drawn == d0 + n + (n - CountTrue(Tagged(s.dest, -1)))
    requires |t.dest| == n + 1 && t.dest[..n] == s.dest && -1 <= t.dest[n] < 4
    requires t.views == Arrived(s.views, t.dest[n]) && t.drawn == s.drawn + (if t.dest[n] >= 0 then 2 else 1)
    ensures |t.views| == 4
    ensures forall k :: 0 <= k < 4 ==> t.views[k].fodder == vs0[k].fodder
    ensures forall k :: 0 <= k < 4 ==> t.views[k].count == vs0[k].count + CountTrue(Tagged(t.dest, k))
    ensures t.drawn == d0 + (n + 1) + ((n + 1) - CountTrue(Tagged(t.dest, -1)))
  {
    var o := t.dest[n];
    assert t.dest == s.dest + [o];
    CountTaggedStep(s.dest, o, -1);
    forall k | 0 <= k < 4
      ensures t.views[k].fodder == vs0[k].fodder
      ensures t.views[k].count == vs0[k].count + CountTrue(Tagged(t.dest, k))
    {
      CountTaggedStep(s.dest, o, k);
      ArrivedAt(s.views, o, k);
    }
  }

  /** With F = 0 the pass raises at the first animal whose draw falls below its migration
      probability, since that animal divides by zero; until then every animal stays and
      draws one value. */
  lemma {:induction false} RoamedWithoutF(exp: FW.ExpFn, p: Params, rng: Rng, fits: seq<real>, d0: nat, vs0: seq<View>, n: nat)
    requires n <= |fits| && |vs0| == 4 && rng.Valid() && p.F == 0.0
    ensures var s := Roamed(exp, p, rng, fits, Start(d0, vs0), n);
      && s.views == vs0 && s.drawn == d0 + |s.dest| + (if s.error.Some? then 1 else 0)
      && (forall i :: 0 <= i < |s.dest| ==> s.dest[i] == -1)
      && (s.error.Some? ==>
            && s.error == Some(DivisionByZero)
            && |s.dest| < n && rng.UniformAt(d0 + |s.dest|) < MigrationProbability(p, fits[|s.dest|])
            && forall i :: 0 <= i < |s.dest| ==> !(rng.UniformAt(d0 + i) < MigrationProbability(p, fits[i])))
      && (s.error.None? ==>
            && |s.dest| == n
            && forall i :: 0 <= i < n ==> !(rng.UniformAt(d0 + i) < MigrationProbability(p, fits[i])))
    decreases n
  {
    if n > 0 {
      RoamedWithoutF(exp, p, rng, fits, d0, vs0, n - 1);
      var s' := Roamed(exp, p, rng, fits, Start(d0, vs0), n - 1);
      if s'.error.None? {
        MoveOutcomeFacts(exp, p, rng.UniformAt(s'.drawn), MigrationProbability(p, fits[n - 1]), s'.views,
                         rng.UniformAt(s'.drawn + 1));
      }
    }
  }

  /** Whatever F is, with four neighbours and a valid stream: every animal of the pass
      stays or goes to a habitable neighbour, and a pass that fails had F = 0 and moved
      nobody. */
  lemma RoamedMoves(exp: FW.ExpFn, p: Params, rng: Rng, fits: seq<real>, d0: nat, vs0: seq<View>, n: nat)
    requires n <= |fits| && |vs0| == 4 && rng.Valid()
    ensures var s := Roamed(exp, p, rng, fits, Start(d0, vs0), n);
      && |s.dest| <= n && (s.error.None? ==> |s.dest| == n)
      && (forall i :: 0 <= i < |s.dest| ==> -1 <= s.dest[i] < 4 && (s.dest[i] >= 0 ==> vs0[s.dest[i]].habitable))
      && (s.error.Some? ==> p.F == 0.0 && forall i :: 0 <= i < |s.dest| ==> s.dest[i] == -1)
  {
    if p.F != 0.0 {
      RoamedFacts(exp, p, rng, fits, d0, vs0, n);
    } else {
      RoamedWithoutF(exp, p, rng, fits, d0, vs0, n);
    }
  }
}
