/** Python's `list.sort(key=..., reverse=...)`: a stable sort. Each item is tagged with its
    key and its original position; the sort is an insertion sort whose result is strictly
    ordered by (key, original position), which is what stability means. */
module Sorting {

  datatype Keyed<T> = Keyed(key: real, pos: nat, item: T)

  /** Key `a` comes strictly before key `b` in the requested direction. */
  predicate KeyBefore(descending: bool, a: real, b: real)
  {
    if descending then a > b else a < b
  }

  /** `x` precedes `y` in a stable sort: an earlier key, or an equal key and an earlier position. */
  predicate Ahead<T>(descending: bool, x: Keyed<T>, y: Keyed<T>)
  {
    KeyBefore(descending, x.key, y.key) || (x.key == y.key && x.pos < y.pos)
  }

  predicate StablySorted<T>(descending: bool, s: seq<Keyed<T>>)
  {
    forall i, j :: 0 <= i < j < |s| ==> Ahead(descending, s[i], s[j])
  }

  predicate PositionsIncreasing<T>(s: seq<Keyed<T>>)
  {
    forall i, j :: 0 <= i < j < |s| ==> s[i].pos < s[j].pos
  }

  /** Inserts `x` before the first element whose key it strictly precedes (after equal keys). */
  function Insert<T>(descending: bool, x: Keyed<T>, s: seq<Keyed<T>>): seq<Keyed<T>>
  {
    if s == [] then [x]
    else if KeyBefore(descending, x.key, s[0].key) then [x] + s
    else [s[0]] + Insert(descending, x, s[1..])
  }

  function Sort<T>(descending: bool, s: seq<Keyed<T>>): seq<Keyed<T>>
  {
    if s == [] then [] else Insert(descending, s[|s| - 1], Sort(descending, s[..|s| - 1]))
  }

  function Tag<T>(items: seq<T>, keys: seq<real>): (r: seq<Keyed<T>>)
    requires |keys| == |items|
    ensures |r| == |items|
  {
    seq(|items|, i requires 0 <= i < |items| => Keyed(keys[i], i, items[i]))
  }

  function Items<T>(s: seq<Keyed<T>>): (r: seq<T>)
    ensures |r| == |s|
  {
    seq(|s|, i requires 0 <= i < |s| => s[i].item)
  }

  /** The positions the stable sort of `keys` takes its items from, in sorted order. */
  function Order(descending: bool, keys: seq<real>): (r: seq<nat>)
    ensures |r| == |keys| && forall i :: 0 <= i < |r| ==> r[i] < |keys|
  {
    OrderBound(descending, keys);
    Positions(Sort(descending, Tag(seq(|keys|, i => ()), keys)))
  }

  /** The items in stable sorted order of their keys: the item at sorted place `i` is the
      input item at position `Order(descending, keys)[i]` (`SortedByOrder` shows this is
      the tagged sort's result). */
  function SortedItems<T>(descending: bool, items: seq<T>, keys: seq<real>): (r: seq<T>)
    requires |keys| == |items|
    ensures |r| == |items|
  {
    seq(|items|, i requires 0 <= i < |items| => items[Order(descending, keys)[i]])
  }

  lemma ItemsAppend<T>(a: seq<Keyed<T>>, b: seq<Keyed<T>>)
    ensures Items(a + b) == Items(a) + Items(b)
  {
  }

  lemma {:induction false} InsertMultiset<T>(descending: bool, x: Keyed<T>, s: seq<Keyed<T>>)
    ensures multiset(Insert(descending, x, s)) == multiset(s) + multiset{x}
    ensures |Insert(descending, x, s)| == |s| + 1
    decreases |s|
  {
    if s != [] && !KeyBefore(descending, x.key, s[0].key) {
      InsertMultiset(descending, x, s[1..]);
      assert s == [s[0]] + s[1..];
    }
  }

  lemma {:induction false} InsertItems<T>(descending: bool, x: Keyed<T>, s: seq<Keyed<T>>)
    ensures multiset(Items(Insert(descending, x, s))) == multiset(Items(s)) + multiset{x.item}
    decreases |s|
  {
    if s == [] {
    } else if KeyBefore(descending, x.key, s[0].key) {
      ItemsAppend([x], s);
    } else {
      InsertItems(descending, x, s[1..]);
      ItemsAppend([s[0]], Insert(descending, x, s[1..]));
      ItemsAppend([s[0]], s[1..]);
      assert s == [s[0]] + s[1..];
    }
  }

  lemma TailSorted<T>(descending: bool, s: seq<Keyed<T>>)
    requires s != [] && StablySorted(descending, s)
    ensures StablySorted(descending, s[1..])
  {
    var tail := s[1..];
    forall i, j | 0 <= i < j < |tail|
      ensures Ahead(descending, tail[i], tail[j])
    {
      assert tail[i] == s[i + 1] && tail[j] == s[j + 1];
    }
  }

  lemma ConsSorted<T>(descending: bool, x: Keyed<T>, t: seq<Keyed<T>>)
    requires StablySorted(descending, t)
    requires forall j :: 0 <= j < |t| ==> Ahead(descending, x, t[j])
    ensures StablySorted(descending, [x] + t)
  {
    var r := [x] + t;
    forall i, j | 0 <= i < j < |r|
      ensures Ahead(descending, r[i], r[j])
    {
      if i == 0 {
        assert r[j] == t[j - 1];
      } else {
        assert r[i] == t[i - 1] && r[j] == t[j - 1];
      }
    }
  }

  lemma FrontAhead<T>(descending: bool, x: Keyed<T>, s: seq<Keyed<T>>)
    requires s != [] && StablySorted(descending, s)
    requires KeyBefore(descending, x.key, s[0].key)
    ensures forall j :: 0 <= j < |s| ==> Ahead(descending, x, s[j])
  {
    forall j | 0 < j < |s|
      ensures Ahead(descending, x, s[j])
    {
      assert Ahead(descending, s[0], s[j]);
    }
  }

  lemma SkipAhead<T>(descending: bool, x: Keyed<T>, s: seq<Keyed<T>>)
    requires s != [] && StablySorted(descending, s)
    requires !KeyBefore(descending, x.key, s[0].key) && s[0].pos < x.pos
    ensures forall j :: 0 <= j < |Insert(descending, x, s[1..])| ==> Ahead(descending, s[0], Insert(descending, x, s[1..])[j])
  {
    var tail := s[1..];
    InsertMultiset(descending, x, tail);
    var t := Insert(descending, x, tail);
    forall j | 0 <= j < |t|
      ensures Ahead(descending, s[0], t[j])
    {
      assert t[j] in multiset(t);
      if t[j] != x {
        assert t[j] in tail;
        var k :| 0 <= k < |tail| && tail[k] == t[j];
        assert s[k + 1] == t[j];
      }
    }
  }

  lemma {:induction false} InsertSorted<T>(descending: bool, x: Keyed<T>, s: seq<Keyed<T>>)
    requires StablySorted(descending, s)
    requires forall i :: 0 <= i < |s| ==> s[i].pos < x.pos
    ensures StablySorted(descending, Insert(descending, x, s))
    decreases |s|
  {
    if s == [] {
    } else if KeyBefore(descending, x.key, s[0].key) {
      FrontAhead(descending, x, s);
      ConsSorted(descending, x, s);
    } else {
      TailSorted(descending, s);
      InsertSorted(descending, x, s[1..]);
      SkipAhead(descending, x, s);
      ConsSorted(descending, s[0], Insert(descending, x, s[1..]));
    }
  }

  lemma {:induction false} SortMultiset<T>(descending: bool, s: seq<Keyed<T>>)
    ensures multiset(Sort(descending, s)) == multiset(s)
    ensures |Sort(descending, s)| == |s|
    decreases |s|
  {
    if s != [] {
      var p := s[..|s| - 1];
      SortMultiset(descending, p);
      InsertMultiset(descending, s[|s| - 1], Sort(descending, p));
      assert s == p + [s[|s| - 1]];
    }
  }

  lemma {:induction false} SortItems<T>(descending: bool, s: seq<Keyed<T>>)
    ensures multiset(Items(Sort(descending, s))) == multiset(Items(s))
    decreases |s|
  {
    if s != [] {
      var n := |s|;
      var p := s[..n - 1];
      var x := s[n - 1];
      SortItems(descending, p);
      InsertItems(descending, x, Sort(descending, p));
      assert Sort(descending, s) == Insert(descending, x, Sort(descending, p));
      assert s == p + [x];
      ItemsAppend(p, [x]);
      assert Items([x]) == [x.item];
    }
  }

  lemma {:induction false} SortFacts<T>(descending: bool, s: seq<Keyed<T>>)
    requires PositionsIncreasing(s)
    ensures StablySorted(descending, Sort(descending, s))
    ensures multiset(Sort(descending, s)) == multiset(s)
    ensures multiset(Items(Sort(descending, s))) == multiset(Items(s))
    ensures |Sort(descending, s)| == |s|
    decreases |s|
  {
    SortMultiset(descending, s);
    SortItems(descending, s);
    if s != [] {
      var n := |s|;
      var p := s[..n - 1];
      SortFacts(descending, p);
      var sp := Sort(descending, p);
      forall i | 0 <= i < |sp|
        ensures sp[i].pos < s[n - 1].pos
      {
        assert sp[i] in multiset(p);
        var k :| 0 <= k < |p| && p[k] == sp[i];
      }
      InsertSorted(descending, s[n - 1], sp);
    }
  }

  lemma TagFacts<T>(items: seq<T>, keys: seq<real>)
    requires |keys| == |items|
    ensures PositionsIncreasing(Tag(items, keys))
    ensures Items(Tag(items, keys)) == items
  {
  }

  /** The sort looks at keys and positions only: forgetting the items commutes with it. */
  function Strip<T>(s: seq<Keyed<T>>): (r: seq<Keyed<()>>)
    ensures |r| == |s|
  {
    seq(|s|, i requires 0 <= i < |s| => Keyed(s[i].key, s[i].pos, ()))
  }

  function Positions<T>(s: seq<Keyed<T>>): (r: seq<nat>)
    ensures |r| == |s|
  {
    seq(|s|, i requires 0 <= i < |s| => s[i].pos)
  }

  lemma {:induction false} InsertStrip<T>(descending: bool, x: Keyed<T>, s: seq<Keyed<T>>)
    ensures Strip(Insert(descending, x, s)) == Insert(descending, Keyed(x.key, x.pos, ()), Strip(s))
    decreases |s|
  {
    var y := Keyed(x.key, x.pos, ());
    if s == [] {
      assert Strip([x]) == [y];
    } else if KeyBefore(descending, x.key, s[0].key) {
      assert Strip([x] + s) == [y] + Strip(s);
    } else {
      InsertStrip(descending, x, s[1..]);
      assert Strip(s)[1..] == Strip(s[1..]);
      assert Strip([s[0]] + Insert(descending, x, s[1..])) == [Strip(s)[0]] + Strip(Insert(descending, x, s[1..]));
    }
  }

  lemma {:induction false} SortStrip<T>(descending: bool, s: seq<Keyed<T>>)
    ensures Strip(Sort(descending, s)) == Sort(descending, Strip(s))
    decreases |s|
  {
    if s != [] {
      var p := s[..|s| - 1];
      SortStrip(descending, p);
      InsertStrip(descending, s[|s| - 1], Sort(descending, p));
      assert Strip(s)[..|s| - 1] == Strip(p);
    }
  }

  /** Every position the sort of the tagged keys yields is a position of the input. */
  lemma OrderBound(descending: bool, keys: seq<real>)
    ensures var s := Sort(descending, Tag(seq(|keys|, i => ()), keys));
      |s| == |keys| && forall i :: 0 <= i < |s| ==> s[i].pos < |keys|
  {
    var t := Tag(seq(|keys|, i => ()), keys);
    SortMultiset(descending, t);
    var s := Sort(descending, t);
    forall i | 0 <= i < |s|
      ensures s[i].pos < |keys|
    {
      assert s[i] in multiset(t);
      var p :| 0 <= p < |t| && t[p] == s[i];
    }
  }

  /** Sorting the tagged items themselves picks them in the order `Order` gives. */
  lemma SortedByOrder<T>(descending: bool, items: seq<T>, keys: seq<real>)
    requires |keys| == |items|
    ensures Items(Sort(descending, Tag(items, keys))) == SortedItems(descending, items, keys)
  {
    var t := Tag(items, keys);
    TagFacts(items, keys);
    SortFacts(descending, t);
    var s := Sort(descending, t);
    assert Strip(t) == Tag(seq(|keys|, i => ()), keys);
    SortStrip(descending, t);
    assert Positions(Strip(s)) == Positions(s);
    forall i | 0 <= i < |items|
      ensures Items(s)[i] == items[Order(descending, keys)[i]]
    {
      assert s[i] in multiset(t);
      var p :| 0 <= p < |t| && t[p] == s[i];
    }
  }

  /** The sorted items are a permutation of the input, and their keys appear in sorted order,
      ties kept in input order. */
  lemma SortedItemsFacts<T>(descending: bool, items: seq<T>, keys: seq<real>)
    requires |keys| == |items|
    ensures var s := Sort(descending, Tag(items, keys));
      && |s| == |items|
      && StablySorted(descending, s)
      && SortedItems(descending, items, keys) == Items(s)
      && multiset(SortedItems(descending, items, keys)) == multiset(items)
      && forall e :: e in s ==> e in Tag(items, keys)
  {
    var t := Tag(items, keys);
    TagFacts(items, keys);
    SortFacts(descending, t);
    SortedByOrder(descending, items, keys);
    var s := Sort(descending, t);
    forall e | e in s
      ensures e in t
    {
      assert e in multiset(s);
    }
  }
}
