/** Sums over finite maps, as SQL's SUM and COUNT take them. */
module Sums {
  ghost function Sum<K(!new)>(m: map<K, int>): int
    decreases |m|
  {
    if m.Keys == {} then 0
    else
      var k :| k in m.Keys;
      m[k] + Sum(m - {k})
  }

  /** The entry of a key, zero if there is none. */
  function Entry<K>(m: map<K, int>, k: K): int {
    if k in m then m[k] else 0
  }

  /** The sum does not depend on the order in which it is taken. */
  lemma {:induction false} SumPick<K(!new)>(m: map<K, int>, k: K)
    requires k in m
    ensures Sum(m) == m[k] + Sum(m - {k})
    decreases |m|
  {
    var first :| first in m.Keys && Sum(m) == m[first] + Sum(m - {first});
    if first != k {
      SumPick(m - {first}, k);
      SumPick(m - {k}, first);
      assert m - {first} - {k} == m - {k} - {first};
    }
  }

  lemma SumEntry<K(!new)>(m: map<K, int>, k: K)
    ensures Sum(m) == Entry(m, k) + Sum(m - {k})
  {
    if k in m {
      SumPick(m, k);
    } else {
      assert m - {k} == m;
    }
  }

  /** Two maps whose entries differ at most at one key have sums that differ by as much. */
  lemma {:induction false} SumShift<K(!new)>(a: map<K, int>, b: map<K, int>, at: K, delta: int)
    requires forall k :: Entry(b, k) == Entry(a, k) + (if k == at then delta else 0)
    ensures Sum(b) == Sum(a) + delta
    decreases a.Keys + b.Keys
  {
    if a.Keys + b.Keys == {} {
      assert Entry(b, at) == Entry(a, at) + delta;
    } else {
      var k :| k in a.Keys + b.Keys;
      var restA, restB := a - {k}, b - {k};
      SumEntry(a, k);
      SumEntry(b, k);
      assert restA.Keys + restB.Keys == a.Keys + b.Keys - {k};
      forall x
        ensures Entry(restB, x) == Entry(restA, x) + (if x == at && k != at then delta else 0)
      {
        assert Entry(b, x) == Entry(a, x) + (if x == at then delta else 0);
      }
      SumShift(restA, restB, at, if k == at then 0 else delta);
    }
  }

  lemma SameEntriesSameSum<K(!new)>(a: map<K, int>, b: map<K, int>)
    requires forall k :: Entry(b, k) == Entry(a, k)
    ensures Sum(a) == Sum(b)
  {
    var keys := a.Keys + b.Keys;
    if keys == {} {
      assert a.Keys <= keys && b.Keys <= keys;
    } else {
      var k :| k in keys;
      SumShift(a, b, k, 0);
    }
  }

  /** The part of the map whose keys belong to the group. */
  ghost function Part<K, G>(m: map<K, int>, group: map<K, G>, g: G): map<K, int> {
    map k | k in m && k in group && group[k] == g :: m[k]
  }

  ghost function PerGroup<K(!new), G(!new)>(m: map<K, int>, group: map<K, G>, groups: set<G>): map<G, int> {
    map g | g in groups :: Sum(Part(m, group, g))
  }

  lemma EmptyGroups<K(!new), G(!new)>(m: map<K, int>, group: map<K, G>, groups: set<G>)
    requires m.Keys == {}
    ensures Sum(PerGroup(m, group, groups)) == 0
  {
    forall g | g in groups
      ensures Sum(Part(m, group, g)) == 0
    {
      assert Part(m, group, g).Keys == {};
    }
    var none: map<G, int> := map[];
    SameEntriesSameSum(none, PerGroup(m, group, groups));
  }

  /** Taking one key away takes its entry from the sum of its group and from no other. */
  lemma OneKeyLess<K(!new), G(!new)>(m: map<K, int>, group: map<K, G>, k: K, g: G)
    requires k in m && k in group
    ensures Sum(Part(m, group, g)) == Sum(Part(m - {k}, group, g)) + (if g == group[k] then m[k] else 0)
  {
    if g == group[k] {
      SumPick(Part(m, group, g), k);
      assert Part(m, group, g) - {k} == Part(m - {k}, group, g);
    } else {
      assert Part(m, group, g) == Part(m - {k}, group, g);
    }
  }

  /** Grouping and summing the groups gives the sum. */
  lemma {:induction false} GroupsAddUp<K(!new), G(!new)>(m: map<K, int>, group: map<K, G>, groups: set<G>)
    requires m.Keys <= group.Keys && forall k :: k in m ==> group[k] in groups
    ensures Sum(PerGroup(m, group, groups)) == Sum(m)
    decreases |m|
  {
    if m.Keys == {} {
      EmptyGroups(m, group, groups);
    } else {
      var k :| k in m.Keys;
      GroupsAddUp(m - {k}, group, groups);
      SumPick(m, k);
      var before, after := PerGroup(m - {k}, group, groups), PerGroup(m, group, groups);
      forall g
        ensures Entry(after, g) == Entry(before, g) + (if g == group[k] then m[k] else 0)
      {
        GroupEntry(m, group, groups, k, g);
      }
      SumShift(before, after, group[k], m[k]);
    }
  }

  lemma GroupEntry<K(!new), G(!new)>(m: map<K, int>, group: map<K, G>, groups: set<G>, k: K, g: G)
    requires k in m && k in group && group[k] in groups
    ensures Entry(PerGroup(m, group, groups), g) ==
            Entry(PerGroup(m - {k}, group, groups), g) + (if g == group[k] then m[k] else 0)
  {
    if g in groups {
      OneKeyLess(m, group, k, g);
    }
  }

  function Ones<K>(keys: set<K>): map<K, int> {
    map k | k in keys :: 1
  }

  lemma {:induction false} SumOfOnes<K(!new)>(keys: set<K>)
    ensures Sum(Ones(keys)) == |keys|
  {
    if keys == {} {
      assert Ones(keys).Keys == {};
    } else {
      var k :| k in keys;
      SumPick(Ones(keys), k);
      assert Ones(keys) - {k} == Ones(keys - {k});
      SumOfOnes(keys - {k});
    }
  }

  /** A one-to-one image has as many elements. */
  lemma {:induction false} ImageSize<A(!new), B(!new)>(keys: set<A>, image: map<A, B>)
    requires image.Keys == keys
    requires forall a, b :: a in keys && b in keys && image[a] == image[b] ==> a == b
    ensures |image.Values| == |keys|
  {
    if keys == {} {
      assert image.Values == {};
    } else {
      var a :| a in keys;
      var rest := image - {a};
      ImageSize(keys - {a}, rest);
      assert image.Values == rest.Values + {image[a]};
      assert image[a] !in rest.Values;
    }
  }
}
