/** Enumerations of finite sets and the sorted order that makes a hash map's
    iteration order irrelevant. */
module Orders {

  datatype Option<+T> = None | Some(value: T)

  function Elements<T>(xs: seq<T>): set<T> {
    set x | x in xs
  }

  predicate NoDuplicates<T(==)>(xs: seq<T>) {
    forall i, j | 0 <= i < j < |xs| :: xs[i] != xs[j]
  }

  /** `xs` lists every member of `s` exactly once, in some order: what iterating
      over a hash map with key set `s` produces. */
  predicate Enumerates<T(==)>(xs: seq<T>, s: set<T>) {
    NoDuplicates(xs) && Elements(xs) == s
  }

  predicate Increasing(xs: seq<nat>) {
    forall i, j | 0 <= i < j < |xs| :: xs[i] < xs[j]
  }

  function Insert(x: nat, xs: seq<nat>): (r: seq<nat>)
    ensures multiset(r) == multiset(xs) + multiset{x}
  {
    if xs == [] || x <= xs[0] then [x] + xs
    else
      assert xs == [xs[0]] + xs[1..];
      [xs[0]] + Insert(x, xs[1..])
  }

  /** The ascending order that `sorted_by(|a, b| a.cmp(b))` produces. */
  function SortIds(xs: seq<nat>): (r: seq<nat>)
    ensures multiset(r) == multiset(xs)
  {
    if xs == [] then []
    else
      assert xs == [xs[0]] + xs[1..];
      Insert(xs[0], SortIds(xs[1..]))
  }

  lemma {:induction false} InsertIncreasing(x: nat, xs: seq<nat>)
    requires Increasing(xs) && x !in xs
    ensures Increasing(Insert(x, xs))
  {
    if xs == [] || x <= xs[0] {
    } else {
      InsertIncreasing(x, xs[1..]);
      var tail := Insert(x, xs[1..]);
      forall k | 0 <= k < |tail| ensures xs[0] < tail[k] {
        assert tail[k] in multiset(tail);
        assert tail[k] == x || tail[k] in xs[1..];
      }
      assert Insert(x, xs) == [xs[0]] + tail;
    }
  }

  lemma {:induction false} SortIdsIncreasing(xs: seq<nat>)
    requires NoDuplicates(xs)
    ensures Increasing(SortIds(xs))
    ensures Elements(SortIds(xs)) == Elements(xs)
  {
    if xs != [] {
      SortIdsIncreasing(xs[1..]);
      assert xs[0] !in multiset(xs[1..]);
      assert xs[0] !in multiset(SortIds(xs[1..]));
      InsertIncreasing(xs[0], SortIds(xs[1..]));
    }
    forall x ensures x in SortIds(xs) <==> x in xs {
      assert x in multiset(SortIds(xs)) <==> x in multiset(xs);
    }
  }

  lemma TailElements(xs: seq<nat>)
    requires xs != [] && Increasing(xs)
    ensures Elements(xs[1..]) == Elements(xs) - {xs[0]} && Increasing(xs[1..])
    ensures forall x | x in Elements(xs) :: xs[0] <= x
  {
    assert xs == [xs[0]] + xs[1..];
    ElementsPrepend(xs[0], xs[1..]);
  }

  /** A set has only one increasing enumeration. */
  lemma {:induction false} IncreasingUnique(xs: seq<nat>, ys: seq<nat>)
    requires Increasing(xs) && Increasing(ys)
    requires Elements(xs) == Elements(ys)
    ensures xs == ys
  {
    if xs == [] || ys == [] {
      NoDuplicatesCardinality(xs);
      NoDuplicatesCardinality(ys);
    } else {
      TailElements(xs);
      TailElements(ys);
      assert xs[0] in Elements(ys) && ys[0] in Elements(xs);
      IncreasingUnique(xs[1..], ys[1..]);
      assert xs == [xs[0]] + xs[1..] && ys == [ys[0]] + ys[1..];
    }
  }

  /** Sorting forgets the order in which a set was enumerated. */
  lemma SortIdsCanonical(order: seq<nat>, roster: seq<nat>)
    requires Increasing(roster)
    requires Enumerates(order, Elements(roster))
    ensures SortIds(order) == roster
  {
    SortIdsIncreasing(order);
    IncreasingUnique(SortIds(order), roster);
  }

  lemma {:induction false} NoDuplicatesCardinality<T>(xs: seq<T>)
    requires NoDuplicates(xs)
    ensures |Elements(xs)| == |xs|
  {
    if xs != [] {
      NoDuplicatesCardinality(xs[1..]);
      assert Elements(xs) == {xs[0]} + Elements(xs[1..]);
    }
  }

  lemma ElementsPrepend<T>(x: T, xs: seq<T>)
    ensures Elements([x] + xs) == {x} + Elements(xs)
  {
    forall y ensures y in [x] + xs <==> y == x || y in xs {
    }
  }

  lemma ElementsConcat<T>(xs: seq<T>, ys: seq<T>)
    ensures Elements(xs + ys) == Elements(xs) + Elements(ys)
  {
    forall y ensures y in xs + ys <==> y in xs || y in ys {
    }
  }

  lemma NoDuplicatesConcat<T>(xs: seq<T>, ys: seq<T>)
    requires NoDuplicates(xs) && NoDuplicates(ys) && Elements(xs) !! Elements(ys)
    ensures NoDuplicates(xs + ys)
  {
    var zs := xs + ys;
    forall i, j | 0 <= i < j < |zs| ensures zs[i] != zs[j] {
      if i < |xs| <= j {
        assert zs[i] in Elements(xs) && zs[j] in Elements(ys);
      }
    }
  }

  /** A list without repetition is one whose set is as large as the list. */
  lemma {:induction false} CardinalityNoDuplicates<T>(xs: seq<T>)
    ensures |Elements(xs)| <= |xs|
    ensures |Elements(xs)| == |xs| ==> NoDuplicates(xs)
  {
    if xs != [] {
      CardinalityNoDuplicates(xs[1..]);
      assert xs == [xs[0]] + xs[1..];
      ElementsPrepend(xs[0], xs[1..]);
      if xs[0] in xs[1..] {
        assert Elements(xs) == Elements(xs[1..]);
      } else {
        assert forall i | 0 < i < |xs| :: xs[i] in xs[1..];
      }
    }
  }

  /** A subset of equal size is the whole set. */
  lemma SubsetSameSize<T>(a: set<T>, b: set<T>)
    requires a <= b && |a| >= |b|
    ensures a == b
  {
    if a != b {
      SubsetSizes(a, b);
    }
  }

  lemma SubsetSizes<T>(a: set<T>, b: set<T>)
    requires a <= b
    ensures |a| <= |b|
    ensures a != b ==> |a| < |b|
  {
    assert b == a + (b - a);
    assert |b| == |a| + |b - a|;
  }

  lemma MapsEqual<K, V>(a: map<K, V>, b: map<K, V>)
    requires a.Keys == b.Keys
    requires forall k | k in a :: a[k] == b[k]
    ensures a == b
  {
  }

  lemma ElementsAppend<T>(xs: seq<T>, x: T)
    ensures Elements(xs + [x]) == Elements(xs) + {x}
  {
    forall y ensures y in xs + [x] <==> y in xs || y == x {
    }
  }

  lemma EnumeratesAppend<T>(xs: seq<T>, s: set<T>, x: T)
    requires Enumerates(xs, s) && x !in s
    ensures Enumerates(xs + [x], s + {x})
  {
    ElementsAppend(xs, x);
    assert forall i | 0 <= i < |xs| :: xs[i] in Elements(xs);
  }

  /** Some enumeration of a set. */
  ghost function SomeOrder<T>(s: set<T>): (r: seq<T>)
    ensures Enumerates(r, s)
    decreases |s|
  {
    if s == {} then []
    else
      var x :| x in s;
      EnumeratesAppend(SomeOrder(s - {x}), s - {x}, x);
      SomeOrder(s - {x}) + [x]
  }

  /** The increasing enumeration of a finite set. */
  ghost function Ascending(s: set<nat>): (r: seq<nat>)
    ensures Increasing(r) && Elements(r) == s
  {
    SortIdsIncreasing(SomeOrder(s));
    SortIds(SomeOrder(s))
  }

  /** The order in which a hash map yields its keys: any order. */
  method HashOrder<T(==)>(s: set<T>) returns (xs: seq<T>)
    ensures Enumerates(xs, s)
  {
    xs := [];
    var rest := s;
    while rest != {}
      invariant rest <= s && Enumerates(xs, s - rest)
      decreases |rest|
    {
      var x :| x in rest;
      EnumeratesAppend(xs, s - rest, x);
      assert s - (rest - {x}) == (s - rest) + {x};
      rest := rest - {x};
      xs := xs + [x];
    }
  }

  lemma NonNegative(a: nat, b: nat)
    ensures a * b >= 0
  {
  }
}
