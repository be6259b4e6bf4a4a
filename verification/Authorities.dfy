/** Choice of the best authorities by reputation and jail status
    (pallets/dkg-metadata/src/lib.rs, `get_best_authorities*`). */
module Authorities {
  import opened Orders

  type Id = nat

  /** Reputation of an authority; one without an entry has the default zero. */
  function Rep(rep: map<Id, nat>, id: Id): nat {
    if id in rep then rep[id] else 0
  }

  function Keep(xs: seq<Id>, s: set<Id>): seq<Id> {
    if xs == [] then [] else if xs[0] in s then [xs[0]] + Keep(xs[1..], s) else Keep(xs[1..], s)
  }

  function Drop(xs: seq<Id>, s: set<Id>): seq<Id> {
    if xs == [] then [] else if xs[0] in s then Drop(xs[1..], s) else [xs[0]] + Drop(xs[1..], s)
  }

  lemma {:induction false} KeepDrop(xs: seq<Id>, s: set<Id>)
    ensures Elements(Keep(xs, s)) == Elements(xs) * s
    ensures Elements(Drop(xs, s)) == Elements(xs) - s
    ensures |Keep(xs, s)| + |Drop(xs, s)| == |xs|
    ensures NoDuplicates(xs) ==> NoDuplicates(Keep(xs, s)) && NoDuplicates(Drop(xs, s))
  {
    if xs != [] {
      var x, rest := xs[0], xs[1..];
      KeepDrop(rest, s);
      assert xs == [x] + rest;
      ElementsPrepend(x, rest);
      ElementsPrepend(x, Keep(rest, s));
      ElementsPrepend(x, Drop(rest, s));
      if NoDuplicates(xs) {
        assert x !in Elements(rest);
        NoDuplicatesConcat([x], Keep(rest, s));
        NoDuplicatesConcat([x], Drop(rest, s));
      }
    }
  }

  /** Stable insertion: before the first entry that is not better. */
  function InsertByRep(x: Id, xs: seq<Id>, rep: map<Id, nat>): (r: seq<Id>)
    ensures multiset(r) == multiset(xs) + multiset{x}
  {
    if xs == [] || Rep(rep, xs[0]) <= Rep(rep, x) then [x] + xs
    else
      assert xs == [xs[0]] + xs[1..];
      [xs[0]] + InsertByRep(x, xs[1..], rep)
  }

  /** The stable sort by falling reputation. */
  function SortByRep(xs: seq<Id>, rep: map<Id, nat>): (r: seq<Id>)
    ensures multiset(r) == multiset(xs)
  {
    if xs == [] then []
    else
      assert xs == [xs[0]] + xs[1..];
      InsertByRep(xs[0], SortByRep(xs[1..], rep), rep)
  }

  predicate Falling(xs: seq<Id>, rep: map<Id, nat>) {
    forall i, j | 0 <= i < j < |xs| :: Rep(rep, xs[i]) >= Rep(rep, xs[j])
  }

  lemma {:induction false} InsertFalling(x: Id, xs: seq<Id>, rep: map<Id, nat>)
    requires Falling(xs, rep)
    ensures Falling(InsertByRep(x, xs, rep), rep)
  {
    if xs == [] || Rep(rep, xs[0]) <= Rep(rep, x) {
    } else {
      InsertFalling(x, xs[1..], rep);
      var tail := InsertByRep(x, xs[1..], rep);
      forall k | 0 <= k < |tail| ensures Rep(rep, xs[0]) >= Rep(rep, tail[k]) {
        assert tail[k] in multiset(tail);
        assert tail[k] == x || tail[k] in xs[1..];
      }
      assert InsertByRep(x, xs, rep) == [xs[0]] + tail;
    }
  }

  lemma {:induction false} SortFalling(xs: seq<Id>, rep: map<Id, nat>)
    ensures Falling(SortByRep(xs, rep), rep)
  {
    if xs != [] {
      SortFalling(xs[1..], rep);
      InsertFalling(xs[0], SortByRep(xs[1..], rep), rep);
    }
  }

  lemma SameMembers(xs: seq<Id>, ys: seq<Id>)
    requires multiset(xs) == multiset(ys)
    ensures |xs| == |ys| && Elements(xs) == Elements(ys)
    ensures NoDuplicates(xs) ==> NoDuplicates(ys)
  {
    assert |multiset(xs)| == |xs| && |multiset(ys)| == |ys|;
    forall x ensures x in xs <==> x in ys {
      assert x in multiset(xs) <==> x in multiset(ys);
    }
    if NoDuplicates(xs) {
      NoDuplicatesCardinality(xs);
      CardinalityNoDuplicates(ys);
    }
  }

  function Prefix(xs: seq<Id>, count: nat): seq<Id> {
    if count < |xs| then xs[..count] else xs
  }

  /** The ids that `get_best_authorities_by_reputation` returns. */
  function TopIds(count: nat, xs: seq<Id>, rep: map<Id, nat>): seq<Id> {
    Prefix(SortByRep(xs, rep), count)
  }

  /** Numbering from one. */
  function Numbered(ids: seq<Id>): seq<(nat, Id)> {
    seq(|ids|, i requires 0 <= i < |ids| => (i + 1, ids[i]))
  }

  function Ids(xs: seq<(nat, Id)>): (r: seq<Id>)
    ensures |r| == |xs| && forall i | 0 <= i < |r| :: r[i] == xs[i].1
  {
    seq(|xs|, i requires 0 <= i < |xs| => xs[i].1)
  }

  /** The unjailed candidates, filled up with the best jailed ones. */
  function Candidates(count: nat, xs: seq<Id>, rep: map<Id, nat>, jailed: set<Id>): seq<Id> {
    var unjailed := Drop(xs, jailed);
    if |unjailed| < count then unjailed + TopIds(count - |unjailed|, Keep(xs, jailed), rep) else unjailed
  }

  function BestIds(count: nat, xs: seq<Id>, rep: map<Id, nat>, jailed: set<Id>): seq<Id> {
    TopIds(count, Candidates(count, xs, rep, jailed), rep)
  }

  /** `get_best_authorities` */
  function BestAuthorities(count: nat, xs: seq<Id>, rep: map<Id, nat>, jailed: set<Id>): seq<(nat, Id)> {
    Numbered(BestIds(count, xs, rep, jailed))
  }

  /** `chosen` are `count` best of `xs`: nobody left out is strictly better. */
  ghost predicate IsTop(count: nat, xs: seq<Id>, rep: map<Id, nat>, chosen: seq<Id>) {
    && |chosen| == (if count < |xs| then count else |xs|)
    && NoDuplicates(chosen) && Elements(chosen) <= Elements(xs)
    && Falling(chosen, rep)
    && forall x, y | x in Elements(xs) - Elements(chosen) && y in Elements(chosen) :: Rep(rep, x) <= Rep(rep, y)
  }

  lemma TopIdsSpec(count: nat, xs: seq<Id>, rep: map<Id, nat>)
    requires NoDuplicates(xs)
    ensures IsTop(count, xs, rep, TopIds(count, xs, rep))
    ensures count >= |xs| ==> Elements(TopIds(count, xs, rep)) == Elements(xs)
  {
    var sorted := SortByRep(xs, rep);
    SortFalling(xs, rep);
    SameMembers(xs, sorted);
    forall x, y | x in sorted && x !in Prefix(sorted, count) && y in Prefix(sorted, count)
      ensures Rep(rep, x) <= Rep(rep, y)
    {
      assert sorted == Prefix(sorted, count) + sorted[|Prefix(sorted, count)|..];
      var i :| |Prefix(sorted, count)| <= i < |sorted| && sorted[i] == x;
      var j :| 0 <= j < |Prefix(sorted, count)| && sorted[j] == y;
    }
  }

  /** Filling up with the best jailed ones. */
  lemma FillSpec(unjailed: seq<Id>, held: seq<Id>, fill: seq<Id>, n: nat, rep: map<Id, nat>, jailed: set<Id>)
    requires NoDuplicates(unjailed) && Elements(unjailed) !! jailed
    requires Elements(held) <= jailed && IsTop(n, held, rep, fill)
    ensures var c := unjailed + fill;
            && NoDuplicates(c) && Elements(unjailed) <= Elements(c) <= Elements(unjailed) + Elements(held)
            && |c| == |unjailed| + (if n < |held| then n else |held|)
    ensures NoneBetter(unjailed + fill, held, rep, jailed)
  {
    ElementsConcat(unjailed, fill);
    NoDuplicatesConcat(unjailed, fill);
    forall x, y | x in Elements(held) - Elements(unjailed + fill) && y in Elements(unjailed + fill) * jailed
      ensures Rep(rep, x) <= Rep(rep, y)
    {
      assert x in Elements(held) - Elements(fill) && y in Elements(fill);
    }
  }

  /** No jailed one left out is better than a jailed one in `c`. */
  ghost predicate NoneBetter(c: seq<Id>, held: seq<Id>, rep: map<Id, nat>, jailed: set<Id>) {
    forall x, y | x in Elements(held) - Elements(c) && y in Elements(c) * jailed :: Rep(rep, x) <= Rep(rep, y)
  }

  lemma CandidatesSpec(count: nat, xs: seq<Id>, rep: map<Id, nat>, jailed: set<Id>)
    requires NoDuplicates(xs)
    ensures var c := Candidates(count, xs, rep, jailed); var unjailed := Drop(xs, jailed);
            && NoDuplicates(c) && Elements(unjailed) <= Elements(c) <= Elements(xs)
            && (|unjailed| >= count ==> c == unjailed)
            && (|unjailed| < count ==>
                  |c| == (if count < |xs| then count else |xs|) && NoneBetter(c, Keep(xs, jailed), rep, jailed))
  {
    var unjailed, held := Drop(xs, jailed), Keep(xs, jailed);
    KeepDrop(xs, jailed);
    if |unjailed| < count {
      var n := count - |unjailed|;
      var fill := TopIds(n, held, rep);
      TopIdsSpec(n, held, rep);
      FillSpec(unjailed, held, fill, n, rep, jailed);
      assert Elements(unjailed) + Elements(held) == Elements(xs);
      assert Candidates(count, xs, rep, jailed) == unjailed + fill;
    }
  }

  /** The chosen set: as many as asked for or available, distinct, in falling
      reputation; a jailed authority is chosen only when all unjailed ones are;
      and inside each of the two classes nobody left out beats a chosen one. */
  lemma BestIdsSpec(count: nat, xs: seq<Id>, rep: map<Id, nat>, jailed: set<Id>)
    requires NoDuplicates(xs)
    ensures var r := BestIds(count, xs, rep, jailed);
            && |r| == (if count < |xs| then count else |xs|)
            && NoDuplicates(r) && Elements(r) <= Elements(xs) && Falling(r, rep)
            && (forall u, j | u in Elements(xs) - jailed && j in Elements(r) * jailed :: u in r)
            && (forall x, y | x in Elements(xs) - Elements(r) && y in Elements(r) && (x in jailed <==> y in jailed) ::
                  Rep(rep, x) <= Rep(rep, y))
  {
    var c := Candidates(count, xs, rep, jailed);
    KeepDrop(xs, jailed);
    CandidatesSpec(count, xs, rep, jailed);
    TopIdsSpec(count, c, rep);
  }

  /** Asking for no more than there are unjailed ones gives no jailed one. */
  lemma BestUnjailed(count: nat, xs: seq<Id>, rep: map<Id, nat>, jailed: set<Id>)
    requires NoDuplicates(xs) && count <= |Drop(xs, jailed)|
    ensures Elements(BestIds(count, xs, rep, jailed)) !! jailed
    ensures count == |Drop(xs, jailed)| ==> Elements(BestIds(count, xs, rep, jailed)) == Elements(xs) - jailed
  {
    KeepDrop(xs, jailed);
    TopIdsSpec(count, Drop(xs, jailed), rep);
  }

  /** Ties keep the order in which the authorities were listed. */
  lemma {:induction false} SortStable(xs: seq<Id>, rep: map<Id, nat>, v: nat)
    ensures WithRep(SortByRep(xs, rep), rep, v) == WithRep(xs, rep, v)
  {
    if xs != [] {
      SortStable(xs[1..], rep, v);
      SortFalling(xs[1..], rep);
      InsertStable(xs[0], SortByRep(xs[1..], rep), rep, v);
    }
  }

  function OneWithRep(x: Id, rep: map<Id, nat>, v: nat): seq<Id> {
    if Rep(rep, x) == v then [x] else []
  }

  function WithRep(xs: seq<Id>, rep: map<Id, nat>, v: nat): seq<Id> {
    if xs == [] then [] else OneWithRep(xs[0], rep, v) + WithRep(xs[1..], rep, v)
  }

  lemma WithRepPrepend(x: Id, xs: seq<Id>, rep: map<Id, nat>, v: nat)
    ensures WithRep([x] + xs, rep, v) == OneWithRep(x, rep, v) + WithRep(xs, rep, v)
  {
    assert ([x] + xs)[1..] == xs;
  }

  lemma SwapEmpty(a: seq<Id>, b: seq<Id>, c: seq<Id>)
    requires a == [] || b == []
    ensures a + (b + c) == b + (a + c)
  {
  }

  lemma {:induction false} InsertStable(x: Id, xs: seq<Id>, rep: map<Id, nat>, v: nat)
    requires Falling(xs, rep)
    ensures WithRep(InsertByRep(x, xs, rep), rep, v) == OneWithRep(x, rep, v) + WithRep(xs, rep, v)
  {
    if xs == [] || Rep(rep, xs[0]) <= Rep(rep, x) {
      WithRepPrepend(x, xs, rep, v);
    } else {
      InsertStable(x, xs[1..], rep, v);
      WithRepPrepend(xs[0], InsertByRep(x, xs[1..], rep), rep, v);
      assert xs == [xs[0]] + xs[1..];
      WithRepPrepend(xs[0], xs[1..], rep, v);
      SwapEmpty(OneWithRep(xs[0], rep, v), OneWithRep(x, rep, v), WithRep(xs[1..], rep, v));
    }
  }
}
