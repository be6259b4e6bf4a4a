/** The signing sets a proposal's retries go through
    (dkg-gadget/src/signing_manager/mod.rs): the first 256 combinations, shuffled. */
module SigningSets {
  import opened Orders

  type Party = nat

  const MAX_SETS := 256

  function Prepend(x: Party, sets: seq<seq<Party>>): (r: seq<seq<Party>>)
    ensures |r| == |sets| && forall i | 0 <= i < |sets| :: r[i] == [x] + sets[i]
    decreases |sets|
  {
    if sets == [] then [] else [[x] + sets[0]] + Prepend(x, sets[1..])
  }

  /** The combinations of `r` parties out of `lo..hi`, in the order they are listed. */
  function Combinations(lo: Party, hi: Party, r: nat): seq<seq<Party>>
    requires lo <= hi + 1
    decreases hi + 1 - lo
  {
    if r == 0 then [[]]
    else if lo == hi + 1 then []
    else Prepend(lo, Combinations(lo + 1, hi, r - 1)) + Combinations(lo + 1, hi, r)
  }

  function Binomial(n: nat, r: nat): nat {
    if r == 0 then 1 else if n == 0 then 0 else Binomial(n - 1, r - 1) + Binomial(n - 1, r)
  }

  /** A set of `r` different parties out of `lo..hi`, in increasing order. */
  predicate Choice(lo: Party, hi: Party, r: nat, s: seq<Party>) {
    Increasing(s) && |s| == r && forall i | 0 <= i < |s| :: lo <= s[i] <= hi
  }

  lemma PrependMembers(x: Party, sets: seq<seq<Party>>, s: seq<Party>)
    ensures s in Prepend(x, sets) <==> s != [] && s[0] == x && s[1..] in sets
  {
    if s in Prepend(x, sets) {
      var i :| 0 <= i < |sets| && Prepend(x, sets)[i] == s;
      assert s[1..] == sets[i];
    }
    if s != [] && s[0] == x && s[1..] in sets {
      var i :| 0 <= i < |sets| && sets[i] == s[1..];
      assert Prepend(x, sets)[i] == s;
    }
  }

  lemma ChoiceTail(lo: Party, hi: Party, r: nat, s: seq<Party>)
    requires r > 0 && s != [] && s[0] == lo && lo <= hi
    ensures Choice(lo, hi, r, s) <==> Choice(lo + 1, hi, r - 1, s[1..])
  {
    var tail := s[1..];
    assert forall i | 0 <= i < |tail| :: tail[i] == s[i + 1];
    if Choice(lo + 1, hi, r - 1, tail) {
      forall i, j | 0 <= i < j < |s| ensures s[i] < s[j] {
        assert s[j] == tail[j - 1];
        if i > 0 {
          assert s[i] == tail[i - 1];
        }
      }
      forall i | 0 <= i < |s| ensures lo <= s[i] <= hi {
        if i > 0 {
          assert s[i] == tail[i - 1];
        }
      }
    }
  }

  lemma ChoiceStep(lo: Party, hi: Party, r: nat, s: seq<Party>)
    requires lo <= hi && r > 0
    ensures Choice(lo, hi, r, s) <==>
              (s != [] && s[0] == lo && Choice(lo + 1, hi, r - 1, s[1..])) || Choice(lo + 1, hi, r, s)
  {
    if s != [] {
      if s[0] == lo {
        ChoiceTail(lo, hi, r, s);
      } else if Choice(lo, hi, r, s) {
        forall i | 0 <= i < |s| ensures lo + 1 <= s[i] <= hi {
          assert s[0] <= s[i];
        }
      }
    }
  }

  /** The combinations are exactly the choices of `r` parties, each once. */
  lemma {:induction false} CombinationsExact(lo: Party, hi: Party, r: nat, s: seq<Party>)
    requires lo <= hi + 1
    ensures s in Combinations(lo, hi, r) <==> Choice(lo, hi, r, s)
    decreases hi + 1 - lo
  {
    if r > 0 {
      if lo == hi + 1 {
        assert s != [] ==> s[0] < lo || s[0] > hi;
      } else {
        var with, without := Combinations(lo + 1, hi, r - 1), Combinations(lo + 1, hi, r);
        ChoiceStep(lo, hi, r, s);
        PrependMembers(lo, with, s);
        if s != [] {
          CombinationsExact(lo + 1, hi, r - 1, s[1..]);
        }
        CombinationsExact(lo + 1, hi, r, s);
        assert s in Prepend(lo, with) + without <==> s in Prepend(lo, with) || s in without;
      }
    }
  }

  lemma NotInRest(lo: Party, hi: Party, r: nat, sets: seq<seq<Party>>, s: seq<Party>)
    requires lo <= hi && s in Prepend(lo, sets)
    ensures s !in Combinations(lo + 1, hi, r)
  {
    PrependMembers(lo, sets, s);
    CombinationsExact(lo + 1, hi, r, s);
  }

  lemma PartsDisjoint(lo: Party, hi: Party, r: nat, sets: seq<seq<Party>>)
    requires lo <= hi
    ensures Elements(Prepend(lo, sets)) !! Elements(Combinations(lo + 1, hi, r))
  {
    forall s | s in Elements(Prepend(lo, sets)) ensures s !in Elements(Combinations(lo + 1, hi, r)) {
      NotInRest(lo, hi, r, sets, s);
    }
  }

  lemma {:induction false} CombinationsDistinct(lo: Party, hi: Party, r: nat)
    requires lo <= hi + 1
    ensures NoDuplicates(Combinations(lo, hi, r))
    decreases hi + 1 - lo
  {
    if r == 0 || lo == hi + 1 {
    } else {
      var with, without := Combinations(lo + 1, hi, r - 1), Combinations(lo + 1, hi, r);
      CombinationsDistinct(lo + 1, hi, r - 1);
      CombinationsDistinct(lo + 1, hi, r);
      BothDistinct(lo, hi, r, with, without);
    }
  }

  lemma BothDistinct(lo: Party, hi: Party, r: nat, with: seq<seq<Party>>, without: seq<seq<Party>>)
    requires lo <= hi && NoDuplicates(with) && NoDuplicates(without) && without == Combinations(lo + 1, hi, r)
    ensures NoDuplicates(Prepend(lo, with) + without)
  {
    PrependDistinct(lo, with);
    PartsDisjoint(lo, hi, r, with);
    NoDuplicatesConcat(Prepend(lo, with), without);
  }

  lemma PrependDistinct(x: Party, sets: seq<seq<Party>>)
    requires NoDuplicates(sets)
    ensures NoDuplicates(Prepend(x, sets))
  {
    forall i, j | 0 <= i < j < |sets| ensures Prepend(x, sets)[i] != Prepend(x, sets)[j] {
      assert ([x] + sets[i])[1..] == sets[i] && ([x] + sets[j])[1..] == sets[j];
    }
  }

  lemma {:induction false} CombinationsCount(lo: Party, hi: Party, r: nat)
    requires lo <= hi + 1
    ensures |Combinations(lo, hi, r)| == Binomial(hi + 1 - lo, r)
    decreases hi + 1 - lo
  {
    if r > 0 && lo <= hi {
      CombinationsCount(lo + 1, hi, r - 1);
      CombinationsCount(lo + 1, hi, r);
    }
  }

  lemma {:induction false} BinomialPositive(n: nat, r: nat)
    ensures Binomial(n, r) > 0 <==> r <= n
    decreases n
  {
    if r > 0 && n > 0 {
      BinomialPositive(n - 1, r - 1);
      BinomialPositive(n - 1, r);
    }
  }

  lemma PrependedHold(x: Party, with: seq<seq<Party>>, without: seq<seq<Party>>, i: nat)
    requires i < |with| + |without| && forall j | 0 <= j < |without| :: x !in without[j]
    ensures x in (Prepend(x, with) + without)[i] <==> i < |with|
  {
    if i < |with| {
      assert Prepend(x, with)[i] == [x] + with[i];
    }
  }

  /** The combinations with the lowest party come first. */
  lemma LowestFirst(lo: Party, hi: Party, r: nat, i: nat)
    requires lo <= hi && r > 0 && i < |Combinations(lo, hi, r)|
    ensures lo in Combinations(lo, hi, r)[i] <==> i < Binomial(hi - lo, r - 1)
  {
    var with, without := Combinations(lo + 1, hi, r - 1), Combinations(lo + 1, hi, r);
    CombinationsCount(lo + 1, hi, r - 1);
    forall j | 0 <= j < |without| ensures lo !in without[j] {
      CombinationsExact(lo + 1, hi, r, without[j]);
    }
    PrependedHold(lo, with, without, i);
  }

  // ---- What is generated --------------------------------------------------------------

  /** The first combinations, as many as are taken. */
  function Taken(lo: Party, hi: Party, r: nat): (sets: seq<seq<Party>>)
    requires lo <= hi + 1
    ensures sets <= Combinations(lo, hi, r)
  {
    var all := Combinations(lo, hi, r);
    if |all| <= MAX_SETS then all else all[..MAX_SETS]
  }

  /** `sets` is the combinations taken for `n` authorities, numbered from one, and
      threshold `t`, in the order of the seeded shuffle. */
  ghost predicate Generated(n: nat, t: nat, sets: seq<seq<Party>>) {
    multiset(sets) == multiset(Taken(1, n, t + 1))
  }

  lemma ShuffleMembers(sets: seq<seq<Party>>, taken: seq<seq<Party>>, s: seq<Party>)
    requires multiset(sets) == multiset(taken)
    ensures s in sets <==> s in taken
  {
    assert s in multiset(sets) <==> s in multiset(taken);
  }

  lemma TakenFacts(lo: Party, hi: Party, r: nat)
    requires lo <= hi + 1
    ensures forall s | s in Taken(lo, hi, r) :: Choice(lo, hi, r, s)
    ensures |Taken(lo, hi, r)| == if Binomial(hi + 1 - lo, r) <= MAX_SETS then Binomial(hi + 1 - lo, r) else MAX_SETS
  {
    CombinationsCount(lo, hi, r);
    forall s | s in Taken(lo, hi, r) ensures Choice(lo, hi, r, s) {
      CombinationsExact(lo, hi, r, s);
    }
  }

  /** Each generated set is `t + 1` different authorities; there are as many as there
      are choices, up to 256, and some exactly when `t + 1` authorities are there. */
  lemma GeneratedSets(n: nat, t: nat, sets: seq<seq<Party>>)
    requires Generated(n, t, sets)
    ensures forall s | s in sets :: Choice(1, n, t + 1, s)
    ensures |sets| == if Binomial(n, t + 1) <= MAX_SETS then Binomial(n, t + 1) else MAX_SETS
    ensures |sets| > 0 <==> t + 1 <= n
  {
    var lo, r := 1, t + 1;
    var taken := Taken(lo, n, r);
    TakenFacts(lo, n, r);
    forall s | s in sets ensures s in taken {
      ShuffleMembers(sets, taken, s);
    }
    assert |multiset(sets)| == |multiset(taken)|;
    BinomialPositive(n, r);
  }

  /** Every choice is generated when there are no more than 256. */
  lemma AllChoicesGenerated(n: nat, t: nat, sets: seq<seq<Party>>, s: seq<Party>)
    requires Generated(n, t, sets) && Binomial(n, t + 1) <= MAX_SETS
    ensures s in sets <==> Choice(1, n, t + 1, s)
  {
    CombinationsCount(1, n, t + 1);
    ShuffleMembers(sets, Taken(1, n, t + 1), s);
    CombinationsExact(1, n, t + 1, s);
  }

  lemma TakenBeyond(lo: Party, hi: Party, r: nat)
    requires 0 < r <= hi + 1 - lo && lo <= hi
    ensures Binomial(hi - lo, r - 1) < |Taken(lo, hi, r)| <==> Binomial(hi - lo, r - 1) < MAX_SETS && r != hi + 1 - lo
  {
    CombinationsCount(lo, hi, r);
    BinomialPositive(hi - lo, r);
  }

  lemma LowestAlways(lo: Party, hi: Party, r: nat)
    requires 0 < r <= hi + 1 - lo && lo <= hi
    ensures (forall s | s in Taken(lo, hi, r) :: lo in s) <==> Binomial(hi - lo, r - 1) >= MAX_SETS || r == hi + 1 - lo
  {
    var taken, k := Taken(lo, hi, r), Binomial(hi - lo, r - 1);
    TakenBeyond(lo, hi, r);
    if k < |taken| {
      LowestFirst(lo, hi, r, k);
      assert taken[k] in taken;
    } else {
      forall s | s in taken ensures lo in s {
        var i :| 0 <= i < |taken| && taken[i] == s;
        LowestFirst(lo, hi, r, i);
      }
    }
  }

  /** The first authority is in every generated set, so that no retry can do without
      it, exactly when 256 choices hold it or all authorities are needed. */
  lemma FirstAlwaysNeeded(n: nat, t: nat, sets: seq<seq<Party>>)
    requires Generated(n, t, sets) && t + 1 <= n
    ensures (forall s | s in sets :: 1 in s) <==> Binomial(n - 1, t) >= MAX_SETS || t + 1 == n
  {
    var lo, r := 1, t + 1;
    var taken := Taken(lo, n, r);
    LowestAlways(lo, n, r);
    forall s ensures s in sets <==> s in taken {
      ShuffleMembers(sets, taken, s);
    }
  }
}
