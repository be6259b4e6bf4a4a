/** The bounded map behind the gossip filters (dkg-gadget/src/gossip_engine/network.rs),
    against "the most recently inserted distinct keys". */
module LruFilter {
  import opened Orders

  datatype Entry<K, V> = Entry(key: K, value: V)

  function Keys<K, V>(es: seq<Entry<K, V>>): (r: seq<K>)
    ensures |r| == |es| && forall i | 0 <= i < |es| :: r[i] == es[i].key
    decreases |es|
  {
    if es == [] then [] else [es[0].key] + Keys(es[1..])
  }

  function Remove<K(==), V>(es: seq<Entry<K, V>>, k: K): seq<Entry<K, V>>
    decreases |es|
  {
    if es == [] then [] else (if es[0].key == k then [] else [es[0]]) + Remove(es[1..], k)
  }

  /** One insertion: the key moves to the back with its new value, and the front goes
      when the limit is reached. */
  function Inserted<K(==), V>(limit: nat, es: seq<Entry<K, V>>, e: Entry<K, V>): seq<Entry<K, V>> {
    var moved := Remove(es, e.key) + [e];
    if |moved| >= limit then moved[1..] else moved
  }

  /** What the map holds after a history of insertions. */
  function Cache<K(==), V>(limit: nat, history: seq<Entry<K, V>>): seq<Entry<K, V>>
    decreases |history|
  {
    if history == [] then []
    else Inserted(limit, Cache(limit, history[..|history| - 1]), history[|history| - 1])
  }

  class LruHashMap<K(==), V> {
    const limit: nat
    var inner: seq<Entry<K, V>>
    ghost var history: seq<Entry<K, V>>

    ghost predicate Valid()
      reads this
    {
      limit >= 1 && inner == Cache(limit, history)
    }

    constructor (limit: nat)
      requires limit >= 1
      ensures Valid() && this.limit == limit && history == []
    {
      this.limit, inner, history := limit, [], [];
    }

    method Insert(k: K, v: V) returns (isNew: bool)
      requires Valid()
      modifies this
      ensures Valid() && history == old(history) + [Entry(k, v)]
      ensures isNew <==> k !in Keys(old(inner))
    {
      var e := Entry(k, v);
      isNew := k !in Keys(inner);
      history := history + [e];
      assert history[..|history| - 1] == old(history);
      inner := Remove(inner, k) + [e];
      if |inner| >= limit {
        inner := inner[1..];
      }
    }

    method Get(k: K) returns (v: Option<V>)
      requires Valid()
      ensures v.None? <==> k !in Keys(inner)
      ensures v.Some? ==> Entry(k, v.value) in inner
    {
      for i := 0 to |inner|
        invariant forall j | 0 <= j < i :: inner[j].key != k
      {
        if inner[i].key == k {
          assert Keys(inner)[i] == k;
          return Some(inner[i].value);
        }
      }
      v := None;
    }
  }

  // ---- The reference ----------------------------------------------------------------

  /** The last insertion of each key, in order. */
  function LastOnes<K(==), V>(history: seq<Entry<K, V>>): seq<Entry<K, V>>
    decreases |history|
  {
    if history == [] then []
    else
      (if history[0].key in Keys(history[1..]) then [] else [history[0]]) + LastOnes(history[1..])
  }

  /** The last `n` elements, or all when there are fewer. */
  function Last<T>(n: nat, xs: seq<T>): seq<T> {
    if |xs| <= n then xs else xs[|xs| - n..]
  }

  // ---- Removal ------------------------------------------------------------------------

  lemma {:induction false} RemoveConcat<K, V>(a: seq<Entry<K, V>>, b: seq<Entry<K, V>>, k: K)
    ensures Remove(a + b, k) == Remove(a, k) + Remove(b, k)
    decreases |a|
  {
    if a == [] {
      assert a + b == b;
    } else {
      RemoveConcat(a[1..], b, k);
      assert (a + b)[1..] == a[1..] + b;
      var head := if a[0].key == k then [] else [a[0]];
      assert head + (Remove(a[1..], k) + Remove(b, k)) == head + Remove(a[1..], k) + Remove(b, k);
    }
  }

  lemma {:induction false} RemoveAbsent<K, V>(es: seq<Entry<K, V>>, k: K)
    requires k !in Keys(es)
    ensures Remove(es, k) == es
    decreases |es|
  {
    if es != [] {
      assert Keys(es)[0] == es[0].key;
      KeysTail(es);
      RemoveAbsent(es[1..], k);
    }
  }

  lemma KeysTail<K, V>(es: seq<Entry<K, V>>)
    requires es != []
    ensures Keys(es) == [es[0].key] + Keys(es[1..])
  {
  }

  lemma KeysConcat<K, V>(a: seq<Entry<K, V>>, b: seq<Entry<K, V>>)
    ensures Keys(a + b) == Keys(a) + Keys(b)
  {
  }

  lemma {:induction false} RemoveOnce<K, V>(es: seq<Entry<K, V>>, k: K)
    requires NoDuplicates(Keys(es)) && k in Keys(es)
    ensures |Remove(es, k)| == |es| - 1
    decreases |es|
  {
    KeysTail(es);
    assert Keys(es[1..]) == Keys(es)[1..];
    if es[0].key == k {
      RemoveAbsent(es[1..], k);
    } else {
      RemoveOnce(es[1..], k);
    }
  }

  // ---- The reference, one insertion at a time -----------------------------------------

  lemma {:induction false} LastOnesAppend<K, V>(h: seq<Entry<K, V>>, e: Entry<K, V>)
    ensures LastOnes(h + [e]) == Remove(LastOnes(h), e.key) + [e]
    decreases |h|
  {
    if h == [] {
      assert h + [e] == [e];
      assert [e][1..] == [];
      assert LastOnes([e]) == [e];
    } else {
      assert (h + [e])[1..] == h[1..] + [e];
      LastOnesAppend(h[1..], e);
      KeysConcat(h[1..], [e]);
      var head := if h[0].key in Keys(h[1..]) then [] else [h[0]];
      RemoveConcat(head, LastOnes(h[1..]), e.key);
    }
  }

  lemma KeysPrepend<K, V>(e: Entry<K, V>, es: seq<Entry<K, V>>)
    ensures Keys([e] + es) == [e.key] + Keys(es)
  {
    assert ([e] + es)[1..] == es;
  }

  lemma {:induction false} LastOnesElements<K, V>(h: seq<Entry<K, V>>)
    ensures Elements(Keys(LastOnes(h))) == Elements(Keys(h))
    decreases |h|
  {
    if h != [] {
      var k, rest := h[0].key, LastOnes(h[1..]);
      LastOnesElements(h[1..]);
      KeysTail(h);
      ElementsPrepend(k, Keys(h[1..]));
      if k in Keys(h[1..]) {
        assert [] + rest == rest;
        assert {k} + Elements(Keys(h[1..])) == Elements(Keys(h[1..]));
      } else {
        KeysPrepend(h[0], rest);
        ElementsPrepend(k, Keys(rest));
      }
    }
  }

  lemma {:induction false} LastOnesDistinct<K, V>(h: seq<Entry<K, V>>)
    ensures NoDuplicates(Keys(LastOnes(h)))
    decreases |h|
  {
    if h != [] {
      var rest := LastOnes(h[1..]);
      LastOnesDistinct(h[1..]);
      if h[0].key in Keys(h[1..]) {
        assert [] + rest == rest;
      } else {
        KeysPrepend(h[0], rest);
        LastOnesElements(h[1..]);
        assert h[0].key !in Elements(Keys(rest));
        NoDuplicatesConcat([h[0].key], Keys(rest));
      }
    }
  }

  // ---- Main result ----------------------------------------------------------------------

  lemma LastConcat<T>(n: nat, a: seq<T>, b: seq<T>)
    requires |b| == n || (|b| < n && a == [])
    ensures Last(n, a + b) == b
  {
  }

  lemma InsertPresent<K, V>(limit: nat, front: seq<Entry<K, V>>, es: seq<Entry<K, V>>, e: Entry<K, V>)
    requires limit >= 1 && |es| < limit && (front != [] ==> |es| == limit - 1)
    requires NoDuplicates(Keys(es)) && e.key in Keys(es) && e.key !in Keys(front)
    ensures Inserted(limit, es, e) == Last(limit - 1, Remove(front + es, e.key) + [e])
  {
    RemoveConcat(front, es, e.key);
    RemoveAbsent(front, e.key);
    RemoveOnce(es, e.key);
    var moved := Remove(es, e.key) + [e];
    assert Remove(front + es, e.key) + [e] == front + moved;
    LastConcat(limit - 1, front, moved);
  }

  lemma InsertAbsent<K, V>(limit: nat, front: seq<Entry<K, V>>, es: seq<Entry<K, V>>, e: Entry<K, V>)
    requires limit >= 1 && |es| < limit && (front != [] ==> |es| == limit - 1)
    requires e.key !in Keys(es)
    ensures Inserted(limit, es, e) == Last(limit - 1, Remove(front + es, e.key) + [e])
  {
    RemoveConcat(front, es, e.key);
    RemoveAbsent(es, e.key);
    var rest := Remove(front, e.key);
    if |es| < limit - 1 {
      assert front == [] && rest == [] && front + es == es;
    } else {
      var moved := es + [e];
      assert rest + es + [e] == (rest + moved[..1]) + moved[1..];
      LastConcat(limit - 1, rest + moved[..1], moved[1..]);
    }
  }

  /** Inserting into the last `n` of a duplicate-free list gives the last `n` of the
      list with the key moved to its end. */
  lemma InsertIntoLast<K, V>(limit: nat, all: seq<Entry<K, V>>, e: Entry<K, V>)
    requires limit >= 1 && NoDuplicates(Keys(all))
    ensures Inserted(limit, Last(limit - 1, all), e) == Last(limit - 1, Remove(all, e.key) + [e])
  {
    var es := Last(limit - 1, all);
    var n := |all| - |es|;
    var front := all[..n];
    assert all == front + es;
    KeysConcat(front, es);
    if e.key in Keys(es) {
      SplitDistinct(Keys(front), Keys(es), e.key);
      InsertPresent(limit, front, es, e);
    } else {
      InsertAbsent(limit, front, es, e);
    }
  }

  lemma SplitDistinct<K>(a: seq<K>, b: seq<K>, k: K)
    requires NoDuplicates(a + b) && k in b
    ensures NoDuplicates(b) && k !in a
  {
    assert forall i | 0 <= i < |b| :: (a + b)[|a| + i] == b[i];
    assert forall i | 0 <= i < |a| :: (a + b)[i] == a[i];
  }

  /** After any history the map holds exactly the most recent distinct keys, one fewer
      than the limit, in order of last insertion and with their last values. */
  lemma {:induction false} CacheIsRecent<K, V>(limit: nat, history: seq<Entry<K, V>>)
    requires limit >= 1
    ensures Cache(limit, history) == Last(limit - 1, LastOnes(history))
    decreases |history|
  {
    if history != [] {
      var n := |history| - 1;
      CacheIsRecent(limit, history[..n]);
      RecentStep(limit, history[..n], history[n]);
      assert history == history[..n] + [history[n]];
    }
  }

  lemma RecentStep<K, V>(limit: nat, before: seq<Entry<K, V>>, e: Entry<K, V>)
    requires limit >= 1
    ensures Inserted(limit, Last(limit - 1, LastOnes(before)), e) == Last(limit - 1, LastOnes(before + [e]))
  {
    LastOnesDistinct(before);
    LastOnesAppend(before, e);
    InsertIntoLast(limit, LastOnes(before), e);
  }
}
