/** When a message is sent again to the same peer of one connection
    (dkg-gadget/src/gossip_engine/network.rs). */
module GossipSends {
  import opened Orders
  import opened LruFilter

  type Hash = nat

  /** A message hash seen with the peer: received from it, or about to be sent to it. */
  datatype PeerEvent = Receive(hash: Hash) | Send(hash: Hash)

  /** Either way the hash goes into the peer's known messages. */
  function Marks(events: seq<PeerEvent>): (r: seq<Entry<Hash, ()>>)
    ensures |r| == |events| && forall i | 0 <= i < |r| :: r[i] == Entry(events[i].hash, ())
    decreases |events|
  {
    if events == [] then [] else Marks(events[..|events| - 1]) + [Entry(events[|events| - 1].hash, ())]
  }

  predicate Known(limit: nat, events: seq<PeerEvent>, hash: Hash) {
    hash in Keys(Cache(limit, Marks(events)))
  }

  /** A send goes out when the filter does not know the hash at that moment. */
  predicate Transmits(limit: nat, events: seq<PeerEvent>, j: nat)
    requires j < |events|
  {
    events[j].Send? && !Known(limit, events[..j], events[j].hash)
  }

  class PeerLink {
    const known: LruHashMap<Hash, ()>
    ghost var events: seq<PeerEvent>

    ghost predicate Valid()
      reads this, known
    {
      known.Valid() && known.history == Marks(events)
    }

    constructor (limit: nat)
      requires limit >= 1
      ensures Valid() && events == [] && known.limit == limit && fresh(known)
    {
      var filter := new LruHashMap<Hash, ()>(limit);
      known, events := filter, [];
    }

    method OnSignedMessage(hash: Hash)
      requires Valid()
      modifies this, known
      ensures Valid() && events == old(events) + [Receive(hash)]
    {
      MarksAppend(events, Receive(hash));
      var isNew := known.Insert(hash, ());
      events := events + [Receive(hash)];
    }

    method SendSignedMessage(hash: Hash) returns (sent: bool)
      requires Valid()
      modifies this, known
      ensures Valid() && events == old(events) + [Send(hash)]
      ensures sent == Transmits(known.limit, events, |events| - 1)
    {
      MarksAppend(events, Send(hash));
      sent := known.Insert(hash, ());
      events := events + [Send(hash)];
      assert events[..|events| - 1] == old(events);
    }
  }

  lemma MarksAppend(events: seq<PeerEvent>, e: PeerEvent)
    ensures Marks(events + [e]) == Marks(events) + [Entry(e.hash, ())]
  {
    assert (events + [e])[..|events|] == events;
  }

  // ---- What the filter knows ----------------------------------------------------------

  lemma {:induction false} LastOnesSplit<K, V>(h: seq<Entry<K, V>>, i: nat) returns (front: seq<Entry<K, V>>)
    requires i <= |h|
    ensures LastOnes(h) == front + LastOnes(h[i..])
    decreases i
  {
    if i == 0 {
      front := [];
      assert h[0..] == h;
    } else {
      var rest := LastOnesSplit(h[1..], i - 1);
      assert h[1..][i - 1..] == h[i..];
      var head := if h[0].key in Keys(h[1..]) then [] else [h[0]];
      front := head + rest;
      assert head + (rest + LastOnes(h[i..])) == front + LastOnes(h[i..]);
    }
  }

  lemma DistinctCount<K, V>(h: seq<Entry<K, V>>)
    ensures |LastOnes(h)| == |Elements(Keys(h))|
  {
    LastOnesElements(h);
    LastOnesDistinct(h);
    NoDuplicatesCardinality(Keys(LastOnes(h)));
  }

  lemma KeysOfLast<K, V>(n: nat, es: seq<Entry<K, V>>)
    ensures Keys(Last(n, es)) == Last(n, Keys(es))
  {
    if |es| > n {
      var d := |es| - n;
      assert es == es[..d] + es[d..];
      KeysConcat(es[..d], es[d..]);
    }
  }

  lemma InLast<K>(n: nat, front: seq<K>, k: K, after: seq<K>)
    requires k !in front && k !in after
    ensures k in Last(n, front + [k] + after) <==> |after| < n
  {
    var all := front + [k] + after;
    if |after| < n {
      var d := |all| - |Last(n, all)|;
      assert Last(n, all)[|front| - d] == k;
    } else {
      assert Last(n, all) == Last(n, after);
    }
  }

  lemma LastOnesAt<K, V>(h: seq<Entry<K, V>>, i: nat) returns (front: seq<Entry<K, V>>)
    requires i < |h| && h[i].key !in Keys(h[i + 1..])
    ensures LastOnes(h) == front + ([h[i]] + LastOnes(h[i + 1..]))
  {
    front := LastOnesSplit(h, i);
    assert h[i..][1..] == h[i + 1..];
  }

  lemma DistinctAround<K>(front: seq<K>, k: K, after: seq<K>)
    requires NoDuplicates(front + ([k] + after))
    ensures k !in front && k !in after
  {
    var all := front + ([k] + after);
    assert all[|front|] == k;
    assert forall i | 0 <= i < |front| :: all[i] == front[i];
    assert forall i | 0 <= i < |after| :: all[|front| + 1 + i] == after[i];
  }

  lemma HeldAround<K>(n: nat, front: seq<K>, k: K, after: seq<K>)
    requires NoDuplicates(front + ([k] + after))
    ensures k in Last(n, front + ([k] + after)) <==> |after| < n
  {
    DistinctAround(front, k, after);
    assert front + ([k] + after) == front + [k] + after;
    InLast(n, front, k, after);
  }

  lemma RecentKeys<K, V>(limit: nat, h: seq<Entry<K, V>>)
    requires limit >= 1
    ensures Keys(Cache(limit, h)) == Last(limit - 1, Keys(LastOnes(h)))
    ensures NoDuplicates(Keys(LastOnes(h))) && Elements(Keys(LastOnes(h))) == Elements(Keys(h))
  {
    CacheIsRecent(limit, h);
    KeysOfLast(limit - 1, LastOnes(h));
    LastOnesElements(h);
    LastOnesDistinct(h);
  }

  /** A key is still held exactly when fewer than `limit - 1` distinct keys were
      inserted after it. */
  lemma HeldExactly<K, V>(limit: nat, h: seq<Entry<K, V>>, i: nat)
    requires limit >= 1 && i < |h| && h[i].key !in Keys(h[i + 1..])
    ensures h[i].key in Keys(Cache(limit, h)) <==> |Elements(Keys(h[i + 1..]))| < limit - 1
  {
    var e, later := h[i], h[i + 1..];
    RecentKeys(limit, h);
    var front := LastOnesAt(h, i);
    var after := LastOnes(later);
    DistinctCount(later);
    assert Keys(LastOnes(h)) == Keys(front) + ([e.key] + Keys(after)) by {
      KeysOfSplit(front, e, after);
    }
    HeldAround(limit - 1, Keys(front), e.key, Keys(after));
  }

  lemma KeysOfSplit<K, V>(front: seq<Entry<K, V>>, e: Entry<K, V>, after: seq<Entry<K, V>>)
    ensures Keys(front + ([e] + after)) == Keys(front) + ([e.key] + Keys(after))
  {
    KeysConcat(front, [e] + after);
    KeysConcat([e], after);
    assert Keys([e]) == [e.key];
  }

  lemma NeverHeld<K, V>(limit: nat, h: seq<Entry<K, V>>, k: K)
    requires limit >= 1 && k !in Keys(h)
    ensures k !in Keys(Cache(limit, h))
  {
    RecentKeys(limit, h);
    assert k !in Elements(Keys(h));
    NotInLast(limit - 1, Keys(LastOnes(h)), k);
  }

  lemma NotInLast<K>(n: nat, ks: seq<K>, k: K)
    requires k !in Elements(ks)
    ensures k !in Last(n, ks)
  {
  }

  // ---- Sends --------------------------------------------------------------------------

  /** The distinct hashes seen with the peer. */
  function Hashes(events: seq<PeerEvent>): set<Hash> {
    Elements(Keys(Marks(events)))
  }

  lemma HashesMember(events: seq<PeerEvent>, i: nat)
    requires i < |events|
    ensures events[i].hash in Hashes(events)
  {
    assert Keys(Marks(events))[i] == events[i].hash;
  }

  lemma {:induction false} MarksSlice(events: seq<PeerEvent>, i: nat)
    requires i <= |events|
    ensures Marks(events)[i..] == Marks(events[i..])
    decreases |events|
  {
    if i < |events| {
      var n := |events| - 1;
      MarksSlice(events[..n], i);
      assert events[i..][..n - i] == events[..n][i..];
    }
  }

  /** A message not seen in the connection goes out whenever it is sent. */
  lemma FirstSendGoesOut(limit: nat, events: seq<PeerEvent>, j: nat)
    requires limit >= 1 && j < |events| && events[j].Send? && events[j].hash !in Hashes(events[..j])
    ensures Transmits(limit, events, j)
  {
    NeverHeld(limit, Marks(events[..j]), events[j].hash);
  }

  /** A message seen before, last at `i`, goes out again exactly when at least
      `limit - 1` distinct hashes were seen since. */
  lemma ResendExactly(limit: nat, events: seq<PeerEvent>, i: nat, j: nat)
    requires limit >= 1 && i < j < |events| && events[j].Send? && events[i].hash == events[j].hash
    requires events[j].hash !in Hashes(events[i + 1..j])
    ensures Transmits(limit, events, j) <==> |Hashes(events[i + 1..j])| >= limit - 1
  {
    var h := Marks(events[..j]);
    MarksSlice(events[..j], i + 1);
    assert events[..j][i + 1..] == events[i + 1..j];
    assert h[i].key == events[i].hash;
    assert h[i].key !in Elements(Keys(h[i + 1..]));
    HeldExactly(limit, h, i);
  }

  lemma {:induction false} LastSeen(events: seq<PeerEvent>, i: nat, j: nat) returns (m: nat)
    requires i < j <= |events|
    ensures i <= m < j && events[m].hash == events[i].hash && events[i].hash !in Hashes(events[m + 1..j])
    decreases j - i
  {
    var tail := events[i + 1..j];
    if k :| 0 <= k < |tail| && tail[k].hash == events[i].hash {
      m := LastSeen(events, i + 1 + k, j);
    } else {
      m := i;
      assert forall k | 0 <= k < |tail| :: Keys(Marks(tail))[k] == tail[k].hash;
    }
  }

  /** Between two sends of one message that both go out, at least `limit - 1` other
      messages are seen with the peer. */
  lemma SendsApart(limit: nat, events: seq<PeerEvent>, i: nat, j: nat)
    requires limit >= 1 && i < j < |events| && events[i].hash == events[j].hash
    requires Transmits(limit, events, i) && Transmits(limit, events, j)
    ensures |Hashes(events[i + 1..j]) - {events[j].hash}| >= limit - 1
  {
    var m := LastSeen(events, i, j);
    ResendExactly(limit, events, m, j);
    var since, between := Hashes(events[m + 1..j]), Hashes(events[i + 1..j]) - {events[j].hash};
    forall x | x in since ensures x in between {
      var tail := events[m + 1..j];
      var k :| 0 <= k < |Keys(Marks(tail))| && Keys(Marks(tail))[k] == x;
      HashesMember(events[i + 1..j], m - i + k);
    }
    SubsetSizes(since, between);
  }
}
