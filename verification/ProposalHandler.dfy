/** The proposal handler pallet as it changes its storage
    (pallets/dkg-proposal-handler/src), against the functions of ProposalSpec. */
module ProposalHandler {
  import opened Orders
  import opened ProposalSpec

  /** Ids pushed once for every refresh met while scanning the queue. */
  method CollectRefreshIds(queue: map<Key, Batch>) returns (ids: seq<nat>)
    ensures Elements(ids) == RefreshIds(queue)
  {
    var order := HashOrder(queue.Keys);
    assert forall k :: k in queue <==> k in order by {
      assert forall k :: k in order <==> k in Elements(order);
    }
    ids := [];
    for i := 0 to |order|
      invariant forall x ::
                  x in ids <==> exists j :: 0 <= j < i && HoldsRefresh(queue[order[j]].proposals) && order[j].id == x
    {
      var proposals := queue[order[i]].proposals;
      ghost var before := ids;
      for j := 0 to |proposals|
        invariant forall x :: x in ids <==> x in before || (x == order[i].id && HoldsRefresh(proposals[..j]))
      {
        if proposals[j].refresh {
          ids := ids + [order[i].id];
        }
        RefreshPrefix(proposals, j);
      }
      assert proposals[..|proposals|] == proposals;
    }
    forall x ensures x in ids <==> x in RefreshIds(queue) {
      if x in RefreshIds(queue) {
        var k :| k in queue && HoldsRefresh(queue[k].proposals) && k.id == x;
        var j :| 0 <= j < |order| && order[j] == k;
      }
    }
  }

  lemma RefreshPrefix(ps: seq<Proposal>, j: nat)
    requires j < |ps|
    ensures HoldsRefresh(ps[..j + 1]) <==> HoldsRefresh(ps[..j]) || ps[j].refresh
  {
    var longer, shorter := ps[..j + 1], ps[..j];
    if ps[j].refresh {
      assert longer[j].refresh;
    }
    if i :| 0 <= i < |shorter| && shorter[i].refresh {
      assert longer[i].refresh;
    }
  }

  /** A second purge finds nothing more to remove. */
  lemma PurgeIdempotent(s: State, c: Chain)
    ensures Purge(Purge(s, c), c) == Purge(s, c)
  {
    var s1 := Purge(s, c);
    assert RefreshIds(s1.queue) <= RefreshIds(s.queue);
    assert Purged(s1.queue, c) == {};
    assert KeyIds({}) == {};
    assert s1.queue - {} == s1.queue;
  }

  class Handler {
    const cfg: Config
    var unsignedProposals: map<Chain, seq<Proposal>>
    var unsignedProposalQueue: map<Key, Batch>
    var signedProposals: map<Key, SignedBatch>
    var nextBatchId: nat
    ghost var history: History

    ghost function Snapshot(): State
      reads this
    {
      State(unsignedProposals, unsignedProposalQueue, signedProposals, nextBatchId, history)
    }

    constructor (cfg: Config)
      ensures Snapshot() == Empty && this.cfg == cfg
    {
      this.cfg := cfg;
      unsignedProposals, unsignedProposalQueue, signedProposals, nextBatchId := map[], map[], map[], 0;
      history := History([], [], {});
    }

    method GenerateNextBatchId() returns (id: Option<nat>)
      modifies this`nextBatchId
      ensures old(nextBatchId) >= cfg.maxBatchId ==> id == None && nextBatchId == old(nextBatchId)
      ensures old(nextBatchId) < cfg.maxBatchId ==> id == Some(old(nextBatchId)) && nextBatchId == old(nextBatchId) + 1
    {
      if nextBatchId >= cfg.maxBatchId {
        return None;
      }
      id := Some(nextBatchId);
      nextBatchId := nextBatchId + 1;
    }

    method CreateBatchAndAddToStorage(now: nat, c: Chain, proposals: seq<Proposal>) returns (ok: bool)
      modifies this`nextBatchId, this`unsignedProposalQueue, this`history
      ensures ok <==> old(nextBatchId) < cfg.maxBatchId
      ensures !ok ==> Snapshot() == old(Snapshot())
      ensures ok && proposals == Staged(unsignedProposals, c) ==>
                Snapshot().(staging := unsignedProposals - {c}) == Enqueue(old(Snapshot()), now, c)
    {
      var id := GenerateNextBatchId();
      if id.None? {
        return false;
      }
      var batch := Batch(proposals, now, id.value);
      unsignedProposalQueue := unsignedProposalQueue[Key(c, id.value) := batch];
      history := history.(created := history.created + [Entry(c, batch)]);
      ok := true;
    }

    method StoreUnsignedProposal(now: nat, p: Proposal) returns (result: Result)
      modifies this
      ensures (Snapshot(), result) == StoreUnsigned(cfg, old(Snapshot()), now, p)
    {
      var proposals := Staged(unsignedProposals, p.chain);
      if |proposals| == cfg.maxPerBatch {
        var ok := CreateBatchAndAddToStorage(now, p.chain, proposals);
        if !ok {
          return ArithmeticOverflow;
        }
        if cfg.maxPerBatch == 0 {
          return QueueOverflow;
        }
        assert [] + [p] == [p];
        MapsEqual(unsignedProposals[p.chain := [p]], (unsignedProposals - {p.chain})[p.chain := [p]]);
        unsignedProposals := unsignedProposals[p.chain := [p]];
      } else {
        if |proposals| >= cfg.maxPerBatch {
          return QueueOverflow;
        }
        unsignedProposals := unsignedProposals[p.chain := proposals + [p]];
      }
      history := history.(accepted := history.accepted + [p]);
      result := Ok;
    }

    method HandleUnsignedProposal(now: nat, p: Option<Proposal>) returns (result: Result)
      modifies this
      ensures (Snapshot(), result) == HandleUnsigned(cfg, old(Snapshot()), now, p)
    {
      if p.None? {
        return InvalidProposal;
      }
      result := StoreUnsignedProposal(now, p.value);
    }

    /** `order` is the iteration order over the staging map. */
    method OnIdleCreateProposalBatches(now: nat, order: seq<Chain>, weight: Weight) returns (remaining: Weight)
      requires Enumerates(order, unsignedProposals.Keys)
      modifies this
      ensures (Snapshot(), remaining) == CreateBatches(cfg, old(Snapshot()), now, order, weight)
    {
      var collected := unsignedProposals;
      assert forall c :: c in collected <==> c in order by {
        assert forall c :: c in order <==> c in Elements(order);
      }
      remaining := weight.Minus(cfg.readCost * |order|);
      var i := 0;
      while i < |order|
        invariant 0 <= i <= |order|
        invariant forall j | i <= j < |order| ::
                    order[j] in unsignedProposals && unsignedProposals[order[j]] == collected[order[j]]
        invariant CreateFrom(cfg, Snapshot(), now, order[i..], remaining)
               == CreateBatches(cfg, old(Snapshot()), now, order, weight)
      {
        assert order[i..][1..] == order[i + 1..];
        var c := order[i];
        remaining := remaining.Minus(CreateCost(cfg));
        if remaining.IsZero() {
          return;
        }
        var ok := CreateBatchAndAddToStorage(now, c, collected[c]);
        if !ok {
          return;
        }
        unsignedProposals := unsignedProposals - {c};
        i := i + 1;
      }
    }

    /** `order` is the iteration order over the queue. */
    method OnIdleRemoveExpiredBatches(now: nat, order: seq<Key>, weight: Weight) returns (remaining: Weight)
      requires Enumerates(order, unsignedProposalQueue.Keys)
      modifies this`unsignedProposalQueue, this`history
      ensures (Snapshot(), remaining) == RemoveExpired(cfg, old(Snapshot()), now, order, weight)
    {
      if weight.IsZero() {
        return weight;
      }
      var collected := unsignedProposalQueue;
      assert forall k :: k in collected <==> k in order by {
        assert forall k :: k in order <==> k in Elements(order);
      }
      remaining := weight.Minus(cfg.readCost * |order|);
      var i := 0;
      while i < |order|
        invariant 0 <= i <= |order|
        invariant forall j | i <= j < |order| ::
                    order[j] in unsignedProposalQueue && unsignedProposalQueue[order[j]] == collected[order[j]]
        invariant ExpireFrom(cfg, Snapshot(), now, order[i..], remaining)
               == RemoveExpired(cfg, old(Snapshot()), now, order, weight)
      {
        assert order[i..][1..] == order[i + 1..];
        var k := order[i];
        if Expired(cfg, now, collected[k]) {
          remaining := remaining.Minus(cfg.writeCost);
          if remaining.IsZero() {
            return;
          }
          unsignedProposalQueue := unsignedProposalQueue - {k};
          history := history.(removed := history.removed + {k.id});
        }
        i := i + 1;
      }
    }

    /** On even blocks the staged proposals are batched, then expired batches go with
        the weight that is left; `keys` is the iteration order over the queue. */
    method OnIdle(now: nat, order: seq<Chain>, weight: Weight) returns (remaining: Weight, keys: seq<Key>)
      requires Enumerates(order, unsignedProposals.Keys)
      modifies this
      ensures now % 2 != 0 ==> Snapshot() == old(Snapshot()) && remaining == weight
      ensures now % 2 == 0 ==>
                var (batched, left) := CreateBatches(cfg, old(Snapshot()), now, order, weight);
                && Enumerates(keys, batched.queue.Keys)
                && (Snapshot(), remaining) == RemoveExpired(cfg, batched, now, keys, left)
    {
      remaining, keys := weight, [];
      if now % 2 != 0 {
        return;
      }
      remaining := OnIdleCreateProposalBatches(now, order, weight);
      keys := HashOrder(unsignedProposalQueue.Keys);
      remaining := OnIdleRemoveExpiredBatches(now, keys, remaining);
    }

    /** One pass over the queue, for one refresh of the signed batch. */
    method RemoveRefreshBatches(c: Chain)
      modifies this`unsignedProposalQueue, this`history
      ensures Snapshot() == Purge(old(Snapshot()), c)
    {
      var ids := CollectRefreshIds(unsignedProposalQueue);
      ghost var s := Snapshot();
      for i := 0 to |ids|
        invariant history == s.history
        invariant unsignedProposalQueue == s.queue - GoneBefore(s.queue, c, ids, i)
      {
        unsignedProposalQueue := unsignedProposalQueue - {Key(c, ids[i])};
      }
      assert GoneBefore(s.queue, c, ids, |ids|) == Purged(s.queue, c) by {
        assert ids[..|ids|] == ids;
        assert forall x :: x in ids <==> x in Elements(ids);
      }
      assert unsignedProposalQueue == s.queue - Purged(s.queue, c);
      history := history.(removed := history.removed + KeyIds(Purged(s.queue, c)));
    }

    method HandleSignedProposalBatch(b: SignedBatch) returns (result: Result)
      modifies this
      ensures (Snapshot(), result) == HandleSigned(old(Snapshot()), b)
    {
      if b.proposals == [] {
        return EmptyBatch;
      }
      if !b.decodes {
        return InvalidProposal;
      }
      var k := Key(b.proposals[0].chain, b.id);
      if k !in unsignedProposalQueue {
        return ProposalDoesNotExist;
      }
      if !b.authentic {
        return SignatureInvalid;
      }
      if k in signedProposals {
        return CannotOverwrite;
      }
      signedProposals := signedProposals[k := b];
      unsignedProposalQueue := unsignedProposalQueue - {k};
      ghost var s := Snapshot();
      for i := 0 to |b.proposals|
        invariant Snapshot() == if HoldsRefresh(b.proposals[..i]) then Purge(s, k.chain) else s
      {
        if b.proposals[i].refresh {
          RemoveRefreshBatches(k.chain);
          PurgeIdempotent(s, k.chain);
        }
        RefreshPrefix(b.proposals, i);
      }
      assert b.proposals[..|b.proposals|] == b.proposals;
      result := Ok;
    }

    /** A failing call leaves the storage as it found it. */
    method SubmitSignedProposals(batches: seq<SignedBatch>) returns (result: Result)
      modifies this
      ensures (Snapshot(), result) == SubmitSigned(cfg, old(Snapshot()), batches)
    {
      if |batches| > cfg.maxPerBatch {
        return LengthOverflow;
      }
      var queue, signed := unsignedProposalQueue, signedProposals;
      ghost var past := history;
      var i := 0;
      while i < |batches|
        invariant 0 <= i <= |batches|
        invariant HandleEach(Snapshot(), batches[i..]) == HandleEach(old(Snapshot()), batches)
        invariant unsignedProposals == old(unsignedProposals) && nextBatchId == old(nextBatchId)
      {
        assert batches[i..][1..] == batches[i + 1..];
        if batches[i].authentic {
          result := HandleSignedProposalBatch(batches[i]);
          if result != Ok {
            unsignedProposalQueue, signedProposals, history := queue, signed, past;
            return;
          }
        }
        i := i + 1;
      }
      result := Ok;
    }

    method ForceRemoveUnsignedProposalBatch(k: Key) returns (result: Result)
      modifies this`unsignedProposalQueue, this`history
      ensures (Snapshot(), result) == ForceRemove(old(Snapshot()), k)
    {
      if k !in unsignedProposalQueue {
        return BatchNotFound;
      }
      unsignedProposalQueue := unsignedProposalQueue - {k};
      history := history.(removed := history.removed + {k.id});
      result := Ok;
    }
  }

  /** Queue keys taken out by the first `n` removals of a pass. */
  ghost function GoneBefore(queue: map<Key, Batch>, c: Chain, ids: seq<nat>, n: nat): set<Key>
    requires n <= |ids|
  {
    set k | k in queue && k.chain == c && k.id in ids[..n]
  }
}
