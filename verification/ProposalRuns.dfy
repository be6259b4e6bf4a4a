/** The laws of the proposal handler over every run: nothing accepted is lost or
    reordered, batch ids are unique, and each batch is in one place. */
module ProposalRuns {
  import opened Orders
  import opened ProposalSpec

  datatype Step =
    | Submit(now: nat, p: Option<Proposal>)
    | Idle(now: nat, chains: seq<Chain>, weight: Weight)
    | Expire(now: nat, keys: seq<Key>, weight: Weight)
    | Sign(batches: seq<SignedBatch>)
    | Remove(key: Key)

  /** The orders are iterations over the storage maps. */
  predicate Admissible(s: State, step: Step) {
    match step
    case Idle(_, chains, _) => Enumerates(chains, s.staging.Keys)
    case Expire(_, keys, _) => Enumerates(keys, s.queue.Keys)
    case _ => true
  }

  /** A failing submission is undone, as a dispatchable call; a refresh comes from a
      block hook instead, which undoes nothing. */
  function SubmitTo(cfg: Config, s: State, now: nat, p: Option<Proposal>): State {
    var (s1, result) := HandleUnsigned(cfg, s, now, p);
    if result == Ok || (p.Some? && p.value.refresh) then s1 else s
  }

  function Next(cfg: Config, s: State, step: Step): State {
    match step
    case Submit(now, p) => SubmitTo(cfg, s, now, p)
    case Idle(now, chains, w) => CreateBatches(cfg, s, now, chains, w).0
    case Expire(now, keys, w) => RemoveExpired(cfg, s, now, keys, w).0
    case Sign(bs) => SubmitSigned(cfg, s, bs).0
    case Remove(k) => ForceRemove(s, k).0
  }

  ghost predicate Run(cfg: Config, s: State, steps: seq<Step>, s': State)
    decreases |steps|
  {
    if steps == [] then s' == s
    else Admissible(s, steps[0]) && Run(cfg, Next(cfg, s, steps[0]), steps[1..], s')
  }

  // ---- Invariants -----------------------------------------------------------------

  /** The proposals of one chain, in order. */
  function Select(ps: seq<Proposal>, c: Chain): seq<Proposal>
    decreases |ps|
  {
    if ps == [] then []
    else
      var init, p := ps[..|ps| - 1], ps[|ps| - 1];
      if p.chain == c then Select(init, c) + [p] else Select(init, c)
  }

  /** The contents of a chain's batches, in order of creation. */
  function Contents(created: seq<Entry>, c: Chain): seq<Proposal>
    decreases |created|
  {
    if created == [] then []
    else
      var init, e := created[..|created| - 1], created[|created| - 1];
      if e.chain == c then Contents(init, c) + e.batch.proposals else Contents(init, c)
  }

  /** On each chain, batches and staging hold exactly what was accepted, in order. */
  ghost predicate Conserved(s: State) {
    forall c :: Select(s.history.accepted, c) == Contents(s.history.created, c) + Staged(s.staging, c)
  }

  /** A list that fits a batch of one chain. */
  predicate Fits(cfg: Config, c: Chain, ps: seq<Proposal>) {
    1 <= |ps| <= cfg.maxPerBatch && forall i | 0 <= i < |ps| :: ps[i].chain == c
  }

  ghost predicate Shaped(cfg: Config, s: State) {
    && (forall c | c in s.staging :: Fits(cfg, c, s.staging[c]))
    && (forall i | 0 <= i < |s.history.created| ::
          Fits(cfg, s.history.created[i].chain, s.history.created[i].batch.proposals))
  }

  /** Batch ids count the batches created, in order. */
  ghost predicate Counted(s: State) {
    && s.next == |s.history.created|
    && (forall i | 0 <= i < |s.history.created| :: s.history.created[i].batch.id == i)
  }

  function PlaceOf(s: State, i: nat): Key
    requires i < |s.history.created|
  {
    Key(s.history.created[i].chain, i)
  }

  /** A created batch is in exactly one place: queued, signed, or removed. */
  ghost predicate InOnePlace(s: State, i: nat)
    requires i < |s.history.created|
  {
    var k := PlaceOf(s, i);
    || (k in s.queue && k !in s.signed && i !in s.history.removed)
    || (k !in s.queue && k in s.signed && i !in s.history.removed)
    || (k !in s.queue && k !in s.signed && i in s.history.removed)
  }

  ghost predicate Placed(s: State) {
    && (forall k | k in s.queue ::
          k.id < |s.history.created| && s.history.created[k.id] == Entry(k.chain, s.queue[k]))
    && (forall k | k in s.signed :: k.id < |s.history.created| && s.history.created[k.id].chain == k.chain)
    && (forall i | i in s.history.removed :: i < |s.history.created|)
    && (forall i | 0 <= i < |s.history.created| :: InOnePlace(s, i))
  }

  ghost predicate Inv(cfg: Config, s: State) {
    Conserved(s) && Shaped(cfg, s) && Counted(s) && Placed(s)
  }

  // ---- The four changes keep them -----------------------------------------------

  lemma AcceptKeeps(cfg: Config, s: State, p: Proposal)
    requires Inv(cfg, s) && |Staged(s.staging, p.chain)| < cfg.maxPerBatch
    ensures Inv(cfg, Accept(s, p))
  {
    var s' := Accept(s, p);
    var accepted := s.history.accepted;
    assert (accepted + [p])[..|accepted|] == accepted;
    forall c ensures Select(s'.history.accepted, c) == Contents(s'.history.created, c) + Staged(s'.staging, c) {
      assert Select(accepted, c) == Contents(s.history.created, c) + Staged(s.staging, c);
    }
    forall i | 0 <= i < |s'.history.created| ensures InOnePlace(s', i) {
      assert InOnePlace(s, i);
    }
  }

  lemma EnqueueKeeps(cfg: Config, s: State, now: nat, c: Chain)
    requires Inv(cfg, s) && c in s.staging
    ensures Inv(cfg, Enqueue(s, now, c))
  {
    var s' := Enqueue(s, now, c);
    var created := s.history.created;
    assert s'.history.created[..|created|] == created;
    forall d ensures Select(s'.history.accepted, d) == Contents(s'.history.created, d) + Staged(s'.staging, d) {
      assert Select(s.history.accepted, d) == Contents(created, d) + Staged(s.staging, d);
    }
    EnqueuePlaced(s, now, c);
  }

  lemma EnqueuePlaced(s: State, now: nat, c: Chain)
    requires Counted(s) && Placed(s)
    ensures Placed(Enqueue(s, now, c))
  {
    var s' := Enqueue(s, now, c);
    forall i | 0 <= i < |s'.history.created| ensures InOnePlace(s', i) {
      if i < |s.history.created| {
        assert InOnePlace(s, i);
        assert PlaceOf(s', i) == PlaceOf(s, i);
      }
    }
  }

  lemma SealKeeps(cfg: Config, s: State, k: Key, b: SignedBatch)
    requires Inv(cfg, s) && k in s.queue
    ensures Inv(cfg, Seal(s, k, b))
  {
    var s' := Seal(s, k, b);
    assert InOnePlace(s, k.id);
    forall i | 0 <= i < |s'.history.created| ensures InOnePlace(s', i) {
      assert InOnePlace(s, i);
      assert PlaceOf(s', i) == PlaceOf(s, i);
    }
  }

  /** Taking queued batches out of the queue, whatever the reason. */
  lemma LeaveKeeps(cfg: Config, s: State, gone: set<Key>, s': State)
    requires Inv(cfg, s) && gone <= s.queue.Keys
    requires s' == s.(queue := s.queue - gone, history := s.history.(removed := s.history.removed + KeyIds(gone)))
    ensures Inv(cfg, s')
  {
    forall i | 0 <= i < |s'.history.created| ensures InOnePlace(s', i) {
      assert InOnePlace(s, i);
      assert PlaceOf(s', i) == PlaceOf(s, i);
      if k :| k in gone && k.id == i {
        assert k == PlaceOf(s, i);
      }
    }
    forall c ensures Select(s'.history.accepted, c) == Contents(s'.history.created, c) + Staged(s'.staging, c) {
      assert Select(s.history.accepted, c) == Contents(s.history.created, c) + Staged(s.staging, c);
    }
  }

  lemma DiscardKeeps(cfg: Config, s: State, k: Key)
    requires Inv(cfg, s) && k in s.queue
    ensures Inv(cfg, Discard(s, k))
  {
    assert KeyIds({k}) == {k.id};
    LeaveKeeps(cfg, s, {k}, Discard(s, k));
  }

  // ---- The operations keep them ---------------------------------------------------

  lemma SubmitKeeps(cfg: Config, s: State, now: nat, p: Option<Proposal>)
    requires cfg.maxPerBatch >= 1 && Inv(cfg, s)
    ensures Inv(cfg, HandleUnsigned(cfg, s, now, p).0)
  {
    if p.Some? {
      var c := p.value.chain;
      var staged := Staged(s.staging, c);
      if |staged| == cfg.maxPerBatch && s.next < cfg.maxBatchId {
        EnqueueKeeps(cfg, s, now, c);
        AcceptKeeps(cfg, Enqueue(s, now, c), p.value);
      } else if |staged| < cfg.maxPerBatch {
        AcceptKeeps(cfg, s, p.value);
      }
    }
  }

  lemma {:induction false} CreateKeeps(cfg: Config, s: State, now: nat, order: seq<Chain>, w: Weight)
    requires Inv(cfg, s) && NoDuplicates(order) && Elements(order) <= s.staging.Keys
    ensures Inv(cfg, CreateFrom(cfg, s, now, order, w).0)
    decreases |order|
  {
    if order != [] {
      var w1 := w.Minus(CreateCost(cfg));
      if !w1.IsZero() && s.next < cfg.maxBatchId {
        assert order[0] in Elements(order);
        EnqueueKeeps(cfg, s, now, order[0]);
        CreateKeeps(cfg, Enqueue(s, now, order[0]), now, order[1..], w1);
      }
    }
  }

  lemma {:induction false} ExpireKeeps(cfg: Config, s: State, now: nat, order: seq<Key>, w: Weight)
    requires Inv(cfg, s)
    ensures Inv(cfg, ExpireFrom(cfg, s, now, order, w).0)
    decreases |order|
  {
    if order != [] {
      if order[0] !in s.queue || !Expired(cfg, now, s.queue[order[0]]) {
        ExpireKeeps(cfg, s, now, order[1..], w);
      } else if !w.Minus(cfg.writeCost).IsZero() {
        DiscardKeeps(cfg, s, order[0]);
        ExpireKeeps(cfg, Discard(s, order[0]), now, order[1..], w.Minus(cfg.writeCost));
      }
    }
  }

  lemma SignedKeeps(cfg: Config, s: State, b: SignedBatch)
    requires Inv(cfg, s)
    ensures Inv(cfg, HandleSigned(s, b).0)
  {
    if HandleSigned(s, b).1 == Ok {
      var k := Key(b.proposals[0].chain, b.id);
      SealKeeps(cfg, s, k, b);
      if HoldsRefresh(b.proposals) {
        var s1 := Seal(s, k, b);
        LeaveKeeps(cfg, s1, Purged(s1.queue, k.chain), Purge(s1, k.chain));
      }
    }
  }

  lemma {:induction false} EachKeeps(cfg: Config, s: State, bs: seq<SignedBatch>)
    requires Inv(cfg, s)
    ensures Inv(cfg, HandleEach(s, bs).0)
    decreases |bs|
  {
    if bs != [] {
      if !bs[0].authentic {
        EachKeeps(cfg, s, bs[1..]);
      } else {
        SignedKeeps(cfg, s, bs[0]);
        EachKeeps(cfg, HandleSigned(s, bs[0]).0, bs[1..]);
      }
    }
  }

  lemma StepKeeps(cfg: Config, s: State, step: Step)
    requires cfg.maxPerBatch >= 1 && Inv(cfg, s) && Admissible(s, step)
    ensures Inv(cfg, Next(cfg, s, step))
  {
    match step
    case Submit(now, p) => SubmitKeeps(cfg, s, now, p);
    case Idle(now, chains, w) => CreateKeeps(cfg, s, now, chains, w.Minus(cfg.readCost * |chains|));
    case Expire(now, keys, w) => ExpireKeeps(cfg, s, now, keys, w.Minus(cfg.readCost * |keys|));
    case Sign(bs) => EachKeeps(cfg, s, bs);
    case Remove(k) => if k in s.queue { DiscardKeeps(cfg, s, k); }
  }

  lemma {:induction false} RunKeeps(cfg: Config, s: State, steps: seq<Step>, s': State)
    requires cfg.maxPerBatch >= 1 && Inv(cfg, s) && Run(cfg, s, steps, s')
    ensures Inv(cfg, s')
    decreases |steps|
  {
    if steps != [] {
      StepKeeps(cfg, s, steps[0]);
      RunKeeps(cfg, Next(cfg, s, steps[0]), steps[1..], s');
    }
  }
}
