/** What the proposal handler promises in every reachable state, and exactly when. */
module ProposalLaws {
  import opened Orders
  import opened ProposalSpec
  import opened ProposalRuns

  // ---- Conservation ---------------------------------------------------------------

  /** Every run from genesis: per chain, batches in order of id followed by staging
      are the accepted proposals in order; batches are non-empty, bounded and of one
      chain; ids are unique; each batch is queued, signed or removed, never two. */
  lemma RunConserves(cfg: Config, steps: seq<Step>, s: State)
    requires cfg.maxPerBatch >= 1 && Run(cfg, Empty, steps, s)
    ensures Conserved(s) && Shaped(cfg, s) && Counted(s) && Placed(s)
  {
    forall c
      ensures Select(Empty.history.accepted, c) == Contents(Empty.history.created, c) + Staged(Empty.staging, c)
    {
    }
    RunKeeps(cfg, Empty, steps, s);
  }

  /** A submission that decodes is refused only when its chain's list is full and
      the batch ids have run out; otherwise it is the one proposal accepted. */
  lemma SubmitOutcome(cfg: Config, steps: seq<Step>, s: State, now: nat, p: Proposal)
    requires cfg.maxPerBatch >= 1 && Run(cfg, Empty, steps, s)
    ensures var (s', result) := HandleUnsigned(cfg, s, now, Some(p));
            if |Staged(s.staging, p.chain)| == cfg.maxPerBatch && s.next >= cfg.maxBatchId
            then result == ArithmeticOverflow && s' == s
            else result == Ok && s'.history.accepted == s.history.accepted + [p]
  {
    RunConserves(cfg, steps, s);
  }

  /** What expiry relies on: every run has only non-empty batches exactly when a batch
      has room for a proposal (or no batch can be made at all). Otherwise a refresh
      that finds no room leaves an empty batch behind. */
  ghost predicate NeverEmpty(cfg: Config) {
    forall steps, s | Run(cfg, Empty, steps, s) :: forall k | k in s.queue :: s.queue[k].proposals != []
  }

  lemma NeverEmptyExactly(cfg: Config)
    ensures NeverEmpty(cfg) <==> cfg.maxPerBatch >= 1 || cfg.maxBatchId == 0
  {
    if cfg.maxPerBatch >= 1 {
      forall steps, s | Run(cfg, Empty, steps, s) ensures forall k | k in s.queue :: s.queue[k].proposals != [] {
        RunConserves(cfg, steps, s);
      }
    } else if cfg.maxBatchId == 0 {
      forall steps, s | Run(cfg, Empty, steps, s) ensures s.queue == map[] {
        NoBatches(cfg, Empty, steps, s);
      }
    } else {
      var p := Proposal(0, true, []);
      var step := Submit(0, Some(p));
      var s := Next(cfg, Empty, step);
      assert [step][1..] == [];
      assert Run(cfg, s, [], s);
      assert Run(cfg, Empty, [step], s);
      assert s.queue[Key(0, 0)].proposals == [];
    }
  }

  lemma {:induction false} NoBatches(cfg: Config, s: State, steps: seq<Step>, s': State)
    requires cfg.maxBatchId == 0 && s.queue == map[] && Run(cfg, s, steps, s')
    ensures s'.queue == map[]
    decreases |steps|
  {
    if steps != [] {
      NoBatchStep(cfg, s, steps[0]);
      NoBatches(cfg, Next(cfg, s, steps[0]), steps[1..], s');
    }
  }

  lemma NoBatchStep(cfg: Config, s: State, step: Step)
    requires cfg.maxBatchId == 0 && s.queue == map[] && Admissible(s, step)
    ensures Next(cfg, s, step).queue == map[]
  {
    match step
    case Sign(bs) => NoBatchEach(s, bs);
    case Expire(now, keys, w) => NoBatchExpire(cfg, s, now, keys, w.Minus(cfg.readCost * |keys|));
    case _ =>
  }

  lemma {:induction false} NoBatchExpire(cfg: Config, s: State, now: nat, order: seq<Key>, w: Weight)
    requires s.queue == map[]
    ensures ExpireFrom(cfg, s, now, order, w).0 == s
    decreases |order|
  {
    if order != [] {
      NoBatchExpire(cfg, s, now, order[1..], w);
    }
  }

  lemma {:induction false} NoBatchEach(s: State, bs: seq<SignedBatch>)
    requires s.queue == map[]
    ensures HandleEach(s, bs).0.queue == map[]
    decreases |bs|
  {
    if bs != [] {
      NoBatchEach(HandleSigned(s, bs[0]).0, bs[1..]);
    }
  }

  // ---- Signed batches -------------------------------------------------------------

  /** The guard against overwriting a signed batch never fires. */
  lemma NeverOverwrites(cfg: Config, steps: seq<Step>, s: State, b: SignedBatch)
    requires cfg.maxPerBatch >= 1 && Run(cfg, Empty, steps, s)
    ensures HandleSigned(s, b).1 != CannotOverwrite
    ensures HandleSigned(s, b).1 == Ok <==>
              b.proposals != [] && b.decodes && b.authentic && Key(b.proposals[0].chain, b.id) in s.queue
  {
    RunConserves(cfg, steps, s);
    if b.proposals != [] && Key(b.proposals[0].chain, b.id) in s.queue {
      assert InOnePlace(s, b.id);
    }
  }

  /** Signing a refresh on a chain removes exactly that chain's batches with a
      refresh, although the scan collects ids over all chains. */
  lemma PurgeExactly(cfg: Config, steps: seq<Step>, s: State, b: SignedBatch, k: Key)
    requires cfg.maxPerBatch >= 1 && Run(cfg, Empty, steps, s)
    requires HandleSigned(s, b).1 == Ok && HoldsRefresh(b.proposals)
    ensures var c := b.proposals[0].chain;
            k in HandleSigned(s, b).0.queue <==>
            k in s.queue && k != Key(c, b.id) && !(k.chain == c && HoldsRefresh(s.queue[k].proposals))
  {
    RunConserves(cfg, steps, s);
    var c := b.proposals[0].chain;
    var s1 := Seal(s, Key(c, b.id), b);
    if k in s1.queue && k.chain == c && k.id in RefreshIds(s1.queue) {
      var j :| j in s1.queue && HoldsRefresh(s1.queue[j].proposals) && j.id == k.id;
      assert s.history.created[k.id] == Entry(j.chain, s.queue[j]) == Entry(k.chain, s.queue[k]);
    }
  }

  ghost predicate NoRefreshQueued(s: State) {
    forall k | k in s.queue :: !HoldsRefresh(s.queue[k].proposals)
  }

  /** Only one rotation stays queued after a refresh is signed exactly when every
      queued refresh was on the chain of the signed batch. */
  lemma OneRotationExactly(cfg: Config, steps: seq<Step>, s: State, b: SignedBatch)
    requires cfg.maxPerBatch >= 1 && Run(cfg, Empty, steps, s)
    requires HandleSigned(s, b).1 == Ok && HoldsRefresh(b.proposals)
    ensures NoRefreshQueued(HandleSigned(s, b).0) <==>
              forall k | k in s.queue && HoldsRefresh(s.queue[k].proposals) :: k.chain == b.proposals[0].chain
  {
    var s' := HandleSigned(s, b).0;
    forall k ensures k in s'.queue <==> k in s.queue && k != Key(b.proposals[0].chain, b.id)
                                        && !(k.chain == b.proposals[0].chain && HoldsRefresh(s.queue[k].proposals)) {
      PurgeExactly(cfg, steps, s, b, k);
    }
    assert forall k | k in s'.queue :: s'.queue[k] == s.queue[k];
  }

  // ---- Idle work ------------------------------------------------------------------

  /** Batching gets through the whole order exactly when ids last and the weight does
      not reach zero, which it cannot while any proof size is left. */
  lemma {:induction false} CreateDrains(cfg: Config, s: State, now: nat, order: seq<Chain>, w: Weight)
    requires NoDuplicates(order) && Elements(order) <= s.staging.Keys
    ensures (forall c | c in order :: c !in CreateFrom(cfg, s, now, order, w).0.staging) <==>
              order == []
              || (s.next + |order| <= cfg.maxBatchId && (w.proofSize > 0 || w.refTime > |order| * CreateCost(cfg)))
    ensures CreateFrom(cfg, s, now, order, w).0.staging.Keys <= s.staging.Keys
    decreases |order|
  {
    if order != [] {
      var cost, w1 := CreateCost(cfg), w.Minus(CreateCost(cfg));
      assert order[0] in Elements(order);
      assert |order| * cost == cost + (|order| - 1) * cost;
      if !w1.IsZero() && s.next < cfg.maxBatchId {
        var s1 := Enqueue(s, now, order[0]);
        CreateDrains(cfg, s1, now, order[1..], w1);
        DrainStep(cfg, s, now, order, w);
      } else {
        NonNegative(|order| - 1, cost);
      }
    }
  }

  lemma DrainStep(cfg: Config, s: State, now: nat, order: seq<Chain>, w: Weight)
    requires order != [] && NoDuplicates(order) && order[0] in s.staging
    requires !w.Minus(CreateCost(cfg)).IsZero() && s.next < cfg.maxBatchId
    requires CreateFrom(cfg, s, now, order, w).0.staging.Keys <= s.staging.Keys - {order[0]}
    ensures (forall c | c in order :: c !in CreateFrom(cfg, s, now, order, w).0.staging) <==>
              forall c | c in order[1..] :: c !in CreateFrom(cfg, s, now, order, w).0.staging
  {
    assert order == [order[0]] + order[1..];
  }

  /** Idle batching empties the staging area exactly when ids last and, unless some
      proof size is left, reference time outlasts the charges. */
  lemma IdleDrainsExactly(cfg: Config, s: State, now: nat, order: seq<Chain>, w: Weight)
    requires Enumerates(order, s.staging.Keys)
    ensures CreateBatches(cfg, s, now, order, w).0.staging == map[] <==>
              order == []
              || (&& s.next + |order| <= cfg.maxBatchId
                  && (w.proofSize > 0 || w.refTime > |order| * (2 * cfg.readCost + 3 * cfg.writeCost)))
  {
    var w1 := w.Minus(cfg.readCost * |order|);
    CreateDrains(cfg, s, now, order, w1);
    Charges(cfg, |order|, w);
    EmptiedExactly(s.staging, CreateBatches(cfg, s, now, order, w).0.staging, order);
  }

  lemma Charges(cfg: Config, n: nat, w: Weight)
    ensures w.Minus(cfg.readCost * n).refTime > n * CreateCost(cfg) <==>
              w.refTime > n * (2 * cfg.readCost + 3 * cfg.writeCost)
  {
    assert n * (2 * cfg.readCost + 3 * cfg.writeCost) == cfg.readCost * n + n * CreateCost(cfg);
    NonNegative(n, CreateCost(cfg));
  }

  lemma EmptiedExactly<V>(was: map<Chain, V>, now: map<Chain, V>, order: seq<Chain>)
    requires Enumerates(order, was.Keys) && now.Keys <= was.Keys
    ensures now == map[] <==> forall c | c in order :: c !in now
  {
    if (forall c | c in order :: c !in now) {
      forall c ensures c !in now {
        assert c in Elements(order) <==> c in order;
      }
      assert now == map[];
    }
  }

  /** How many of the listed batches have expired. */
  function CountExpired(cfg: Config, queue: map<Key, Batch>, now: nat, order: seq<Key>): nat
    decreases |order|
  {
    if order == [] then 0
    else
      (if order[0] in queue && Expired(cfg, now, queue[order[0]]) then 1 else 0)
      + CountExpired(cfg, queue, now, order[1..])
  }

  lemma {:induction false} CountFrame(cfg: Config, queue: map<Key, Batch>, now: nat, order: seq<Key>, k: Key)
    requires k !in order
    ensures CountExpired(cfg, queue - {k}, now, order) == CountExpired(cfg, queue, now, order)
    decreases |order|
  {
    if order != [] {
      CountFrame(cfg, queue, now, order[1..], k);
    }
  }

  /** Whatever the weight, only expired batches of the list go. */
  lemma {:induction false} OnlyExpiredGo(cfg: Config, s: State, now: nat, order: seq<Key>, w: Weight, k: Key)
    ensures var q := ExpireFrom(cfg, s, now, order, w).0.queue;
            && (k in q ==> k in s.queue && q[k] == s.queue[k])
            && (k in s.queue && k !in q ==> k in order && Expired(cfg, now, s.queue[k]))
    decreases |order|
  {
    if order != [] {
      if order[0] !in s.queue || !Expired(cfg, now, s.queue[order[0]]) {
        OnlyExpiredGo(cfg, s, now, order[1..], w, k);
      } else if !w.Minus(cfg.writeCost).IsZero() {
        OnlyExpiredGo(cfg, Discard(s, order[0]), now, order[1..], w.Minus(cfg.writeCost), k);
      }
    }
  }

  /** None of the listed batches that have expired is left. */
  ghost predicate AllGone(cfg: Config, s: State, now: nat, order: seq<Key>, w: Weight) {
    var q := ExpireFrom(cfg, s, now, order, w).0.queue;
    forall k | k in order && k in s.queue && Expired(cfg, now, s.queue[k]) :: k !in q
  }

  /** The weight lasts for `n` removals. */
  predicate Lasts(cfg: Config, w: Weight, n: nat) {
    n == 0 || w.proofSize > 0 || w.refTime > n * cfg.writeCost
  }

  lemma LastsStep(cfg: Config, w: Weight, n: nat)
    requires n > 0
    ensures Lasts(cfg, w, n) <==> !w.Minus(cfg.writeCost).IsZero() && Lasts(cfg, w.Minus(cfg.writeCost), n - 1)
  {
    assert n * cfg.writeCost == cfg.writeCost + (n - 1) * cfg.writeCost;
    NonNegative(n - 1, cfg.writeCost);
  }

  lemma {:induction false} ExpireDrains(cfg: Config, s: State, now: nat, order: seq<Key>, w: Weight)
    requires NoDuplicates(order)
    ensures AllGone(cfg, s, now, order, w) <==> Lasts(cfg, w, CountExpired(cfg, s.queue, now, order))
    decreases |order|
  {
    if order != [] {
      var k, rest := order[0], order[1..];
      assert order == [k] + rest;
      if k !in s.queue || !Expired(cfg, now, s.queue[k]) {
        ExpireDrains(cfg, s, now, rest, w);
      } else {
        LastsStep(cfg, w, CountExpired(cfg, s.queue, now, order));
        if w.Minus(cfg.writeCost).IsZero() {
          assert k in order && k in ExpireFrom(cfg, s, now, order, w).0.queue;
        } else {
          ExpireDrains(cfg, Discard(s, k), now, rest, w.Minus(cfg.writeCost));
          CountFrame(cfg, s.queue, now, rest, k);
          OnlyExpiredGo(cfg, Discard(s, k), now, rest, w.Minus(cfg.writeCost), k);
        }
      }
    }
  }

  /** Idle removal takes out only expired batches, and all of them exactly when there
      are none or, unless some proof size is left, reference time outlasts the charges. */
  lemma IdleExpiresExactly(cfg: Config, s: State, now: nat, order: seq<Key>, w: Weight)
    requires Enumerates(order, s.queue.Keys)
    ensures var q := RemoveExpired(cfg, s, now, order, w).0.queue;
            && (forall k | k in s.queue && !Expired(cfg, now, s.queue[k]) :: k in q && q[k] == s.queue[k])
            && ((forall k :: k in q <==> k in s.queue && !Expired(cfg, now, s.queue[k])) <==>
                  var n := CountExpired(cfg, s.queue, now, order);
                  n == 0 || w.proofSize > 0 || w.refTime > cfg.readCost * |order| + n * cfg.writeCost)
  {
    var n, w1 := CountExpired(cfg, s.queue, now, order), w.Minus(cfg.readCost * |order|);
    var q := RemoveExpired(cfg, s, now, order, w).0.queue;
    assert forall k :: k in s.queue <==> k in order by {
      assert forall k :: k in Elements(order) <==> k in order;
    }
    forall k ensures (k in q ==> k in s.queue && q[k] == s.queue[k])
                     && (k in s.queue && k !in q ==> Expired(cfg, now, s.queue[k])) {
      OnlyExpiredGo(cfg, s, now, order, w1, k);
    }
    ChargedLasts(cfg, |order|, n, w);
    if w.IsZero() {
      NoneExpired(cfg, s.queue, now, order);
    } else {
      ExpireDrains(cfg, s, now, order, w1);
    }
  }

  lemma ChargedLasts(cfg: Config, listed: nat, n: nat, w: Weight)
    ensures Lasts(cfg, w.Minus(cfg.readCost * listed), n) <==>
              n == 0 || w.proofSize > 0 || w.refTime > cfg.readCost * listed + n * cfg.writeCost
  {
    NonNegative(n, cfg.writeCost);
    NonNegative(listed, cfg.readCost);
  }

  lemma {:induction false} NoneExpired(cfg: Config, queue: map<Key, Batch>, now: nat, order: seq<Key>)
    ensures CountExpired(cfg, queue, now, order) == 0
       <==> forall k | k in order && k in queue :: !Expired(cfg, now, queue[k])
    decreases |order|
  {
    if order != [] {
      NoneExpired(cfg, queue, now, order[1..]);
      assert order == [order[0]] + order[1..];
    }
  }

  // ---- Batches with a refresh -----------------------------------------------------

  /** Protected from expiry. */
  predicate StartsWithRefresh(b: Batch) {
    b.proposals != [] && b.proposals[0].refresh
  }

  lemma {:induction false} CreateLeavesQueue(cfg: Config, s: State, now: nat, order: seq<Chain>, w: Weight, k: Key)
    requires k in s.queue && k.id < s.next
    ensures var q := CreateFrom(cfg, s, now, order, w).0.queue; k in q && q[k] == s.queue[k]
    decreases |order|
  {
    if order != [] && !w.Minus(CreateCost(cfg)).IsZero() && s.next < cfg.maxBatchId {
      CreateLeavesQueue(cfg, Enqueue(s, now, order[0]), now, order[1..], w.Minus(CreateCost(cfg)), k);
    }
  }

  /** The keys that one signed batch takes out of the queue: its own, and with a
      refresh those of its chain. */
  predicate TakesOut(b: SignedBatch, k: Key) {
    && b.proposals != [] && b.proposals[0].chain == k.chain
    && (b.id == k.id || HoldsRefresh(b.proposals))
  }

  lemma {:induction false} SignLeaves(s: State, bs: seq<SignedBatch>, k: Key)
    requires k in s.queue && forall b | b in bs :: !TakesOut(b, k)
    ensures k in HandleEach(s, bs).0.queue && HandleEach(s, bs).0.queue[k] == s.queue[k]
    decreases |bs|
  {
    if bs != [] {
      assert bs[0] in bs && forall b | b in bs[1..] :: b in bs;
      if bs[0].authentic {
        SignLeaves(HandleSigned(s, bs[0]).0, bs[1..], k);
      } else {
        SignLeaves(s, bs[1..], k);
      }
    }
  }

  lemma QuietStepKeeps(cfg: Config, s: State, step: Step, k: Key)
    requires k in s.queue && k.id < s.next && StartsWithRefresh(s.queue[k]) && !step.Sign? && !step.Remove?
    ensures var q := Next(cfg, s, step).queue; k in q && q[k] == s.queue[k]
  {
    match step
    case Submit(_, _) =>
    case Idle(now, chains, w) =>
      CreateLeavesQueue(cfg, s, now, chains, w.Minus(cfg.readCost * |chains|), k);
    case Expire(now, keys, w) =>
      OnlyExpiredGo(cfg, s, now, keys, w.Minus(cfg.readCost * |keys|), k);
  }

  /** A batch that starts with a refresh leaves the queue only by the signature of its
      own id, by the purge of its chain, or by force. */
  lemma LeavesOnly(cfg: Config, s: State, step: Step, k: Key)
    requires Placed(s) && Counted(s) && k in s.queue && StartsWithRefresh(s.queue[k])
    requires k !in Next(cfg, s, step).queue
    ensures step == Remove(k) || (step.Sign? && exists b :: b in step.batches && TakesOut(b, k))
  {
    if step.Sign? {
      if forall b | b in step.batches :: !TakesOut(b, k) {
        SignLeaves(s, step.batches, k);
      }
    } else if !step.Remove? {
      QuietStepKeeps(cfg, s, step, k);
    }
  }

  /** Runs without signed batches and forced removals. */
  predicate QuietRun(steps: seq<Step>) {
    forall i | 0 <= i < |steps| :: !steps[i].Sign? && !steps[i].Remove?
  }

  lemma {:induction false} QuietKeeps(cfg: Config, s: State, steps: seq<Step>, s': State, k: Key)
    requires cfg.maxPerBatch >= 1 && Inv(cfg, s) && k in s.queue && StartsWithRefresh(s.queue[k])
    requires QuietRun(steps) && Run(cfg, s, steps, s')
    ensures k in s'.queue && s'.queue[k] == s.queue[k]
    decreases |steps|
  {
    if steps != [] {
      QuietStepKeeps(cfg, s, steps[0], k);
      StepKeeps(cfg, s, steps[0]);
      QuietKeeps(cfg, Next(cfg, s, steps[0]), steps[1..], s', k);
    }
  }

  /** In every reachable state: a queued batch with a refresh stays queued over every
      run without signatures and forced removals, exactly when the refresh is its first
      proposal; with a later one an expiry step removes it. */
  lemma ProtectedExactly(cfg: Config, steps: seq<Step>, s: State, k: Key)
    requires cfg.maxPerBatch >= 1 && Run(cfg, Empty, steps, s) && k in s.queue && HoldsRefresh(s.queue[k].proposals)
    ensures (forall more, s' | QuietRun(more) && Run(cfg, s, more, s') :: k in s'.queue)
       <==> StartsWithRefresh(s.queue[k])
  {
    RunConserves(cfg, steps, s);
    if StartsWithRefresh(s.queue[k]) {
      forall more, s' | QuietRun(more) && Run(cfg, s, more, s') ensures k in s'.queue {
        QuietKeeps(cfg, s, more, s', k);
      }
    } else {
      ExpiryTakes(cfg, s, k);
    }
  }

  lemma ExpiryTakes(cfg: Config, s: State, k: Key)
    requires k in s.queue && !StartsWithRefresh(s.queue[k])
    ensures exists more, s' :: QuietRun(more) && Run(cfg, s, more, s') && k !in s'.queue
  {
    var order := SomeOrder(s.queue.Keys);
    var now := s.queue[k].timestamp + cfg.expiry + 1;
    var step := Expire(now, order, Weight(0, 1));
    IdleExpiresExactly(cfg, s, now, order, Weight(0, 1));
    var s' := Next(cfg, s, step);
    assert Expired(cfg, now, s.queue[k]);
    assert [step][1..] == [];
    assert Run(cfg, s', [], s');
    assert QuietRun([step]) && Run(cfg, s, [step], s');
  }

  // ---- Runs that show it ------------------------------------------------------------

  lemma RunMore(cfg: Config, s: State, step: Step, rest: seq<Step>, s': State)
    requires Admissible(s, step) && Run(cfg, Next(cfg, s, step), rest, s')
    ensures Run(cfg, s, [step] + rest, s')
  {
    assert ([step] + rest)[1..] == rest;
  }

  /** Two submissions wait in the staging area. */
  lemma TwoStaged(cfg: Config, p: Proposal, q: Proposal)
    requires cfg.maxPerBatch >= 2 || (cfg.maxPerBatch == 1 && p.chain != q.chain)
    ensures var s := Next(cfg, Next(cfg, Empty, Submit(0, Some(p))), Submit(0, Some(q)));
            && s.queue == map[] && s.signed == map[] && s.next == 0
            && s.staging == if p.chain == q.chain then map[p.chain := [p, q]] else map[p.chain := [p], q.chain := [q]]
  {
    assert [] + [p] == [p] && [] + [q] == [q] && [p] + [q] == [p, q];
  }

  /** Refreshes on two chains, one of them signed: the other stays queued. */
  lemma RefreshLeftQueued(cfg: Config) returns (steps: seq<Step>, s: State)
    requires cfg.maxPerBatch >= 1 && cfg.maxBatchId >= 2
    ensures Run(cfg, Empty, steps, s) && Key(0, 0) in s.signed && !NoRefreshQueued(s)
  {
    var p, q := Proposal(0, true, []), Proposal(1, true, []);
    var a, b := Submit(0, Some(p)), Submit(0, Some(q));
    var s1 := Next(cfg, Empty, a);
    var s2 := Next(cfg, s1, b);
    TwoStaged(cfg, p, q);
    var s3 := TwoBatched(cfg, s2, p, q);
    var signed := SignedBatch(0, [p], true, true);
    var d := Sign([signed]);
    s := Next(cfg, s3, d);
    OneSigned(cfg, s3, p, q, signed);
    var c := Idle(0, [0, 1], Weight(0, 1));
    assert Run(cfg, s, [], s);
    RunMore(cfg, s3, d, [], s);
    RunMore(cfg, s2, c, [d] + [], s);
    RunMore(cfg, s1, b, [c] + ([d] + []), s);
    RunMore(cfg, Empty, a, [b] + ([c] + ([d] + [])), s);
    steps := [a] + ([b] + ([c] + ([d] + [])));
  }

  lemma TwoBatched(cfg: Config, s: State, p: Proposal, q: Proposal) returns (s': State)
    requires cfg.maxBatchId >= 2 && p.chain == 0 && q.chain == 1
    requires s.queue == map[] && s.signed == map[] && s.next == 0 && s.staging == map[0 := [p], 1 := [q]]
    ensures Admissible(s, Idle(0, [0, 1], Weight(0, 1))) && s' == Next(cfg, s, Idle(0, [0, 1], Weight(0, 1)))
    ensures s'.queue == map[Key(0, 0) := Batch([p], 0, 0), Key(1, 1) := Batch([q], 0, 1)] && s'.signed == map[]
  {
    var w := Weight(0, 1).Minus(cfg.readCost * 2);
    var s1 := Enqueue(s, 0, 0);
    s' := Enqueue(s1, 0, 1);
    assert Elements([0, 1]) == s.staging.Keys;
    assert [0, 1][1..] == [1] && [1][1..] == [];
    assert CreateFrom(cfg, s1, 0, [1], w) == (s', w);
    assert s1.queue == map[Key(0, 0) := Batch([p], 0, 0)];
    assert s1.staging == map[1 := [q]];
  }

  lemma OneSigned(cfg: Config, s: State, p: Proposal, q: Proposal, b: SignedBatch)
    requires cfg.maxPerBatch >= 1 && p.chain == 0 && q.refresh && b == SignedBatch(0, [p], true, true)
    requires s.queue == map[Key(0, 0) := Batch([p], 0, 0), Key(1, 1) := Batch([q], 0, 1)] && s.signed == map[]
    ensures var s' := Next(cfg, s, Sign([b])); Key(0, 0) in s'.signed && !NoRefreshQueued(s')
  {
    assert [b][1..] == [];
    assert HandleEach(HandleSigned(s, b).0, []) == (HandleSigned(s, b).0, Ok);
    assert !TakesOut(b, Key(1, 1));
    SignLeaves(s, [b], Key(1, 1));
    assert [q][0].refresh;
  }

  /** A refresh behind another proposal of its batch: it expires with the batch. */
  lemma LaterRefreshExpires(cfg: Config) returns (steps: seq<Step>, s: State)
    requires cfg.maxPerBatch >= 2 && cfg.maxBatchId >= 1
    ensures Run(cfg, Empty, steps, s) && s.queue == map[] && s.signed == map[] && s.staging == map[]
    ensures exists i :: 0 <= i < |s.history.accepted| && s.history.accepted[i].refresh
  {
    var p, q := Proposal(0, false, []), Proposal(0, true, []);
    var a, b := Submit(0, Some(p)), Submit(0, Some(q));
    var s1 := Next(cfg, Empty, a);
    var s2 := Next(cfg, s1, b);
    TwoStaged(cfg, p, q);
    assert s2.history.accepted == [p, q];
    assert s2.history.accepted[1].refresh;
    var c, d := Idle(0, [0], Weight(0, 1)), Expire(cfg.expiry + 1, [Key(0, 0)], Weight(0, 1));
    var s3;
    s3, s := BatchedAndExpired(cfg, s2, p, q);
    assert Run(cfg, s, [], s);
    RunMore(cfg, s3, d, [], s);
    RunMore(cfg, s2, c, [d] + [], s);
    RunMore(cfg, s1, b, [c] + ([d] + []), s);
    RunMore(cfg, Empty, a, [b] + ([c] + ([d] + [])), s);
    steps := [a] + ([b] + ([c] + ([d] + [])));
  }

  lemma BatchedAndExpired(cfg: Config, s: State, p: Proposal, q: Proposal) returns (s1: State, s2: State)
    requires cfg.maxBatchId >= 1 && !p.refresh
    requires s.queue == map[] && s.signed == map[] && s.next == 0 && s.staging == map[0 := [p, q]]
    ensures var c, d := Idle(0, [0], Weight(0, 1)), Expire(cfg.expiry + 1, [Key(0, 0)], Weight(0, 1));
            Admissible(s, c) && s1 == Next(cfg, s, c) && Admissible(s1, d) && s2 == Next(cfg, s1, d)
    ensures s2.queue == map[] && s2.signed == map[] && s2.staging == map[] && s2.history.accepted == s.history.accepted
  {
    s1 := Enqueue(s, 0, 0);
    assert Elements([0]) == s.staging.Keys && [0][1..] == [];
    assert s1.queue == map[Key(0, 0) := Batch([p, q], 0, 0)];
    assert Elements([Key(0, 0)]) == s1.queue.Keys && [Key(0, 0)][1..] == [];
    s2 := Discard(s1, Key(0, 0));
    assert Expired(cfg, cfg.expiry + 1, s1.queue[Key(0, 0)]);
  }
}
