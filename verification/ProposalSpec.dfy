/** What the proposal handler's operations do to its storage
    (pallets/dkg-proposal-handler/src), together with the history the laws speak of. */
module ProposalSpec {
  import opened Orders

  type Chain = nat

  /** A proposal as its identifier decodes: the target chain, and whether it is a
      refresh (kind and key agree on that for every proposal that decodes). */
  datatype Proposal = Proposal(chain: Chain, refresh: bool, data: seq<nat>)

  datatype Batch = Batch(proposals: seq<Proposal>, timestamp: nat, id: nat)

  datatype Key = Key(chain: Chain, id: nat)

  /** A batch coming back signed; `decodes` speaks of its first proposal, and
      `authentic` is the verdict of the signature check. */
  datatype SignedBatch = SignedBatch(id: nat, proposals: seq<Proposal>, decodes: bool, authentic: bool)

  datatype Weight = Weight(refTime: nat, proofSize: nat) {
    predicate IsZero() { refTime == 0 && proofSize == 0 }

    /** Database weight has no proof-size part. */
    function Minus(cost: nat): Weight {
      Weight(if refTime < cost then 0 else refTime - cost, proofSize)
    }
  }

  datatype Config = Config(maxPerBatch: nat, maxBatchId: nat, expiry: nat, readCost: nat, writeCost: nat)

  datatype Result =
    | Ok | InvalidProposal | ArithmeticOverflow | QueueOverflow | EmptyBatch | ProposalDoesNotExist
    | SignatureInvalid | CannotOverwrite | LengthOverflow | BatchNotFound

  /** A batch as it was created, and for which chain. */
  datatype Entry = Entry(chain: Chain, batch: Batch)

  /** What happened so far: accepted submissions, created batches, and the ids of
      batches that left the queue unsigned. */
  datatype History = History(accepted: seq<Proposal>, created: seq<Entry>, removed: set<nat>)

  datatype State = State(staging: map<Chain, seq<Proposal>>, queue: map<Key, Batch>, signed: map<Key, SignedBatch>,
                         next: nat, history: History)

  const Empty: State := State(map[], map[], map[], 0, History([], [], {}))

  function Staged(staging: map<Chain, seq<Proposal>>, c: Chain): seq<Proposal> {
    if c in staging then staging[c] else []
  }

  // ---- The four changes every operation is made of ----------------------------

  function Accept(s: State, p: Proposal): State {
    s.(staging := s.staging[p.chain := Staged(s.staging, p.chain) + [p]],
       history := s.history.(accepted := s.history.accepted + [p]))
  }

  function Enqueue(s: State, now: nat, c: Chain): State {
    var batch := Batch(Staged(s.staging, c), now, s.next);
    s.(staging := s.staging - {c}, queue := s.queue[Key(c, s.next) := batch], next := s.next + 1,
       history := s.history.(created := s.history.created + [Entry(c, batch)]))
  }

  function Seal(s: State, k: Key, b: SignedBatch): State {
    s.(signed := s.signed[k := b], queue := s.queue - {k})
  }

  function Discard(s: State, k: Key): State {
    s.(queue := s.queue - {k}, history := s.history.(removed := s.history.removed + {k.id}))
  }

  // ---- Submission ---------------------------------------------------------------

  function StoreUnsigned(cfg: Config, s: State, now: nat, p: Proposal): (State, Result) {
    var staged := Staged(s.staging, p.chain);
    if |staged| == cfg.maxPerBatch then
      if s.next >= cfg.maxBatchId then (s, ArithmeticOverflow)
      else if cfg.maxPerBatch == 0 then (Enqueue(s, now, p.chain).(staging := s.staging), QueueOverflow)
      else (Accept(Enqueue(s, now, p.chain), p), Ok)
    else if |staged| > cfg.maxPerBatch then (s, QueueOverflow)
    else (Accept(s, p), Ok)
  }

  function HandleUnsigned(cfg: Config, s: State, now: nat, p: Option<Proposal>): (State, Result) {
    if p.None? then (s, InvalidProposal) else StoreUnsigned(cfg, s, now, p.value)
  }

  // ---- Idle work ------------------------------------------------------------------

  function CreateCost(cfg: Config): nat { cfg.readCost + 3 * cfg.writeCost }

  function CreateFrom(cfg: Config, s: State, now: nat, order: seq<Chain>, w: Weight): (State, Weight)
    decreases |order|
  {
    if order == [] then (s, w)
    else
      var w1 := w.Minus(CreateCost(cfg));
      if w1.IsZero() || s.next >= cfg.maxBatchId then (s, w1)
      else CreateFrom(cfg, Enqueue(s, now, order[0]), now, order[1..], w1)
  }

  /** Past its expiry, unless its first proposal is a refresh. */
  predicate Expired(cfg: Config, now: nat, b: Batch) {
    && !(|b.proposals| > 0 && b.proposals[0].refresh)
    && now > b.timestamp + cfg.expiry
  }

  function ExpireFrom(cfg: Config, s: State, now: nat, order: seq<Key>, w: Weight): (State, Weight)
    decreases |order|
  {
    if order == [] then (s, w)
    else if order[0] !in s.queue || !Expired(cfg, now, s.queue[order[0]]) then ExpireFrom(cfg, s, now, order[1..], w)
    else
      var w1 := w.Minus(cfg.writeCost);
      if w1.IsZero() then (s, w1) else ExpireFrom(cfg, Discard(s, order[0]), now, order[1..], w1)
  }

  function CreateBatches(cfg: Config, s: State, now: nat, order: seq<Chain>, w: Weight): (State, Weight) {
    CreateFrom(cfg, s, now, order, w.Minus(cfg.readCost * |order|))
  }

  function RemoveExpired(cfg: Config, s: State, now: nat, order: seq<Key>, w: Weight): (State, Weight) {
    if w.IsZero() then (s, w) else ExpireFrom(cfg, s, now, order, w.Minus(cfg.readCost * |order|))
  }

  // ---- Signed batches -------------------------------------------------------------

  predicate HoldsRefresh(ps: seq<Proposal>) {
    exists i :: 0 <= i < |ps| && ps[i].refresh
  }

  /** Ids of the queued batches, of any chain, that hold a refresh. */
  function RefreshIds(queue: map<Key, Batch>): set<nat> {
    set k | k in queue && HoldsRefresh(queue[k].proposals) :: k.id
  }

  function Purged(queue: map<Key, Batch>, c: Chain): set<Key> {
    set k | k in queue && k.chain == c && k.id in RefreshIds(queue)
  }

  function KeyIds(ks: set<Key>): set<nat> {
    set k | k in ks :: k.id
  }

  function Purge(s: State, c: Chain): State {
    s.(queue := s.queue - Purged(s.queue, c),
       history := s.history.(removed := s.history.removed + KeyIds(Purged(s.queue, c))))
  }

  function HandleSigned(s: State, b: SignedBatch): (State, Result) {
    if b.proposals == [] then (s, EmptyBatch)
    else if !b.decodes then (s, InvalidProposal)
    else
      var k := Key(b.proposals[0].chain, b.id);
      if k !in s.queue then (s, ProposalDoesNotExist)
      else if !b.authentic then (s, SignatureInvalid)
      else if k in s.signed then (s, CannotOverwrite)
      else (if HoldsRefresh(b.proposals) then Purge(Seal(s, k, b), k.chain) else Seal(s, k, b), Ok)
  }

  /** The batches of one call in turn; ones with a bad signature are passed over. */
  function HandleEach(s: State, bs: seq<SignedBatch>): (State, Result)
    decreases |bs|
  {
    if bs == [] then (s, Ok)
    else if !bs[0].authentic then HandleEach(s, bs[1..])
    else
      var (s1, result) := HandleSigned(s, bs[0]);
      if result != Ok then (s1, result) else HandleEach(s1, bs[1..])
  }

  /** A failing call is undone as a whole. */
  function SubmitSigned(cfg: Config, s: State, bs: seq<SignedBatch>): (State, Result) {
    if |bs| > cfg.maxPerBatch then (s, LengthOverflow)
    else
      var (s1, result) := HandleEach(s, bs);
      (if result == Ok then s1 else s, result)
  }

  function ForceRemove(s: State, k: Key): (State, Result) {
    if k !in s.queue then (s, BatchNotFound) else (Discard(s, k), Ok)
  }
}
