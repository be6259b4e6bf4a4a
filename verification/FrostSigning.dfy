/** The two-round signing protocol of dkg-gadget/src/dkg_modules/wt_frost.rs:
    what one party computes from its inbox, and what a group of parties reading
    one totally ordered broadcast log reach together. */
module FrostSigning {
  import opened Orders
  import opened FrostMessages

  /** Input of the second round: what a party hands to its signing function and
      later to the aggregator. */
  datatype SigningInput = SigningInput(ids: seq<PartyId>, keyIds: seq<KeyId>, nonces: seq<Bytes>)

  /** Everything that goes to the signature aggregator besides the message. */
  datatype AggregatorInput = AggregatorInput(input: SigningInput, shares: seq<Bytes>)

  datatype Config = Config(
    roster: seq<PartyId>,
    data: map<PartyId, Commitment>,
    threshold: nat,
    share: (PartyId, SigningInput) -> Bytes)

  ghost predicate WellFormed(cfg: Config) {
    && Increasing(cfg.roster)
    && cfg.data.Keys == Elements(cfg.roster)
  }

  // ---- One party ----------------------------------------------------------

  /** The iteration orders of the hash maps a party sorts. */
  datatype HashOrders = HashOrders(ids: seq<PartyId>, keyIds: seq<PartyId>, nonces: seq<PartyId>)

  predicate ValidOrders(o: HashOrders, keys: set<PartyId>) {
    Enumerates(o.ids, keys) && Enumerates(o.keyIds, keys) && Enumerates(o.nonces, keys)
  }

  /** Key ids of the commitments in the order of `ids`, flattened. */
  function KeyIdsOf(commits: map<PartyId, Commitment>, ids: seq<PartyId>): seq<KeyId>
    requires forall i | i in ids :: i in commits
  {
    if ids == [] then [] else commits[ids[0]].keyIds + KeyIdsOf(commits, ids[1..])
  }

  /** Nonces of the commitments in the order of `ids`. */
  function NoncesOf(commits: map<PartyId, Commitment>, ids: seq<PartyId>): seq<Bytes>
    requires forall i | i in ids :: i in commits
  {
    if ids == [] then [] else [commits[ids[0]].nonce] + NoncesOf(commits, ids[1..])
  }

  /** Sorting the collected commitments, whatever order the maps yield them in. */
  function SortedInput(commits: map<PartyId, Commitment>, o: HashOrders): SigningInput
    requires ValidOrders(o, commits.Keys)
  {
    SortIdsIncreasing(o.keyIds);
    SortIdsIncreasing(o.nonces);
    SigningInput(SortIds(o.ids),
                 KeyIdsOf(commits, SortIds(o.keyIds)),
                 NoncesOf(commits, SortIds(o.nonces)))
  }

  /** One message taken in while waiting for commitments. */
  function AbsorbCommit(me: PartyId, commits: map<PartyId, Commitment>, m: Message): map<PartyId, Commitment> {
    if m.Sign? && m.from != me then commits[m.from := Commitment(m.keyIds, m.nonce)] else commits
  }

  /** One message taken in while waiting for signature shares. */
  function AbsorbShare(me: PartyId, shares: map<PartyId, Bytes>, m: Message): map<PartyId, Bytes> {
    if m.SignFinal? && m.from != me then shares[m.from := m.share] else shares
  }

  /** The canonical input of a group: everything in roster order. */
  function RosterInput(roster: seq<PartyId>, data: map<PartyId, Commitment>): SigningInput
    requires forall p | p in roster :: p in data
  {
    SigningInput(roster, KeyIdsOf(data, roster), NoncesOf(data, roster))
  }

  /** Sorting removes the dependence on hash order. */
  lemma SortedInputCanonical(commits: map<PartyId, Commitment>, o: HashOrders, roster: seq<PartyId>)
    requires Increasing(roster) && commits.Keys == Elements(roster)
    requires ValidOrders(o, commits.Keys)
    ensures SortedInput(commits, o) == RosterInput(roster, commits)
  {
    SortIdsCanonical(o.ids, roster);
    SortIdsCanonical(o.keyIds, roster);
    SortIdsCanonical(o.nonces, roster);
  }

  // ---- The group ----------------------------------------------------------

  datatype Local =
    | Idle
    | Collecting(commits: map<PartyId, Commitment>)
    | Aggregating(input: SigningInput, shares: map<PartyId, Bytes>)
    | Finished(output: AggregatorInput)

  datatype State = State(log: seq<Message>, cursor: map<PartyId, nat>, local: map<PartyId, Local>)

  /** Start broadcasts the commitment, Read takes one message from the log,
      Publish leaves the first loop and broadcasts the share, Finish leaves the
      second loop. */
  datatype Step =
    | Start(p: PartyId)
    | Read(p: PartyId)
    | Publish(p: PartyId, orders: HashOrders)
    | Finish(p: PartyId, order: seq<PartyId>)

  predicate Domains(cfg: Config, s: State) {
    && s.cursor.Keys == s.local.Keys == cfg.data.Keys
    && forall p | p in s.cursor :: s.cursor[p] <= |s.log|
  }

  /** Before the round starts the shared log holds only key generation traffic,
      of which each party may have read any part. */
  ghost predicate Init(cfg: Config, s: State) {
    && Domains(cfg, s)
    && (forall p | p in s.local :: s.local[p].Idle?)
    && (forall m | m in s.log :: m.DKG?)
  }

  predicate Enabled(cfg: Config, s: State, step: Step)
    requires Domains(cfg, s)
  {
    && step.p in s.local
    && match (step, s.local[step.p])
       case (Start(_), Idle) => true
       case (Read(p), Collecting(commits)) => |commits| < cfg.threshold && s.cursor[p] < |s.log|
       case (Read(p), Aggregating(_, shares)) => |shares| < cfg.threshold && s.cursor[p] < |s.log|
       case (Publish(_, o), Collecting(commits)) =>
         |commits| >= cfg.threshold && ValidOrders(o, commits.Keys)
       case (Finish(_, o), Aggregating(_, shares)) =>
         |shares| >= cfg.threshold && Enumerates(o, shares.Keys)
       case _ => false
  }

  function Apply(cfg: Config, s: State, step: Step): State
    requires Domains(cfg, s) && Enabled(cfg, s, step)
  {
    match (step, s.local[step.p])
    case (Start(p), Idle) =>
      var own := cfg.data[p];
      s.(log := s.log + [Sign(p, own.keyIds, own.nonce)],
         local := s.local[p := Collecting(map[p := own])])
    case (Read(p), Collecting(commits)) =>
      s.(cursor := s.cursor[p := s.cursor[p] + 1],
         local := s.local[p := Collecting(AbsorbCommit(p, commits, s.log[s.cursor[p]]))])
    case (Read(p), Aggregating(input, shares)) =>
      s.(cursor := s.cursor[p := s.cursor[p] + 1],
         local := s.local[p := Aggregating(input, AbsorbShare(p, shares, s.log[s.cursor[p]]))])
    case (Publish(p, o), Collecting(commits)) =>
      var input := SortedInput(commits, o);
      var share := cfg.share(p, input);
      s.(log := s.log + [SignFinal(p, share)],
         local := s.local[p := Aggregating(input, map[p := share])])
    case (Finish(p, o), Aggregating(input, shares)) =>
      SortIdsIncreasing(o);
      s.(local := s.local[p := Finished(AggregatorInput(input, Values(shares, SortIds(o))))])
  }

  lemma ApplyDomains(cfg: Config, s: State, step: Step)
    requires Domains(cfg, s) && Enabled(cfg, s, step)
    ensures Domains(cfg, Apply(cfg, s, step))
  {
  }

  // ---- The invariant ------------------------------------------------------

  function CommonInput(cfg: Config): SigningInput
    requires cfg.data.Keys == Elements(cfg.roster)
  {
    RosterInput(cfg.roster, cfg.data)
  }

  function CommonShares(cfg: Config): seq<Bytes>
    requires cfg.data.Keys == Elements(cfg.roster)
  {
    seq(|cfg.roster|, i requires 0 <= i < |cfg.roster| => cfg.share(cfg.roster[i], CommonInput(cfg)))
  }

  /** The message at position `q` is honest, and a share is only ever preceded by
      the commitments of the whole group. */
  ghost predicate GoodMessage(cfg: Config, log: seq<Message>, q: nat)
    requires q < |log| && WellFormed(cfg)
  {
    match log[q]
    case DKG(_, _, _, _) => true
    case Sign(p, keyIds, nonce) => p in cfg.data && cfg.data[p] == Commitment(keyIds, nonce)
    case SignFinal(p, share) =>
      && p in cfg.data
      && share == cfg.share(p, CommonInput(cfg))
      && cfg.data.Keys <= Signers(log[..q])
  }

  /** A party holds exactly the true commitments of itself and of `from`. */
  ghost predicate GoodCommits(cfg: Config, p: PartyId, commits: map<PartyId, Commitment>, from: set<PartyId>) {
    && commits.Keys == {p} + from
    && commits.Keys <= cfg.data.Keys
    && forall x | x in commits :: commits[x] == cfg.data[x]
  }

  /** A party holds exactly the true shares of itself and of `from`. */
  ghost predicate GoodShares(cfg: Config, p: PartyId, shares: map<PartyId, Bytes>, from: set<PartyId>)
    requires WellFormed(cfg)
  {
    && shares.Keys == {p} + from
    && shares.Keys <= cfg.data.Keys
    && forall x | x in shares :: shares[x] == cfg.share(x, CommonInput(cfg))
  }

  ghost predicate GoodLocal(cfg: Config, s: State, p: PartyId)
    requires WellFormed(cfg) && Domains(cfg, s) && p in s.local
  {
    var seen := s.log[..s.cursor[p]];
    match s.local[p]
    case Idle => Signers(seen) == {} && Finalizers(seen) == {}
    case Collecting(commits) =>
      && p in Signers(s.log)
      && GoodCommits(cfg, p, commits, Signers(seen))
      && Finalizers(seen) == {}
    case Aggregating(input, shares) =>
      && p in Signers(s.log) && p in Finalizers(s.log)
      && input == CommonInput(cfg)
      && GoodShares(cfg, p, shares, Finalizers(seen))
    case Finished(output) =>
      && p in Signers(s.log) && p in Finalizers(s.log)
      && output == AggregatorInput(CommonInput(cfg), CommonShares(cfg))
  }

  ghost predicate Inv(cfg: Config, s: State) {
    && WellFormed(cfg)
    && Domains(cfg, s)
    && (forall q | 0 <= q < |s.log| :: GoodMessage(cfg, s.log, q))
    && (forall p | p in s.local :: GoodLocal(cfg, s, p))
  }

  lemma InitInv(cfg: Config, s: State)
    requires WellFormed(cfg) && Init(cfg, s)
    ensures Inv(cfg, s)
  {
    forall p | p in s.local ensures GoodLocal(cfg, s, p) {
      var seen := s.log[..s.cursor[p]];
      forall x ensures x !in Signers(seen) && x !in Finalizers(seen) {
        SendersMembers(seen, x);
        assert forall m :: m in seen ==> m in s.log;
      }
    }
  }

  lemma GoodMessageFrame(cfg: Config, log: seq<Message>, m: Message, q: nat)
    requires WellFormed(cfg) && q < |log| && GoodMessage(cfg, log, q)
    ensures GoodMessage(cfg, log + [m], q)
  {
    assert (log + [m])[..q] == log[..q];
  }

  /** A party's knowledge survives other parties' moves. */
  lemma GoodLocalFrame(cfg: Config, s: State, s': State, p: PartyId)
    requires WellFormed(cfg) && Domains(cfg, s) && Domains(cfg, s')
    requires p in s.local && GoodLocal(cfg, s, p)
    requires s'.local[p] == s.local[p] && s'.cursor[p] == s.cursor[p]
    requires s'.log == s.log || exists m :: s'.log == s.log + [m]
    ensures GoodLocal(cfg, s', p)
  {
    assert s'.log[..s'.cursor[p]] == s.log[..s.cursor[p]];
    if s'.log != s.log {
      var m :| s'.log == s.log + [m];
      SendersAppend(s.log, m);
    }
  }

  /** Reading one message: what the party has seen grows by that message. */
  lemma SeenGrows(log: seq<Message>, k: nat)
    requires k < |log|
    ensures Signers(log[..k + 1]) == Signers(log[..k]) + (if log[k].Sign? then {log[k].from} else {})
    ensures Finalizers(log[..k + 1]) == Finalizers(log[..k]) + (if log[k].SignFinal? then {log[k].from} else {})
  {
    SendersAppend(log[..k], log[k]);
    assert log[..k + 1] == log[..k] + [log[k]];
  }

  /** Exactly `threshold` participants. */
  ghost predicate ExactGroup(cfg: Config) {
    WellFormed(cfg) && |cfg.roster| == cfg.threshold
  }

  /** A party that still waits for commitments never reads a signature share:
      the share would be lost and the second loop could wait for it forever. */
  lemma NoShareReadEarly(cfg: Config, s: State, p: PartyId)
    requires ExactGroup(cfg) && Inv(cfg, s)
    requires p in s.local && s.local[p].Collecting?
    requires Enabled(cfg, s, Read(p))
    ensures !s.log[s.cursor[p]].SignFinal?
  {
    var q := s.cursor[p];
    assert GoodLocal(cfg, s, p);
    assert GoodMessage(cfg, s.log, q);
    if s.log[q].SignFinal? {
      NoDuplicatesCardinality(cfg.roster);
      SubsetSizes(cfg.data.Keys, s.local[p].commits.Keys);
      assert false;
    }
  }

  /** A move of one party keeps the invariant once its own knowledge and the
      message it added are shown to be good. */
  lemma MoveKeeps(cfg: Config, s: State, s': State, p: PartyId)
    requires Inv(cfg, s) && Domains(cfg, s') && p in s.local
    requires forall x | x in s.local && x != p :: s'.local[x] == s.local[x] && s'.cursor[x] == s.cursor[x]
    requires s'.log == s.log || exists m :: s'.log == s.log + [m] && GoodMessage(cfg, s'.log, |s.log|)
    requires GoodLocal(cfg, s', p)
    ensures Inv(cfg, s')
  {
    forall q | 0 <= q < |s'.log| ensures GoodMessage(cfg, s'.log, q) {
      if s'.log != s.log && q < |s.log| {
        var m :| s'.log == s.log + [m] && GoodMessage(cfg, s'.log, |s.log|);
        GoodMessageFrame(cfg, s.log, m, q);
      }
    }
    forall x | x in s'.local ensures GoodLocal(cfg, s', x) {
      if x != p { GoodLocalFrame(cfg, s, s', x); }
    }
  }

  lemma StartKeeps(cfg: Config, s: State, p: PartyId)
    requires Inv(cfg, s) && Enabled(cfg, s, Start(p))
    ensures Inv(cfg, Apply(cfg, s, Start(p)))
  {
    ApplyDomains(cfg, s, Start(p));
    var s' := Apply(cfg, s, Start(p));
    var m := Sign(p, cfg.data[p].keyIds, cfg.data[p].nonce);
    SendersAppend(s.log, m);
    assert GoodLocal(cfg, s, p);
    assert s'.log[..s'.cursor[p]] == s.log[..s.cursor[p]];
    assert s'.log == s.log + [m] && GoodMessage(cfg, s'.log, |s.log|);
    MoveKeeps(cfg, s, s', p);
  }

  lemma AbsorbCommitGood(cfg: Config, p: PartyId, commits: map<PartyId, Commitment>, from: set<PartyId>, m: Message)
    requires GoodCommits(cfg, p, commits, from)
    requires m.Sign? ==> m.from in cfg.data && cfg.data[m.from] == Commitment(m.keyIds, m.nonce)
    ensures GoodCommits(cfg, p, AbsorbCommit(p, commits, m), from + (if m.Sign? then {m.from} else {}))
  {
  }

  lemma AbsorbShareGood(cfg: Config, p: PartyId, shares: map<PartyId, Bytes>, from: set<PartyId>, m: Message)
    requires WellFormed(cfg) && GoodShares(cfg, p, shares, from)
    requires m.SignFinal? ==> m.from in cfg.data && m.share == cfg.share(m.from, CommonInput(cfg))
    ensures GoodShares(cfg, p, AbsorbShare(p, shares, m), from + (if m.SignFinal? then {m.from} else {}))
  {
  }

  lemma ReadLocal(cfg: Config, s: State, p: PartyId)
    requires ExactGroup(cfg) && Inv(cfg, s) && Enabled(cfg, s, Read(p))
    ensures Domains(cfg, Apply(cfg, s, Read(p))) && GoodLocal(cfg, Apply(cfg, s, Read(p)), p)
  {
    ApplyDomains(cfg, s, Read(p));
    var q := s.cursor[p];
    SeenGrows(s.log, q);
    assert GoodMessage(cfg, s.log, q);
    assert GoodLocal(cfg, s, p);
    if s.local[p].Collecting? {
      NoShareReadEarly(cfg, s, p);
      AbsorbCommitGood(cfg, p, s.local[p].commits, Signers(s.log[..q]), s.log[q]);
    } else {
      AbsorbShareGood(cfg, p, s.local[p].shares, Finalizers(s.log[..q]), s.log[q]);
    }
  }

  lemma ReadKeeps(cfg: Config, s: State, p: PartyId)
    requires ExactGroup(cfg) && Inv(cfg, s) && Enabled(cfg, s, Read(p))
    ensures Inv(cfg, Apply(cfg, s, Read(p)))
  {
    ReadLocal(cfg, s, p);
    MoveKeeps(cfg, s, Apply(cfg, s, Read(p)), p);
  }

  /** A party leaves the first loop exactly with the commitments of the group. */
  lemma FullCommits(cfg: Config, p: PartyId, commits: map<PartyId, Commitment>, from: set<PartyId>, o: HashOrders)
    requires ExactGroup(cfg) && GoodCommits(cfg, p, commits, from) && |commits| >= cfg.threshold
    requires ValidOrders(o, commits.Keys)
    ensures SortedInput(commits, o) == CommonInput(cfg)
    ensures cfg.data.Keys == {p} + from
  {
    NoDuplicatesCardinality(cfg.roster);
    assert |commits.Keys| == |commits|;
    SubsetSameSize(commits.Keys, cfg.data.Keys);
    MapsEqual(commits, cfg.data);
    SortedInputCanonical(commits, o, cfg.roster);
  }

  lemma PublishLocal(cfg: Config, s: State, p: PartyId, o: HashOrders)
    requires ExactGroup(cfg) && Inv(cfg, s) && Enabled(cfg, s, Publish(p, o))
    ensures SortedInput(s.local[p].commits, o) == CommonInput(cfg)
    ensures cfg.data.Keys <= Signers(s.log)
  {
    assert GoodLocal(cfg, s, p);
    FullCommits(cfg, p, s.local[p].commits, Signers(s.log[..s.cursor[p]]), o);
    SendersPrefix(s.log, s.cursor[p]);
  }

  /** Broadcasting the share over the group's common input keeps the invariant. */
  lemma BroadcastShareKeeps(cfg: Config, s: State, p: PartyId)
    requires Inv(cfg, s) && p in s.local && s.local[p].Collecting?
    requires cfg.data.Keys <= Signers(s.log)
    ensures var share := cfg.share(p, CommonInput(cfg));
            Inv(cfg, s.(log := s.log + [SignFinal(p, share)],
                        local := s.local[p := Aggregating(CommonInput(cfg), map[p := share])]))
  {
    var share := cfg.share(p, CommonInput(cfg));
    var m := SignFinal(p, share);
    var s' := s.(log := s.log + [m], local := s.local[p := Aggregating(CommonInput(cfg), map[p := share])]);
    assert GoodLocal(cfg, s, p);
    SendersAppend(s.log, m);
    assert s'.log[..|s.log|] == s.log;
    assert s'.log == s.log + [m] && GoodMessage(cfg, s'.log, |s.log|);
    assert s'.log[..s'.cursor[p]] == s.log[..s.cursor[p]];
    MoveKeeps(cfg, s, s', p);
  }

  lemma PublishKeeps(cfg: Config, s: State, p: PartyId, o: HashOrders)
    requires ExactGroup(cfg) && Inv(cfg, s) && Enabled(cfg, s, Publish(p, o))
    ensures Inv(cfg, Apply(cfg, s, Publish(p, o)))
  {
    PublishLocal(cfg, s, p, o);
    BroadcastShareKeeps(cfg, s, p);
  }

  lemma RosterShares(cfg: Config, shares: map<PartyId, Bytes>)
    requires WellFormed(cfg) && shares.Keys == cfg.data.Keys
    requires forall x | x in shares :: shares[x] == cfg.share(x, CommonInput(cfg))
    ensures forall x | x in cfg.roster :: x in shares
    ensures Values(shares, cfg.roster) == CommonShares(cfg)
  {
    assert forall x | x in cfg.roster :: x in Elements(cfg.roster);
  }

  /** A party leaves the second loop exactly with the shares of the group. */
  lemma FullShares(cfg: Config, p: PartyId, shares: map<PartyId, Bytes>, from: set<PartyId>, o: seq<PartyId>)
    requires ExactGroup(cfg) && GoodShares(cfg, p, shares, from) && |shares| >= cfg.threshold
    requires Enumerates(o, shares.Keys)
    ensures Elements(SortIds(o)) == shares.Keys && Values(shares, SortIds(o)) == CommonShares(cfg)
  {
    NoDuplicatesCardinality(cfg.roster);
    assert |shares.Keys| == |shares|;
    SubsetSameSize(shares.Keys, cfg.data.Keys);
    SortIdsCanonical(o, cfg.roster);
    RosterShares(cfg, shares);
  }

  lemma FinishLocal(cfg: Config, s: State, p: PartyId, o: seq<PartyId>)
    requires ExactGroup(cfg) && Inv(cfg, s) && Enabled(cfg, s, Finish(p, o))
    ensures p in s.local && s.local[p].Aggregating?
    ensures Apply(cfg, s, Finish(p, o)) ==
            s.(local := s.local[p := Finished(AggregatorInput(s.local[p].input, CommonShares(cfg)))])
  {
    assert GoodLocal(cfg, s, p);
    FullShares(cfg, p, s.local[p].shares, Finalizers(s.log[..s.cursor[p]]), o);
  }

  /** Finishing with the group's shares keeps the invariant. */
  lemma LastSharesKeep(cfg: Config, s: State, p: PartyId)
    requires Inv(cfg, s) && p in s.local && s.local[p].Aggregating?
    ensures Inv(cfg, s.(local := s.local[p := Finished(AggregatorInput(s.local[p].input, CommonShares(cfg)))]))
  {
    var s' := s.(local := s.local[p := Finished(AggregatorInput(s.local[p].input, CommonShares(cfg)))]);
    assert GoodLocal(cfg, s, p);
    assert GoodLocal(cfg, s', p);
    MoveKeeps(cfg, s, s', p);
  }

  lemma FinishKeeps(cfg: Config, s: State, p: PartyId, o: seq<PartyId>)
    requires ExactGroup(cfg) && Inv(cfg, s) && Enabled(cfg, s, Finish(p, o))
    ensures Inv(cfg, Apply(cfg, s, Finish(p, o)))
  {
    FinishLocal(cfg, s, p, o);
    LastSharesKeep(cfg, s, p);
  }

  lemma StepKeeps(cfg: Config, s: State, step: Step)
    requires ExactGroup(cfg) && Inv(cfg, s) && Enabled(cfg, s, step)
    ensures Inv(cfg, Apply(cfg, s, step))
  {
    match step
    case Start(p) => StartKeeps(cfg, s, p);
    case Read(p) => ReadKeeps(cfg, s, p);
    case Publish(p, o) => PublishKeeps(cfg, s, p, o);
    case Finish(p, o) => FinishKeeps(cfg, s, p, o);
  }
}
