/** Whole runs of the signing protocol: every run is finite, none gets stuck
    before every party is done, and all parties aggregate the same values. */
module FrostSigningRuns {
  import opened Orders
  import opened FrostMessages
  import opened FrostSigning
  import opened Workload

  /** The state after `steps`, or None when some step is not enabled. */
  function Run(cfg: Config, s: State, steps: seq<Step>): Option<State>
    decreases |steps|
  {
    if steps == [] then Some(s)
    else if Domains(cfg, s) && Enabled(cfg, s, steps[0]) then Run(cfg, Apply(cfg, s, steps[0]), steps[1..])
    else None
  }

  ghost predicate AllFinished(s: State) {
    forall p | p in s.local :: s.local[p].Finished?
  }

  /** No party can move. */
  ghost predicate Quiescent(cfg: Config, s: State)
    requires Domains(cfg, s)
  {
    forall step: Step :: !Enabled(cfg, s, step)
  }

  // ---- Progress -----------------------------------------------------------

  lemma AllStarted(cfg: Config, s: State)
    requires Inv(cfg, s) && forall x | x in s.local :: !s.local[x].Idle?
    ensures cfg.data.Keys <= Signers(s.log)
  {
    forall x | x in cfg.data ensures x in Signers(s.log) {
      assert GoodLocal(cfg, s, x);
    }
  }

  lemma AllPublished(cfg: Config, s: State)
    requires Inv(cfg, s) && forall x | x in s.local :: s.local[x].Aggregating? || s.local[x].Finished?
    ensures cfg.data.Keys <= Finalizers(s.log)
  {
    forall x | x in cfg.data ensures x in Finalizers(s.log) {
      assert GoodLocal(cfg, s, x);
    }
  }

  lemma CompleteSize<V>(cfg: Config, m: map<PartyId, V>, senders: set<PartyId>)
    requires WellFormed(cfg) && senders <= m.Keys <= cfg.data.Keys <= senders
    ensures |m| == |cfg.roster|
  {
    NoDuplicatesCardinality(cfg.roster);
    assert m.Keys == Elements(cfg.roster);
    assert |m.Keys| == |m|;
  }

  /** Once every party has started, a party short of commitments has mail. */
  lemma CollectorHasMail(cfg: Config, s: State, p: PartyId)
    requires ExactGroup(cfg) && Domains(cfg, s) && p in s.local && s.local[p].Collecting?
    requires GoodLocal(cfg, s, p) && cfg.data.Keys <= Signers(s.log)
    requires |s.local[p].commits| < cfg.threshold
    ensures s.cursor[p] < |s.log|
  {
    if s.cursor[p] == |s.log| {
      assert s.log[..s.cursor[p]] == s.log;
      assert GoodCommits(cfg, p, s.local[p].commits, Signers(s.log));
      CompleteSize(cfg, s.local[p].commits, Signers(s.log));
      assert false;
    }
  }

  /** Once every party has published, a party short of shares has mail. */
  lemma AggregatorHasMail(cfg: Config, s: State, p: PartyId)
    requires ExactGroup(cfg) && Domains(cfg, s) && p in s.local && s.local[p].Aggregating?
    requires GoodLocal(cfg, s, p) && cfg.data.Keys <= Finalizers(s.log)
    requires |s.local[p].shares| < cfg.threshold
    ensures s.cursor[p] < |s.log|
  {
    if s.cursor[p] == |s.log| {
      assert s.log[..s.cursor[p]] == s.log;
      assert GoodShares(cfg, p, s.local[p].shares, Finalizers(s.log));
      CompleteSize(cfg, s.local[p].shares, Finalizers(s.log));
      assert false;
    }
  }

  /** A full set of keys is enumerated by the roster. */
  lemma RosterEnumerates<V>(cfg: Config, m: map<PartyId, V>)
    requires ExactGroup(cfg) && m.Keys <= cfg.data.Keys && |m| >= cfg.threshold
    ensures Enumerates(cfg.roster, m.Keys)
  {
    NoDuplicatesCardinality(cfg.roster);
    assert |m.Keys| == |m|;
    SubsetSameSize(m.Keys, cfg.data.Keys);
  }

  lemma CollectorMoves(cfg: Config, s: State, p: PartyId) returns (step: Step)
    requires ExactGroup(cfg) && Inv(cfg, s) && p in s.local && s.local[p].Collecting?
    requires forall x | x in s.local :: !s.local[x].Idle?
    ensures Enabled(cfg, s, step)
  {
    if |s.local[p].commits| < cfg.threshold {
      AllStarted(cfg, s);
      CollectorHasMail(cfg, s, p);
      step := Read(p);
    } else {
      assert GoodLocal(cfg, s, p);
      RosterEnumerates(cfg, s.local[p].commits);
      step := Publish(p, HashOrders(cfg.roster, cfg.roster, cfg.roster));
    }
  }

  lemma AggregatorMoves(cfg: Config, s: State, p: PartyId) returns (step: Step)
    requires ExactGroup(cfg) && Inv(cfg, s) && p in s.local && s.local[p].Aggregating?
    requires forall x | x in s.local :: s.local[x].Aggregating? || s.local[x].Finished?
    ensures Enabled(cfg, s, step)
  {
    if |s.local[p].shares| < cfg.threshold {
      AllPublished(cfg, s);
      AggregatorHasMail(cfg, s, p);
      step := Read(p);
    } else {
      assert GoodLocal(cfg, s, p);
      RosterEnumerates(cfg, s.local[p].shares);
      step := Finish(p, cfg.roster);
    }
  }

  /** Deadlock freedom: the protocol stops only when every party is done. */
  lemma StuckOnlyWhenDone(cfg: Config, s: State)
    requires ExactGroup(cfg) && Inv(cfg, s)
    ensures Quiescent(cfg, s) <==> AllFinished(s)
  {
    if p :| p in s.local && s.local[p].Idle? {
      assert Enabled(cfg, s, Start(p));
    } else if p :| p in s.local && s.local[p].Collecting? {
      var step := CollectorMoves(cfg, s, p);
      assert Enabled(cfg, s, step);
    } else if p :| p in s.local && s.local[p].Aggregating? {
      var step := AggregatorMoves(cfg, s, p);
      assert Enabled(cfg, s, step);
    }
  }

  // ---- Termination --------------------------------------------------------

  function StagesLeft(l: Local): nat {
    match l case Idle => 3 case Collecting(_) => 2 case Aggregating(_, _) => 1 case Finished(_) => 0
  }

  function SendsLeft(l: Local): nat {
    match l case Idle => 2 case Collecting(_) => 1 case Aggregating(_, _) => 0 case Finished(_) => 0
  }

  function Loads(cfg: Config, s: State): map<PartyId, Load>
    requires Domains(cfg, s)
  {
    map p | p in s.local :: Load(StagesLeft(s.local[p]), SendsLeft(s.local[p]), s.cursor[p])
  }

  /** Moves the group can still make. */
  function Rank(cfg: Config, s: State): int
    requires Domains(cfg, s) && cfg.data.Keys == Elements(cfg.roster)
  {
    MovesLeft(Loads(cfg, s), |s.log|, cfg.roster)
  }

  /** A move changes one party, ... */
  lemma MoveShape(cfg: Config, s: State, step: Step)
    requires Domains(cfg, s) && Enabled(cfg, s, step) && Domains(cfg, Apply(cfg, s, step))
    ensures var s', p := Apply(cfg, s, step), step.p;
            p in s.local && Loads(cfg, s') == Loads(cfg, s)[p := Loads(cfg, s')[p]]
  {
  }

  /** ... and pays for a message or a read with it. */
  ghost predicate Pays(s: State, s': State, p: PartyId)
    requires p in s.local && p in s.cursor && p in s'.local && p in s'.cursor
  {
    && |s'.log| + SendsLeft(s'.local[p]) == |s.log| + SendsLeft(s.local[p])
    && StagesLeft(s'.local[p]) - s'.cursor[p] == StagesLeft(s.local[p]) - s.cursor[p] - 1
  }

  lemma StartPays(cfg: Config, s: State, p: PartyId)
    requires Domains(cfg, s) && Enabled(cfg, s, Start(p))
    ensures p in s.local && Pays(s, Apply(cfg, s, Start(p)), p)
  {
  }

  lemma ReadPays(cfg: Config, s: State, p: PartyId)
    requires Domains(cfg, s) && Enabled(cfg, s, Read(p))
    ensures p in s.local && Pays(s, Apply(cfg, s, Read(p)), p)
  {
  }

  lemma PublishPays(cfg: Config, s: State, p: PartyId, o: HashOrders)
    requires Domains(cfg, s) && Enabled(cfg, s, Publish(p, o))
    ensures p in s.local && Pays(s, Apply(cfg, s, Publish(p, o)), p)
  {
  }

  lemma FinishPays(cfg: Config, s: State, p: PartyId, o: seq<PartyId>)
    requires Domains(cfg, s) && Enabled(cfg, s, Finish(p, o))
    ensures p in s.local && Pays(s, Apply(cfg, s, Finish(p, o)), p)
  {
  }

  /** Every move uses up exactly one unit of the remaining work. */
  lemma StepRank(cfg: Config, s: State, step: Step)
    requires WellFormed(cfg) && Domains(cfg, s) && Enabled(cfg, s, step)
    ensures Domains(cfg, Apply(cfg, s, step))
    ensures Rank(cfg, Apply(cfg, s, step)) == Rank(cfg, s) - 1
  {
    ApplyDomains(cfg, s, step);
    MoveShape(cfg, s, step);
    match step {
      case Start(p) => StartPays(cfg, s, p);
      case Read(p) => ReadPays(cfg, s, p);
      case Publish(p, o) => PublishPays(cfg, s, p, o);
      case Finish(p, o) => FinishPays(cfg, s, p, o);
    }
    var s', p := Apply(cfg, s, step), step.p;
    assert p in Elements(cfg.roster);
    MovePays(Loads(cfg, s), p, Loads(cfg, s')[p], |s.log|, |s'.log|, cfg.roster);
  }

  lemma RankNonNegative(cfg: Config, s: State)
    requires WellFormed(cfg) && Domains(cfg, s)
    ensures Rank(cfg, s) >= 0
  {
    MovesLeftNonNegative(Loads(cfg, s), |s.log|, cfg.roster);
  }

  // ---- Main results -------------------------------------------------------

  lemma {:induction false} RunKeeps(cfg: Config, s: State, steps: seq<Step>)
    requires ExactGroup(cfg) && Inv(cfg, s) && Run(cfg, s, steps).Some?
    ensures Inv(cfg, Run(cfg, s, steps).value)
    decreases |steps|
  {
    if steps != [] {
      StepKeeps(cfg, s, steps[0]);
      RunKeeps(cfg, Apply(cfg, s, steps[0]), steps[1..]);
    }
  }

  lemma {:induction false} RunRank(cfg: Config, s: State, steps: seq<Step>)
    requires WellFormed(cfg) && Domains(cfg, s) && Run(cfg, s, steps).Some?
    ensures Domains(cfg, Run(cfg, s, steps).value)
    ensures Rank(cfg, Run(cfg, s, steps).value) == Rank(cfg, s) - |steps|
    decreases |steps|
  {
    if steps != [] {
      StepRank(cfg, s, steps[0]);
      RunRank(cfg, Apply(cfg, s, steps[0]), steps[1..]);
    }
  }

  /** Signing among exactly `threshold` parties over a totally ordered broadcast:
      every run is bounded, the only states where nobody can move are those where
      everybody is done, and every party that is done hands the same sorted ids,
      key ids, nonces and shares to the aggregator. */
  lemma SigningCompletesAndAgrees(cfg: Config, s: State, steps: seq<Step>)
    requires ExactGroup(cfg) && Init(cfg, s) && Run(cfg, s, steps).Some?
    ensures |steps| <= Rank(cfg, s)
    ensures var s' := Run(cfg, s, steps).value;
            && Domains(cfg, s')
            && (Quiescent(cfg, s') <==> AllFinished(s'))
            && forall p | p in s'.local && s'.local[p].Finished? ::
                 s'.local[p].output == AggregatorInput(CommonInput(cfg), CommonShares(cfg))
  {
    InitInv(cfg, s);
    RunKeeps(cfg, s, steps);
    RunRank(cfg, s, steps);
    var s' := Run(cfg, s, steps).value;
    RankNonNegative(cfg, s');
    StuckOnlyWhenDone(cfg, s');
    forall p | p in s'.local && s'.local[p].Finished?
      ensures s'.local[p].output == AggregatorInput(CommonInput(cfg), CommonShares(cfg))
    {
      assert GoodLocal(cfg, s', p);
    }
  }

  /** No run ever lets a party read a share while it still collects nonces. */
  lemma NoShareLost(cfg: Config, s: State, steps: seq<Step>, p: PartyId)
    requires ExactGroup(cfg) && Init(cfg, s) && Run(cfg, s, steps).Some?
    requires var s' := Run(cfg, s, steps).value;
             p in s'.local && s'.local[p].Collecting? && Domains(cfg, s') && Enabled(cfg, s', Read(p))
    ensures var s' := Run(cfg, s, steps).value; !s'.log[s'.cursor[p]].SignFinal?
  {
    InitInv(cfg, s);
    RunKeeps(cfg, s, steps);
    NoShareReadEarly(cfg, Run(cfg, s, steps).value, p);
  }
}
