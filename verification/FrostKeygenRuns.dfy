/** Key generation over every run: it ends, everybody agrees, and each party computes
    what the code computes from its messages (dkg-gadget/src/dkg_modules/wt_frost.rs). */
module FrostKeygenRuns {
  import opened Orders
  import opened FrostMessages
  import opened FrostKeygen
  import opened Workload

  // ---- Termination --------------------------------------------------------------

  function StagesLeft(l: Local): nat {
    match l case Idle => 2 case Collecting(_) => 1 case Finished(_) => 0
  }

  function SendsLeft(l: Local): nat {
    match l case Idle => 1 case Collecting(_) => 0 case Finished(_) => 0
  }

  function Loads(cfg: Config, s: State): map<PartyId, Load>
    requires Domains(cfg, s)
  {
    map p | p in s.local :: Load(StagesLeft(s.local[p]), SendsLeft(s.local[p]), s.cursor[p])
  }

  /** Moves the group can still make. */
  function Rank(cfg: Config, s: State): int
    requires Domains(cfg, s) && cfg.deals.Keys == Elements(cfg.roster)
  {
    MovesLeft(Loads(cfg, s), |s.log|, cfg.roster)
  }

  /** A move changes one party and pays for it with a message or a read. */
  lemma MoveShape(cfg: Config, s: State, step: Step)
    requires Domains(cfg, s) && Enabled(cfg, s, step) && Domains(cfg, Apply(cfg, s, step))
    ensures var s', p := Apply(cfg, s, step), step.p;
            && p in s.local && Loads(cfg, s') == Loads(cfg, s)[p := Loads(cfg, s')[p]]
            && |s'.log| + SendsLeft(s'.local[p]) == |s.log| + SendsLeft(s.local[p])
            && StagesLeft(s'.local[p]) - s'.cursor[p] == StagesLeft(s.local[p]) - s.cursor[p] - 1
  {
  }

  /** Every move uses up exactly one unit of the remaining work. */
  lemma StepRank(cfg: Config, s: State, step: Step)
    requires WellFormed(cfg) && Domains(cfg, s) && Enabled(cfg, s, step)
    ensures Domains(cfg, Apply(cfg, s, step))
    ensures Rank(cfg, Apply(cfg, s, step)) == Rank(cfg, s) - 1
  {
    ApplyDomains(cfg, s, step);
    MoveShape(cfg, s, step);
    var s', p := Apply(cfg, s, step), step.p;
    assert p in Elements(cfg.roster);
    MovePays(Loads(cfg, s), p, Loads(cfg, s')[p], |s.log|, |s'.log|, cfg.roster);
  }

  lemma {:induction false} RunRank(cfg: Config, s: State, steps: seq<Step>)
    requires WellFormed(cfg) && Domains(cfg, s) && Run(cfg, s, steps).Some?
    ensures Domains(cfg, Run(cfg, s, steps).value)
    ensures Rank(cfg, Run(cfg, s, steps).value) == Rank(cfg, s) - |steps|
    decreases |steps|
  {
    if steps != [] {
      StepRank(cfg, s, steps[0]);
      RunRank(cfg, Apply(cfg, s, steps[0]), steps[1..]);
    }
  }

  // ---- Each party runs the code ---------------------------------------------------

  /** The deals a party ends up with from its present state and the messages to come. */
  function Outlook(me: PartyId, own: Deal, l: Local, inbox: seq<Message>, n: nat): Option<map<PartyId, Deal>> {
    match l
    case Idle => Gather(me, map[me := own], inbox, n)
    case Collecting(deals) => Gather(me, deals, inbox, n)
    case Finished(deals) => Some(deals)
  }

  function Prediction(cfg: Config, s: State, p: PartyId, log: seq<Message>): Option<map<PartyId, Deal>>
    requires Domains(cfg, s) && p in cfg.deals && s.log <= log
  {
    Outlook(p, cfg.deals[p], s.local[p], log[s.cursor[p]..], |cfg.roster|)
  }

  lemma StepPrediction(cfg: Config, s: State, step: Step, p: PartyId, log: seq<Message>)
    requires Domains(cfg, s) && Enabled(cfg, s, step) && p in cfg.deals && Apply(cfg, s, step).log <= log
    ensures Domains(cfg, Apply(cfg, s, step)) && s.log <= log
    ensures Prediction(cfg, Apply(cfg, s, step), p, log) == Prediction(cfg, s, p, log)
  {
    ApplyDomains(cfg, s, step);
    assert s.log <= Apply(cfg, s, step).log;
    if p == step.p && step.Read? {
      var inbox := log[s.cursor[p]..];
      assert inbox[0] == s.log[s.cursor[p]];
      assert inbox[1..] == log[s.cursor[p] + 1..];
    }
  }

  lemma {:induction false} RunPrediction(cfg: Config, s: State, steps: seq<Step>, p: PartyId, log: seq<Message>)
    requires Domains(cfg, s) && Run(cfg, s, steps).Some? && p in cfg.deals
    requires Run(cfg, s, steps).value.log <= log
    ensures Domains(cfg, Run(cfg, s, steps).value) && s.log <= log
    ensures Prediction(cfg, Run(cfg, s, steps).value, p, log) == Prediction(cfg, s, p, log)
    decreases |steps|
  {
    if steps != [] {
      ApplyDomains(cfg, s, steps[0]);
      RunPrediction(cfg, Apply(cfg, s, steps[0]), steps[1..], p, log);
      StepPrediction(cfg, s, steps[0], p, log);
    }
  }

  lemma FinishedGathers(cfg: Config, s: State, steps: seq<Step>, p: PartyId)
    requires Init(cfg, s) && Run(cfg, s, steps).Some? && p in cfg.deals
    ensures var s' := Run(cfg, s, steps).value;
            && Domains(cfg, s') && s.log <= s'.log
            && (s'.local[p].Finished? ==>
                  Gather(p, map[p := cfg.deals[p]], s'.log[s.cursor[p]..], |cfg.roster|) == Some(s'.local[p].deals))
  {
    RunPrediction(cfg, s, steps, p, Run(cfg, s, steps).value.log);
  }

  /** A party that finishes in a run of the group has the output that RunDkg computes
      from the messages it was sent. */
  lemma GroupRunsTheCode(cfg: Config, s: State, steps: seq<Step>, p: PartyId)
    requires WellFormed(cfg) && Init(cfg, s) && Run(cfg, s, steps).Some? && p in cfg.deals
    ensures var s', own := Run(cfg, s, steps).value, cfg.deals[p];
            && Domains(cfg, s') && s.log <= s'.log
            && (s'.local[p].Finished? ==>
                  && Covered(s'.local[p].deals, own.keyIds)
                  && ResultOf(Gather(p, map[p := own], s'.log[s.cursor[p]..], |cfg.roster|), own.keyIds)
                     == Done(OutputOf(s'.local[p].deals, own.keyIds)))
  {
    FinishedGathers(cfg, s, steps, p);
    FinishedDeals(cfg, s, steps, p);
  }

  lemma FinishedDeals(cfg: Config, s: State, steps: seq<Step>, p: PartyId)
    requires WellFormed(cfg) && Init(cfg, s) && Run(cfg, s, steps).Some? && p in cfg.deals
    ensures var s' := Run(cfg, s, steps).value;
            p in s'.local && (s'.local[p].Finished? ==> s'.local[p].deals == cfg.deals)
  {
    InitInv(cfg, s);
    RunKeeps(cfg, s, steps);
    assert GoodLocal(cfg, Run(cfg, s, steps).value, p);
  }

  // ---- Main result ----------------------------------------------------------------

  /** Key generation over a totally ordered broadcast: every run is bounded and stops
      only when all parties are done, and every party that is done computes its secret
      from the same commitment vector and from exactly the shares dealt to its keys. */
  lemma KeygenCompletesAndAgrees(cfg: Config, s: State, steps: seq<Step>)
    requires WellFormed(cfg) && Init(cfg, s) && Run(cfg, s, steps).Some?
    ensures |steps| <= Rank(cfg, s)
    ensures var s' := Run(cfg, s, steps).value;
            && Domains(cfg, s')
            && (Quiescent(cfg, s') <==> AllFinished(s'))
            && forall p | p in s'.local && s'.local[p].Finished? ::
                 && Covered(s'.local[p].deals, cfg.deals[p].keyIds)
                 && OutputOf(s'.local[p].deals, cfg.deals[p].keyIds)
                    == Output(PolysOf(cfg.deals, cfg.roster), KeyShares(cfg.deals, cfg.deals[p].keyIds))
  {
    RunRank(cfg, s, steps);
    InitInv(cfg, s);
    RunKeeps(cfg, s, steps);
    var s' := Run(cfg, s, steps).value;
    MovesLeftNonNegative(Loads(cfg, s'), |s'.log|, cfg.roster);
    StuckOnlyWhenDone(cfg, s');
    forall p | p in s'.local && s'.local[p].Finished?
      ensures s'.local[p].deals == cfg.deals
    {
      FinishedDeals(cfg, s, steps, p);
    }
    IncreasingUnique(Ascending(cfg.deals.Keys), cfg.roster);
  }
}
