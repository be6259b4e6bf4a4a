/** `run_signing` as one party executes it, and the proof that the parties of the
    group model of module FrostSigning execute exactly this code. */
module FrostSigningLocal {
  import opened Orders
  import opened FrostMessages
  import opened FrostSigning
  import opened FrostSigningRuns

  /** The first loop: take messages until `threshold` commitments are known.
      None when the inbox runs dry first (the connection died). */
  function GatherCommits(me: PartyId, commits: map<PartyId, Commitment>, inbox: seq<Message>, threshold: nat)
    : Option<(map<PartyId, Commitment>, seq<Message>)>
    decreases |inbox|
  {
    if |commits| >= threshold then Some((commits, inbox))
    else if inbox == [] then None
    else GatherCommits(me, AbsorbCommit(me, commits, inbox[0]), inbox[1..], threshold)
  }

  /** The second loop: take messages until `threshold` shares are known. */
  function GatherShares(me: PartyId, shares: map<PartyId, Bytes>, inbox: seq<Message>, threshold: nat)
    : Option<map<PartyId, Bytes>>
    decreases |inbox|
  {
    if |shares| >= threshold then Some(shares)
    else if inbox == [] then None
    else GatherShares(me, AbsorbShare(me, shares, inbox[0]), inbox[1..], threshold)
  }

  ghost function InputOf(commits: map<PartyId, Commitment>): SigningInput {
    RosterInput(Ascending(commits.Keys), commits)
  }

  ghost function FinishAggregation(me: PartyId, input: SigningInput, shares: map<PartyId, Bytes>,
                                   inbox: seq<Message>, threshold: nat): Option<AggregatorInput> {
    match GatherShares(me, shares, inbox, threshold)
    case None => None
    case Some(all) => Some(AggregatorInput(input, Values(all, Ascending(all.Keys))))
  }

  ghost function FinishCollection(me: PartyId, commits: map<PartyId, Commitment>, inbox: seq<Message>,
                                  threshold: nat, sign: SigningInput -> Bytes): Option<AggregatorInput> {
    match GatherCommits(me, commits, inbox, threshold)
    case None => None
    case Some((all, rest)) =>
      FinishAggregation(me, InputOf(all), map[me := sign(InputOf(all))], rest, threshold)
  }

  /** What a party in local state `l` will aggregate if it receives `inbox`. */
  ghost function Outcome(me: PartyId, own: Commitment, l: Local, inbox: seq<Message>,
                         threshold: nat, sign: SigningInput -> Bytes): Option<AggregatorInput> {
    match l
    case Idle => FinishCollection(me, map[me := own], inbox, threshold, sign)
    case Collecting(commits) => FinishCollection(me, commits, inbox, threshold, sign)
    case Aggregating(input, shares) => FinishAggregation(me, input, shares, inbox, threshold)
    case Finished(output) => Some(output)
  }

  /** Sorting a hash map's entries gives the ascending order. */
  method SortedKeys<V>(m: map<PartyId, V>) returns (ids: seq<PartyId>)
    ensures ids == Ascending(m.Keys)
  {
    var order := HashOrder(m.Keys);
    SortIdsCanonical(order, Ascending(m.Keys));
    ids := SortIds(order);
  }

  method RunSigning(me: PartyId, own: Commitment, threshold: nat, sign: SigningInput -> Bytes, inbox: seq<Message>)
    returns (sent: seq<Message>, result: Option<AggregatorInput>)
    ensures result == Outcome(me, own, Idle, inbox, threshold, sign)
    ensures sent == [Sign(me, own.keyIds, own.nonce)]
                  + match GatherCommits(me, map[me := own], inbox, threshold)
                    case None => []
                    case Some((all, _)) => [SignFinal(me, sign(InputOf(all)))]
  {
    sent := [Sign(me, own.keyIds, own.nonce)];
    var commits: map<PartyId, Commitment> := map[me := own];
    var next := 0;
    while |commits| < threshold
      invariant 0 <= next <= |inbox|
      invariant GatherCommits(me, commits, inbox[next..], threshold)
             == GatherCommits(me, map[me := own], inbox, threshold)
      decreases |inbox| - next
    {
      if next == |inbox| {
        return sent, None;
      }
      assert inbox[next..][1..] == inbox[next + 1..];
      commits := AbsorbCommit(me, commits, inbox[next]);
      next := next + 1;
    }
    var ids := SortedKeys(commits);
    var keyOrder := SortedKeys(commits);
    var nonceOrder := SortedKeys(commits);
    var input := SigningInput(ids, KeyIdsOf(commits, keyOrder), NoncesOf(commits, nonceOrder));
    var share := sign(input);
    sent := sent + [SignFinal(me, share)];
    var shares: map<PartyId, Bytes> := map[me := share];
    ghost var rest := inbox[next..];
    while |shares| < threshold
      invariant 0 <= next <= |inbox|
      invariant GatherShares(me, shares, inbox[next..], threshold)
             == GatherShares(me, map[me := share], rest, threshold)
      decreases |inbox| - next
    {
      if next == |inbox| {
        return sent, None;
      }
      assert inbox[next..][1..] == inbox[next + 1..];
      shares := AbsorbShare(me, shares, inbox[next]);
      next := next + 1;
    }
    var shareOrder := SortedKeys(shares);
    result := Some(AggregatorInput(input, Values(shares, shareOrder)));
  }

  // ---- The group model executes this code ---------------------------------

  /** What party `p` will aggregate from state `s` if the log grows to `log`. */
  ghost function Prediction(cfg: Config, s: State, p: PartyId, log: seq<Message>): Option<AggregatorInput>
    requires Domains(cfg, s) && p in cfg.data && s.log <= log
  {
    Outcome(p, cfg.data[p], s.local[p], log[s.cursor[p]..], cfg.threshold, i => cfg.share(p, i))
  }

  lemma ReadPrediction(cfg: Config, s: State, p: PartyId, log: seq<Message>)
    requires Domains(cfg, s) && Enabled(cfg, s, Read(p)) && s.log <= log
    ensures Domains(cfg, Apply(cfg, s, Read(p)))
    ensures Prediction(cfg, Apply(cfg, s, Read(p)), p, log) == Prediction(cfg, s, p, log)
  {
    ApplyDomains(cfg, s, Read(p));
    var inbox := log[s.cursor[p]..];
    assert inbox[0] == s.log[s.cursor[p]];
    assert inbox[1..] == log[s.cursor[p] + 1..];
  }

  lemma PublishPrediction(cfg: Config, s: State, p: PartyId, o: HashOrders, log: seq<Message>)
    requires Domains(cfg, s) && Enabled(cfg, s, Publish(p, o)) && Apply(cfg, s, Publish(p, o)).log <= log
    ensures Domains(cfg, Apply(cfg, s, Publish(p, o)))
    ensures Prediction(cfg, Apply(cfg, s, Publish(p, o)), p, log) == Prediction(cfg, s, p, log)
  {
    ApplyDomains(cfg, s, Publish(p, o));
    var commits := s.local[p].commits;
    SortedInputCanonical(commits, o, Ascending(commits.Keys));
  }

  lemma FinishPrediction(cfg: Config, s: State, p: PartyId, o: seq<PartyId>, log: seq<Message>)
    requires Domains(cfg, s) && Enabled(cfg, s, Finish(p, o)) && s.log <= log
    ensures Domains(cfg, Apply(cfg, s, Finish(p, o)))
    ensures Prediction(cfg, Apply(cfg, s, Finish(p, o)), p, log) == Prediction(cfg, s, p, log)
  {
    ApplyDomains(cfg, s, Finish(p, o));
    SortIdsCanonical(o, Ascending(s.local[p].shares.Keys));
  }

  lemma StepPrediction(cfg: Config, s: State, step: Step, p: PartyId, log: seq<Message>)
    requires Domains(cfg, s) && Enabled(cfg, s, step) && p in cfg.data
    requires Apply(cfg, s, step).log <= log
    ensures Domains(cfg, Apply(cfg, s, step))
    ensures s.log <= log
    ensures Prediction(cfg, Apply(cfg, s, step), p, log) == Prediction(cfg, s, p, log)
  {
    ApplyDomains(cfg, s, step);
    assert s.log <= Apply(cfg, s, step).log;
    if p == step.p {
      match step
      case Start(_) =>
      case Read(_) => ReadPrediction(cfg, s, p, log);
      case Publish(_, o) => PublishPrediction(cfg, s, p, o, log);
      case Finish(_, o) => FinishPrediction(cfg, s, p, o, log);
    }
  }

  lemma {:induction false} RunPrediction(cfg: Config, s: State, steps: seq<Step>, p: PartyId, log: seq<Message>)
    requires Domains(cfg, s) && Run(cfg, s, steps).Some? && p in cfg.data
    requires Run(cfg, s, steps).value.log <= log
    ensures Domains(cfg, Run(cfg, s, steps).value)
    ensures s.log <= log
    ensures Prediction(cfg, Run(cfg, s, steps).value, p, log) == Prediction(cfg, s, p, log)
    decreases |steps|
  {
    if steps != [] {
      ApplyDomains(cfg, s, steps[0]);
      RunPrediction(cfg, Apply(cfg, s, steps[0]), steps[1..], p, log);
      StepPrediction(cfg, s, steps[0], p, log);
    }
  }

  /** A party that finishes in a run of the group has computed what RunSigning
      computes from the messages it was sent, for any threshold and group size. */
  lemma GroupRunsTheCode(cfg: Config, s: State, steps: seq<Step>, p: PartyId)
    requires Init(cfg, s) && Run(cfg, s, steps).Some? && p in cfg.data
    ensures var s' := Run(cfg, s, steps).value;
            && Domains(cfg, s') && s.log <= s'.log
            && (s'.local[p].Finished? ==>
                  Outcome(p, cfg.data[p], Idle, s'.log[s.cursor[p]..], cfg.threshold, i => cfg.share(p, i))
                  == Some(s'.local[p].output))
  {
    RunPrediction(cfg, s, steps, p, Run(cfg, s, steps).value.log);
  }
}
