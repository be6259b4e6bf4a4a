/** When rotations come to a stop: exactly when no next key can be agreed on, or the
    proposal for the stored one is lost. */
module Stalls {
  import opened Orders
  import opened Authorities
  import opened MetadataSpec
  import opened Reports
  import opened Rotation
  import opened Committees

  // ---- Agreeing on a next key ---------------------------------------------------

  /** The next-best set has enough members to back a key. */
  predicate CanAgree(c: Committee) {
    c.nextBest != [] && c.next.sig <= |c.nextBest|
  }

  /** A signing report about a committee of `seats` members below its threshold `sig`
      would lower the next threshold far enough for `nextSeats` members. */
  predicate Rescuable(seats: nat, sig: nat, nextSeats: nat) {
    0 < seats < sig && 0 < nextSeats && seats <= nextSeats + 1
  }

  /** A key can be backed, at once or after a signing report. */
  predicate Agreeable(c: Committee) {
    CanAgree(c) || (c.authorities != [] && Rescuable(|c.best|, c.current.sig, |c.nextBest|))
  }

  /** Everybody in the next-best set backs the key. */
  function Backers(c: Committee): seq<Id> {
    Authorities.Ids(c.nextBest)
  }

  lemma AllBack(c: Committee)
    requires Filled(c) && CanAgree(c)
    ensures Backed(c.nextBest, c.next.sig, Backers(c))
  {
  }

  lemma BackedAgrees(c: Committee, signers: seq<Id>)
    requires Filled(c) && Backed(c.nextBest, c.next.sig, signers)
    ensures CanAgree(c)
  {
    NoDuplicatesCardinality(signers);
    NoDuplicatesCardinality(Backers(c));
    SubsetSizes(Elements(signers), Elements(Backers(c)));
  }

  /** Between two keys. */
  ghost predicate Between(s: Storage) {
    s.keys.next.None? && s.keys.nextSignature.None? && Filled(s.committee)
  }

  /** Neither keys nor announcements have changed. */
  ghost predicate StandsStill(s: Storage, s': Storage) {
    && s'.keys.next == s.keys.next && s'.keys.setId == s.keys.setId && s'.keys.history == s.keys.history
    && s'.refresh.nonce == s.refresh.nonce && s'.refresh.announced == s.refresh.announced
  }

  lemma LowerStalls(c: Committee, u: nat)
    requires u <= |c.nextBest| < c.next.sig && 2 < u
    ensures LowerThresholds(c, u).next.sig > u - 1
  {
  }

  lemma ReportSize(s: Storage, s': Storage, offender: Id)
    requires Filled(s.committee) && Filled(s'.committee) && Outcome(s, s', offender)
    ensures |s'.committee.nextBest| == |Free(s)| - (if Lowers(s, offender) then 1 else 0)
    ensures |Free(s)| <= |s.committee.nextBest|
  {
    OutcomeSize(s, s', offender);
    NoDuplicatesCardinality(Backers(s.committee));
    NoDuplicatesCardinality(Backers(s'.committee));
    SubsetSizes(Free(s), NextBest(s));
  }

  /** A keygen report takes members away, and lowers the signature threshold by no more. */
  lemma ReportStalls(env: Env, s: Storage, step: Step)
    requires Filled(s.committee) && !Agreeable(s.committee) && step.Report? && Admissible(s, step)
    ensures !Agreeable(Next(env, s, step).committee)
  {
    var s' := Next(env, s, step);
    var r := ReportKeygen(env, s, step.now, step.offender, step.reporters, step.order);
    if r.Some? {
      ReportOutcome(env, s, step.now, step.offender, step.reporters, step.order);
      ReportSize(s, s', step.offender);
      if Lowers(s, step.offender) {
        LowerStalls(s.committee, |Free(s)|);
      }
    }
  }

  lemma SigningStalls(env: Env, s: Storage, step: Step)
    requires !Agreeable(s.committee) && step.SigningReport?
    ensures !Agreeable(Next(env, s, step).committee)
  {
    if ReportSigning(env, s, step.now, step.offender, step.reporters).Some? {
      SigningOutcome(env, s, step.now, step.offender, step.reporters);
    }
  }

  lemma StallStep(env: Env, s: Storage, step: Step)
    requires Between(s) && !Agreeable(s.committee) && Admissible(s, step) && !step.ForceChange?
    ensures var s' := Next(env, s, step);
            Between(s') && !Agreeable(s'.committee) && StandsStill(s, s')
  {
    StepFilled(env, s, step);
    if step.Report? {
      ReportStalls(env, s, step);
      CommitteeStepFrame(env, s, step);
    } else if step.SigningReport? {
      SigningStalls(env, s, step);
      CommitteeStepFrame(env, s, step);
    } else if step.SubmitNextKey? {
      if Backed(s.committee.nextBest, s.committee.next.sig, step.signers) {
        BackedAgrees(s.committee, step.signers);
      }
    } else if !step.NewSession? {
      QuietFrame(env, s, step);
    }
  }

  /** The policies under which nothing is forced. */
  predicate Forceless(policy: Policy) {
    policy == Unforced || policy == Covering || policy == Steady
  }

  lemma {:induction false} RunStalls(env: Env, s: Storage, steps: seq<Step>, policy: Policy)
    requires Between(s) && !Agreeable(s.committee) && Forceless(policy) && Run(env, s, steps, policy).Some?
    ensures var s' := Run(env, s, steps, policy).value;
            Between(s') && !Agreeable(s'.committee) && StandsStill(s, s')
    decreases |steps|
  {
    if steps != [] {
      StallStep(env, s, steps[0]);
      RunStalls(env, Next(env, s, steps[0]), steps[1..], policy);
    }
  }

  /** What is steady is also covering, and what is covering is unforced. */
  lemma {:induction false} RunLoosens(env: Env, s: Storage, steps: seq<Step>)
    requires Run(env, s, steps, Steady).Some?
    ensures Run(env, s, steps, Covering) == Run(env, s, steps, Steady)
    ensures Run(env, s, steps, Unforced) == Run(env, s, steps, Steady)
    decreases |steps|
  {
    if steps != [] {
      RunLoosens(env, Next(env, s, steps[0]), steps[1..]);
    }
  }

  // ---- Making agreement possible ---------------------------------------------------

  lemma Rescues(env: Env, s: Storage, o: Id) returns (s': Storage)
    requires s.committee.authorities != [] && o == s.committee.authorities[0]
    requires Rescuable(|s.committee.best|, s.committee.current.sig, |s.committee.nextBest|)
    ensures var freed := Next(env, s, Unjail(o, true, true));
            && s' == Next(env, freed, SigningReport(0, o, s.committee.current.sig + 1))
            && s'.keys == s.keys && s'.refresh == s.refresh && s'.flags == s.flags
            && CanAgree(s'.committee) && SameSets(s.committee, s'.committee)
  {
    var freed := Next(env, s, Unjail(o, true, true));
    var step := SigningReport(0, o, s.committee.current.sig + 1);
    SigningOutcome(env, freed, 0, o, s.committee.current.sig + 1);
    s' := Next(env, freed, step);
  }

  /** The steps after which the next-best set can back a key. */
  lemma MakesAgree(env: Env, s: Storage) returns (steps: seq<Step>, s': Storage)
    requires Filled(s.committee) && Agreeable(s.committee)
    ensures |steps| <= 2 && Run(env, s, steps, Steady) == Some(s')
    ensures s'.keys == s.keys && s'.refresh == s.refresh && s'.flags == s.flags
    ensures Filled(s'.committee) && CanAgree(s'.committee) && SameSets(s.committee, s'.committee)
  {
    if CanAgree(s.committee) {
      steps, s' := [], s;
    } else {
      var o := s.committee.authorities[0];
      var a, b := Unjail(o, true, true), SigningReport(0, o, s.committee.current.sig + 1);
      var freed := Next(env, s, a);
      s' := Rescues(env, s, o);
      StepFilled(env, s, a);
      StepFilled(env, freed, b);
      steps := [a, b];
      RunOne(env, freed, b, Steady);
      assert steps[1..] == [b];
    }
  }

  // ---- One whole refresh --------------------------------------------------------

  /** A signature the pallet would take. */
  ghost predicate Usable(env: Env, s: Storage, signature: Bytes) {
    |signature| <= env.maxSignatureLength && signature !in s.keys.usedSignatures
  }

  lemma TakesKey(env: Env, s: Storage, key: Bytes)
    requires s.keys.next.None? && Filled(s.committee) && CanAgree(s.committee)
    ensures var s' := Next(env, s, SubmitNextKey(key, Backers(s.committee)));
            && s'.keys == s.keys.(next := Some(SetKey(s.keys.nextSetId, key)))
            && s'.refresh == s.refresh.(inProgress := false)
            && s'.committee == s.committee && s'.flags == s.flags
  {
    AllBack(s.committee);
  }

  /** The proposal for the stored next key. */
  function OwnProposal(env: Env, s: Storage): Option<Refresh>
    requires s.keys.next.Some?
  {
    RefreshFor(env, s.committee.nextAuthorities, s.keys.next.value.key, s.refresh.nonce + 1)
  }

  lemma Proposes(env: Env, s: Storage)
    requires ShouldRefresh(s) && OwnProposal(env, s).Some?
    ensures var s' := Next(env, s, NewBlock(s.flags.lastRotation, true));
            && s'.refresh.pending == OwnProposal(env, s) && Signable(env, s')
            && s'.refresh.announced == s.refresh.announced
            && s'.keys == s.keys && s'.committee == s.committee && s'.flags.lastRotation == s.flags.lastRotation
  {
  }

  lemma Signs(env: Env, s: Storage, signature: Bytes)
    requires s.keys.next.Some? && s.keys.nextSignature.None? && Signable(env, s) && Usable(env, s, signature)
    ensures var s' := Next(env, s, SignedRefresh(env.encode(s.refresh.pending.value), signature));
            && s'.keys == s.keys.(nextSignature := Some(signature))
            && s'.refresh.current == s.refresh.pending && s'.refresh.announced == s.refresh.announced
            && s'.committee == s.committee && s'.flags == s.flags
  {
  }

  lemma SessionAnnounces(env: Env, s: Storage, now: nat, validators: seq<Id>, queued: seq<Id>)
    requires ShouldEndSession(s.keys) && s.refresh.current.Some? && queued != []
    ensures var s' := OnNewSession(env, s, now, validators, queued);
            && s'.refresh.announced == s.refresh.announced
               + [Announcement(s.refresh.current.value, s.keys.nextSignature.value, s.keys.next.value.key)]
            && s'.keys.next.None? && s'.keys.nextSignature.None?
  {
  }

  /** The session change that the queued validators wait for. */
  ghost function Change(s: Storage): Step {
    NewSession(s.flags.lastRotation, s.committee.nextAuthorities, s.committee.nextAuthorities)
  }

  /** A stored signature leads to an announcement. */
  lemma EndsSession(env: Env, s: Storage) returns (s': Storage)
    requires ShouldEndSession(s.keys) && s.refresh.current.Some? && GoodList(s.committee.nextAuthorities)
    ensures s' == Next(env, s, Change(s)) && Run(env, s, [Change(s)], Steady) == Some(s')
    ensures s'.keys.next.None? && s'.keys.nextSignature.None?
    ensures s'.refresh.announced == s.refresh.announced
         + [Announcement(s.refresh.current.value, s.keys.nextSignature.value, s.keys.next.value.key)]
  {
    s' := Next(env, s, Change(s));
    SessionAnnounces(env, s, Change(s).now, Change(s).validators, Change(s).queued);
    RunOne(env, s, Change(s), Steady);
  }

  /** A proposal that can come back signed leads to an announcement. */
  lemma SignsAndEnds(env: Env, s: Storage, signature: Bytes) returns (steps: seq<Step>, s1: Storage, s': Storage)
    requires s.keys.next.Some? && s.keys.nextSignature.None? && Signable(env, s) && Usable(env, s, signature)
    requires GoodList(s.committee.nextAuthorities)
    ensures |steps| == 2 && Run(env, s, steps, Steady) == Some(s')
    ensures s'.refresh.announced
         == s.refresh.announced + [Announcement(s.refresh.pending.value, signature, s.keys.next.value.key)]
    ensures s1.committee == s.committee && s1.keys == s.keys.(nextSignature := Some(signature))
    ensures ShouldEndSession(s1.keys) && s' == Next(env, s1, Change(s1))
  {
    var a := SignedRefresh(env.encode(s.refresh.pending.value), signature);
    s1 := Next(env, s, a);
    Signs(env, s, signature);
    s' := EndsSession(env, s1);
    steps := [a] + [Change(s1)];
    RunPrepend(env, s, a, [Change(s1)], Steady);
  }

  /** A block proposes, and the proposal leads to an announcement. */
  lemma ProposesAndEnds(env: Env, s: Storage, signature: Bytes) returns (steps: seq<Step>, s1: Storage, s': Storage)
    requires ShouldRefresh(s) && OwnProposal(env, s).Some? && Usable(env, s, signature)
    requires GoodList(s.committee.nextAuthorities)
    ensures |steps| == 3 && Run(env, s, steps, Steady) == Some(s')
    ensures s'.refresh.announced
         == s.refresh.announced + [Announcement(OwnProposal(env, s).value, signature, s.keys.next.value.key)]
    ensures s1.committee == s.committee && s1.keys == s.keys.(nextSignature := Some(signature))
    ensures ShouldEndSession(s1.keys) && s' == Next(env, s1, Change(s1))
  {
    var block := NewBlock(s.flags.lastRotation, true);
    var proposed := Next(env, s, block);
    Proposes(env, s);
    var rest;
    rest, s1, s' := SignsAndEnds(env, proposed, signature);
    steps := [block] + rest;
    RunPrepend(env, s, block, rest, Steady);
  }

  /** A key backed by the whole next-best set waits for its proposal. */
  lemma StoresKey(env: Env, s: Storage, key: Bytes) returns (s': Storage)
    requires Between(s) && CanAgree(s.committee)
    ensures s' == Next(env, s, SubmitNextKey(key, Backers(s.committee)))
    ensures ShouldRefresh(s') && s'.keys.next.value.key == key && s'.committee == s.committee
    ensures OwnProposal(env, s') == RefreshFor(env, s.committee.nextAuthorities, key, s.refresh.nonce + 1)
    ensures s'.keys.usedSignatures == s.keys.usedSignatures && s'.flags == s.flags
    ensures s'.refresh == s.refresh.(inProgress := false)
  {
    TakesKey(env, s, key);
    s' := Next(env, s, SubmitNextKey(key, Backers(s.committee)));
  }

  /** From any state between two keys whose next-best set can back one: the key backed by
      that set, a block, its signature and a session change announce the proposal made,
      with the nonce after the last. */
  lemma CycleAnnounces(env: Env, s: Storage, key: Bytes, signature: Bytes)
    returns (steps: seq<Step>, s1: Storage, s': Storage)
    requires Between(s) && CanAgree(s.committee) && GoodList(s.committee.nextAuthorities)
    requires env.decompress(key).Some? && Usable(env, s, signature)
    ensures |steps| == 4 && Run(env, s, steps, Steady) == Some(s')
    ensures var proposal := RefreshFor(env, s.committee.nextAuthorities, key, s.refresh.nonce + 1).value;
            s'.refresh.announced == s.refresh.announced + [Announcement(proposal, signature, key)]
    ensures s1.committee == s.committee && ShouldEndSession(s1.keys) && s' == Next(env, s1, Change(s1))
    ensures s1.keys.usedSignatures == s.keys.usedSignatures
  {
    var taken := StoresKey(env, s, key);
    var rest;
    rest, s1, s' := ProposesAndEnds(env, taken, signature);
    steps := [SubmitNextKey(key, Backers(s.committee))] + rest;
    RunPrepend(env, s, steps[0], rest, Steady);
  }

  /** The same where a signing report has to come first. */
  lemma CycleFromAgreeable(env: Env, s: Storage, key: Bytes, signature: Bytes) returns (steps: seq<Step>, s': Storage)
    requires Between(s) && Agreeable(s.committee) && GoodList(s.committee.nextAuthorities)
    requires env.decompress(key).Some? && Usable(env, s, signature)
    ensures |steps| <= 6 && Run(env, s, steps, Steady) == Some(s')
    ensures var proposal := RefreshFor(env, s.committee.nextAuthorities, key, s.refresh.nonce + 1).value;
            s'.refresh.announced == s.refresh.announced + [Announcement(proposal, signature, key)]
  {
    var a, agreed := MakesAgree(env, s);
    var b, s1, last := CycleAnnounces(env, agreed, key, signature);
    s' := last;
    steps := a + b;
    RunConcat(env, s, a, b, Steady);
  }

  // ---- Stalls between two keys ------------------------------------------------------

  /** No run without a forced rotation takes a next key or announces anything again. */
  ghost predicate StallsForGood(env: Env, s: Storage) {
    forall steps | Run(env, s, steps, Unforced).Some? :: StandsStill(s, Run(env, s, steps, Unforced).value)
  }

  /** Between two keys, rotations stop for good exactly when the next signature threshold
      is above the number of next-best members (or there are none) and no signing report
      can lower it far enough. */
  lemma StallsExactly(env: Env, s: Storage)
    requires Between(s)
    ensures StallsForGood(env, s) <==> !Agreeable(s.committee)
  {
    if Agreeable(s.committee) {
      var a, agreed := MakesAgree(env, s);
      var step := SubmitNextKey([], Backers(agreed.committee));
      TakesKey(env, agreed, []);
      RunOne(env, agreed, step, Steady);
      RunConcat(env, s, a, [step], Steady);
      RunLoosens(env, s, a + [step]);
      assert !StandsStill(s, Run(env, s, a + [step], Unforced).value);
    } else {
      forall steps | Run(env, s, steps, Unforced).Some? ensures StandsStill(s, Run(env, s, steps, Unforced).value) {
        RunStalls(env, s, steps, Unforced);
      }
    }
  }

  /** Pending thresholds that `n` queued authorities will not be able to meet. */
  predicate OutOfReach(pending: Thresholds, n: nat) {
    pending.key == 0 || (pending.sig > pending.key && n > pending.key + 1)
  }

  /** The committee an authority change schedules can back a key exactly when the
      pending thresholds are within reach. */
  lemma ChangeAgrees(env: Env, s: Storage, validators: seq<Id>, queued: seq<Id>, forced: bool)
    requires GoodList(queued)
    ensures var c := ChangeAuthorities(env, s, validators, queued, forced).committee;
            && Filled(c) && |c.nextBest| == Clamp(s.committee.pending, |queued|).key
            && (CanAgree(c) <==> !OutOfReach(s.committee.pending, |queued|))
  {
    ChangeFills(env, s, validators, queued, forced);
    var next := Clamp(s.committee.pending, |queued|);
    SelectSeats(next.key, queued, s.standing.reputations, s.standing.jailedKeygen.Keys);
  }

  /** After a rotation that queues `n` authorities no key will be backed: the pending
      thresholds are out of reach, and the committee that takes office has no reason to
      lower them. */
  predicate Blocked(c: Committee, n: nat)
    requires n > 0
  {
    OutOfReach(c.pending, n) && !Rescuable(|c.nextBest|, c.next.sig, Clamp(c.pending, n).key)
  }

  lemma RotationAgrees(env: Env, s: Storage, validators: seq<Id>, queued: seq<Id>, forced: bool)
    requires validators != [] && GoodList(queued) && s.keys.next.Some? && (forced || s.keys.nextSignature.Some?)
    ensures var c := ChangeAuthorities(env, s, validators, queued, forced).committee;
            Filled(c) && (Agreeable(c) <==> !Blocked(s.committee, |queued|))
  {
    ChangeAgrees(env, s, validators, queued, forced);
  }

  lemma SessionAgrees(env: Env, s: Storage, now: nat, validators: seq<Id>, queued: seq<Id>)
    requires validators != [] && GoodList(queued) && ShouldEndSession(s.keys)
    ensures var s' := OnNewSession(env, s, now, validators, queued);
            Between(s') && (Agreeable(s'.committee) <==> !Blocked(s.committee, |queued|))
  {
    RotationAgrees(env, s.(flags := s.flags.(lastRotation := now)), validators, queued, false);
  }

  /** An accepted `set_signature_threshold` makes the rotation after it the last one
      (until one is forced) exactly when the value is above the pending keygen threshold,
      the queued authorities outnumber that by more than one, and no signing report about
      the committee taking office lowers it far enough. */
  lemma SetSignatureStallsExactly(env: Env, s: Storage, t: nat, now: nat, validators: seq<Id>, queued: seq<Id>)
    requires SetSignatureThreshold(s.committee, t).Some?
    requires Admissible(s, NewSession(now, validators, queued))
    ensures var r := Run(env, s, [SetSignature(t), NewSession(now, validators, queued)], Unforced);
            && r.Some?
            && (StallsForGood(env, r.value)
                <==> Blocked(s.committee.(pending := Thresholds(t, s.committee.pending.key)), |queued|))
  {
    var s1 := Next(env, s, SetSignature(t));
    var s2 := Next(env, s1, NewSession(now, validators, queued));
    SessionAgrees(env, s1, now, validators, queued);
    StallsExactly(env, s2);
    RunOne(env, s1, NewSession(now, validators, queued), Unforced);
    assert [SetSignature(t), NewSession(now, validators, queued)][1..] == [NewSession(now, validators, queued)];
  }

  lemma GenesisBetween(t: nat, n: nat, validators: seq<Id>)
    requires GenesisAccepts(t, n, validators)
    ensures var s := Genesis(t, n, validators);
            Between(s) && CanAgree(s.committee) && |s.committee.nextBest| == n && GoodList(s.committee.nextAuthorities)
  {
    GenesisSeated(t, n, validators);
  }

  /** With pending thresholds that block the committees after it, a refresh is the last
      one. */
  lemma LastCycle(env: Env, s: Storage, key: Bytes, signature: Bytes) returns (steps: seq<Step>, s': Storage)
    requires Between(s) && CanAgree(s.committee) && GoodList(s.committee.nextAuthorities)
    requires Blocked(s.committee, |s.committee.nextAuthorities|)
    requires env.decompress(key).Some? && Usable(env, s, signature)
    ensures Run(env, s, steps, Steady) == Some(s')
    ensures |s'.refresh.announced| == |s.refresh.announced| + 1 && StallsForGood(env, s')
  {
    var s1;
    steps, s1, s' := CycleAnnounces(env, s, key, signature);
    SessionAgrees(env, s1, Change(s1).now, Change(s1).validators, Change(s1).queued);
    StallsExactly(env, s');
  }

  /** From a genesis with 1-of-3 and ten validators: the signature threshold five, one
      refresh, and nothing is ever announced again unless a rotation is forced. */
  lemma GenesisStalls(env: Env, v: seq<Id>, key: Bytes, signature: Bytes) returns (steps: seq<Step>)
    requires |v| == 10 && NoDuplicates(v)
    requires env.decompress(key).Some? && |signature| <= env.maxSignatureLength
    ensures GenesisAccepts(1, 3, v)
    ensures var r := Run(env, Genesis(1, 3, v), steps, Steady);
            r.Some? && |r.value.refresh.announced| == 1 && StallsForGood(env, r.value)
  {
    var s := Genesis(1, 3, v);
    var raised := s.(committee := s.committee.(pending := Thresholds(5, 3)));
    GenesisBetween(1, 3, v);
    RunOne(env, s, SetSignature(5), Steady);
    var cycle, s' := LastCycle(env, raised, key, signature);
    steps := [SetSignature(5)] + cycle;
    RunConcat(env, s, [SetSignature(5)], cycle, Steady);
  }

  // ---- Lost proposals -----------------------------------------------------------------

  /** A next key waits for a signature that cannot come: the handler does not hold the
      proposal, and no new one is made. */
  ghost predicate Lost(env: Env, s: Storage) {
    && s.keys.next.Some? && s.keys.nextSignature.None? && !Signable(env, s)
    && (s.refresh.inProgress || env.decompress(s.keys.next.value.key).None?)
  }

  lemma SignedLost(env: Env, s: Storage, data: Bytes, signature: Bytes)
    requires Lost(env, s) && data in s.refresh.offered
    ensures Next(env, s, SignedRefresh(data, signature)) == Withdraw(s, data)
  {
  }

  lemma BlockLost(env: Env, s: Storage, now: nat, handled: bool)
    requires Lost(env, s) && Admissible(s, NewBlock(now, handled))
    ensures var s' := Next(env, s, NewBlock(now, handled));
            s'.keys == s.keys && s'.refresh == s.refresh && s'.committee == s.committee
  {
  }

  lemma KeyStepLost(env: Env, s: Storage, step: Step)
    requires Lost(env, s) && Admissible(s, step) && Allows(env, Steady, s, step) && KeyStep(step)
    ensures Lost(env, Next(env, s, step)) && StandsStill(s, Next(env, s, step))
  {
    match step
    case SignedRefresh(data, signature) => SignedLost(env, s, data, signature);
    case NewBlock(now, handled) => BlockLost(env, s, now, handled);
    case _ =>
  }

  lemma LostStep(env: Env, s: Storage, step: Step)
    requires Lost(env, s) && Admissible(s, step) && Allows(env, Steady, s, step)
    ensures Lost(env, Next(env, s, step)) && StandsStill(s, Next(env, s, step))
  {
    if CommitteeStep(step) {
      CommitteeStepFrame(env, s, step);
    } else if !step.NewSession? {
      KeyStepLost(env, s, step);
    }
  }

  lemma {:induction false} RunLost(env: Env, s: Storage, steps: seq<Step>)
    requires Lost(env, s) && Run(env, s, steps, Steady).Some?
    ensures var s' := Run(env, s, steps, Steady).value;
            Lost(env, s') && StandsStill(s, s')
    decreases |steps|
  {
    if steps != [] {
      LostStep(env, s, steps[0]);
      RunLost(env, Next(env, s, steps[0]), steps[1..]);
    }
  }

  // ---- Exactly when announcements stop --------------------------------------------------

  /** No covering run without an emergency keygen announces anything again. */
  ghost predicate HaltsForGood(env: Env, s: Storage) {
    forall steps | Run(env, s, steps, Steady).Some? ::
      Run(env, s, steps, Steady).value.refresh.announced == s.refresh.announced
  }

  ghost predicate Halted(env: Env, s: Storage) {
    if s.keys.next.None? then !Agreeable(s.committee) else Lost(env, s)
  }

  lemma LostHalts(env: Env, s: Storage)
    requires Lost(env, s)
    ensures HaltsForGood(env, s)
  {
    forall steps | Run(env, s, steps, Steady).Some?
      ensures Run(env, s, steps, Steady).value.refresh.announced == s.refresh.announced
    {
      RunLost(env, s, steps);
    }
  }

  lemma StalledHalts(env: Env, s: Storage)
    requires Between(s) && !Agreeable(s.committee)
    ensures HaltsForGood(env, s)
  {
    forall steps | Run(env, s, steps, Steady).Some?
      ensures Run(env, s, steps, Steady).value.refresh.announced == s.refresh.announced
    {
      RunStalls(env, s, steps, Steady);
    }
  }

  lemma GoesOn(env: Env, s: Storage, key: Bytes, signature: Bytes) returns (steps: seq<Step>, s': Storage)
    requires Core(s) && Filled(s.committee) && GoodList(s.committee.nextAuthorities) && !Halted(env, s)
    requires env.decompress(key).Some? && Usable(env, s, signature)
    ensures Run(env, s, steps, Steady) == Some(s') && |s'.refresh.announced| == |s.refresh.announced| + 1
  {
    var s1;
    if s.keys.next.None? {
      steps, s' := CycleFromAgreeable(env, s, key, signature);
    } else if s.keys.nextSignature.Some? {
      s' := EndsSession(env, s);
      steps := [Change(s)];
    } else if Signable(env, s) {
      steps, s1, s' := SignsAndEnds(env, s, signature);
    } else {
      steps, s1, s' := ProposesAndEnds(env, s, signature);
    }
  }

  /** In every state: announcements stop for good (short of forced rotations and emergency
      keygens) exactly when no next key is stored and none can be backed, or one is stored
      without a signature, the handler does not hold its proposal, and no new proposal
      will be made. (`key` and `signature` stand for a key that decompresses and an unused
      signature.) */
  lemma HaltsExactly(env: Env, s: Storage, key: Bytes, signature: Bytes)
    requires Core(s) && Filled(s.committee) && GoodList(s.committee.nextAuthorities)
    requires env.decompress(key).Some? && Usable(env, s, signature)
    ensures HaltsForGood(env, s) <==> Halted(env, s)
  {
    if Lost(env, s) {
      LostHalts(env, s);
    } else if Halted(env, s) {
      StalledHalts(env, s);
    } else {
      var steps, s' := GoesOn(env, s, key, signature);
    }
  }

  /** A next key, its proposal, and the handler drops the proposal's only copy. */
  lemma LosesProposal(env: Env, s: Storage, key: Bytes) returns (steps: seq<Step>, s': Storage)
    requires Between(s) && CanAgree(s.committee) && env.decompress(key).Some? && s.refresh.offered == multiset{}
    ensures Run(env, s, steps, Steady) == Some(s') && Lost(env, s')
  {
    var a, b := SubmitNextKey(key, Backers(s.committee)), NewBlock(s.flags.lastRotation, true);
    var s1 := Next(env, s, a);
    TakesKey(env, s, key);
    var s2 := Next(env, s1, b);
    var c := HandlerDrops(env.encode(OwnProposal(env, s1).value));
    s' := Next(env, s2, c);
    steps := [a, b, c];
    RunOne(env, s2, c, Steady);
    assert steps[1..] == [b, c] && [b, c][1..] == [c];
    assert Run(env, s1, [b, c], Steady) == Run(env, s2, [c], Steady);
  }

  /** From genesis: a next key, its proposal, and the handler drops the proposal's batch,
      as when that is forcibly removed. */
  lemma GenesisLoses(env: Env, t: nat, n: nat, validators: seq<Id>, key: Bytes) returns (steps: seq<Step>)
    requires GenesisAccepts(t, n, validators) && env.decompress(key).Some?
    ensures var r := Run(env, Genesis(t, n, validators), steps, Steady);
            r.Some? && Lost(env, r.value) && HaltsForGood(env, r.value)
  {
    GenesisBetween(t, n, validators);
    var s;
    steps, s := LosesProposal(env, Genesis(t, n, validators), key);
    LostHalts(env, s);
  }
}
