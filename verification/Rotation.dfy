/** Runs of the metadata pallet: set ids, key history, refresh proposals and
    thresholds over every mix of operations. */
module Rotation {
  import opened Orders
  import opened Authorities
  import opened MetadataSpec
  import Reports

  datatype Step =
    | SubmitKey(key: Bytes, signers: seq<Id>)
    | SubmitNextKey(key: Bytes, signers: seq<Id>)
    | NewBlock(now: nat, handled: bool)
    | SignedRefresh(data: Bytes, signature: Bytes)
    | NewSession(now: nat, validators: seq<Id>, queued: seq<Id>)
    | ForceChange(handled: bool)
    | EmergencyKeygen
    | SetSignature(t: nat)
    | SetKeygen(n: nat)
    | Report(now: nat, offender: Id, reporters: nat, order: seq<Id>)
    | SigningReport(now: nat, offender: Id, reporters: nat)
    | Unjail(id: Id, keygen: bool, signing: bool)
    | HandlerDrops(data: Bytes)

  predicate GoodList(xs: seq<Id>) {
    xs != [] && |xs| <= MAX_AUTHORITIES && NoDuplicates(xs)
  }

  /** What the runtime guarantees of a step: sessions end only when a next key and its
      signature exist, and validator lists are proper. */
  predicate Admissible(s: Storage, step: Step) {
    match step
    case NewBlock(now, _) => s.flags.lastRotation <= now
    case NewSession(now, validators, queued) =>
      ShouldEndSession(s.keys) && GoodList(validators) && GoodList(queued)
    case ForceChange(_) => s.committee.nextAuthorities != []
    case Report(_, offender, _, order) => Enumerates(order, s.standing.reputations.Keys + {offender})
    case _ => true
  }

  function OrElse<T>(r: Option<T>, s: T): T {
    if r.Some? then r.value else s
  }

  /** The handler gives up one copy of a proposal: it came back signed, was purged, or was
      removed. */
  function Withdraw(s: Storage, data: Bytes): Storage {
    s.(refresh := s.refresh.(offered := s.refresh.offered - multiset{data}))
  }

  function Next(env: Env, s: Storage, step: Step): Storage
    requires Admissible(s, step)
  {
    match step
    case SubmitKey(key, signers) => OrElse(SubmitPublicKey(env, s, key, signers), s)
    case SubmitNextKey(key, signers) => OrElse(SubmitNextPublicKey(s, key, signers), s)
    case NewBlock(now, handled) => OnInitialize(env, s, now, handled)
    case SignedRefresh(data, signature) =>
      OrElse(OnSignedRefresh(env, Withdraw(s, data), data, signature), Withdraw(s, data))
    case NewSession(now, validators, queued) => OnNewSession(env, s, now, validators, queued)
    case ForceChange(handled) => OrElse(ForceChangeAuthorities(env, s, handled), s)
    case EmergencyKeygen => TriggerEmergencyKeygen(s)
    case SetSignature(t) => s.(committee := OrElse(SetSignatureThreshold(s.committee, t), s.committee))
    case SetKeygen(n) => s.(committee := OrElse(SetKeygenThreshold(s.committee, n), s.committee))
    case Report(now, offender, reporters, order) => OrElse(ReportKeygen(env, s, now, offender, reporters, order), s)
    case SigningReport(now, offender, reporters) => OrElse(ReportSigning(env, s, now, offender, reporters), s)
    case Unjail(id, keygen, signing) => Release(s, id, keygen, signing)
    case HandlerDrops(data) => Withdraw(s, data)
  }

  /** The pending proposal can come back signed. */
  ghost predicate Signable(env: Env, s: Storage) {
    s.refresh.pending.Some? && env.encode(s.refresh.pending.value) in s.refresh.offered
  }

  /** Restrictions on runs under which further properties hold. */
  datatype Policy = AnyRun | Unforced | Covering | Steady | Balanced | Seating

  /** Signature thresholds are set below the pending keygen threshold, and reports
      keep the pairs proper. */
  ghost predicate KeepsBalance(s: Storage, step: Step) {
    && (step.SetSignature? ==> step.t < s.committee.pending.key)
    && (step.Report? ==> Reports.KeepsNext(s, step.offender) && Reports.KeepsPending(s, step.offender))
    && (step.SigningReport? ==> Reports.KeepsSigning(s.committee))
  }

  /** Nothing is forced, an emergency keygen finds no proposal that can come back signed,
      what comes back signed is a proposal the handler holds, and the queued validators
      take office. */
  ghost predicate KeepsCover(env: Env, s: Storage, step: Step) {
    && !step.ForceChange?
    && (step.EmergencyKeygen? ==> !Signable(env, s))
    && (step.SignedRefresh? ==> step.data in s.refresh.offered)
    && (step.NewSession? ==> step.validators == s.committee.nextAuthorities)
  }

  ghost predicate Allows(env: Env, policy: Policy, s: Storage, step: Step) {
    match policy
    case AnyRun => true
    case Unforced => !step.ForceChange?
    case Covering => KeepsCover(env, s, step)
    case Steady => KeepsCover(env, s, step) && !step.EmergencyKeygen?
    case Balanced => KeepsBalance(s, step)
    case Seating =>
      && KeepsBalance(s, step)
      && (step.NewSession? ==> step.validators == s.committee.nextAuthorities)
      && (step.Report? ==> Reports.KeepsSeats(s, step.offender))
  }

  /** The storage after a run, or None when a step is not admissible or allowed. */
  ghost function Run(env: Env, s: Storage, steps: seq<Step>, policy: Policy): Option<Storage>
    decreases |steps|
  {
    if steps == [] then Some(s)
    else if Admissible(s, steps[0]) && Allows(env, policy, s, steps[0])
    then Run(env, Next(env, s, steps[0]), steps[1..], policy)
    else None
  }

  lemma {:induction false} RunConcat(env: Env, s: Storage, a: seq<Step>, b: seq<Step>, policy: Policy)
    requires Run(env, s, a, policy).Some?
    ensures Run(env, s, a + b, policy) == Run(env, Run(env, s, a, policy).value, b, policy)
    decreases |a|
  {
    if a == [] {
      assert a + b == b;
    } else {
      assert (a + b)[1..] == a[1..] + b;
      RunConcat(env, Next(env, s, a[0]), a[1..], b, policy);
    }
  }

  lemma RunOne(env: Env, s: Storage, step: Step, policy: Policy)
    requires Admissible(s, step) && Allows(env, policy, s, step)
    ensures Run(env, s, [step], policy) == Some(Next(env, s, step))
  {
    assert [step][1..] == [];
  }

  lemma RunPrepend(env: Env, s: Storage, step: Step, rest: seq<Step>, policy: Policy)
    requires Admissible(s, step) && Allows(env, policy, s, step)
    ensures Run(env, s, [step] + rest, policy) == Run(env, Next(env, s, step), rest, policy)
  {
    assert ([step] + rest)[1..] == rest;
  }

  /** What a policy allows is a run. */
  lemma {:induction false} RunAllowed(env: Env, s: Storage, steps: seq<Step>, policy: Policy)
    requires Run(env, s, steps, policy).Some?
    ensures Run(env, s, steps, AnyRun) == Run(env, s, steps, policy)
    decreases |steps|
  {
    if steps != [] {
      RunAllowed(env, Next(env, s, steps[0]), steps[1..], policy);
    }
  }

  // ---- Set ids, history and nonce ------------------------------------------

  /** No record lies strictly between those of `a` and `b`. */
  ghost predicate Consecutive(history: map<nat, Round>, a: nat, b: nat) {
    a in history && b in history && a < b && forall c | c in history :: c <= a || b <= c
  }

  /** Each record starts from the key its predecessor ended with. */
  ghost predicate Unbroken(history: map<nat, Round>) {
    forall a, b | Consecutive(history, a, b) :: history[b].curr == history[a].next
  }

  ghost predicate GoodIds(k: Keys) {
    && CurrentKey(k).setId == k.setId < k.nextSetId
    && (k.next.Some? ==> k.next.value.setId == k.nextSetId)
  }

  ghost predicate GoodHistory(k: Keys, nonce: nat) {
    && (forall a | a in k.history :: a <= k.setId)
    && (k.key.None? ==> k.history == map[])
    && (k.history != map[] ==> k.setId in k.history && k.history[k.setId].next == CurrentKey(k).key)
    && Unbroken(k.history)
    && nonce == |k.history|
  }

  /** A signature is stored only with its key and the proposal it signs. */
  ghost predicate GoodSignature(k: Keys, r: RefreshState) {
    k.nextSignature.Some? ==> k.next.Some? && r.current.Some? && r.pending.None?
  }

  ghost predicate Core(s: Storage) {
    GoodIds(s.keys) && GoodHistory(s.keys, s.refresh.nonce) && GoodSignature(s.keys, s.refresh)
  }

  /** The counters are at least `steps` away from saturation. */
  ghost predicate Room(s: Storage, steps: nat) {
    s.keys.nextSetId + steps < U64_MAX && s.refresh.nonce + steps < U32_MAX
  }

  lemma InsertRecord(history: map<nat, Round>, last: nat, id: nat, r: Round)
    requires Unbroken(history)
    requires forall a | a in history :: a <= last
    requires history != map[] ==> last in history && r.curr == history[last].next
    requires last < id
    ensures Unbroken(history[id := r])
  {
    var h := history[id := r];
    forall a, b | Consecutive(h, a, b) ensures h[b].curr == h[a].next {
      if b == id {
        assert a in history;
        assert last in history;
        assert last in h;
        assert a == last;
      } else {
        assert a != id;
        forall c | c in history ensures c <= a || b <= c { assert c in h; }
        assert Consecutive(history, a, b);
      }
    }
  }

  lemma InsertSize(history: map<nat, Round>, id: nat, r: Round)
    requires id !in history
    ensures |history[id := r]| == |history| + 1
  {
    assert history[id := r].Keys == history.Keys + {id};
  }

  lemma RotateKeysGood(env: Env, k: Keys, nonce: nat, signature: Bytes)
    requires GoodIds(k) && GoodHistory(k, nonce) && k.next.Some? && k.nextSetId < U64_MAX
    ensures var k' := RotateKeys(env, k, k.next.value, signature);
            && GoodIds(k') && GoodHistory(k', nonce + 1)
            && k'.setId == k.nextSetId && k'.setId !in k.history
            && k'.history == k.history[k'.setId := Round(CurrentKey(k).key, CurrentKey(k').key, signature)]
  {
    var r := Round(CurrentKey(k).key, k.next.value.key, signature);
    InsertRecord(k.history, k.setId, k.nextSetId, r);
    InsertSize(k.history, k.nextSetId, r);
  }

  /** Steps that change no committee. */
  predicate KeyStep(step: Step) {
    || step.SubmitKey? || step.SubmitNextKey? || step.NewBlock? || step.SignedRefresh? || step.EmergencyKeygen?
    || step.HandlerDrops?
  }

  /** Threshold calls and misbehaviour touch neither keys nor refresh proposals. */
  predicate CommitteeStep(step: Step) {
    step.SetSignature? || step.SetKeygen? || step.Report? || step.SigningReport? || step.Unjail?
  }

  lemma CommitteeStepFrame(env: Env, s: Storage, step: Step)
    requires Admissible(s, step) && CommitteeStep(step)
    ensures var s' := Next(env, s, step);
            && s'.keys == s.keys && s'.refresh == s.refresh && s'.flags == s.flags
            && SameSets(s.committee, s'.committee)
  {
  }

  lemma KeyStepHistory(env: Env, s: Storage, step: Step)
    requires Admissible(s, step) && KeyStep(step) && Core(s)
    ensures var s' := Next(env, s, step);
            && s'.keys.history == s.keys.history && s'.refresh.nonce == s.refresh.nonce
            && s'.keys.setId == s.keys.setId && s'.keys.nextSetId == s.keys.nextSetId
            && (s'.keys.key == s.keys.key || (s.keys.key.None? && s'.keys.key.Some?))
  {
  }

  lemma KeyStepIds(env: Env, s: Storage, step: Step)
    requires Admissible(s, step) && KeyStep(step) && GoodIds(s.keys)
    ensures GoodIds(Next(env, s, step).keys)
  {
  }

  lemma KeyStepSignature(env: Env, s: Storage, step: Step)
    requires Admissible(s, step) && KeyStep(step) && GoodSignature(s.keys, s.refresh)
    ensures GoodSignature(Next(env, s, step).keys, Next(env, s, step).refresh)
  {
  }

  lemma KeyStepCore(env: Env, s: Storage, step: Step)
    requires Admissible(s, step) && KeyStep(step) && Core(s)
    ensures Core(Next(env, s, step)) && Next(env, s, step).keys.history == s.keys.history
  {
    KeyStepIds(env, s, step);
    KeyStepSignature(env, s, step);
    KeyStepHistory(env, s, step);
  }

  lemma SessionCore(env: Env, s: Storage, now: nat, validators: seq<Id>, queued: seq<Id>)
    requires Admissible(s, NewSession(now, validators, queued)) && Core(s) && Room(s, 1)
    ensures var s' := OnNewSession(env, s, now, validators, queued);
            Core(s') && Extends(s.keys.history, s'.keys.history)
  {
    RotateKeysGood(env, s.keys, s.refresh.nonce, s.keys.nextSignature.value);
  }

  lemma ForcedCore(env: Env, s: Storage, handled: bool)
    requires Admissible(s, ForceChange(handled)) && Core(s) && Room(s, 1)
    ensures var s' := Next(env, s, ForceChange(handled));
            Core(s') && Extends(s.keys.history, s'.keys.history)
  {
    if s.keys.next.Some? {
      RotateKeysGood(env, s.keys, s.refresh.nonce, []);
    }
  }

  ghost predicate Extends(h: map<nat, Round>, h': map<nat, Round>) {
    h.Keys <= h'.Keys && forall a | a in h :: h'[a] == h[a]
  }

  /** Set ids, the key history, the nonce and the signature bookkeeping stay right, and
      records are never changed or removed. */
  lemma StepCore(env: Env, s: Storage, step: Step)
    requires Admissible(s, step) && Core(s) && Room(s, 1)
    ensures Core(Next(env, s, step)) && Extends(s.keys.history, Next(env, s, step).keys.history)
  {
    match step {
      case NewSession(now, validators, queued) => SessionCore(env, s, now, validators, queued);
      case ForceChange(handled) => ForcedCore(env, s, handled);
      case _ =>
        if CommitteeStep(step) {
          CommitteeStepFrame(env, s, step);
        } else {
          KeyStepCore(env, s, step);
        }
    }
  }

  lemma StepCounters(env: Env, s: Storage, step: Step)
    requires Admissible(s, step)
    ensures var s' := Next(env, s, step);
            s'.keys.nextSetId <= s.keys.nextSetId + 1 && s'.refresh.nonce <= s.refresh.nonce + 1
  {
  }

  lemma GenesisCore(t: nat, n: nat, validators: seq<Id>)
    ensures Core(Genesis(t, n, validators))
  {
  }

  /** Over every mix of normal, forced and emergency steps: set ids agree with the
      keys that carry them, the key history is an unbroken chain that only grows,
      the nonce counts its records, and a stored signature always comes with its
      key and its proposal. */
  lemma {:induction false} RunCore(env: Env, s: Storage, steps: seq<Step>, policy: Policy)
    requires Core(s) && Room(s, |steps|) && Run(env, s, steps, policy).Some?
    ensures var s' := Run(env, s, steps, policy).value;
            Core(s') && Extends(s.keys.history, s'.keys.history)
    decreases |steps|
  {
    if steps != [] {
      StepCore(env, s, steps[0]);
      StepCounters(env, s, steps[0]);
      RunCore(env, Next(env, s, steps[0]), steps[1..], policy);
    }
  }

  /** Ending a session without the gate breaks the set ids exactly when a next key
      waits for its signature: the key then carries an outdated id. */
  lemma GateIsExact(env: Env, s: Storage, now: nat, validators: seq<Id>, queued: seq<Id>)
    requires Core(s) && Room(s, 1) && queued != []
    ensures GoodIds(OnNewSession(env, s, now, validators, queued).keys)
       <==> s.keys.next.None? || s.keys.nextSignature.Some?
  {
    if s.keys.next.Some? && s.keys.nextSignature.Some? {
      RotateKeysGood(env, s.keys, s.refresh.nonce, s.keys.nextSignature.value);
    }
  }

  /** At every unforced rotation the signed proposal exists and is announced. */
  lemma RotationAnnounces(env: Env, s: Storage, now: nat, validators: seq<Id>, queued: seq<Id>)
    requires Core(s) && Admissible(s, NewSession(now, validators, queued))
    ensures var s' := OnNewSession(env, s, now, validators, queued);
            && s.refresh.current.Some? && s'.refresh.current.None? && s'.refresh.pending.None?
            && s'.refresh.announced
               == s.refresh.announced
                + [Announcement(s.refresh.current.value, s.keys.nextSignature.value, CurrentKey(s'.keys).key)]
  {
  }

  // ---- Nonces --------------------------------------------------------------

  ghost predicate GoodNonces(r: RefreshState) {
    && (r.pending.Some? ==> r.pending.value.nonce == r.nonce + 1)
    && (r.current.Some? ==> r.current.value.nonce == r.nonce + 1)
    && |r.announced| == r.nonce
    && forall i | 0 <= i < |r.announced| :: r.announced[i].refresh.nonce == i + 1
  }

  lemma KeyStepNonces(env: Env, s: Storage, step: Step)
    requires Admissible(s, step) && KeyStep(step) && GoodNonces(s.refresh)
    ensures GoodNonces(Next(env, s, step).refresh)
  {
  }

  lemma SessionNonces(env: Env, s: Storage, now: nat, validators: seq<Id>, queued: seq<Id>)
    requires Admissible(s, NewSession(now, validators, queued)) && Core(s) && Room(s, 1) && GoodNonces(s.refresh)
    ensures GoodNonces(OnNewSession(env, s, now, validators, queued).refresh)
  {
    RotationAnnounces(env, s, now, validators, queued);
  }

  lemma StepNonces(env: Env, s: Storage, step: Step)
    requires Admissible(s, step) && Allows(env, Unforced, s, step)
    requires Core(s) && Room(s, 1) && GoodNonces(s.refresh)
    ensures GoodNonces(Next(env, s, step).refresh)
  {
    if step.NewSession? {
      SessionNonces(env, s, step.now, step.validators, step.queued);
    } else if CommitteeStep(step) {
      CommitteeStepFrame(env, s, step);
    } else {
      KeyStepNonces(env, s, step);
    }
  }

  /** Without forced rotations the announced nonces are 1, 2, 3, ... without a gap,
      one for each rotation. */
  lemma {:induction false} RunNonces(env: Env, s: Storage, steps: seq<Step>)
    requires Core(s) && Room(s, |steps|) && GoodNonces(s.refresh) && Run(env, s, steps, Unforced).Some?
    ensures GoodNonces(Run(env, s, steps, Unforced).value.refresh)
    decreases |steps|
  {
    if steps != [] {
      StepCore(env, s, steps[0]);
      StepCounters(env, s, steps[0]);
      StepNonces(env, s, steps[0]);
      RunNonces(env, Next(env, s, steps[0]), steps[1..]);
    }
  }

  /** Nonces never come back: announced ones rise and are no larger than the counter,
      and a proposal under way is above all of them. */
  ghost predicate Rising(r: RefreshState) {
    && (forall i, j | 0 <= i < j < |r.announced| :: r.announced[i].refresh.nonce < r.announced[j].refresh.nonce)
    && (forall i | 0 <= i < |r.announced| :: r.announced[i].refresh.nonce <= r.nonce)
    && (r.pending.Some? ==> IsNewer(r, r.pending.value))
    && (r.current.Some? ==> IsNewer(r, r.current.value))
  }

  ghost predicate IsNewer(r: RefreshState, proposal: Refresh) {
    && proposal.nonce <= r.nonce + 1
    && forall i | 0 <= i < |r.announced| :: r.announced[i].refresh.nonce < proposal.nonce
  }

  lemma RotateRising(r: RefreshState, key: Bytes, signature: Bytes)
    requires Rising(r) && r.pending.None? && r.nonce < U32_MAX
    ensures Rising(RotateRefresh(r, key, signature))
  {
  }

  /** What a forced rotation of a next key leaves: no next key, one nonce more, no
      announcement, and a proposal with the nonce just counted. */
  lemma ForcedFacts(env: Env, s: Storage, handled: bool)
    requires Admissible(s, ForceChange(handled)) && s.refresh.nonce < U32_MAX
    requires s.keys.next.Some? && env.decompress(s.keys.next.value.key).Some?
    ensures var s' := Next(env, s, ForceChange(handled));
            && s'.keys.next.None? && s'.keys.nextSignature.None? && s'.refresh.current.None?
            && s'.refresh.nonce == s.refresh.nonce + 1 && s'.refresh.announced == s.refresh.announced
            && s'.refresh.pending
               == RefreshFor(env, s.committee.nextAuthorities, s.keys.next.value.key, s.refresh.nonce + 1)
            && s'.refresh.pending.Some?
            && s'.committee.nextAuthorities == s.committee.nextAuthorities
  {
  }

  /** Without a next key that decompresses a forced rotation drops the proposals or
      fails. */
  lemma ForcedIdle(env: Env, s: Storage, handled: bool)
    requires Admissible(s, ForceChange(handled))
    requires s.keys.next.None? || env.decompress(s.keys.next.value.key).None?
    ensures var s' := Next(env, s, ForceChange(handled));
            && s'.refresh.announced == s.refresh.announced && s'.refresh.nonce == s.refresh.nonce
            && s'.keys.next == s.keys.next && s'.keys.nextSignature == s.keys.nextSignature && s'.keys.key == s.keys.key
            && s'.committee.authorities == s.committee.authorities
            && s'.committee.nextAuthorities == s.committee.nextAuthorities
            && (if s.keys.next.None? then s'.refresh.pending.None? && s'.refresh.current.None? else s' == s)
  {
  }

  lemma KeyStepRising(env: Env, s: Storage, step: Step)
    requires Admissible(s, step) && Rising(s.refresh)
    requires KeyStep(step)
    ensures Rising(Next(env, s, step).refresh)
  {
  }

  lemma StepRising(env: Env, s: Storage, step: Step)
    requires Admissible(s, step) && Core(s) && Room(s, 1) && Rising(s.refresh)
    ensures Rising(Next(env, s, step).refresh)
  {
    match step {
      case NewSession(_, _, _) =>
        RotateRising(s.refresh, s.keys.next.value.key, s.keys.nextSignature.value);
      case ForceChange(handled) =>
        if s.keys.next.Some? && env.decompress(s.keys.next.value.key).Some? {
          ForcedFacts(env, s, handled);
        } else {
          ForcedIdle(env, s, handled);
        }
      case _ =>
        if CommitteeStep(step) {
          CommitteeStepFrame(env, s, step);
        } else {
          KeyStepRising(env, s, step);
        }
    }
  }

  /** Over every mix of normal, forced and emergency steps the announced nonces are
      strictly rising, so that none is ever announced twice. */
  lemma {:induction false} RunRising(env: Env, s: Storage, steps: seq<Step>, policy: Policy)
    requires Core(s) && Room(s, |steps|) && Rising(s.refresh) && Run(env, s, steps, policy).Some?
    ensures Rising(Run(env, s, steps, policy).value.refresh)
    decreases |steps|
  {
    if steps != [] {
      StepCore(env, s, steps[0]);
      StepCounters(env, s, steps[0]);
      StepRising(env, s, steps[0]);
      RunRising(env, Next(env, s, steps[0]), steps[1..], policy);
    }
  }

  // ---- What is signed ------------------------------------------------------

  /** The proposal is for this key and these voters. */
  ghost predicate IsFor(env: Env, r: Refresh, key: Bytes, voters: seq<Id>) {
    && env.decompress(key) == Some(r.pubKey)
    && r.voterRoot == env.voterRoot(voters) && r.voterCount == |voters|
  }

  /** A proposal that can come back signed is for the next key and the next voters, a
      signed one too, and everything announced was for the key it came with. */
  ghost predicate Matched(env: Env, s: Storage) {
    && (Signable(env, s) ==>
          s.keys.next.Some? && IsFor(env, s.refresh.pending.value, s.keys.next.value.key, s.committee.nextAuthorities))
    && (s.keys.nextSignature.Some? ==>
          && s.keys.next.Some? && s.refresh.current.Some?
          && IsFor(env, s.refresh.current.value, s.keys.next.value.key, s.committee.nextAuthorities))
    && Matching(env, s.refresh)
  }

  ghost predicate Matching(env: Env, r: RefreshState) {
    forall a | a in r.announced :: env.decompress(a.key) == Some(a.refresh.pubKey)
  }

  /** The last announcement was for the key and the voters in office. */
  ghost predicate LastInOffice(env: Env, s: Storage) {
    s.refresh.announced != [] ==>
      var last := s.refresh.announced[|s.refresh.announced| - 1];
      s.keys.key == Some(SetKey(s.keys.setId, last.key)) && IsFor(env, last.refresh, last.key, s.committee.authorities)
  }

  ghost predicate Covers(env: Env, s: Storage) {
    Matched(env, s) && LastInOffice(env, s)
  }

  lemma AnnouncedAppend(env: Env, announced: seq<Announcement>, a: Announcement)
    requires forall x | x in announced :: env.decompress(x.key) == Some(x.refresh.pubKey)
    requires env.decompress(a.key) == Some(a.refresh.pubKey)
    ensures forall x | x in announced + [a] :: env.decompress(x.key) == Some(x.refresh.pubKey)
  {
  }

  lemma SessionMatched(env: Env, s: Storage, now: nat, validators: seq<Id>, queued: seq<Id>)
    requires Admissible(s, NewSession(now, validators, queued)) && Core(s) && Matched(env, s)
    ensures var s' := OnNewSession(env, s, now, validators, queued);
            Matched(env, s') && (validators == s.committee.nextAuthorities ==> LastInOffice(env, s'))
  {
    RotationAnnounces(env, s, now, validators, queued);
    AnnouncedAppend(env, s.refresh.announced,
                    Announcement(s.refresh.current.value, s.keys.nextSignature.value, s.keys.next.value.key));
  }

  /** Only these parts of the storage matter. */
  lemma MatchedFrame(env: Env, s: Storage, s': Storage)
    requires Matched(env, s)
    requires s'.refresh.pending == s.refresh.pending && s'.refresh.current == s.refresh.current
    requires s'.refresh.announced == s.refresh.announced && s'.refresh.offered <= s.refresh.offered
    requires s'.keys.next == s.keys.next && s'.keys.nextSignature == s.keys.nextSignature
    requires s'.committee.nextAuthorities == s.committee.nextAuthorities
    ensures Matched(env, s')
  {
  }

  lemma SignedMatched(env: Env, s: Storage, data: Bytes, signature: Bytes)
    requires data in s.refresh.offered && Core(s) && Matched(env, s)
    ensures Matched(env, Next(env, s, SignedRefresh(data, signature)))
  {
  }

  lemma BlockMatched(env: Env, s: Storage, now: nat, handled: bool)
    requires Admissible(s, NewBlock(now, handled)) && Core(s) && Matched(env, s)
    ensures Matched(env, Next(env, s, NewBlock(now, handled)))
  {
  }

  lemma KeyStepMatched(env: Env, s: Storage, step: Step)
    requires Admissible(s, step) && Allows(env, Covering, s, step) && KeyStep(step)
    requires Core(s) && Matched(env, s)
    ensures Matched(env, Next(env, s, step))
  {
    match step
    case SignedRefresh(data, signature) => SignedMatched(env, s, data, signature);
    case NewBlock(now, handled) => BlockMatched(env, s, now, handled);
    case _ =>
  }

  lemma KeyStepOffice(env: Env, s: Storage, step: Step)
    requires Admissible(s, step) && KeyStep(step) && LastInOffice(env, s)
    ensures LastInOffice(env, Next(env, s, step))
  {
  }

  lemma StepMatched(env: Env, s: Storage, step: Step)
    requires Admissible(s, step) && Allows(env, Covering, s, step) && Core(s) && Matched(env, s)
    ensures Matched(env, Next(env, s, step))
  {
    if step.NewSession? {
      SessionMatched(env, s, step.now, step.validators, step.queued);
    } else if CommitteeStep(step) {
      CommitteeStepFrame(env, s, step);
      MatchedFrame(env, s, Next(env, s, step));
    } else {
      KeyStepMatched(env, s, step);
    }
  }

  lemma StepOffice(env: Env, s: Storage, step: Step)
    requires Admissible(s, step) && Allows(env, Covering, s, step) && Core(s) && Covers(env, s)
    ensures LastInOffice(env, Next(env, s, step))
  {
    if step.NewSession? {
      SessionMatched(env, s, step.now, step.validators, step.queued);
    } else if CommitteeStep(step) {
      CommitteeStepFrame(env, s, step);
    } else {
      KeyStepOffice(env, s, step);
    }
  }

  /** Whatever was announced last: such runs announce matching keys only. */
  lemma {:induction false} RunMatched(env: Env, s: Storage, steps: seq<Step>)
    requires Core(s) && Room(s, |steps|) && Matched(env, s) && Run(env, s, steps, Covering).Some?
    ensures Matched(env, Run(env, s, steps, Covering).value)
    decreases |steps|
  {
    if steps != [] {
      StepCore(env, s, steps[0]);
      StepCounters(env, s, steps[0]);
      StepMatched(env, s, steps[0]);
      RunMatched(env, Next(env, s, steps[0]), steps[1..]);
    }
  }

  /** In runs without forced rotations, whose emergency keygens find no proposal that
      can still come back signed, every signature that completes a rotation is over the
      key that becomes current and over the Merkle root of the voters that take
      office. */
  lemma {:induction false} RunCovers(env: Env, s: Storage, steps: seq<Step>)
    requires Core(s) && Room(s, |steps|) && Covers(env, s) && Run(env, s, steps, Covering).Some?
    ensures Covers(env, Run(env, s, steps, Covering).value)
    decreases |steps|
  {
    if steps != [] {
      StepCore(env, s, steps[0]);
      StepCounters(env, s, steps[0]);
      StepMatched(env, s, steps[0]);
      StepOffice(env, s, steps[0]);
      RunCovers(env, Next(env, s, steps[0]), steps[1..]);
    }
  }

  // ---- From genesis -----------------------------------------------------------

  /** Every run of at most four billion steps from a genesis storage. */
  lemma GenesisRuns(env: Env, t: nat, n: nat, validators: seq<Id>, steps: seq<Step>)
    requires |steps| < U32_MAX && Run(env, Genesis(t, n, validators), steps, AnyRun).Some?
    ensures var s := Run(env, Genesis(t, n, validators), steps, AnyRun).value;
            Core(s) && Rising(s.refresh)
  {
    var s := Genesis(t, n, validators);
    GenesisCore(t, n, validators);
    RunCore(env, s, steps, AnyRun);
    RunRising(env, s, steps, AnyRun);
  }

  lemma GenesisNonces(env: Env, t: nat, n: nat, validators: seq<Id>, steps: seq<Step>)
    requires |steps| < U32_MAX && Run(env, Genesis(t, n, validators), steps, Unforced).Some?
    ensures GoodNonces(Run(env, Genesis(t, n, validators), steps, Unforced).value.refresh)
  {
    GenesisCore(t, n, validators);
    RunNonces(env, Genesis(t, n, validators), steps);
  }

  lemma GenesisCovers(env: Env, t: nat, n: nat, validators: seq<Id>, steps: seq<Step>)
    requires |steps| < U32_MAX && Run(env, Genesis(t, n, validators), steps, Covering).Some?
    ensures Covers(env, Run(env, Genesis(t, n, validators), steps, Covering).value)
  {
    GenesisCore(t, n, validators);
    RunCovers(env, Genesis(t, n, validators), steps);
  }
}
