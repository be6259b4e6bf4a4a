/** Committees and thresholds over whole runs, misbehaviour reports included: what
    keeps a `t`-of-`n` committee with `t < n` and `n` seats. */
module Committees {
  import opened Orders
  import opened Authorities
  import opened MetadataSpec
  import opened Reports
  import opened Rotation

  // ---- The next-best set --------------------------------------------------------

  /** Clamping keeps a pair proper and fits it to the queued authorities. */
  lemma ClampProper(t: Thresholds, n: nat)
    requires Proper(t) && n > 0
    ensures Proper(Clamp(t, n)) && Clamp(t, n).key <= n
  {
  }

  /** Selecting from enough authorities fills every seat. */
  lemma SelectSeats(count: nat, authorities: seq<Id>, rep: map<Id, nat>, jailed: set<Id>)
    requires NoDuplicates(authorities)
    ensures var best := BestAuthorities(count, authorities, rep, jailed);
            Seats(best, if count < |authorities| then count else |authorities|, authorities)
  {
    NumberedIds(BestIds(count, authorities, rep, jailed));
    BestIdsSpec(count, authorities, rep, jailed);
  }

  lemma ChangeFills(env: Env, s: Storage, validators: seq<Id>, queued: seq<Id>, forced: bool)
    requires queued != [] && NoDuplicates(queued)
    ensures Filled(ChangeAuthorities(env, s, validators, queued, forced).committee)
  {
    var next := Clamp(s.committee.pending, |queued|);
    SelectSeats(next.key, queued, s.standing.reputations, s.standing.jailedKeygen.Keys);
  }

  lemma ReportFills(env: Env, s: Storage, step: Step)
    requires Filled(s.committee) && step.Report? && Admissible(s, step)
    ensures Filled(Next(env, s, step).committee)
  {
    if LooksInto(s, step.offender, step.reporters) {
      ReportOutcome(env, s, step.now, step.offender, step.reporters, step.order);
    }
  }

  /** A signing report lowers signature thresholds at most. */
  lemma SigningKeeps(env: Env, s: Storage, now: nat, offender: Id, reporters: nat)
    ensures var c := Next(env, s, SigningReport(now, offender, reporters)).committee;
            SameSets(s.committee, c) && c.nextBest == s.committee.nextBest && c.next.key == s.committee.next.key
  {
  }

  /** Steps that leave the sets and the next and current thresholds alone. */
  predicate QuietStep(step: Step) {
    !step.NewSession? && !step.ForceChange? && !step.Report? && !step.SigningReport?
  }

  lemma QuietFrame(env: Env, s: Storage, step: Step)
    requires Admissible(s, step) && QuietStep(step)
    ensures var c := Next(env, s, step).committee;
            c.(pending := s.committee.pending) == s.committee
            && (!step.SetSignature? && !step.SetKeygen? ==> c == s.committee)
  {
  }

  lemma StepFilled(env: Env, s: Storage, step: Step)
    requires Filled(s.committee) && Admissible(s, step)
    ensures Filled(Next(env, s, step).committee)
  {
    match step
    case NewSession(now, validators, queued) =>
      ChangeFills(env, s.(flags := s.flags.(lastRotation := now)), validators, queued, false);
    case ForceChange(_) =>
      var voters := s.committee.nextAuthorities;
      ChangeFills(env, s.(refresh := s.refresh.(pending := None, current := None)), voters, voters, true);
    case Report(_, _, _, _) =>
      ReportFills(env, s, step);
    case SigningReport(now, offender, reporters) =>
      SigningKeeps(env, s, now, offender, reporters);
    case _ =>
      QuietFrame(env, s, step);
  }

  /** In every run the next-best set is made of distinct next authorities, no more than
      the keygen threshold. */
  lemma {:induction false} RunFilled(env: Env, s: Storage, steps: seq<Step>, policy: Policy)
    requires Filled(s.committee) && Run(env, s, steps, policy).Some?
    ensures Filled(Run(env, s, steps, policy).value.committee)
    decreases |steps|
  {
    if steps != [] {
      StepFilled(env, s, steps[0]);
      RunFilled(env, Next(env, s, steps[0]), steps[1..], policy);
    }
  }

  // ---- Thresholds -----------------------------------------------------------------

  lemma ChangeThresholds(env: Env, s: Storage, validators: seq<Id>, queued: seq<Id>, forced: bool)
    requires GoodThresholds(s.committee) && queued != []
    ensures GoodThresholds(ChangeAuthorities(env, s, validators, queued, forced).committee)
  {
    ClampProper(s.committee.pending, |queued|);
  }

  lemma QuietThresholds(env: Env, s: Storage, step: Step)
    requires Admissible(s, step) && KeepsBalance(s, step) && QuietStep(step) && GoodThresholds(s.committee)
    ensures GoodThresholds(Next(env, s, step).committee)
  {
    QuietFrame(env, s, step);
  }

  lemma StepThresholds(env: Env, s: Storage, step: Step)
    requires Admissible(s, step) && KeepsBalance(s, step) && GoodThresholds(s.committee) && Filled(s.committee)
    ensures GoodThresholds(Next(env, s, step).committee)
  {
    match step
    case NewSession(now, validators, queued) =>
      ChangeThresholds(env, s.(flags := s.flags.(lastRotation := now)), validators, queued, false);
    case ForceChange(_) =>
      var voters := s.committee.nextAuthorities;
      ChangeThresholds(env, s.(refresh := s.refresh.(pending := None, current := None)), voters, voters, true);
    case Report(now, offender, reporters, order) =>
      if ReportKeygen(env, s, now, offender, reporters, order).Some? {
        ReportThresholdsExact(env, s, now, offender, reporters, order);
      }
    case SigningReport(now, offender, reporters) =>
      if ReportSigning(env, s, now, offender, reporters).Some? {
        SigningThresholdsExact(env, s, now, offender, reporters);
      }
    case _ =>
      QuietThresholds(env, s, step);
  }

  /** Over all operations, the current, next and pending pairs keep
      `signature < keygen`, and the next committee never asks for more authorities than
      are queued, provided signature thresholds are set below the pending keygen
      threshold and reports come in states where they keep the pairs (exactly those of
      ReportThresholdsExact). */
  lemma {:induction false} RunThresholds(env: Env, s: Storage, steps: seq<Step>)
    requires GoodThresholds(s.committee) && Filled(s.committee) && Run(env, s, steps, Balanced).Some?
    ensures GoodThresholds(Run(env, s, steps, Balanced).value.committee)
    decreases |steps|
  {
    if steps != [] {
      StepThresholds(env, s, steps[0]);
      StepFilled(env, s, steps[0]);
      RunThresholds(env, Next(env, s, steps[0]), steps[1..]);
    }
  }

  /** `set_signature_threshold` compares with the number of next authorities only;
      an accepted call keeps the pending pair proper exactly when the new value is
      below the pending keygen threshold. */
  lemma SetSignatureExact(c: Committee, t: nat)
    requires SetSignatureThreshold(c, t).Some?
    ensures Proper(SetSignatureThreshold(c, t).value.pending) <==> t < c.pending.key
  {
  }

  /** The call really accepts values that break the pair. */
  lemma SetSignatureBreaks(c: Committee)
    requires c.pending == Thresholds(1, 3) && |c.nextAuthorities| == 10
    ensures SetSignatureThreshold(c, 5).Some? && !Proper(SetSignatureThreshold(c, 5).value.pending)
  {
  }

  // ---- Seats ------------------------------------------------------------------------

  ghost predicate Seated(c: Committee) {
    && GoodThresholds(c) && NoDuplicates(c.nextAuthorities)
    && Seats(c.best, c.current.key, c.authorities)
    && Seats(c.nextBest, c.next.key, c.nextAuthorities)
  }

  lemma ChangeSeated(env: Env, s: Storage, queued: seq<Id>, forced: bool)
    requires Seated(s.committee) && queued != [] && NoDuplicates(queued)
    ensures Seated(ChangeAuthorities(env, s, s.committee.nextAuthorities, queued, forced).committee)
  {
    var next := Clamp(s.committee.pending, |queued|);
    ClampProper(s.committee.pending, |queued|);
    SelectSeats(next.key, queued, s.standing.reputations, s.standing.jailedKeygen.Keys);
  }

  lemma ReportSeated(env: Env, s: Storage, now: nat, offender: Id, reporters: nat, order: seq<Id>)
    requires Seated(s.committee) && Accepted(env, s, now, offender, reporters, order)
    requires KeepsNext(s, offender) && KeepsPending(s, offender) && KeepsSeats(s, offender)
    ensures Seated(ReportKeygen(env, s, now, offender, reporters, order).value.committee)
  {
    ReportThresholdsExact(env, s, now, offender, reporters, order);
    ReportSeatsExact(env, s, now, offender, reporters, order);
  }

  lemma StepSeated(env: Env, s: Storage, step: Step)
    requires Admissible(s, step) && Allows(env, Seating, s, step) && Seated(s.committee)
    ensures Seated(Next(env, s, step).committee)
  {
    match step
    case NewSession(now, _, queued) =>
      ChangeSeated(env, s.(flags := s.flags.(lastRotation := now)), queued, false);
    case ForceChange(_) =>
      ChangeSeated(env, s.(refresh := s.refresh.(pending := None, current := None)), s.committee.nextAuthorities, true);
    case Report(now, offender, reporters, order) =>
      if ReportKeygen(env, s, now, offender, reporters, order).Some? {
        ReportSeated(env, s, now, offender, reporters, order);
      }
    case SigningReport(now, offender, reporters) =>
      SigningKeeps(env, s, now, offender, reporters);
      StepThresholds(env, s, step);
    case _ =>
      QuietThresholds(env, s, step);
      QuietFrame(env, s, step);
  }

  /** In those runs, when the queued validators are the ones that take office and
      reports find no jailed fill-in (or lower the threshold), the acting committee and
      the next one always have exactly keygen-threshold distinct members, all
      authorities of their session, with `signature < keygen`. */
  lemma {:induction false} RunSeated(env: Env, s: Storage, steps: seq<Step>)
    requires Seated(s.committee) && Run(env, s, steps, Seating).Some?
    ensures Seated(Run(env, s, steps, Seating).value.committee)
    decreases |steps|
  {
    if steps != [] {
      StepSeated(env, s, steps[0]);
      RunSeated(env, Next(env, s, steps[0]), steps[1..]);
    }
  }

  lemma GenesisSeated(t: nat, n: nat, validators: seq<Id>)
    requires GenesisAccepts(t, n, validators)
    ensures Seated(Genesis(t, n, validators).committee) && Filled(Genesis(t, n, validators).committee)
  {
    SelectSeats(n, validators, map[], {});
  }

  // ---- Jailed fill-ins ----------------------------------------------------------------

  /** An authority change that asks for all queued authorities seats them all, whoever
      is jailed. */
  lemma ChangeSeatsAll(env: Env, s: Storage, validators: seq<Id>, queued: seq<Id>, forced: bool)
    requires queued != [] && NoDuplicates(queued) && s.committee.pending.key == |queued|
    ensures NextBest(ChangeAuthorities(env, s, validators, queued, forced)) == Elements(queued)
  {
    SelectAll(|queued|, queued, s.standing.reputations, s.standing.jailedKeygen.Keys);
  }

  /** A report accepted in `s` that leads to `s'`. */
  ghost predicate Leading(env: Env, s: Storage, c: Complaint, s': Storage) {
    Accepts(env, s, c) && s' == After(env, s, c)
  }

  /** A report that lowers the thresholds. */
  lemma LoweringReport(env: Env, s: Storage, offender: Id, reporters: nat) returns (c: Complaint, s': Storage)
    requires Filled(s.committee) && LooksInto(s, offender, reporters) && Lowers(s, offender) && |Free(s)| >= 3
    ensures Leading(env, s, c, s') && Filled(s'.committee) && Outcome(s, s', offender)
    ensures s'.keys == s.keys && SameSets(s.committee, s'.committee)
  {
    var order := SomeOrder(s.standing.reputations.Keys + {offender});
    c := Complaint(0, offender, reporters, order);
    ReportOutcome(env, s, 0, offender, reporters, order);
    s' := After(env, s, c);
  }

  /** All next authorities are `v`; those outside the next-best set are jailed. */
  ghost predicate AllSeatedOrJailed(s: Storage, v: seq<Id>) {
    && s.committee.nextAuthorities == v && NoDuplicates(v) && Filled(s.committee)
    && Elements(v) == NextBest(s) + s.standing.jailedKeygen.Keys
    && s.standing.jailedSigning == map[] && s.keys.next.None?
  }

  /** `t` is scheduled and pending, and `n` members are free. */
  ghost predicate Stands(s: Storage, t: Thresholds, n: nat) {
    s.committee.next == t && s.committee.pending == t && |Free(s)| == n
  }

  lemma AfterLowering(s: Storage, s': Storage, v: seq<Id>, offender: Id)
    requires AllSeatedOrJailed(s, v) && Lowers(s, offender) && Outcome(s, s', offender)
    requires Filled(s'.committee) && s'.keys == s.keys && SameSets(s.committee, s'.committee)
    ensures AllSeatedOrJailed(s', v) && Free(s') == Free(s) - {offender}
    ensures SameThresholds(s'.committee, LowerThresholds(s.committee, |Free(s)|))
  {
  }

  lemma NobodyWaits(s: Storage, v: seq<Id>, offender: Id, reporters: nat)
    requires AllSeatedOrJailed(s, v) && offender in Free(s) && reporters > s.committee.next.sig
    ensures Lowers(s, offender) && LooksInto(s, offender, reporters)
  {
    assert offender in Elements(v);
    assert Reserve(s, offender) == {};
  }

  /** Nobody can replace a member then, so a report lowers the thresholds. */
  lemma LowersAgain(env: Env, s: Storage, v: seq<Id>, offender: Id, reporters: nat) returns (c: Complaint, s': Storage)
    requires AllSeatedOrJailed(s, v) && offender in Free(s) && reporters > s.committee.next.sig && |Free(s)| >= 3
    ensures Leading(env, s, c, s') && AllSeatedOrJailed(s', v) && Free(s') == Free(s) - {offender}
    ensures SameThresholds(s'.committee, LowerThresholds(s.committee, |Free(s)|))
  {
    NobodyWaits(s, v, offender, reporters);
    c, s' := LoweringReport(env, s, offender, reporters);
    AfterLowering(s, s', v, offender);
  }

  lemma GenesisStands(t: nat, n: nat, v: seq<Id>)
    requires GenesisAccepts(t, n, v) && n == |v|
    ensures AllSeatedOrJailed(Genesis(t, n, v), v) && Stands(Genesis(t, n, v), Thresholds(t, n), n)
    ensures Free(Genesis(t, n, v)) == Elements(v)
  {
    GenesisSeated(t, n, v);
    SelectAll(n, v, map[], {});
    NoDuplicatesCardinality(v);
  }

  ghost function StepOf(c: Complaint): Step {
    Report(c.now, c.offender, c.reporters, c.order)
  }

  lemma ReportRuns(env: Env, s: Storage, c: Complaint, s': Storage)
    requires Leading(env, s, c, s')
    ensures Run(env, s, [StepOf(c)], AnyRun) == Some(s')
  {
    RunOne(env, s, StepOf(c), AnyRun);
  }

  lemma LowersByOne(env: Env, s: Storage, v: seq<Id>, n: nat, offender: Id) returns (steps: seq<Step>, s': Storage)
    requires AllSeatedOrJailed(s, v) && offender in Free(s) && Stands(s, Thresholds(1, n), n) && n >= 4
    ensures Run(env, s, steps, AnyRun) == Some(s')
    ensures AllSeatedOrJailed(s', v) && Free(s') == Free(s) - {offender} && Stands(s', Thresholds(1, n - 1), n - 1)
  {
    var c;
    c, s' := LowersAgain(env, s, v, offender, 2);
    ReportRuns(env, s, c, s');
    steps := [StepOf(c)];
  }

  /** 1-of-5 at genesis: two reports leave 1-of-3 with two jailed. */
  lemma TwoReports(env: Env, s: Storage, v: seq<Id>, p: Id, q: Id) returns (steps: seq<Step>, s': Storage)
    requires AllSeatedOrJailed(s, v) && Stands(s, Thresholds(1, 5), 5) && p in Free(s) && q in Free(s) && p != q
    ensures Run(env, s, steps, AnyRun) == Some(s')
    ensures AllSeatedOrJailed(s', v) && Stands(s', Thresholds(1, 3), 3) && Free(s') == Free(s) - {p} - {q}
  {
    var a, s1 := LowersByOne(env, s, v, 5, p);
    var b;
    b, s' := LowersByOne(env, s1, v, 4, q);
    RunConcat(env, s, a, b, AnyRun);
    steps := a + b;
  }

  lemma Raise(env: Env, s: Storage, v: seq<Id>) returns (s': Storage)
    requires |v| == 5 && AllSeatedOrJailed(s, v) && Stands(s, Thresholds(1, 3), 3)
    ensures Run(env, s, [SetKeygen(5), SetSignature(3)], AnyRun) == Some(s')
    ensures s' == s.(committee := s.committee.(pending := Thresholds(3, 5)))
  {
    var s1 := s.(committee := s.committee.(pending := Thresholds(1, 5)));
    s' := s.(committee := s.committee.(pending := Thresholds(3, 5)));
    RunOne(env, s1, SetSignature(3), AnyRun);
    assert [SetKeygen(5), SetSignature(3)][1..] == [SetSignature(3)];
  }

  /** Changing authorities with the thresholds raised seats the jailed ones again. */
  lemma ChangeSeatsJailed(env: Env, s: Storage, v: seq<Id>) returns (s': Storage)
    requires |v| == 5 && AllSeatedOrJailed(s, v) && s.committee.pending == Thresholds(3, 5)
    ensures Run(env, s, [ForceChange(false)], AnyRun) == Some(s') && AllSeatedOrJailed(s', v)
    ensures s'.committee.next == Thresholds(3, 5) && Free(s') == Free(s)
  {
    var dropped := s.(refresh := s.refresh.(pending := None, current := None));
    ChangeSeatsAll(env, dropped, v, v, true);
    ChangeFills(env, dropped, v, v, true);
    s' := ChangeAuthorities(env, dropped, v, v, true);
    RunOne(env, s, ForceChange(false), AnyRun);
  }

  /** Raised thresholds, an authority change and a third report. */
  lemma RaiseAndReport(env: Env, s: Storage, v: seq<Id>, r: Id) returns (steps: seq<Step>, s': Storage)
    requires |v| == 5 && AllSeatedOrJailed(s, v) && Stands(s, Thresholds(1, 3), 3) && r in Free(s)
    ensures Run(env, s, steps, AnyRun) == Some(s') && s'.committee.next == Thresholds(2, 2)
  {
    var s1 := Raise(env, s, v);
    var s2 := ChangeSeatsJailed(env, s1, v);
    var c;
    c, s' := LowersAgain(env, s2, v, r, 4);
    ReportRuns(env, s2, c, s');
    RunConcat(env, s1, [ForceChange(false)], [StepOf(c)], AnyRun);
    steps := [SetKeygen(5), SetSignature(3)] + ([ForceChange(false)] + [StepOf(c)]);
    RunConcat(env, s, [SetKeygen(5), SetSignature(3)], [ForceChange(false)] + [StepOf(c)], AnyRun);
  }

  lemma FiveToTwo(env: Env, s: Storage, v: seq<Id>, p: Id, q: Id, r: Id) returns (steps: seq<Step>, s': Storage)
    requires |v| == 5 && AllSeatedOrJailed(s, v) && Stands(s, Thresholds(1, 5), 5)
    requires p in Free(s) && q in Free(s) && r in Free(s) && p != q && p != r && q != r
    ensures Run(env, s, steps, AnyRun) == Some(s') && s'.committee.next == Thresholds(2, 2)
  {
    var a, s1 := TwoReports(env, s, v, p, q);
    var b;
    b, s' := RaiseAndReport(env, s1, v, r);
    RunConcat(env, s, a, b, AnyRun);
    steps := a + b;
  }

  /** From a genesis of five validators, two reports, raised thresholds and an authority
      change that seats the jailed ones again: one more report leaves the next pair at
      2 of 2. */
  lemma FillInsBreakPair(env: Env, v: seq<Id>) returns (steps: seq<Step>)
    requires |v| == 5 && NoDuplicates(v)
    ensures GenesisAccepts(1, 5, v)
    ensures var r := Run(env, Genesis(1, 5, v), steps, AnyRun);
            r.Some? && r.value.committee.next == Thresholds(2, 2)
  {
    GenesisStands(1, 5, v);
    assert v[0] in Elements(v) && v[1] in Elements(v) && v[2] in Elements(v);
    var last;
    steps, last := FiveToTwo(env, Genesis(1, 5, v), v, v[0], v[1], v[2]);
  }
}
