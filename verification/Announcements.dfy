/** What forced rotations and emergency keygens leave behind: gaps in the numbering of
    announcements, and proposals that get announced with another key. */
module Announcements {
  import opened Orders
  import opened Authorities
  import opened MetadataSpec
  import opened Reports
  import opened Rotation
  import opened Committees
  import opened Stalls

  // ---- Numbering ----------------------------------------------------------------

  /** The announcements are numbered 1, 2, 3, ... without a gap. */
  ghost predicate GapFree(r: RefreshState) {
    forall i | 0 <= i < |r.announced| :: r.announced[i].refresh.nonce == i + 1
  }

  /** Every run without further forced rotations keeps the numbering. */
  ghost predicate StaysGapFree(env: Env, s: Storage) {
    forall steps | Room(s, |steps|) && Run(env, s, steps, Unforced).Some? ::
      GapFree(Run(env, s, steps, Unforced).value.refresh)
  }

  lemma NumberingStays(env: Env, s: Storage)
    requires Core(s) && GoodNonces(s.refresh)
    ensures StaysGapFree(env, s)
  {
    forall steps | Room(s, |steps|) && Run(env, s, steps, Unforced).Some?
      ensures GapFree(Run(env, s, steps, Unforced).value.refresh)
    {
      RunNonces(env, s, steps);
    }
  }

  lemma StalledNumbering(env: Env, s: Storage)
    requires Between(s) && !Agreeable(s.committee) && GapFree(s.refresh)
    ensures StaysGapFree(env, s)
  {
    forall steps | Room(s, |steps|) && Run(env, s, steps, Unforced).Some?
      ensures GapFree(Run(env, s, steps, Unforced).value.refresh)
    {
      RunStalls(env, s, steps, Unforced);
    }
  }

  lemma NumberingBreaks(env: Env, s: Storage, key: Bytes, signature: Bytes)
    requires Between(s) && Agreeable(s.committee) && GoodList(s.committee.nextAuthorities)
    requires Room(s, 6) && |s.refresh.announced| != s.refresh.nonce
    requires env.decompress(key).Some? && Usable(env, s, signature)
    ensures !StaysGapFree(env, s)
  {
    var steps, s' := CycleFromAgreeable(env, s, key, signature);
    RunLoosens(env, s, steps);
    assert s'.refresh.announced[|s.refresh.announced|].refresh.nonce == s.refresh.nonce + 1;
    assert Room(s, |steps|);
  }

  /** A next key that a forced rotation would put into office. */
  ghost predicate CanForce(env: Env, s: Storage) {
    s.keys.next.Some? && env.decompress(s.keys.next.value.key).Some?
  }

  lemma ForcedAgrees(env: Env, s: Storage, handled: bool)
    requires CanForce(env, s) && GoodList(s.committee.nextAuthorities) && s.refresh.nonce < U32_MAX
    ensures var s' := Next(env, s, ForceChange(handled));
            && Filled(s'.committee) && s'.committee.nextAuthorities == s.committee.nextAuthorities
            && (Agreeable(s'.committee) <==> !Blocked(s.committee, |s.committee.nextAuthorities|))
  {
    var voters := s.committee.nextAuthorities;
    RotationAgrees(env, s.(refresh := s.refresh.(pending := None, current := None)), voters, voters, true);
  }

  /** A forced rotation counts a nonce but announces nothing: the numbering of later
      announcements has a gap, exactly when there is a next key that decompresses and
      a later key can be agreed on. */
  lemma ForcedNumberingExact(env: Env, s: Storage, handled: bool, signature: Bytes)
    requires Core(s) && Room(s, 7) && GoodNonces(s.refresh) && Admissible(s, ForceChange(handled))
    requires GoodList(s.committee.nextAuthorities) && Usable(env, Next(env, s, ForceChange(handled)), signature)
    ensures StaysGapFree(env, Next(env, s, ForceChange(handled)))
       <==> !CanForce(env, s) || Blocked(s.committee, |s.committee.nextAuthorities|)
  {
    var s' := Next(env, s, ForceChange(handled));
    if !CanForce(env, s) {
      StepCore(env, s, ForceChange(handled));
      ForcedIdle(env, s, handled);
      NumberingStays(env, s');
    } else {
      ForcedFacts(env, s, handled);
      ForcedAgrees(env, s, handled);
      StepCounters(env, s, ForceChange(handled));
      if Agreeable(s'.committee) {
        NumberingBreaks(env, s', s.keys.next.value.key, signature);
      } else {
        StalledNumbering(env, s');
      }
    }
  }

  lemma ForcedSignatures(env: Env, s: Storage, handled: bool)
    requires Admissible(s, ForceChange(handled))
    ensures forall x | x in Next(env, s, ForceChange(handled)).keys.usedSignatures ::
              x in s.keys.usedSignatures || x == s.keys.signature
  {
    if s.keys.next.Some? {
      RotateSignatures(env, s.keys, s.keys.next.value);
    }
  }

  lemma RotateSignatures(env: Env, k: Keys, next: SetKey)
    ensures forall x | x in RotateKeys(env, k, next, []).usedSignatures :: x in k.usedSignatures || x == k.signature
  {
  }

  ghost function ForcedStart(t: nat, n: nat, validators: seq<Id>, key: Bytes): seq<Step> {
    [SubmitNextKey(key, Backers(Genesis(t, n, validators).committee)), ForceChange(false)]
  }

  lemma ForcedFirst(env: Env, t: nat, n: nat, validators: seq<Id>, key: Bytes) returns (s: Storage)
    requires GenesisAccepts(t, n, validators) && env.decompress(key).Some?
    ensures Run(env, Genesis(t, n, validators), ForcedStart(t, n, validators, key), AnyRun) == Some(s)
    ensures Between(s) && Agreeable(s.committee) && GoodList(s.committee.nextAuthorities)
    ensures s.refresh.nonce == 1 && s.refresh.announced == [] && forall x | x in s.keys.usedSignatures :: x == []
  {
    var s0, steps := Genesis(t, n, validators), ForcedStart(t, n, validators, key);
    var s1 := Next(env, s0, steps[0]);
    GenesisBetween(t, n, validators);
    TakesKey(env, s0, key);
    s := Next(env, s1, steps[1]);
    ForcedFacts(env, s1, false);
    ForcedAgrees(env, s1, false);
    ForcedSignatures(env, s1, false);
    RunOne(env, s1, steps[1], AnyRun);
    assert steps[1..] == [steps[1]];
  }

  /** From genesis: a forced rotation before the first refresh makes the first
      announced nonce two. */
  lemma ForcedGap(env: Env, t: nat, n: nat, validators: seq<Id>, key: Bytes, signature: Bytes)
    returns (steps: seq<Step>)
    requires GenesisAccepts(t, n, validators) && env.decompress(key).Some?
    requires 0 < |signature| <= env.maxSignatureLength
    ensures var r := Run(env, Genesis(t, n, validators), steps, AnyRun);
            r.Some? && |r.value.refresh.announced| == 1 && r.value.refresh.announced[0].refresh.nonce == 2
  {
    var s := ForcedFirst(env, t, n, validators, key);
    var cycle, s' := CycleFromAgreeable(env, s, key, signature);
    var start := ForcedStart(t, n, validators, key);
    RunAllowed(env, s, cycle, Steady);
    steps := start + cycle;
    RunConcat(env, Genesis(t, n, validators), start, cycle, AnyRun);
  }

  // ---- Proposals left behind ------------------------------------------------------

  lemma LeftoverSigned(env: Env, s: Storage, key: Bytes, signature: Bytes) returns (steps: seq<Step>, s': Storage)
    requires Signable(env, s) && Between(s) && CanAgree(s.committee) && Usable(env, s, signature)
    requires GoodList(s.committee.nextAuthorities)
    ensures |steps| == 3 && Run(env, s, steps, Steady) == Some(s')
    ensures s'.refresh.announced == s.refresh.announced + [Announcement(s.refresh.pending.value, signature, key)]
  {
    var taken := StoresKey(env, s, key);
    var rest, s1, last := SignsAndEnds(env, taken, signature);
    s' := last;
    steps := [SubmitNextKey(key, Backers(s.committee))] + rest;
    RunPrepend(env, s, steps[0], rest, Steady);
  }

  /** What a proposal left behind leads to: once another next key arrives and the
      old proposal's signature comes in before the next block, the session can end
      and the new key is announced with the old proposal. */
  lemma LeftoverAnnounced(env: Env, s: Storage, key: Bytes, signature: Bytes) returns (steps: seq<Step>, s': Storage)
    requires Signable(env, s) && Between(s) && Agreeable(s.committee) && Usable(env, s, signature)
    requires GoodList(s.committee.nextAuthorities)
    ensures |steps| <= 5 && Run(env, s, steps, Steady) == Some(s')
    ensures s'.refresh.announced == s.refresh.announced + [Announcement(s.refresh.pending.value, signature, key)]
  {
    var a, agreed := MakesAgree(env, s);
    var b;
    b, s' := LeftoverSigned(env, agreed, key, signature);
    steps := a + b;
    RunConcat(env, s, a, b, Steady);
  }

  /** Every covering run from here announces matching keys only. */
  ghost predicate StaysMatching(env: Env, s: Storage) {
    forall steps | Room(s, |steps|) && Run(env, s, steps, Covering).Some? ::
      Matching(env, Run(env, s, steps, Covering).value.refresh)
  }

  lemma CoveredMatches(env: Env, s: Storage)
    requires Core(s) && Matched(env, s)
    ensures StaysMatching(env, s)
  {
    forall steps | Room(s, |steps|) && Run(env, s, steps, Covering).Some?
      ensures Matching(env, Run(env, s, steps, Covering).value.refresh)
    {
      RunMatched(env, s, steps);
    }
  }

  lemma StalledMatches(env: Env, s: Storage)
    requires Between(s) && !Agreeable(s.committee) && Matching(env, s.refresh)
    ensures StaysMatching(env, s)
  {
    forall steps | Room(s, |steps|) && Run(env, s, steps, Covering).Some?
      ensures Matching(env, Run(env, s, steps, Covering).value.refresh)
    {
      RunStalls(env, s, steps, Covering);
    }
  }

  lemma LeftoverMismatches(env: Env, s: Storage, key: Bytes, signature: Bytes)
    requires Signable(env, s) && Between(s) && Agreeable(s.committee) && Usable(env, s, signature)
    requires GoodList(s.committee.nextAuthorities) && Room(s, 5)
    requires env.decompress(key) != Some(s.refresh.pending.value.pubKey)
    ensures !StaysMatching(env, s)
  {
    var steps, s' := LeftoverAnnounced(env, s, key, signature);
    RunLoosens(env, s, steps);
    assert s'.refresh.announced[|s.refresh.announced|] in s'.refresh.announced;
    assert Room(s, |steps|);
  }

  /** Between two keys, some covering run announces a proposal left behind with another
      key, exactly when the handler holds the proposal and another key can be agreed
      on. */
  lemma LeftBehindExact(env: Env, s: Storage, key: Bytes, signature: Bytes)
    requires Core(s) && Room(s, 5) && Between(s) && Matching(env, s.refresh)
    requires Usable(env, s, signature) && GoodList(s.committee.nextAuthorities)
    requires s.refresh.pending.Some? ==> env.decompress(key) != Some(s.refresh.pending.value.pubKey)
    ensures StaysMatching(env, s) <==> !Signable(env, s) || !Agreeable(s.committee)
  {
    if !Signable(env, s) {
      CoveredMatches(env, s);
    } else if Agreeable(s.committee) {
      LeftoverMismatches(env, s, key, signature);
    } else {
      StalledMatches(env, s);
    }
  }

  /** After an emergency keygen every covering run announces matching keys only,
      exactly when the handler holds no pending proposal or no other key can be agreed
      on. (`key` stands for a key other than the pending one, `signature` for an unused
      signature.) */
  lemma EmergencyCoverExact(env: Env, s: Storage, key: Bytes, signature: Bytes)
    requires Core(s) && Matched(env, s) && Room(s, 5)
    requires Usable(env, s, signature) && Filled(s.committee) && GoodList(s.committee.nextAuthorities)
    requires s.refresh.pending.Some? ==> env.decompress(key) != Some(s.refresh.pending.value.pubKey)
    ensures StaysMatching(env, TriggerEmergencyKeygen(s)) <==> !Signable(env, s) || !Agreeable(s.committee)
  {
    LeftBehindExact(env, TriggerEmergencyKeygen(s), key, signature);
  }

  /** The handler already holds the proposal for the next key. */
  ghost predicate OwnOffered(env: Env, s: Storage)
    requires CanForce(env, s)
  {
    env.encode(OwnProposal(env, s).value) in s.refresh.offered
  }

  lemma ForcedIdleMatches(env: Env, s: Storage, handled: bool)
    requires Core(s) && Matched(env, s) && Room(s, 1)
    requires Admissible(s, ForceChange(handled)) && !CanForce(env, s)
    ensures StaysMatching(env, Next(env, s, ForceChange(handled)))
  {
    StepCore(env, s, ForceChange(handled));
    ForcedIdle(env, s, handled);
    CoveredMatches(env, Next(env, s, ForceChange(handled)));
  }

  lemma ForcedOffers(env: Env, s: Storage, handled: bool)
    requires Admissible(s, ForceChange(handled)) && CanForce(env, s) && s.refresh.nonce < U32_MAX
    ensures Signable(env, Next(env, s, ForceChange(handled))) <==> handled || OwnOffered(env, s)
  {
  }

  /** After a forced rotation every covering run announces matching keys only, exactly
      when there was no next key that decompresses, or the handler does not hold the
      proposal for it, or no later key can be agreed on: otherwise the proposal left
      behind is for the key already in office. */
  lemma ForcedCoverExact(env: Env, s: Storage, handled: bool, key: Bytes, signature: Bytes)
    requires Core(s) && Matched(env, s) && Room(s, 6)
    requires Admissible(s, ForceChange(handled)) && GoodList(s.committee.nextAuthorities)
    requires Usable(env, Next(env, s, ForceChange(handled)), signature)
    requires s.keys.next.Some? ==> env.decompress(key) != env.decompress(s.keys.next.value.key)
    ensures StaysMatching(env, Next(env, s, ForceChange(handled)))
       <==> || !CanForce(env, s) || !(handled || OwnOffered(env, s))
            || Blocked(s.committee, |s.committee.nextAuthorities|)
  {
    if !CanForce(env, s) {
      ForcedIdleMatches(env, s, handled);
    } else {
      var s' := Next(env, s, ForceChange(handled));
      ForcedFacts(env, s, handled);
      ForcedAgrees(env, s, handled);
      ForcedOffers(env, s, handled);
      StepCounters(env, s, ForceChange(handled));
      StepCore(env, s, ForceChange(handled));
      LeftBehindExact(env, s', key, signature);
    }
  }

  /** Two copies of one proposal: a next key, a block that stages its proposal, an
      emergency keygen, the same key and its proposal again, another emergency keygen;
      then the first copy comes back in vain and the second one, in time for another key,
      gets announced with that. */
  lemma SecondCopyAnnounced(env: Env, t: nat, n: nat, validators: seq<Id>, key: Bytes, other: Bytes, signature: Bytes)
    returns (steps: seq<Step>)
    requires GenesisAccepts(t, n, validators) && |signature| <= env.maxSignatureLength
    requires env.decompress(key).Some? && env.decompress(other) != env.decompress(key)
    ensures var r := Run(env, Genesis(t, n, validators), steps, Unforced);
            r.Some? && !Matching(env, r.value.refresh)
  {
    var s := Genesis(t, n, validators);
    GenesisBetween(t, n, validators);
    var a, s1 := ProposesInVain(env, s, key);
    var b, s2 := ProposesInVain(env, s1, key);
    var back := SignedRefresh(env.encode(s2.refresh.pending.value), signature);
    var s3 := Next(env, s2, back);
    RunOne(env, s2, back, Unforced);
    var c, s4 := LeftoverAnnounced(env, s3, other, signature);
    RunLoosens(env, s3, c);
    RunConcat(env, s2, [back], c, Unforced);
    RunConcat(env, s1, b, [back] + c, Unforced);
    RunConcat(env, s, a, b + ([back] + c), Unforced);
    steps := a + (b + ([back] + c));
    assert s4.refresh.announced[|s3.refresh.announced|] in s4.refresh.announced;
  }

  /** A next key, its proposal and an emergency keygen leave a copy with the handler. */
  lemma ProposesInVain(env: Env, s: Storage, key: Bytes) returns (steps: seq<Step>, s': Storage)
    requires Between(s) && CanAgree(s.committee) && env.decompress(key).Some?
    ensures Run(env, s, steps, Unforced) == Some(s')
    ensures var proposal := RefreshFor(env, s.committee.nextAuthorities, key, s.refresh.nonce + 1).value;
            && s'.refresh.pending == Some(proposal)
            && s'.refresh.offered == s.refresh.offered + multiset{env.encode(proposal)}
    ensures s'.committee == s.committee && s'.keys == s.keys && s'.refresh.nonce == s.refresh.nonce
    ensures s'.refresh.announced == s.refresh.announced && s'.flags.lastRotation == s.flags.lastRotation
  {
    var a, b := SubmitNextKey(key, Backers(s.committee)), NewBlock(s.flags.lastRotation, true);
    var s1 := Next(env, s, a);
    TakesKey(env, s, key);
    var s2 := Next(env, s1, b);
    s' := Next(env, s2, EmergencyKeygen);
    steps := [a, b, EmergencyKeygen];
    RunOne(env, s2, EmergencyKeygen, Unforced);
    assert steps[1..] == [b, EmergencyKeygen] && [b, EmergencyKeygen][1..] == [EmergencyKeygen];
    assert Run(env, s1, [b, EmergencyKeygen], Unforced) == Run(env, s2, [EmergencyKeygen], Unforced);
  }
}
