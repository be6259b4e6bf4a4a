/** The metadata pallet as it runs: storage items updated step by step, each
    operation proved against its effect in module MetadataSpec. */
module Metadata {
  import opened Orders
  import opened Authorities
  import Spec = MetadataSpec
  import opened MetadataSpec

  /** `process_public_key_submissions` */
  method ProcessSubmissions(votes: seq<Vote>, authorities: seq<Id>) returns (dict: Option<map<Bytes, seq<Id>>>)
    ensures dict == Tally(votes, Elements(authorities))
  {
    var d: map<Bytes, seq<Id>> := map[];
    var i := 0;
    while i < |votes|
      invariant 0 <= i <= |votes|
      invariant Tally(votes[..i], Elements(authorities)) == Some(d)
    {
      var vote := votes[i];
      assert votes[..i + 1] == votes[..i] + [vote];
      assert votes[..i + 1][..i] == votes[..i];
      ghost var before := d;
      if vote.signer.None? || vote.signer.value !in authorities {
        RefusedPrefix(votes, i + 1, Elements(authorities));
        return None;
      }
      if vote.key !in d {
        d := d[vote.key := []];
      }
      if vote.signer.value !in d[vote.key] {
        d := d[vote.key := d[vote.key] + [vote.signer.value]];
      }
      ghost var known := if vote.key in before then before[vote.key] else [];
      assert d == before[vote.key := if vote.signer.value in known then known else known + [vote.signer.value]];
      i := i + 1;
    }
    assert votes[..i] == votes;
    dict := Some(d);
  }

  lemma {:induction false} RefusedPrefix(votes: seq<Vote>, k: nat, authorities: set<Id>)
    requires k <= |votes| && Tally(votes[..k], authorities).None?
    ensures Tally(votes, authorities).None?
  {
    if k < |votes| {
      assert votes[..|votes| - 1][..k] == votes[..k];
      RefusedPrefix(votes[..|votes| - 1], k, authorities);
    } else {
      assert votes[..k] == votes;
    }
  }

  /** The first key in byte order with enough signers, if there is one. */
  method FindAccepted(tally: map<Bytes, seq<Id>>, threshold: nat) returns (key: Option<Bytes>)
    ensures IsFirstAccepted(tally, threshold, key)
  {
    var keys := HashOrder(tally.Keys);
    assert forall k :: k in tally <==> k in keys by {
      assert forall k :: k in keys <==> k in Elements(keys);
    }
    key := None;
    for i := 0 to |keys|
      invariant key.Some? ==> key.value in tally && |tally[key.value]| >= threshold
      invariant forall j | 0 <= j < i && |tally[keys[j]]| >= threshold ::
                  key.Some? && (keys[j] == key.value || LexLess(key.value, keys[j]))
    {
      if |tally[keys[i]]| >= threshold {
        if key.None? {
          key := Some(keys[i]);
        } else {
          var before := key.value;
          LexTotal(before, keys[i]);
          if LexLess(keys[i], before) {
            key := Some(keys[i]);
            forall j | 0 <= j < i && |tally[keys[j]]| >= threshold ensures LexLess(keys[i], keys[j]) {
              if keys[j] != before {
                LexTransitive(keys[i], before, keys[j]);
              }
            }
          }
        }
      }
    }
  }

  /** The reporters that come with a good signature. */
  ghost function Vouched(reporters: seq<Id>, verified: seq<bool>): set<Id> {
    set i | 0 <= i < |verified| && verified[i] && i < |reporters| :: reporters[i]
  }

  /** A good signature without a reporter, on which the source panics. */
  ghost predicate LacksReporter(reporters: seq<Id>, verified: seq<bool>) {
    exists i :: |reporters| <= i < |verified| && verified[i]
  }

  /** `process_misbehaviour_reports`; `verified` says which signatures are from the
      verifying set. */
  method ValidReporters(reporters: seq<Id>, verified: seq<bool>) returns (valid: Option<seq<Id>>)
    ensures valid.None? <==> LacksReporter(reporters, verified)
    ensures valid.Some? ==> Enumerates(valid.value, Vouched(reporters, verified))
  {
    var found: seq<Id> := [];
    for i := 0 to |verified|
      invariant forall j | |reporters| <= j < i :: !verified[j]
      invariant Enumerates(found, Vouched(reporters, verified[..i]))
    {
      VouchedNext(reporters, verified, i);
      if verified[i] {
        if i >= |reporters| {
          return None;
        }
        if reporters[i] !in found {
          NoDuplicatesConcat(found, [reporters[i]]);
          ElementsAppend(found, reporters[i]);
          found := found + [reporters[i]];
        }
      }
    }
    assert verified[..|verified|] == verified;
    valid := Some(found);
  }

  lemma VouchedNext(reporters: seq<Id>, verified: seq<bool>, i: nat)
    requires i < |verified|
    ensures Vouched(reporters, verified[..i + 1])
         == Vouched(reporters, verified[..i]) + if verified[i] && i < |reporters| then {reporters[i]} else {}
  {
    var before, after := verified[..i], verified[..i + 1];
    forall x | x in Vouched(reporters, before) ensures x in Vouched(reporters, after) {
      var j :| 0 <= j < i && before[j] && j < |reporters| && x == reporters[j];
      assert after[j];
    }
    if verified[i] && i < |reporters| {
      assert after[i];
    }
    forall x | x in Vouched(reporters, after)
      ensures x in Vouched(reporters, before) || (verified[i] && i < |reporters| && x == reporters[i])
    {
      var j :| 0 <= j <= i && after[j] && j < |reporters| && x == reporters[j];
      if j < i {
        assert before[j];
      }
    }
  }

  lemma ForcedParts(env: Env, s: Storage, voters: seq<Id>)
    requires voters != []
    ensures var s' := Spec.ChangeAuthorities(env, s, voters, voters, true);
            && s'.committee.nextAuthorities == voters && !s'.refresh.inProgress
            && s'.refresh.offered == s.refresh.offered && s'.flags == s.flags
  {
  }

  /** The storage items are grouped into five records, which the operations update
      in place in the order of the source. */
  class Pallet {
    const env: Env
    var committee: Committee
    var keys: Keys
    var refresh: RefreshState
    var standing: Standing
    var flags: Flags

    function Snapshot(): Storage
      reads this
    {
      Storage(committee, keys, refresh, standing, flags)
    }

    /** Genesis configuration and genesis session. */
    constructor (env: Env, t: nat, n: nat, validators: seq<Id>)
      requires GenesisAccepts(t, n, validators)
      ensures this.env == env && Snapshot() == Genesis(t, n, validators)
    {
      this.env := env;
      var pair, best := Thresholds(t, n), BestAuthorities(n, validators, map[], {});
      committee := Committee(pair, pair, pair, validators, validators, best, best);
      keys := Keys(0, 1, None, [], SetKey(0, []), None, None, map[], []);
      refresh := RefreshState(false, 0, None, None, [], multiset{});
      standing := Standing(map[], map[], map[]);
      flags := Flags(false, false, false, 0);
    }

    method SetSignatureThreshold(t: nat) returns (ok: bool)
      modifies this`committee
      ensures ok == Spec.SetSignatureThreshold(old(committee), t).Some?
      ensures committee == if ok then Spec.SetSignatureThreshold(old(committee), t).value else old(committee)
    {
      if !(t > 0) || !(t < |committee.nextAuthorities|) {
        return false;
      }
      committee := committee.(pending := committee.pending.(sig := t));
      ok := true;
    }

    method SetKeygenThreshold(n: nat) returns (ok: bool)
      modifies this`committee
      ensures ok == Spec.SetKeygenThreshold(old(committee), n).Some?
      ensures committee == if ok then Spec.SetKeygenThreshold(old(committee), n).value else old(committee)
    {
      if !(n > 1) || !(n <= |committee.nextAuthorities|) {
        return false;
      }
      if n <= committee.pending.sig {
        committee := committee.(pending := committee.pending.(sig := n - 1));
      }
      committee := committee.(pending := committee.pending.(key := n));
      ok := true;
    }

    /** The stored genesis key has a signature threshold of distinct signers among
        the best authorities. */
    method SubmitPublicKey(votes: seq<Vote>) returns (key: Option<Bytes>)
      modifies this
      ensures var tally := Tally(votes, Elements(Authorities.Ids(old(committee).best)));
              if old(keys).key.Some? || tally.None? then key == None && Snapshot() == old(Snapshot())
              else
                && IsFirstAccepted(tally.value, old(committee).current.sig, key)
                && (key.None? ==> Snapshot() == old(Snapshot()))
                && (key.Some? ==>
                      Some(Snapshot()) == Spec.SubmitPublicKey(env, old(Snapshot()), key.value, tally.value[key.value]))
    {
      if keys.key.Some? {
        return None;
      }
      var dict := ProcessSubmissions(votes, Authorities.Ids(committee.best));
      if dict.None? {
        return None;
      }
      key := FindAccepted(dict.value, committee.current.sig);
      if key.Some? {
        BackedExactly(committee.best, committee.current.sig, key.value, dict.value[key.value]);
        assert Submits(votes, committee.best, committee.current.sig, key.value, dict.value[key.value]);
        keys := keys.(key := Some(SetKey(keys.setId, key.value)));
        standing := standing.(reputations :=
          BumpAll(standing.reputations, dict.value[key.value], GenesisReputation(env)));
      }
    }

    /** The stored next key has a next signature threshold of distinct signers among
        the next best authorities. */
    method SubmitNextPublicKey(votes: seq<Vote>) returns (key: Option<Bytes>)
      modifies this
      ensures var tally := Tally(votes, Elements(Authorities.Ids(old(committee).nextBest)));
              if old(keys).next.Some? || tally.None? then key == None && Snapshot() == old(Snapshot())
              else
                && IsFirstAccepted(tally.value, old(committee).next.sig, key)
                && (key.None? ==> Snapshot() == old(Snapshot()))
                && (key.Some? ==>
                      Some(Snapshot()) == Spec.SubmitNextPublicKey(old(Snapshot()), key.value, tally.value[key.value]))
    {
      if keys.next.Some? {
        return None;
      }
      var dict := ProcessSubmissions(votes, Authorities.Ids(committee.nextBest));
      if dict.None? {
        return None;
      }
      key := FindAccepted(dict.value, committee.next.sig);
      if key.Some? {
        BackedExactly(committee.nextBest, committee.next.sig, key.value, dict.value[key.value]);
        assert Submits(votes, committee.nextBest, committee.next.sig, key.value, dict.value[key.value]);
        keys := keys.(next := Some(SetKey(keys.nextSetId, key.value)));
        standing := standing.(reputations :=
          BumpAll(standing.reputations, dict.value[key.value], NextReputation()));
        refresh := refresh.(inProgress := false);
      }
    }

    /** `handled`: the proposal handler takes the refresh proposal. */
    method DoRefresh(key: Bytes, handled: bool)
      modifies this`refresh
      ensures refresh == Spec.DoRefresh(env, old(refresh), committee.nextAuthorities, key, handled)
    {
      var proposal := RefreshFor(env, committee.nextAuthorities, key, refresh.nonce + 1);
      if proposal.Some? {
        refresh := refresh.(pending := proposal);
        if handled {
          refresh := refresh.(inProgress := true, offered := refresh.offered + multiset{env.encode(proposal.value)});
        }
      }
    }

    method OnInitialize(now: nat, handled: bool)
      requires flags.lastRotation <= now
      modifies this`flags, this`refresh
      ensures Snapshot() == Spec.OnInitialize(env, old(Snapshot()), now, handled)
    {
      if flags.shouldKeygen {
        flags := flags.(shouldKeygen := false, forceKeygen := false);
      }
      var since := now - flags.lastRotation;
      if since >= env.sessionPeriod && since % KEYGEN_RETRY_BLOCKS == 0 {
        flags := flags.(shouldKeygen := true, forceKeygen := false);
      }
      if keys.next.Some? && keys.nextSignature.None? && !refresh.inProgress {
        DoRefresh(keys.next.value.key, handled);
      }
    }

    method OnSignedRefresh(data: Bytes, signature: Bytes) returns (ok: bool)
      modifies this`keys, this`refresh
      ensures ok == Spec.OnSignedRefresh(env, old(Snapshot()), data, signature).Some?
      ensures Snapshot() == if ok then Spec.OnSignedRefresh(env, old(Snapshot()), data, signature).value
                            else old(Snapshot())
    {
      if keys.next.None? || keys.nextSignature.Some? || refresh.pending.None? {
        return false;
      }
      var curr := refresh.pending.value;
      if env.encode(curr) != data || |signature| > env.maxSignatureLength || signature in keys.usedSignatures {
        return false;
      }
      keys := keys.(nextSignature := Some(signature));
      refresh := refresh.(current := Some(curr));
      refresh := refresh.(pending := None);
      ok := true;
    }

    /** The part of an authority change that always happens. */
    method RequeueAuthorities(nextIds: seq<Id>)
      requires nextIds != []
      modifies this`committee
      ensures committee == Requeue(old(committee), standing, nextIds)
    {
      committee := committee.(next := committee.pending);
      committee := committee.(nextAuthorities := nextIds);
      if |nextIds| < committee.next.key {
        committee := committee.(next := committee.next.(key := |nextIds|));
        committee := committee.(pending := committee.pending.(key := |nextIds|));
      }
      if |nextIds| <= committee.next.sig {
        committee := committee.(next := committee.next.(sig := |nextIds| - 1));
        committee := committee.(pending := committee.pending.(sig := |nextIds| - 1));
      }
      committee := committee.(nextBest :=
        BestAuthorities(committee.next.key, nextIds, standing.reputations, standing.jailedKeygen.Keys));
    }

    /** The keys of a rotation, recorded in the history. */
    method RotateToNextKey(nextId: nat, next: SetKey, signature: Bytes)
      requires keys.nextSetId == SaturatingIncrement(nextId, U64_MAX)
      modifies this`keys
      ensures keys == RotateKeys(env, old(keys).(nextSetId := nextId), next, signature)
    {
      var dkgKey, keySignature := CurrentKey(keys), keys.signature;
      keys := keys.(setId := nextId);
      keys := keys.(next := None, nextSignature := None);
      keys := keys.(history := keys.history[next.setId := Round(dkgKey.key, next.key, signature)]);
      keys := keys.(key := Some(next), signature := signature, previous := dkgKey);
      if |keys.usedSignatures| < env.maxSignatureLength {
        keys := keys.(usedSignatures := keys.usedSignatures + [keySignature]);
      }
    }

    /** The nonce of a rotation and the event about the proposal it carries out. */
    method AnnounceRotation(key: Bytes, signature: Bytes)
      requires !refresh.inProgress
      modifies this`refresh
      ensures refresh == RotateRefresh(old(refresh), key, signature)
    {
      refresh := refresh.(nonce := SaturatingIncrement(refresh.nonce, U32_MAX));
      if refresh.current.Some? {
        refresh := refresh.(announced := refresh.announced + [Announcement(refresh.current.value, signature, key)]);
        refresh := refresh.(current := None);
      }
    }

    /** The part of an authority change that happens with a next key and signature. */
    method Rotate(
      newIds: seq<Id>, newCurrent: Thresholds, newBest: seq<(nat, Id)>, nextId: nat, next: SetKey, signature: Bytes)
      requires keys.nextSetId == SaturatingIncrement(nextId, U64_MAX) && !refresh.inProgress
      modifies this`committee, this`keys, this`refresh
      ensures committee == old(committee).(current := newCurrent, authorities := newIds, best := newBest)
      ensures keys == RotateKeys(env, old(keys).(nextSetId := nextId), next, signature)
      ensures refresh == RotateRefresh(old(refresh), next.key, signature)
    {
      committee := committee.(current := newCurrent);
      committee := committee.(authorities := newIds, best := newBest);
      RotateToNextKey(nextId, next, signature);
      AnnounceRotation(next.key, signature);
    }

    method ChangeAuthorities(newIds: seq<Id>, nextIds: seq<Id>, forced: bool)
      requires nextIds != []
      modifies this`committee, this`keys, this`refresh
      ensures Snapshot() == Spec.ChangeAuthorities(env, old(Snapshot()), newIds, nextIds, forced)
    {
      refresh := refresh.(inProgress := false);
      var newCurrent, newBest := committee.next, committee.nextBest;
      var nextId := keys.nextSetId;
      keys := keys.(nextSetId := SaturatingIncrement(nextId, U64_MAX));
      RequeueAuthorities(nextIds);
      var signature := if forced then Some([]) else keys.nextSignature;
      if keys.next.Some? && signature.Some? {
        var next := keys.next.value;
        assert keys.(nextSetId := nextId) == old(keys);
        Rotate(newIds, newCurrent, newBest, nextId, next, signature.value);
      }
    }

    method OnNewSession(now: nat, validators: seq<Id>, queued: seq<Id>)
      requires queued != []
      modifies this
      ensures Snapshot() == Spec.OnNewSession(env, old(Snapshot()), now, validators, queued)
    {
      flags := flags.(lastRotation := now);
      ChangeAuthorities(validators, queued, false);
    }

    /** Undo all writes, as the runtime does when a call fails. */
    method Restore(s: Storage)
      modifies this
      ensures Snapshot() == s
    {
      committee, keys, refresh, standing, flags := s.committee, s.keys, s.refresh, s.standing, s.flags;
    }

    /** The refresh proposal for the key just put into office. */
    method ProposeOwnKey(key: Bytes, handled: bool) returns (proposal: Option<Refresh>)
      modifies this`flags, this`refresh
      ensures proposal == RefreshFor(env, committee.nextAuthorities, key, old(refresh).nonce)
      ensures flags == old(flags).(proposerVote := true)
      ensures proposal.Some? ==>
                refresh == old(refresh).(pending := proposal, inProgress := old(refresh).inProgress || handled,
                                         offered := old(refresh).offered + Offer(env, proposal.value, handled))
    {
      flags := flags.(proposerVote := true);
      proposal := RefreshFor(env, committee.nextAuthorities, key, refresh.nonce);
      if proposal.Some? {
        refresh := refresh.(pending := proposal);
        if handled {
          refresh := refresh.(inProgress := true, offered := refresh.offered + multiset{env.encode(proposal.value)});
        }
      }
    }

    method ForceChangeAuthorities(handled: bool) returns (ok: bool)
      requires committee.nextAuthorities != []
      modifies this
      ensures ok == Spec.ForceChangeAuthorities(env, old(Snapshot()), handled).Some?
      ensures Snapshot() == if ok then Spec.ForceChangeAuthorities(env, old(Snapshot()), handled).value
                            else old(Snapshot())
    {
      var before := Snapshot();
      var voters := committee.nextAuthorities;
      var nextKey := keys.next;
      refresh := refresh.(pending := None);
      refresh := refresh.(current := None);
      ForcedParts(env, Snapshot(), voters);
      ChangeAuthorities(voters, voters, true);
      ok := true;
      if nextKey.Some? {
        var proposal := ProposeOwnKey(nextKey.value.key, handled);
        if proposal.None? {
          Restore(before);
          ok := false;
        }
      }
    }

    method TriggerEmergencyKeygen()
      modifies this`keys, this`flags
      ensures Snapshot() == Spec.TriggerEmergencyKeygen(old(Snapshot()))
    {
      keys := keys.(next := None);
      keys := keys.(nextSignature := None);
      flags := flags.(shouldKeygen := true, forceKeygen := true);
    }

    /** Without anybody to replace the jailed authority the thresholds drop. */
    method DropThresholds(unjailed: nat)
      modifies this`committee
      ensures committee == LowerThresholds(old(committee), unjailed)
    {
      if unjailed <= committee.next.key && unjailed > 2 {
        committee := committee.(next := committee.next.(key := unjailed - 1));
        committee := committee.(pending := committee.pending.(key := unjailed - 1));
        if committee.next.sig >= committee.next.key && committee.next.sig != 1 {
          var lower := committee.next.sig - 1;
          committee := committee.(next := committee.next.(sig := lower));
          committee := committee.(pending := committee.pending.(sig := lower));
        }
      }
    }

    /** A report of keygen misbehaviour; the reputation map is iterated in some hash
        order. A panic, like a refusal, undoes everything. */
    method SubmitKeygenReport(now: nat, offender: Id, reporters: seq<Id>, verified: seq<bool>)
      returns (ok: bool, order: seq<Id>)
      modifies this
      ensures Enumerates(order, old(standing).reputations.Keys + {offender})
      ensures var valid := |Vouched(reporters, verified)|;
              var r := Spec.ReportKeygen(env, old(Snapshot()), now, offender, valid, order);
              && ok == (!LacksReporter(reporters, verified) && r.Some?)
              && Snapshot() == if ok then r.value else old(Snapshot())
    {
      order := HashOrder(standing.reputations.Keys + {offender});
      var valid := ValidReporters(reporters, verified);
      if valid.None? {
        return false, order;
      }
      NoDuplicatesCardinality(valid.value);
      ok := ProcessKeygenReport(now, offender, |valid.value|, order);
    }

    method ProcessKeygenReport(now: nat, offender: Id, reporters: nat, order: seq<Id>) returns (ok: bool)
      requires Enumerates(order, standing.reputations.Keys + {offender})
      modifies this
      ensures ok == Spec.ReportKeygen(env, old(Snapshot()), now, offender, reporters, order).Some?
      ensures Snapshot() == if ok then Spec.ReportKeygen(env, old(Snapshot()), now, offender, reporters, order).value
                            else old(Snapshot())
    {
      var before := Snapshot();
      if !LooksInto(before, offender, reporters) {
        return false;
      }
      var decayed := env.decay(Rep(standing.reputations, offender));
      standing := standing.(reputations := standing.reputations[offender := decayed]);
      var unjailed := Unjailed(committee, standing.jailedKeygen);
      var chosen := Drop(unjailed, {offender});
      if offender in unjailed {
        standing := standing.(jailedKeygen := standing.jailedKeygen[offender := now]);
        var spare := Spare(committee, unjailed, standing.jailedKeygen);
        if spare != [] {
          chosen := chosen + [Replacement(standing.reputations, spare, order)];
        } else {
          DropThresholds(|unjailed|);
        }
      }
      var best := BestAuthorities(committee.next.key, chosen, standing.reputations, standing.jailedKeygen.Keys);
      if |best| < 2 {
        Restore(before);
        return false;
      }
      committee := committee.(nextBest := best);
      ok := true;
    }

    /** A report of signing misbehaviour. */
    method SubmitSigningReport(now: nat, offender: Id, reporters: seq<Id>, verified: seq<bool>) returns (ok: bool)
      modifies this
      ensures var valid := |Vouched(reporters, verified)|;
              var r := Spec.ReportSigning(env, old(Snapshot()), now, offender, valid);
              && ok == (!LacksReporter(reporters, verified) && r.Some?)
              && Snapshot() == if ok then r.value else old(Snapshot())
    {
      var valid := ValidReporters(reporters, verified);
      if valid.None? {
        return false;
      }
      NoDuplicatesCardinality(valid.value);
      ok := LooksIntoSigning(Snapshot(), offender, |valid.value|);
      if ok {
        var decayed := env.decay(Rep(standing.reputations, offender));
        var counted := |Counted(committee, standing.jailedSigning, offender)|;
        standing := standing.(reputations := standing.reputations[offender := decayed]);
        if counted < committee.current.sig {
          if counted > 0 {
            standing := standing.(jailedSigning := standing.jailedSigning[offender := now]);
            committee := committee.(next := committee.next.(sig := counted - 1));
            committee := committee.(pending := committee.pending.(sig := counted - 1));
          }
        } else {
          standing := standing.(jailedSigning := standing.jailedSigning[offender := now]);
        }
      }
    }
  }
}
