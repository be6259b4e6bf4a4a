/** Storage of the metadata pallet and the effect of each of its operations on it
    (pallets/dkg-metadata/src/lib.rs). An operation that fails leaves the storage
    as it was. */
module MetadataSpec {
  import opened Orders
  import opened Authorities

  type Bytes = seq<nat>

  const U32_MAX: nat := 0xFFFF_FFFF
  const U64_MAX: nat := 0xFFFF_FFFF_FFFF_FFFF
  const MAX_AUTHORITIES: nat := 1024
  const INITIAL_REPUTATION: nat := 1_000_000_000
  const REPUTATION_INCREMENT: nat := INITIAL_REPUTATION / 1000
  const KEYGEN_RETRY_BLOCKS: nat := 20

  function SaturatingIncrement(n: nat, max: nat): nat {
    if n < max then n + 1 else n
  }

  /** A `t`-of-`n` pair: signature threshold and keygen threshold. */
  datatype Thresholds = Thresholds(sig: nat, key: nat)

  datatype SetKey = SetKey(setId: nat, key: Bytes)

  /** A record of the key history. */
  datatype Round = Round(curr: Bytes, next: Bytes, signature: Bytes)

  datatype Refresh = Refresh(voterRoot: Bytes, sessionLength: nat, voterCount: nat, nonce: nat, pubKey: Bytes)

  /** The `PublicKeySignatureChanged` event. */
  datatype Announcement = Announcement(refresh: Refresh, signature: Bytes, key: Bytes)

  /** Configuration and foreign functions. */
  datatype Env = Env(
    decompress: Bytes -> Option<Bytes>,
    voterRoot: seq<Id> -> Bytes,
    encode: Refresh -> Bytes,
    decay: nat -> nat,
    sessionLength: nat,
    sessionPeriod: nat,
    maxSignatureLength: nat)

  /** Thresholds and authority sets: in use, scheduled next, and pending. */
  datatype Committee = Committee(
    current: Thresholds, next: Thresholds, pending: Thresholds,
    authorities: seq<Id>, nextAuthorities: seq<Id>,
    best: seq<(nat, Id)>, nextBest: seq<(nat, Id)>)

  /** Public keys with their set ids and signatures, and the history of rotations. */
  datatype Keys = Keys(
    setId: nat, nextSetId: nat,
    key: Option<SetKey>, signature: Bytes, previous: SetKey,
    next: Option<SetKey>, nextSignature: Option<Bytes>,
    history: map<nat, Round>, usedSignatures: seq<Bytes>)

  /** The refresh proposal under way, what was announced, and the encoded proposals that
      the proposal handler holds: taken, and neither returned signed nor dropped. */
  datatype RefreshState = RefreshState(
    inProgress: bool, nonce: nat,
    pending: Option<Refresh>, current: Option<Refresh>, announced: seq<Announcement>, offered: multiset<Bytes>)

  datatype Standing = Standing(reputations: map<Id, nat>, jailedKeygen: map<Id, nat>, jailedSigning: map<Id, nat>)

  datatype Flags = Flags(shouldKeygen: bool, forceKeygen: bool, proposerVote: bool, lastRotation: nat)

  datatype Storage = Storage(
    committee: Committee, keys: Keys, refresh: RefreshState, standing: Standing, flags: Flags)

  /** `DKGPublicKey::get()`: the default before the first key. */
  function CurrentKey(k: Keys): SetKey {
    if k.key.Some? then k.key.value else SetKey(0, [])
  }

  // ---- Thresholds ----------------------------------------------------------

  function SetSignatureThreshold(c: Committee, t: nat): Option<Committee> {
    if 0 < t < |c.nextAuthorities| then Some(c.(pending := Thresholds(t, c.pending.key))) else None
  }

  function SetKeygenThreshold(c: Committee, n: nat): Option<Committee> {
    if 1 < n <= |c.nextAuthorities| then
      Some(c.(pending := Thresholds(if n <= c.pending.sig then n - 1 else c.pending.sig, n)))
    else None
  }

  // ---- Keys ----------------------------------------------------------------

  /** One submitted key and the authority recovered from its signature. */
  datatype Vote = Vote(key: Bytes, signer: Option<Id>)

  /** Who signed which key; None when some signer is not one of `authorities`. */
  function Tally(votes: seq<Vote>, authorities: set<Id>): Option<map<Bytes, seq<Id>>> {
    if votes == [] then Some(map[])
    else
      var last := votes[|votes| - 1];
      match Tally(votes[..|votes| - 1], authorities)
      case None => None
      case Some(t) =>
        if last.signer.None? || last.signer.value !in authorities then None
        else
          var before := if last.key in t then t[last.key] else [];
          Some(t[last.key := if last.signer.value in before then before else before + [last.signer.value]])
  }

  /** The voters for one key: distinct authorities, exactly those that signed it. */
  lemma {:induction false} TallyExact(votes: seq<Vote>, authorities: set<Id>, key: Bytes)
    requires Tally(votes, authorities).Some?
    ensures var t := Tally(votes, authorities).value;
            var signers := set v | v in votes && v.key == key && v.signer.Some? :: v.signer.value;
            && signers <= authorities
            && (key in t <==> exists v :: v in votes && v.key == key)
            && (key in t ==> t[key] != [] && NoDuplicates(t[key]) && Elements(t[key]) == signers)
  {
    if votes != [] {
      var front, last := votes[..|votes| - 1], votes[|votes| - 1];
      assert votes == front + [last];
      TallyExact(front, authorities, key);
      var t := Tally(front, authorities).value;
      var before := if last.key in t then t[last.key] else [];
      ElementsAppend(before, last.signer.value);
      if last.key == key && last.signer.value !in before {
        NoDuplicatesConcat(before, [last.signer.value]);
      }
      assert forall v :: v in votes <==> v in front || v == last;
    }
  }

  /** The order of byte strings, in which the tally is gone through. */
  predicate LexLess(a: Bytes, b: Bytes)
    decreases |a|
  {
    if b == [] then false
    else if a == [] then true
    else if a[0] != b[0] then a[0] < b[0]
    else LexLess(a[1..], b[1..])
  }

  lemma {:induction false} LexTotal(a: Bytes, b: Bytes)
    ensures a == b || LexLess(a, b) || LexLess(b, a)
    decreases |a|
  {
    if a != [] && b != [] && a[0] == b[0] {
      LexTotal(a[1..], b[1..]);
      assert a == [a[0]] + a[1..] && b == [b[0]] + b[1..];
    }
  }

  lemma {:induction false} LexTransitive(a: Bytes, b: Bytes, c: Bytes)
    requires LexLess(a, b) && LexLess(b, c)
    ensures LexLess(a, c)
    decreases |a|
  {
    if a != [] && a[0] == b[0] == c[0] {
      LexTransitive(a[1..], b[1..], c[1..]);
    }
  }

  /** The key taken: the first in byte order that enough authorities signed. */
  ghost predicate IsFirstAccepted(tally: map<Bytes, seq<Id>>, threshold: nat, key: Option<Bytes>) {
    match key
    case None => forall k | k in tally :: |tally[k]| < threshold
    case Some(first) =>
      && first in tally && |tally[first]| >= threshold
      && forall k | k in tally && |tally[k]| >= threshold && k != first :: LexLess(first, k)
  }

  /** What it takes to store a key: at least one signer, no fewer than the threshold,
      all different and all from the best set. */
  predicate Backed(best: seq<(nat, Id)>, threshold: nat, signers: seq<Id>) {
    && signers != [] && |signers| >= threshold
    && NoDuplicates(signers) && Elements(signers) <= Elements(Ids(best))
  }

  /** A submission after which `key` is taken with these signers. */
  ghost predicate Submits(votes: seq<Vote>, best: seq<(nat, Id)>, threshold: nat, key: Bytes, signers: seq<Id>) {
    var tally := Tally(votes, Elements(Ids(best)));
    tally.Some? && IsFirstAccepted(tally.value, threshold, Some(key)) && tally.value[key] == signers
  }

  function VotesFor(key: Bytes, signers: seq<Id>): (r: seq<Vote>)
    ensures |r| == |signers|
  {
    if signers == [] then []
    else VotesFor(key, signers[..|signers| - 1]) + [Vote(key, Some(signers[|signers| - 1]))]
  }

  /** One more vote for the only key so far. */
  lemma TallyNext(votes: seq<Vote>, key: Bytes, front: seq<Id>, last: Id, authorities: set<Id>)
    requires Tally(votes, authorities) == Some(if front == [] then map[] else map[key := front])
    requires last in authorities && last !in front
    ensures Tally(votes + [Vote(key, Some(last))], authorities) == Some(map[key := front + [last]])
  {
    var more := votes + [Vote(key, Some(last))];
    assert more[..|more| - 1] == votes && more[|more| - 1] == Vote(key, Some(last));
    var t := Tally(votes, authorities).value;
    assert t[key := front + [last]] == map[key := front + [last]];
  }

  lemma {:induction false} TallyOne(key: Bytes, signers: seq<Id>, authorities: set<Id>)
    requires NoDuplicates(signers) && Elements(signers) <= authorities
    ensures Tally(VotesFor(key, signers), authorities) == Some(if signers == [] then map[] else map[key := signers])
  {
    if signers != [] {
      var front, last := signers[..|signers| - 1], signers[|signers| - 1];
      assert signers == front + [last];
      ElementsAppend(front, last);
      TallyOne(key, front, authorities);
      TallyNext(VotesFor(key, front), key, front, last, authorities);
    }
  }

  /** A key is taken with `signers` after some submission exactly when they back it. */
  lemma BackedExactly(best: seq<(nat, Id)>, threshold: nat, key: Bytes, signers: seq<Id>)
    ensures Backed(best, threshold, signers) <==> exists votes :: Submits(votes, best, threshold, key, signers)
  {
    var authorities := Elements(Ids(best));
    if Backed(best, threshold, signers) {
      TallyOne(key, signers, authorities);
      assert Submits(VotesFor(key, signers), best, threshold, key, signers);
    }
    forall votes | Submits(votes, best, threshold, key, signers) ensures Backed(best, threshold, signers) {
      TallyExact(votes, authorities, key);
    }
  }

  function BumpAll(rep: map<Id, nat>, ids: seq<Id>, bump: nat -> nat): map<Id, nat>
    decreases |ids|
  {
    if ids == [] then rep else BumpAll(rep[ids[0] := bump(Rep(rep, ids[0]))], ids[1..], bump)
  }

  function GenesisReputation(env: Env): nat -> nat {
    var decay := env.decay;
    (r: nat) => decay(r) + INITIAL_REPUTATION
  }

  function NextReputation(): nat -> nat {
    (r: nat) => r + REPUTATION_INCREMENT
  }

  function SubmitPublicKey(env: Env, s: Storage, key: Bytes, signers: seq<Id>): Option<Storage> {
    if s.keys.key.Some? || !Backed(s.committee.best, s.committee.current.sig, signers) then None
    else Some(s.(keys := s.keys.(key := Some(SetKey(s.keys.setId, key))),
                 standing := s.standing.(reputations :=
                   BumpAll(s.standing.reputations, signers, GenesisReputation(env)))))
  }

  function SubmitNextPublicKey(s: Storage, key: Bytes, signers: seq<Id>): Option<Storage> {
    if s.keys.next.Some? || !Backed(s.committee.nextBest, s.committee.next.sig, signers) then None
    else Some(s.(keys := s.keys.(next := Some(SetKey(s.keys.nextSetId, key))),
                 refresh := s.refresh.(inProgress := false),
                 standing := s.standing.(reputations := BumpAll(s.standing.reputations, signers, NextReputation()))))
  }

  // ---- Refresh -------------------------------------------------------------

  /** `create_refresh_proposal`: None when the key does not decompress. */
  function RefreshFor(env: Env, voters: seq<Id>, key: Bytes, nonce: nat): Option<Refresh> {
    match env.decompress(key)
    case None => None
    case Some(pubKey) => Some(Refresh(env.voterRoot(voters), env.sessionLength, |voters|, nonce, pubKey))
  }

  /** What the proposal handler gets, if it takes the proposal. */
  function Offer(env: Env, proposal: Refresh, handled: bool): multiset<Bytes> {
    if handled then multiset{env.encode(proposal)} else multiset{}
  }

  /** `do_refresh`; `handled` is whether the proposal handler took the proposal. */
  function DoRefresh(env: Env, r: RefreshState, voters: seq<Id>, key: Bytes, handled: bool): RefreshState {
    match RefreshFor(env, voters, key, r.nonce + 1)
    case None => r
    case Some(proposal) =>
      r.(pending := Some(proposal), inProgress := r.inProgress || handled,
         offered := r.offered + Offer(env, proposal, handled))
  }

  function ResetKeygenFlag(env: Env, f: Flags, now: nat): Flags
    requires f.lastRotation <= now
  {
    var since := now - f.lastRotation;
    if since >= env.sessionPeriod && since % KEYGEN_RETRY_BLOCKS == 0
    then f.(shouldKeygen := true, forceKeygen := false)
    else if f.shouldKeygen then f.(shouldKeygen := false, forceKeygen := false)
    else f
  }

  predicate ShouldRefresh(s: Storage) {
    s.keys.next.Some? && s.keys.nextSignature.None? && !s.refresh.inProgress
  }

  function OnInitialize(env: Env, s: Storage, now: nat, handled: bool): Storage
    requires s.flags.lastRotation <= now
  {
    s.(flags := ResetKeygenFlag(env, s.flags, now),
       refresh := if ShouldRefresh(s)
                  then DoRefresh(env, s.refresh, s.committee.nextAuthorities, s.keys.next.value.key, handled)
                  else s.refresh)
  }

  /** `on_signed_proposal` for a signed refresh proposal. */
  function OnSignedRefresh(env: Env, s: Storage, data: Bytes, signature: Bytes): Option<Storage> {
    if s.keys.next.None? || s.keys.nextSignature.Some? || s.refresh.pending.None? then None
    else if env.encode(s.refresh.pending.value) != data then None
    else if |signature| > env.maxSignatureLength || signature in s.keys.usedSignatures then None
    else Some(s.(keys := s.keys.(nextSignature := Some(signature)),
                 refresh := s.refresh.(current := s.refresh.pending, pending := None)))
  }

  // ---- Rotation ------------------------------------------------------------

  /** Thresholds after a change to `n` queued authorities. */
  function Clamp(t: Thresholds, n: nat): Thresholds
    requires n > 0
  {
    Thresholds(if n <= t.sig then n - 1 else t.sig, if n < t.key then n else t.key)
  }

  /** The next sets and thresholds, which every authority change replaces. */
  function Requeue(c: Committee, standing: Standing, queued: seq<Id>): Committee
    requires queued != []
  {
    var next := Clamp(c.pending, |queued|);
    c.(next := next, pending := next, nextAuthorities := queued,
       nextBest := BestAuthorities(next.key, queued, standing.reputations, standing.jailedKeygen.Keys))
  }

  /** `next` and `signature` become current and the rotation is recorded. */
  function RotateKeys(env: Env, k: Keys, next: SetKey, signature: Bytes): Keys {
    Keys(k.nextSetId, SaturatingIncrement(k.nextSetId, U64_MAX),
         Some(next), signature, CurrentKey(k), None, None,
         k.history[next.setId := Round(CurrentKey(k).key, next.key, signature)],
         if |k.usedSignatures| < env.maxSignatureLength then k.usedSignatures + [k.signature] else k.usedSignatures)
  }

  function RotateRefresh(r: RefreshState, key: Bytes, signature: Bytes): RefreshState {
    RefreshState(false, SaturatingIncrement(r.nonce, U32_MAX), r.pending, None,
                 if r.current.Some? then r.announced + [Announcement(r.current.value, signature, key)] else r.announced,
                 r.offered)
  }

  /** `change_authorities` */
  function ChangeAuthorities(env: Env, s: Storage, validators: seq<Id>, queued: seq<Id>, forced: bool): Storage
    requires queued != []
  {
    var signature := if forced then Some([]) else s.keys.nextSignature;
    var committee := Requeue(s.committee, s.standing, queued);
    var refresh := s.refresh.(inProgress := false);
    if s.keys.next.Some? && signature.Some? then
      s.(committee := committee.(current := s.committee.next, authorities := validators, best := s.committee.nextBest),
         keys := RotateKeys(env, s.keys, s.keys.next.value, signature.value),
         refresh := RotateRefresh(refresh, s.keys.next.value.key, signature.value))
    else
      s.(committee := committee,
         keys := s.keys.(nextSetId := SaturatingIncrement(s.keys.nextSetId, U64_MAX)),
         refresh := refresh)
  }

  function OnNewSession(env: Env, s: Storage, now: nat, validators: seq<Id>, queued: seq<Id>): Storage
    requires queued != []
  {
    ChangeAuthorities(env, s.(flags := s.flags.(lastRotation := now)), validators, queued, false)
  }

  /** `force_change_authorities`: None when the key of the new refresh proposal
      does not decompress, which undoes the whole call. */
  function ForceChangeAuthorities(env: Env, s: Storage, handled: bool): Option<Storage>
    requires s.committee.nextAuthorities != []
  {
    var voters := s.committee.nextAuthorities;
    var s1 := ChangeAuthorities(env, s.(refresh := s.refresh.(pending := None, current := None)), voters, voters, true);
    if s.keys.next.None? then Some(s1)
    else
      match RefreshFor(env, voters, s.keys.next.value.key, s1.refresh.nonce)
      case None => None
      case Some(proposal) =>
        Some(s1.(refresh := s1.refresh.(pending := Some(proposal), inProgress := handled,
                                        offered := s.refresh.offered + Offer(env, proposal, handled)),
                 flags := s1.flags.(proposerVote := true)))
  }

  function TriggerEmergencyKeygen(s: Storage): Storage {
    s.(keys := s.keys.(next := None, nextSignature := None),
       flags := s.flags.(shouldKeygen := true, forceKeygen := true))
  }

  /** `should_end_session` (its modulus test is always true). */
  predicate ShouldEndSession(k: Keys) {
    k.next.Some? && k.nextSignature.Some?
  }

  // ---- Keygen misbehaviour -------------------------------------------------

  /** The most reputed member; among equals the one iterated last, as popping a
      stably sorted list gives. */
  function MostReputed(xs: seq<Id>, rep: map<Id, nat>): (r: Id)
    requires xs != []
    ensures r in xs && forall x | x in xs :: Rep(rep, x) <= Rep(rep, r)
  {
    if |xs| == 1 then xs[0]
    else
      var best := MostReputed(xs[1..], rep);
      assert xs == [xs[0]] + xs[1..];
      if Rep(rep, xs[0]) > Rep(rep, best) then xs[0] else best
  }

  /** Members of the next-best set that are not jailed. */
  function Unjailed(c: Committee, jailed: map<Id, nat>): seq<Id> {
    Drop(Ids(c.nextBest), jailed.Keys)
  }

  /** Next authorities outside the unjailed next-best set that are not jailed. */
  function Spare(c: Committee, unjailed: seq<Id>, jailed: map<Id, nat>): seq<Id> {
    Drop(Drop(c.nextAuthorities, Elements(unjailed)), jailed.Keys)
  }

  /** The replacement for a jailed authority; `order` is the iteration order of the
      reputation map. */
  function Replacement(rep: map<Id, nat>, spare: seq<Id>, order: seq<Id>): Id
    requires spare != []
  {
    var ranked := Keep(order, Elements(spare));
    if ranked == [] then spare[0] else MostReputed(ranked, rep)
  }

  /** Lowering the keygen thresholds when nobody can replace the jailed one. */
  function LowerThresholds(c: Committee, unjailed: nat): (r: Committee)
    ensures SameSets(c, r)
  {
    if unjailed <= c.next.key && unjailed > 2 then
      var n := unjailed - 1;
      if c.next.sig >= n && c.next.sig != 1
      then c.(next := Thresholds(c.next.sig - 1, n), pending := Thresholds(c.next.sig - 1, n))
      else c.(next := Thresholds(c.next.sig, n), pending := Thresholds(c.pending.sig, n))
    else c
  }

  /** The same acting committee and the same candidates for the next one. */
  predicate SameSets(a: Committee, b: Committee) {
    && a.current == b.current && a.authorities == b.authorities
    && a.nextAuthorities == b.nextAuthorities && a.best == b.best
  }

  /** Recomputing the next-best set; at least two must be left. */
  function Reselect(s: Storage, committee: Committee, standing: Standing, ids: seq<Id>): (r: Option<Storage>)
    ensures r.Some? ==>
              && r.value.keys == s.keys && r.value.refresh == s.refresh && r.value.flags == s.flags
              && SameSets(committee, r.value.committee)
  {
    var best := BestAuthorities(committee.next.key, ids, standing.reputations, standing.jailedKeygen.Keys);
    if |best| >= 2 then Some(s.(committee := committee.(nextBest := best), standing := standing)) else None
  }

  /** Checks on the offender and the number of valid reporters. */
  predicate LooksInto(s: Storage, offender: Id, reporters: nat) {
    && offender !in s.standing.jailedKeygen && offender !in s.standing.jailedSigning
    && offender in s.committee.nextAuthorities
    && reporters > s.committee.next.sig
  }

  function Decayed(env: Env, st: Standing, offender: Id): Standing {
    st.(reputations := st.reputations[offender := env.decay(Rep(st.reputations, offender))])
  }

  function JailedStanding(env: Env, st: Standing, offender: Id, now: nat): Standing {
    Decayed(env, st, offender).(jailedKeygen := st.jailedKeygen[offender := now])
  }

  /** Jailing a member of the next-best set. */
  function JailMember(env: Env, s: Storage, now: nat, offender: Id, unjailed: seq<Id>, order: seq<Id>)
    : (r: Option<Storage>)
    ensures r.Some? ==>
              && r.value.keys == s.keys && r.value.refresh == s.refresh && r.value.flags == s.flags
              && SameSets(s.committee, r.value.committee)
  {
    var st := JailedStanding(env, s.standing, offender, now);
    var others := Drop(unjailed, {offender});
    var spare := Spare(s.committee, unjailed, st.jailedKeygen);
    if spare != [] then Reselect(s, s.committee, st, others + [Replacement(st.reputations, spare, order)])
    else Reselect(s, LowerThresholds(s.committee, |unjailed|), st, others)
  }

  /** `submit_misbehaviour_reports` for keygen misbehaviour with `reporters` valid
      reporters. */
  function ReportKeygen(env: Env, s: Storage, now: nat, offender: Id, reporters: nat, order: seq<Id>)
    : (r: Option<Storage>)
    ensures r.Some? ==>
              && r.value.keys == s.keys && r.value.refresh == s.refresh && r.value.flags == s.flags
              && SameSets(s.committee, r.value.committee)
  {
    var unjailed := Unjailed(s.committee, s.standing.jailedKeygen);
    if !LooksInto(s, offender, reporters) then None
    else if offender in unjailed then JailMember(env, s, now, offender, unjailed, order)
    else Reselect(s, s.committee, Decayed(env, s.standing, offender), Drop(unjailed, {offender}))
  }

  // ---- Signing misbehaviour ------------------------------------------------

  predicate LooksIntoSigning(s: Storage, offender: Id, reporters: nat) {
    && offender !in s.standing.jailedKeygen && offender !in s.standing.jailedSigning
    && offender in s.committee.authorities
    && reporters > s.committee.current.sig
  }

  /** The members in office that a signing report counts: it leaves one out only if that
      one is both jailed and the offender. */
  function Counted(c: Committee, jailed: map<Id, nat>, offender: Id): seq<Id> {
    Drop(Ids(c.best), jailed.Keys * {offender})
  }

  /** The next and the pending signature threshold fall with the number in office. */
  function LowerSignature(c: Committee, counted: nat): (r: Committee)
    requires counted > 0
    ensures SameSets(c, r)
  {
    c.(next := c.next.(sig := counted - 1), pending := c.pending.(sig := counted - 1))
  }

  /** `submit_misbehaviour_reports` for signing misbehaviour with `reporters` valid
      reporters. */
  function ReportSigning(env: Env, s: Storage, now: nat, offender: Id, reporters: nat): (r: Option<Storage>)
    ensures r.Some? ==>
              && r.value.keys == s.keys && r.value.refresh == s.refresh && r.value.flags == s.flags
              && SameSets(s.committee, r.value.committee)
  {
    var counted := |Counted(s.committee, s.standing.jailedSigning, offender)|;
    var st := Decayed(env, s.standing, offender);
    var jailed := st.(jailedSigning := st.jailedSigning[offender := now]);
    if !LooksIntoSigning(s, offender, reporters) then None
    else if counted >= s.committee.current.sig then Some(s.(standing := jailed))
    else if counted == 0 then Some(s.(standing := st))
    else Some(s.(standing := jailed, committee := LowerSignature(s.committee, counted)))
  }

  /** Leaving the jails, forced or after the sentence. */
  function Release(s: Storage, id: Id, keygen: bool, signing: bool): Storage {
    s.(standing := s.standing.(
      jailedKeygen := if keygen then s.standing.jailedKeygen - {id} else s.standing.jailedKeygen,
      jailedSigning := if signing then s.standing.jailedSigning - {id} else s.standing.jailedSigning))
  }

  // ---- Genesis -------------------------------------------------------------

  /** Storage after genesis with the given thresholds and validators. */
  function Genesis(t: nat, n: nat, validators: seq<Id>): Storage {
    var pair := Thresholds(t, n);
    var best := BestAuthorities(n, validators, map[], {});
    Storage(
      Committee(pair, pair, pair, validators, validators, best, best),
      Keys(0, 1, None, [], SetKey(0, []), None, None, map[], []),
      RefreshState(false, 0, None, None, [], multiset{}),
      Standing(map[], map[], map[]),
      Flags(false, false, false, 0))
  }

  /** What the genesis configuration asserts. */
  predicate GenesisAccepts(t: nat, n: nat, validators: seq<Id>) {
    t < n && n > 1 && n <= |validators| <= MAX_AUTHORITIES && NoDuplicates(validators)
  }
}
