/** The one-round key generation exchange of dkg-gadget/src/dkg_modules/wt_frost.rs
    and the split of the key ids among the parties. */
module FrostKeygen {
  import opened Orders
  import opened FrostMessages

  /** What a party deals: a share for every key id, its own key ids and its
      polynomial commitment. */
  datatype Deal = Deal(shares: map<KeyId, Bytes>, keyIds: seq<KeyId>, poly: Bytes)

  /** Input of `compute_secret`, whose commitments are also the public key. */
  datatype Output = Output(polys: seq<Bytes>, keyShares: map<KeyId, map<PartyId, Bytes>>)

  datatype Config = Config(roster: seq<PartyId>, deals: map<PartyId, Deal>)

  /** Every dealer has a share for the key. */
  ghost predicate HasShares(deals: map<PartyId, Deal>, key: KeyId) {
    forall p | p in deals :: key in deals[p].shares
  }

  /** ... for each of the keys. */
  ghost predicate Covered(deals: map<PartyId, Deal>, keyIds: seq<KeyId>) {
    forall k | k in keyIds :: HasShares(deals, k)
  }

  ghost predicate WellFormed(cfg: Config) {
    && Increasing(cfg.roster)
    && cfg.deals.Keys == Elements(cfg.roster)
    && forall p | p in cfg.deals :: Covered(cfg.deals, cfg.deals[p].keyIds)
  }

  // ---- One party ----------------------------------------------------------

  function Absorb(me: PartyId, deals: map<PartyId, Deal>, m: Message): map<PartyId, Deal> {
    if m.DKG? && m.from != me then deals[m.from := Deal(m.shares, m.keyIds, m.poly)] else deals
  }

  function Gather(me: PartyId, deals: map<PartyId, Deal>, inbox: seq<Message>, n: nat): Option<map<PartyId, Deal>>
    decreases |inbox|
  {
    if |deals| >= n then Some(deals)
    else if inbox == [] then None
    else Gather(me, Absorb(me, deals, inbox[0]), inbox[1..], n)
  }

  function PolysOf(deals: map<PartyId, Deal>, ids: seq<PartyId>): seq<Bytes>
    requires forall i | i in ids :: i in deals
  {
    if ids == [] then [] else [deals[ids[0]].poly] + PolysOf(deals, ids[1..])
  }

  /** The share every dealer made for a key. */
  ghost function SharesOf(deals: map<PartyId, Deal>, key: KeyId): map<PartyId, Bytes>
    requires HasShares(deals, key)
  {
    map p | p in deals :: deals[p].shares[key]
  }

  /** ... for each key id a party owns. */
  ghost function KeyShares(deals: map<PartyId, Deal>, keyIds: seq<KeyId>): map<KeyId, map<PartyId, Bytes>>
    requires Covered(deals, keyIds)
  {
    map k | k in keyIds :: SharesOf(deals, k)
  }

  ghost function OutputOf(deals: map<PartyId, Deal>, keyIds: seq<KeyId>): Output
    requires Covered(deals, keyIds)
  {
    Output(PolysOf(deals, Ascending(deals.Keys)), KeyShares(deals, keyIds))
  }

  /** How one party's key generation ends: with its output, with a dead connection, or
      with a dealer that made no share for one of its keys, where the source panics. */
  datatype DkgResult = Done(output: Output) | Died | MissingShare

  ghost function ResultOf(gathered: Option<map<PartyId, Deal>>, keyIds: seq<KeyId>): DkgResult {
    match gathered
    case None => Died
    case Some(deals) => if Covered(deals, keyIds) then Done(OutputOf(deals, keyIds)) else MissingShare
  }

  /** The waiting loop of `run_dkg`. */
  method AwaitDeals(me: PartyId, own: Deal, n: nat, inbox: seq<Message>) returns (result: Option<map<PartyId, Deal>>)
    ensures result == Gather(me, map[me := own], inbox, n)
  {
    var deals: map<PartyId, Deal> := map[me := own];
    var next := 0;
    while |deals| < n
      invariant 0 <= next <= |inbox|
      invariant Gather(me, deals, inbox[next..], n) == Gather(me, map[me := own], inbox, n)
      decreases |inbox| - next
    {
      if next == |inbox| {
        return None;
      }
      assert inbox[next..][1..] == inbox[next + 1..];
      deals := Absorb(me, deals, inbox[next]);
      next := next + 1;
    }
    result := Some(deals);
  }

  /** The shares received for one key, none when a dealer made no share for it. */
  method CollectShares(deals: map<PartyId, Deal>, key: KeyId) returns (r: Option<map<PartyId, Bytes>>)
    ensures r.Some? <==> HasShares(deals, key)
    ensures r.Some? ==> r.value == SharesOf(deals, key)
  {
    var order := HashOrder(deals.Keys);
    assert forall p :: p in deals <==> p in order by {
      assert forall p :: p in Elements(order) <==> p in order;
    }
    var shares: map<PartyId, Bytes> := map[];
    for i := 0 to |order|
      invariant forall p :: p in shares <==> p in order[..i]
      invariant forall p | p in shares :: key in deals[p].shares && shares[p] == deals[p].shares[key]
    {
      if key !in deals[order[i]].shares {
        return None;
      }
      shares := shares[order[i] := deals[order[i]].shares[key]];
      assert order[..i + 1] == order[..i] + [order[i]];
    }
    assert order[..|order|] == order;
    r := Some(shares);
  }

  /** Collecting, key by key, the shares received for it. */
  method SharesPerKey(deals: map<PartyId, Deal>, keyIds: seq<KeyId>)
    returns (r: Option<map<KeyId, map<PartyId, Bytes>>>)
    ensures r.Some? <==> Covered(deals, keyIds)
    ensures r.Some? ==> r.value == KeyShares(deals, keyIds)
  {
    var shares: map<KeyId, map<PartyId, Bytes>> := map[];
    for i := 0 to |keyIds|
      invariant forall k :: k in shares <==> k in keyIds[..i]
      invariant forall k | k in shares :: HasShares(deals, k) && shares[k] == SharesOf(deals, k)
    {
      var forKey := CollectShares(deals, keyIds[i]);
      if forKey.None? {
        return None;
      }
      shares := shares[keyIds[i] := forKey.value];
      assert keyIds[..i + 1] == keyIds[..i] + [keyIds[i]];
    }
    assert keyIds[..|keyIds|] == keyIds;
    r := Some(shares);
  }

  /** `run_dkg` as one party executes it. */
  method RunDkg(me: PartyId, own: Deal, n: nat, inbox: seq<Message>) returns (result: DkgResult)
    ensures result == ResultOf(Gather(me, map[me := own], inbox, n), own.keyIds)
  {
    var gathered := AwaitDeals(me, own, n, inbox);
    if gathered == None {
      return Died;
    }
    var keyShares := SharesPerKey(gathered.value, own.keyIds);
    if keyShares == None {
      return MissingShare;
    }
    var order := HashOrder(gathered.value.Keys);
    SortIdsCanonical(order, Ascending(gathered.value.Keys));
    result := Done(Output(PolysOf(gathered.value, SortIds(order)), keyShares.value));
  }

  // ---- The group ----------------------------------------------------------

  datatype Local = Idle | Collecting(deals: map<PartyId, Deal>) | Finished(deals: map<PartyId, Deal>)

  datatype State = State(log: seq<Message>, cursor: map<PartyId, nat>, local: map<PartyId, Local>)

  datatype Step = Start(p: PartyId) | Read(p: PartyId) | Finish(p: PartyId)

  predicate Domains(cfg: Config, s: State) {
    && s.cursor.Keys == s.local.Keys == cfg.deals.Keys
    && forall p | p in s.cursor :: s.cursor[p] <= |s.log|
  }

  /** The log holds no key generation message of this round yet. */
  ghost predicate Init(cfg: Config, s: State) {
    && Domains(cfg, s)
    && (forall p | p in s.local :: s.local[p].Idle?)
    && (forall m | m in s.log :: !m.DKG?)
  }

  predicate Enabled(cfg: Config, s: State, step: Step)
    requires Domains(cfg, s)
  {
    && step.p in s.local
    && match step
       case Start(p) => s.local[p].Idle?
       case Read(p) => s.local[p].Collecting? && |s.local[p].deals| < |cfg.roster| && s.cursor[p] < |s.log|
       case Finish(p) => s.local[p].Collecting? && |s.local[p].deals| >= |cfg.roster|
  }

  function Apply(cfg: Config, s: State, step: Step): State
    requires Domains(cfg, s) && Enabled(cfg, s, step)
  {
    match step
    case Start(p) =>
      var own := cfg.deals[p];
      s.(log := s.log + [DKG(p, own.shares, own.keyIds, own.poly)],
         local := s.local[p := Collecting(map[p := own])])
    case Read(p) =>
      s.(cursor := s.cursor[p := s.cursor[p] + 1],
         local := s.local[p := Collecting(Absorb(p, s.local[p].deals, s.log[s.cursor[p]]))])
    case Finish(p) =>
      s.(local := s.local[p := Finished(s.local[p].deals)])
  }

  ghost predicate GoodMessage(cfg: Config, m: Message) {
    m.DKG? ==> m.from in cfg.deals && cfg.deals[m.from] == Deal(m.shares, m.keyIds, m.poly)
  }

  ghost predicate GoodDeals(cfg: Config, p: PartyId, deals: map<PartyId, Deal>, from: set<PartyId>) {
    && deals.Keys == {p} + from
    && deals.Keys <= cfg.deals.Keys
    && forall x | x in deals :: deals[x] == cfg.deals[x]
  }

  ghost predicate GoodLocal(cfg: Config, s: State, p: PartyId)
    requires Domains(cfg, s) && p in s.local
  {
    match s.local[p]
    case Idle => Dealers(s.log[..s.cursor[p]]) == {}
    case Collecting(deals) => p in Dealers(s.log) && GoodDeals(cfg, p, deals, Dealers(s.log[..s.cursor[p]]))
    case Finished(deals) => p in Dealers(s.log) && deals == cfg.deals
  }

  ghost predicate Inv(cfg: Config, s: State) {
    && Domains(cfg, s)
    && (forall q | 0 <= q < |s.log| :: GoodMessage(cfg, s.log[q]))
    && (forall p | p in s.local :: GoodLocal(cfg, s, p))
  }

  lemma InitInv(cfg: Config, s: State)
    requires Init(cfg, s)
    ensures Inv(cfg, s)
  {
    forall p | p in s.local ensures GoodLocal(cfg, s, p) {
      var seen := s.log[..s.cursor[p]];
      forall x ensures x !in Dealers(seen) {
        SendersMembers(seen, x);
        assert forall m :: m in seen ==> m in s.log;
      }
    }
  }

  lemma GoodLocalFrame(cfg: Config, s: State, s': State, p: PartyId)
    requires Domains(cfg, s) && Domains(cfg, s')
    requires p in s.local && GoodLocal(cfg, s, p)
    requires s'.local[p] == s.local[p] && s'.cursor[p] == s.cursor[p]
    requires s.log <= s'.log
    ensures GoodLocal(cfg, s', p)
  {
    assert s'.log[..s'.cursor[p]] == s.log[..s.cursor[p]];
    SendersPrefix(s'.log, |s.log|);
    assert s'.log[..|s.log|] == s.log;
  }

  lemma FullDeals(cfg: Config, p: PartyId, deals: map<PartyId, Deal>, from: set<PartyId>)
    requires WellFormed(cfg) && GoodDeals(cfg, p, deals, from) && |deals| >= |cfg.roster|
    ensures deals == cfg.deals
  {
    NoDuplicatesCardinality(cfg.roster);
    assert |deals.Keys| == |deals|;
    SubsetSameSize(deals.Keys, cfg.deals.Keys);
    MapsEqual(deals, cfg.deals);
  }

  lemma AbsorbGood(cfg: Config, p: PartyId, deals: map<PartyId, Deal>, from: set<PartyId>, m: Message)
    requires GoodDeals(cfg, p, deals, from) && GoodMessage(cfg, m)
    ensures GoodDeals(cfg, p, Absorb(p, deals, m), from + (if m.DKG? then {m.from} else {}))
  {
  }

  lemma ApplyDomains(cfg: Config, s: State, step: Step)
    requires Domains(cfg, s) && Enabled(cfg, s, step)
    ensures Domains(cfg, Apply(cfg, s, step))
  {
  }

  lemma StartLocal(cfg: Config, s: State, p: PartyId)
    requires Domains(cfg, s) && Enabled(cfg, s, Start(p)) && GoodLocal(cfg, s, p)
    ensures Domains(cfg, Apply(cfg, s, Start(p))) && GoodLocal(cfg, Apply(cfg, s, Start(p)), p)
  {
    ApplyDomains(cfg, s, Start(p));
    var s' := Apply(cfg, s, Start(p));
    SendersAppend(s.log, s'.log[|s.log|]);
    assert s'.log[..s'.cursor[p]] == s.log[..s.cursor[p]];
  }

  lemma SeenGrows(log: seq<Message>, k: nat)
    requires k < |log|
    ensures Dealers(log[..k + 1]) == Dealers(log[..k]) + (if log[k].DKG? then {log[k].from} else {})
  {
    SendersAppend(log[..k], log[k]);
    assert log[..k + 1] == log[..k] + [log[k]];
  }

  lemma ReadGood(cfg: Config, s: State, s': State, p: PartyId)
    requires Domains(cfg, s) && Domains(cfg, s') && p in s.local && GoodLocal(cfg, s, p) && s.local[p].Collecting?
    requires s.cursor[p] < |s.log| && GoodMessage(cfg, s.log[s.cursor[p]])
    requires s'.log == s.log && s'.cursor[p] == s.cursor[p] + 1
    requires s'.local[p] == Collecting(Absorb(p, s.local[p].deals, s.log[s.cursor[p]]))
    ensures GoodLocal(cfg, s', p)
  {
    var q := s.cursor[p];
    SeenGrows(s.log, q);
    AbsorbGood(cfg, p, s.local[p].deals, Dealers(s.log[..q]), s.log[q]);
  }

  lemma ReadLocal(cfg: Config, s: State, p: PartyId)
    requires Domains(cfg, s) && Enabled(cfg, s, Read(p)) && GoodLocal(cfg, s, p)
    requires GoodMessage(cfg, s.log[s.cursor[p]])
    ensures Domains(cfg, Apply(cfg, s, Read(p))) && GoodLocal(cfg, Apply(cfg, s, Read(p)), p)
  {
    ApplyDomains(cfg, s, Read(p));
    ReadGood(cfg, s, Apply(cfg, s, Read(p)), p);
  }

  lemma MovedLocal(cfg: Config, s: State, step: Step)
    requires WellFormed(cfg) && Inv(cfg, s) && Enabled(cfg, s, step)
    ensures Domains(cfg, Apply(cfg, s, step))
    ensures GoodLocal(cfg, Apply(cfg, s, step), step.p)
  {
    assert GoodLocal(cfg, s, step.p);
    match step
    case Start(p) => StartLocal(cfg, s, p);
    case Read(p) => ReadLocal(cfg, s, p);
    case Finish(p) => FullDeals(cfg, p, s.local[p].deals, Dealers(s.log[..s.cursor[p]]));
  }

  /** Everybody but the mover, and every message of the log, is as before. */
  lemma OthersKeep(cfg: Config, s: State, s': State, p: PartyId)
    requires Inv(cfg, s) && Domains(cfg, s') && s.log <= s'.log
    requires forall x | x in s.local && x != p :: s'.local[x] == s.local[x] && s'.cursor[x] == s.cursor[x]
    requires forall q | |s.log| <= q < |s'.log| :: GoodMessage(cfg, s'.log[q])
    requires p in s'.local && GoodLocal(cfg, s', p)
    ensures Inv(cfg, s')
  {
    forall x | x in s'.local ensures GoodLocal(cfg, s', x) {
      if x != p { GoodLocalFrame(cfg, s, s', x); }
    }
  }

  lemma MovedFrame(cfg: Config, s: State, step: Step)
    requires Domains(cfg, s) && Enabled(cfg, s, step)
    ensures var s' := Apply(cfg, s, step);
            && s.log <= s'.log && step.p in s'.local
            && (forall x | x in s.local && x != step.p :: s'.local[x] == s.local[x] && s'.cursor[x] == s.cursor[x])
            && (forall q | |s.log| <= q < |s'.log| :: GoodMessage(cfg, s'.log[q]))
  {
  }

  lemma StepKeeps(cfg: Config, s: State, step: Step)
    requires WellFormed(cfg) && Inv(cfg, s) && Enabled(cfg, s, step)
    ensures Inv(cfg, Apply(cfg, s, step))
  {
    MovedLocal(cfg, s, step);
    MovedFrame(cfg, s, step);
    var s' := Apply(cfg, s, step);
    OthersKeep(cfg, s, s', step.p);
  }

  function Run(cfg: Config, s: State, steps: seq<Step>): Option<State>
    decreases |steps|
  {
    if steps == [] then Some(s)
    else if Domains(cfg, s) && Enabled(cfg, s, steps[0]) then Run(cfg, Apply(cfg, s, steps[0]), steps[1..])
    else None
  }

  lemma {:induction false} RunKeeps(cfg: Config, s: State, steps: seq<Step>)
    requires WellFormed(cfg) && Inv(cfg, s) && Run(cfg, s, steps).Some?
    ensures Inv(cfg, Run(cfg, s, steps).value)
    decreases |steps|
  {
    if steps != [] {
      StepKeeps(cfg, s, steps[0]);
      RunKeeps(cfg, Apply(cfg, s, steps[0]), steps[1..]);
    }
  }

  lemma CompleteSize(cfg: Config, deals: map<PartyId, Deal>, senders: set<PartyId>)
    requires WellFormed(cfg) && senders <= deals.Keys <= cfg.deals.Keys <= senders
    ensures |deals| == |cfg.roster|
  {
    NoDuplicatesCardinality(cfg.roster);
    assert deals.Keys == Elements(cfg.roster);
    assert |deals.Keys| == |deals|;
  }

  lemma CollectorHasMail(cfg: Config, s: State, p: PartyId)
    requires WellFormed(cfg) && Inv(cfg, s) && p in s.local && s.local[p].Collecting?
    requires forall x | x in s.local :: !s.local[x].Idle?
    requires |s.local[p].deals| < |cfg.roster|
    ensures s.cursor[p] < |s.log|
  {
    assert GoodLocal(cfg, s, p);
    forall x | x in cfg.deals ensures x in Dealers(s.log) {
      assert GoodLocal(cfg, s, x);
    }
    if s.cursor[p] == |s.log| {
      assert s.log[..s.cursor[p]] == s.log;
      CompleteSize(cfg, s.local[p].deals, Dealers(s.log));
      assert false;
    }
  }

  ghost predicate AllFinished(s: State) {
    forall p | p in s.local :: s.local[p].Finished?
  }

  ghost predicate Quiescent(cfg: Config, s: State)
    requires Domains(cfg, s)
  {
    forall step: Step :: !Enabled(cfg, s, step)
  }

  lemma StuckOnlyWhenDone(cfg: Config, s: State)
    requires WellFormed(cfg) && Inv(cfg, s)
    ensures Quiescent(cfg, s) <==> AllFinished(s)
  {
    if p :| p in s.local && s.local[p].Idle? {
      assert Enabled(cfg, s, Start(p));
    } else if p :| p in s.local && s.local[p].Collecting? {
      if |s.local[p].deals| < |cfg.roster| {
        CollectorHasMail(cfg, s, p);
        assert Enabled(cfg, s, Read(p));
      } else {
        assert Enabled(cfg, s, Finish(p));
      }
    }
  }

  // ---- Key ids ------------------------------------------------------------

  /** `create_signer_key_ids` */
  function CreateSignerKeyIds(signer: nat, keysPerSigner: nat): (r: seq<KeyId>)
    ensures |r| == keysPerSigner
  {
    seq(keysPerSigner, i => keysPerSigner * signer + i)
  }

  function Range(from: nat, to: nat): (r: seq<nat>)
    requires from <= to
    ensures |r| == to - from && forall i | 0 <= i < |r| :: r[i] == from + i
  {
    seq(to - from, i => from + i)
  }

  function Flatten(xss: seq<seq<nat>>): seq<nat> {
    if xss == [] then [] else Flatten(xss[..|xss| - 1]) + xss[|xss| - 1]
  }

  /** All `k` ids are handed out exactly when they divide evenly. */
  lemma AllIdsExactly(n: nat, k: nat)
    requires n > 0
    ensures n * (k / n) >= 0
    ensures Range(0, n * (k / n)) == Range(0, k) <==> k % n == 0
  {
    assert k == n * (k / n) + k % n;
    assert |Range(0, n * (k / n))| == n * (k / n);
    assert |Range(0, k)| == k;
  }

  lemma OwnBlock(i: nat, perParty: nat)
    ensures i * perParty >= 0 && (i + 1) * perParty == i * perParty + perParty
    ensures Range(i * perParty, i * perParty + perParty) == CreateSignerKeyIds(i, perParty)
  {
  }

  lemma AppendBlock(blocks: seq<seq<nat>>, start: nat, end: nat)
    requires start <= end && Flatten(blocks) == Range(0, start)
    ensures Flatten(blocks + [Range(start, end)]) == Range(0, end)
  {
    assert (blocks + [Range(start, end)])[..|blocks|] == blocks;
    assert Range(0, start) + Range(start, end) == Range(0, end);
  }

  /** `generate_party_key_ids`: consecutive blocks of `k / n` ids, which together
      are exactly the ids below `n * (k / n)`, and the block of each party is the
      one `create_signer_key_ids` computes. */
  method GeneratePartyKeyIds(n: nat, k: nat) returns (result: seq<seq<KeyId>>)
    requires n > 0
    ensures |result| == n
    ensures forall i | 0 <= i < n :: result[i] == CreateSignerKeyIds(i, k / n)
    ensures Flatten(result) == Range(0, n * (k / n))
    ensures Flatten(result) == Range(0, k) <==> k % n == 0
  {
    result := [];
    var perParty := k / n;
    var start := 0;
    var i := 0;
    while i < n
      invariant 0 <= i <= n && |result| == i && start == i * perParty
      invariant forall j | 0 <= j < i :: result[j] == CreateSignerKeyIds(j, perParty)
      invariant Flatten(result) == Range(0, start)
    {
      var end := start + perParty;
      OwnBlock(i, perParty);
      AppendBlock(result, start, end);
      result := result + [Range(start, end)];
      start := end;
      i := i + 1;
    }
    AllIdsExactly(n, k);
  }
}
