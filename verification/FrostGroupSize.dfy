/** The remark above `run_signing` that `threshold` should be the number of
    participants is exact: with any other group size some run disagrees or hangs. */
module FrostGroupSize {
  import opened Orders
  import opened FrostMessages
  import opened FrostSigning
  import opened FrostSigningRuns

  /** All inputs that parties have signed are equal. */
  ghost predicate SameInputs(s: State) {
    forall p, q | p in s.local && q in s.local && s.local[p].Aggregating? && s.local[q].Aggregating? ::
      s.local[p].input == s.local[q].input
  }

  /** No run makes two parties sign different inputs or stops before all are done. */
  ghost predicate AlwaysSound(cfg: Config) {
    forall s: State, steps: seq<Step> | Init(cfg, s) && Run(cfg, s, steps).Some? ::
      var s' := Run(cfg, s, steps).value;
      Domains(cfg, s') && SameInputs(s') && (Quiescent(cfg, s') ==> AllFinished(s'))
  }

  lemma {:induction false} RunConcat(cfg: Config, s: State, a: seq<Step>, b: seq<Step>)
    requires Run(cfg, s, a).Some?
    ensures Run(cfg, s, a + b) == Run(cfg, Run(cfg, s, a).value, b)
    decreases |a|
  {
    if a == [] {
      assert a + b == b;
    } else {
      assert (a + b)[1..] == a[1..] + b;
      RunConcat(cfg, Apply(cfg, s, a[0]), a[1..], b);
    }
  }

  lemma RunOne(cfg: Config, s: State, step: Step)
    requires Domains(cfg, s) && Enabled(cfg, s, step)
    ensures Run(cfg, s, [step]) == Some(Apply(cfg, s, step))
  {
    assert Run(cfg, Apply(cfg, s, step), []) == Some(Apply(cfg, s, step));
  }

  // ---- The right size ------------------------------------------------------

  lemma InvSameInputs(cfg: Config, s: State)
    requires Inv(cfg, s)
    ensures SameInputs(s)
  {
    forall p | p in s.local && s.local[p].Aggregating? ensures s.local[p].input == CommonInput(cfg) {
      assert GoodLocal(cfg, s, p);
    }
  }

  lemma ExactRunSound(cfg: Config, s: State, steps: seq<Step>)
    requires ExactGroup(cfg) && Init(cfg, s) && Run(cfg, s, steps).Some?
    ensures var s' := Run(cfg, s, steps).value;
            Domains(cfg, s') && SameInputs(s') && (Quiescent(cfg, s') ==> AllFinished(s'))
  {
    InitInv(cfg, s);
    RunKeeps(cfg, s, steps);
    InvSameInputs(cfg, Run(cfg, s, steps).value);
    StuckOnlyWhenDone(cfg, Run(cfg, s, steps).value);
  }

  lemma ExactGroupSound(cfg: Config)
    requires ExactGroup(cfg)
    ensures AlwaysSound(cfg)
  {
    forall s: State, steps: seq<Step> | Init(cfg, s) && Run(cfg, s, steps).Some?
      ensures var s' := Run(cfg, s, steps).value;
              Domains(cfg, s') && SameInputs(s') && (Quiescent(cfg, s') ==> AllFinished(s'))
    {
      ExactRunSound(cfg, s, steps);
    }
  }

  // ---- Too few parties -----------------------------------------------------

  /** Every run can be continued until nobody can move. */
  lemma {:induction false} RunsToQuiescence(cfg: Config, s: State) returns (steps: seq<Step>)
    requires WellFormed(cfg) && Domains(cfg, s)
    ensures Run(cfg, s, steps).Some?
    ensures Domains(cfg, Run(cfg, s, steps).value) && Quiescent(cfg, Run(cfg, s, steps).value)
    decreases Rank(cfg, s)
  {
    if Quiescent(cfg, s) {
      steps := [];
    } else {
      var step :| Enabled(cfg, s, step);
      StepRank(cfg, s, step);
      RankNonNegative(cfg, Apply(cfg, s, step));
      var rest := RunsToQuiescence(cfg, Apply(cfg, s, step));
      steps := [step] + rest;
      assert steps[1..] == rest;
    }
  }

  /** Nobody is past the first loop, and nobody holds more than the group has. */
  ghost predicate Waiting(cfg: Config, s: State) {
    && Domains(cfg, s)
    && (forall m | m in s.log && m.Sign? :: m.from in cfg.data)
    && forall p | p in s.local ::
         s.local[p].Idle? || (s.local[p].Collecting? && s.local[p].commits.Keys <= cfg.data.Keys)
  }

  /** One party moves inside the first loop. */
  lemma WaitingStays(cfg: Config, s: State, s': State, p: PartyId)
    requires Waiting(cfg, s) && Domains(cfg, s') && p in s.local
    requires forall x | x in s.local && x != p :: s'.local[x] == s.local[x]
    requires s'.log == s.log || exists m :: s'.log == s.log + [m] && (m.Sign? ==> m.from in cfg.data)
    requires s'.local[p].Collecting? && s'.local[p].commits.Keys <= cfg.data.Keys
    ensures Waiting(cfg, s')
  {
  }

  lemma TooFewToPublish(cfg: Config, commits: map<PartyId, Commitment>)
    requires WellFormed(cfg) && |cfg.roster| < cfg.threshold && commits.Keys <= cfg.data.Keys
    ensures |commits| < cfg.threshold
  {
    NoDuplicatesCardinality(cfg.roster);
    SubsetSizes(commits.Keys, cfg.data.Keys);
    assert |commits.Keys| == |commits|;
  }

  lemma WaitOn(cfg: Config, s: State, step: Step)
    requires WellFormed(cfg) && |cfg.roster| < cfg.threshold && Waiting(cfg, s) && Enabled(cfg, s, step)
    ensures Waiting(cfg, Apply(cfg, s, step))
  {
    ApplyDomains(cfg, s, step);
    var p := step.p;
    var s' := Apply(cfg, s, step);
    if s.local[p].Collecting? {
      TooFewToPublish(cfg, s.local[p].commits);
      assert s.log[s.cursor[p]] in s.log;
    } else {
      assert s'.log == s.log + [SignOf(cfg, p)];
    }
    WaitingStays(cfg, s, s', p);
  }

  lemma {:induction false} TooFewWait(cfg: Config, s: State, steps: seq<Step>)
    requires WellFormed(cfg) && |cfg.roster| < cfg.threshold
    requires Waiting(cfg, s) && Run(cfg, s, steps).Some?
    ensures Waiting(cfg, Run(cfg, s, steps).value)
    decreases |steps|
  {
    if steps != [] {
      WaitOn(cfg, s, steps[0]);
      TooFewWait(cfg, Apply(cfg, s, steps[0]), steps[1..]);
    }
  }

  function Fresh(cfg: Config): State {
    State([], map p | p in cfg.data :: 0, map p | p in cfg.data :: Idle)
  }

  lemma TooFewUnsound(cfg: Config)
    requires WellFormed(cfg) && 0 < |cfg.roster| < cfg.threshold
    ensures !AlwaysSound(cfg)
  {
    var s := Fresh(cfg);
    var steps := RunsToQuiescence(cfg, s);
    TooFewWait(cfg, s, steps);
    assert cfg.roster[0] in Run(cfg, s, steps).value.local;
  }

  // ---- Too many parties ----------------------------------------------------

  function SignOf(cfg: Config, p: PartyId): Message
    requires p in cfg.data
  {
    Sign(p, cfg.data[p].keyIds, cfg.data[p].nonce)
  }

  /** The first `k` messages of the log are the commitments of the first `k` parties. */
  ghost predicate Lined(cfg: Config, s: State, k: nat)
    requires WellFormed(cfg)
  {
    && k <= |s.log| && k <= |cfg.roster|
    && forall i | 0 <= i < k :: cfg.roster[i] in Elements(cfg.roster) && s.log[i] == SignOf(cfg, cfg.roster[i])
  }

  /** The first `k` parties have broadcast their commitment; nobody has read anything. */
  ghost predicate Started(cfg: Config, s: State, k: nat)
    requires WellFormed(cfg)
  {
    && Domains(cfg, s) && |s.log| == k && Lined(cfg, s, k)
    && (forall p | p in s.local :: s.cursor[p] == 0)
    && (forall i | 0 <= i < |cfg.roster| :: cfg.roster[i] in s.local)
    && (forall i | 0 <= i < k :: s.local[cfg.roster[i]] == Collecting(map[cfg.roster[i] := cfg.data[cfg.roster[i]]]))
    && (forall i | k <= i < |cfg.roster| :: s.local[cfg.roster[i]].Idle?)
  }

  lemma StartNext(cfg: Config, s: State, k: nat)
    requires WellFormed(cfg) && k < |cfg.roster| && Started(cfg, s, k)
    ensures Enabled(cfg, s, Start(cfg.roster[k]))
    ensures Started(cfg, Apply(cfg, s, Start(cfg.roster[k])), k + 1)
  {
    ApplyDomains(cfg, s, Start(cfg.roster[k]));
  }

  /** The parties start one after the other in roster order. */
  lemma {:induction false} StartFirst(cfg: Config, k: nat) returns (steps: seq<Step>)
    requires WellFormed(cfg) && k <= |cfg.roster|
    ensures Run(cfg, Fresh(cfg), steps).Some? && Started(cfg, Run(cfg, Fresh(cfg), steps).value, k)
  {
    if k == 0 {
      steps := [];
      assert forall i | 0 <= i < |cfg.roster| :: cfg.roster[i] in Elements(cfg.roster);
    } else {
      var before := StartFirst(cfg, k - 1);
      var s := Run(cfg, Fresh(cfg), before).value;
      StartNext(cfg, s, k - 1);
      RunOne(cfg, s, Start(cfg.roster[k - 1]));
      RunConcat(cfg, Fresh(cfg), before, [Start(cfg.roster[k - 1])]);
      steps := before + [Start(cfg.roster[k - 1])];
    }
  }

  lemma PrefixSize(roster: seq<PartyId>, c: nat, p: PartyId)
    requires Increasing(roster) && c <= |roster| && p !in roster[..c]
    ensures |{p} + Elements(roster[..c])| == c + 1
  {
    NoDuplicatesCardinality(roster[..c]);
  }

  /** A party that is none of the first `threshold - 1` ones still waits and has
      read the commitments of the first `s.cursor[p]` parties. */
  ghost predicate Late(cfg: Config, s: State, p: PartyId)
    requires WellFormed(cfg)
  {
    && Domains(cfg, s) && p in s.local && s.local[p].Collecting?
    && 1 <= cfg.threshold <= |cfg.roster| && Lined(cfg, s, cfg.threshold - 1)
    && s.cursor[p] <= cfg.threshold - 1
    && p !in cfg.roster[..cfg.threshold - 1]
    && s.local[p].commits.Keys == {p} + Elements(cfg.roster[..s.cursor[p]])
  }

  lemma LateMayRead(cfg: Config, s: State, p: PartyId)
    requires WellFormed(cfg) && Late(cfg, s, p) && s.cursor[p] < cfg.threshold - 1
    ensures Enabled(cfg, s, Read(p))
  {
    var c := s.cursor[p];
    assert p !in cfg.roster[..c];
    PrefixSize(cfg.roster, c, p);
    assert |s.local[p].commits.Keys| == |s.local[p].commits|;
  }

  lemma PrefixGrows(roster: seq<PartyId>, c: nat, p: PartyId)
    requires c < |roster|
    ensures {p} + Elements(roster[..c + 1]) == {p} + Elements(roster[..c]) + {roster[c]}
  {
    assert roster[..c + 1] == roster[..c] + [roster[c]];
    ElementsAppend(roster[..c], roster[c]);
  }

  lemma ReadSign(cfg: Config, s: State, p: PartyId, q: PartyId)
    requires Domains(cfg, s) && p in s.local && s.local[p].Collecting? && Enabled(cfg, s, Read(p))
    requires q in cfg.data && q != p && s.log[s.cursor[p]] == SignOf(cfg, q)
    ensures var s' := Apply(cfg, s, Read(p));
            && s'.log == s.log && s'.cursor == s.cursor[p := s.cursor[p] + 1]
            && s'.local[p].Collecting? && s'.local[p].commits.Keys == s.local[p].commits.Keys + {q}
  {
  }

  lemma LateNext(cfg: Config, s: State, p: PartyId)
    requires WellFormed(cfg) && Late(cfg, s, p) && s.cursor[p] < cfg.threshold - 1
    ensures var q := cfg.roster[s.cursor[p]];
            q in cfg.data && q != p && s.cursor[p] < |s.log| && s.log[s.cursor[p]] == SignOf(cfg, q)
  {
    var c := s.cursor[p];
    assert cfg.roster[c] == cfg.roster[..cfg.threshold - 1][c];
    assert cfg.roster[c] in Elements(cfg.roster);
  }

  lemma LateStays(cfg: Config, s: State, s': State, p: PartyId)
    requires WellFormed(cfg) && Late(cfg, s, p) && s.cursor[p] < cfg.threshold - 1
    requires Domains(cfg, s') && s'.log == s.log && s'.cursor[p] == s.cursor[p] + 1 && s'.local[p].Collecting?
    requires s'.local[p].commits.Keys == s.local[p].commits.Keys + {cfg.roster[s.cursor[p]]}
    ensures Late(cfg, s', p)
  {
    PrefixGrows(cfg.roster, s.cursor[p], p);
  }

  /** One commitment of the line is read. */
  lemma LateRead(cfg: Config, s: State, p: PartyId) returns (s': State)
    requires WellFormed(cfg) && Late(cfg, s, p) && s.cursor[p] < cfg.threshold - 1
    ensures Enabled(cfg, s, Read(p)) && s' == Apply(cfg, s, Read(p))
    ensures Late(cfg, s', p) && s'.log == s.log && s'.cursor[p] == s.cursor[p] + 1
    ensures forall x | x in s.local && x != p :: s'.local[x] == s.local[x] && s'.cursor[x] == s.cursor[x]
  {
    LateMayRead(cfg, s, p);
    LateNext(cfg, s, p);
    ApplyDomains(cfg, s, Read(p));
    ReadSign(cfg, s, p, cfg.roster[s.cursor[p]]);
    s' := Apply(cfg, s, Read(p));
    LateStays(cfg, s, s', p);
  }

  /** A late party fills up with the first commitments of the log. */
  lemma {:induction false} ReadFirst(cfg: Config, s: State, p: PartyId) returns (steps: seq<Step>, s': State)
    requires WellFormed(cfg) && Late(cfg, s, p)
    ensures Run(cfg, s, steps) == Some(s') && s'.log == s.log
    ensures Late(cfg, s', p) && s'.cursor[p] == cfg.threshold - 1
    ensures forall x | x in s.local && x != p :: s'.local[x] == s.local[x] && s'.cursor[x] == s.cursor[x]
    decreases cfg.threshold - s.cursor[p]
  {
    if s.cursor[p] == cfg.threshold - 1 {
      steps, s' := [], s;
    } else {
      var next := LateRead(cfg, s, p);
      var rest;
      rest, s' := ReadFirst(cfg, next, p);
      steps := [Read(p)] + rest;
      assert steps[1..] == rest;
    }
  }

  lemma MayPublish(cfg: Config, s: State, p: PartyId, order: seq<PartyId>)
    requires WellFormed(cfg) && Late(cfg, s, p) && s.cursor[p] == cfg.threshold - 1
    requires Enumerates(order, s.local[p].commits.Keys)
    ensures Enabled(cfg, s, Publish(p, HashOrders(order, order, order)))
  {
    PrefixSize(cfg.roster, cfg.threshold - 1, p);
    assert |s.local[p].commits.Keys| == |s.local[p].commits|;
  }

  lemma PublishShape(cfg: Config, s: State, p: PartyId, order: seq<PartyId>)
    requires Domains(cfg, s) && Enabled(cfg, s, Publish(p, HashOrders(order, order, order)))
    ensures var s' := Apply(cfg, s, Publish(p, HashOrders(order, order, order)));
            && s.log <= s'.log && s'.cursor == s.cursor
            && p in s'.local && s'.local == s.local[p := s'.local[p]]
            && s'.local[p].Aggregating? && Elements(s'.local[p].input.ids) == s.local[p].commits.Keys
  {
    SortIdsIncreasing(order);
  }

  /** A party that has read the line signs over itself and those first parties. */
  lemma FullPublish(cfg: Config, s: State, p: PartyId) returns (step: Step, s': State)
    requires WellFormed(cfg) && Late(cfg, s, p) && s.cursor[p] == cfg.threshold - 1
    ensures Enabled(cfg, s, step) && s' == Apply(cfg, s, step)
    ensures Domains(cfg, s') && s.log <= s'.log && s'.local[p].Aggregating?
    ensures Elements(s'.local[p].input.ids) == {p} + Elements(cfg.roster[..cfg.threshold - 1])
    ensures forall x | x in s.local && x != p :: s'.local[x] == s.local[x] && s'.cursor[x] == s.cursor[x]
  {
    var order := SomeOrder(s.local[p].commits.Keys);
    step := Publish(p, HashOrders(order, order, order));
    MayPublish(cfg, s, p, order);
    ApplyDomains(cfg, s, step);
    PublishShape(cfg, s, p, order);
    s' := Apply(cfg, s, step);
  }

  lemma LatePublish(cfg: Config, s: State, p: PartyId) returns (steps: seq<Step>, s': State)
    requires WellFormed(cfg) && Late(cfg, s, p)
    ensures Run(cfg, s, steps) == Some(s') && Domains(cfg, s') && s.log <= s'.log
    ensures p in s'.local && s'.local[p].Aggregating?
    ensures Elements(s'.local[p].input.ids) == {p} + Elements(cfg.roster[..cfg.threshold - 1])
    ensures forall x | x in s.local && x != p :: s'.local[x] == s.local[x] && s'.cursor[x] == s.cursor[x]
  {
    var takes, mid := ReadFirst(cfg, s, p);
    var step;
    step, s' := FullPublish(cfg, mid, p);
    RunOne(cfg, mid, step);
    RunConcat(cfg, s, takes, [step]);
    steps := takes + [step];
  }

  /** Others' moves leave a late party late. */
  lemma LateFrame(cfg: Config, s: State, s': State, p: PartyId)
    requires WellFormed(cfg) && Late(cfg, s, p) && Domains(cfg, s') && s.log <= s'.log
    requires s'.local[p] == s.local[p] && s'.cursor[p] == s.cursor[p]
    ensures Late(cfg, s', p)
  {
  }

  lemma StartedLate(cfg: Config, s: State, i: nat) returns (p: PartyId)
    requires WellFormed(cfg) && Started(cfg, s, |cfg.roster|)
    requires 1 <= cfg.threshold && cfg.threshold - 1 <= i < |cfg.roster|
    ensures p == cfg.roster[i] && Late(cfg, s, p)
  {
    p := cfg.roster[i];
    assert Elements(cfg.roster[..0]) == {};
    assert s.local[p] == Collecting(map[p := cfg.data[p]]);
  }

  lemma TwoLatePublish(cfg: Config, s: State, y: PartyId, z: PartyId) returns (steps: seq<Step>, s': State)
    requires WellFormed(cfg) && Late(cfg, s, y) && Late(cfg, s, z) && y != z
    ensures Run(cfg, s, steps) == Some(s') && Domains(cfg, s')
    ensures forall x | x in {y, z} :: x in s'.local && s'.local[x].Aggregating?
    ensures Elements(s'.local[y].input.ids) == {y} + Elements(cfg.roster[..cfg.threshold - 1])
    ensures Elements(s'.local[z].input.ids) == {z} + Elements(cfg.roster[..cfg.threshold - 1])
  {
    var first, s1 := LatePublish(cfg, s, y);
    LateFrame(cfg, s, s1, z);
    var second;
    second, s' := LatePublish(cfg, s1, z);
    RunConcat(cfg, s, first, second);
    steps := first + second;
  }

  /** Once all have started, the last two parties are late. */
  lemma StartBothLate(cfg: Config) returns (starts: seq<Step>, s: State, y: PartyId, z: PartyId)
    requires WellFormed(cfg) && 1 <= cfg.threshold < |cfg.roster|
    ensures Run(cfg, Fresh(cfg), starts) == Some(s) && Late(cfg, s, y) && Late(cfg, s, z) && y != z
  {
    var n := |cfg.roster|;
    starts := StartFirst(cfg, n);
    s := Run(cfg, Fresh(cfg), starts).value;
    y := StartedLate(cfg, s, n - 1);
    z := StartedLate(cfg, s, n - 2);
  }

  lemma TwoDisagree(cfg: Config, s: State, y: PartyId, z: PartyId) returns (steps: seq<Step>, s': State)
    requires WellFormed(cfg) && Late(cfg, s, y) && Late(cfg, s, z) && y != z
    ensures Run(cfg, s, steps) == Some(s') && !SameInputs(s')
  {
    steps, s' := TwoLatePublish(cfg, s, y, z);
    assert y in Elements(s'.local[y].input.ids) && y !in Elements(s'.local[z].input.ids);
  }

  /** The last two parties sign over different groups. */
  lemma TooManyDisagree(cfg: Config) returns (steps: seq<Step>, s: State)
    requires WellFormed(cfg) && 1 <= cfg.threshold < |cfg.roster|
    ensures Run(cfg, Fresh(cfg), steps) == Some(s) && !SameInputs(s)
  {
    var starts, s0, y, z := StartBothLate(cfg);
    var rest;
    rest, s := TwoDisagree(cfg, s0, y, z);
    RunConcat(cfg, Fresh(cfg), starts, rest);
    steps := starts + rest;
  }

  lemma TooManyUnsound(cfg: Config)
    requires WellFormed(cfg) && 1 <= cfg.threshold < |cfg.roster|
    ensures !AlwaysSound(cfg)
  {
    var steps, s := TooManyDisagree(cfg);
    assert Init(cfg, Fresh(cfg));
  }

  /** The group works in every run exactly when it has `threshold` members. */
  lemma GroupSizeIsExact(cfg: Config)
    requires WellFormed(cfg) && cfg.roster != [] && cfg.threshold >= 1
    ensures AlwaysSound(cfg) <==> |cfg.roster| == cfg.threshold
  {
    if |cfg.roster| == cfg.threshold {
      ExactGroupSound(cfg);
    } else if |cfg.roster| < cfg.threshold {
      TooFewUnsound(cfg);
    } else {
      TooManyUnsound(cfg);
    }
  }
}
