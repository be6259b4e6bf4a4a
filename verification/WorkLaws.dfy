/** What the work manager promises in every reachable state, and exactly when. */
module WorkLaws {
  import opened Orders
  import opened WorkSpec
  import opened WorkRuns

  // ---- Messages -------------------------------------------------------------------

  lemma StepMessages(max: nat, s: State, step: Step)
    requires MessageInv(s) && Admissible(max, s, step)
    ensures MessageInv(Next(max, s, step))
  {
    match step
    case DeliverMessage(env, m) => DeliverKeeps(s, env, m);
    case PushTask(env, job, force) =>
      if force {
        StartKeeps(s.(log := s.log.(forced := s.log.forced + 1)), env, job);
      }
    case Poll(env, now, order) =>
      var active := Retained(s.active, env, now);
      StartUpToKeeps(s.(active := active), env, Slots(max, active));
      PruneKeeps(PollJobs(max, s, env, now), now, order);
  }

  lemma {:induction false} RunMessagesFrom(max: nat, s: State, steps: seq<Step>, s': State)
    requires MessageInv(s) && Run(max, s, steps, s')
    ensures MessageInv(s')
    decreases |steps|
  {
    if |steps| > 0 {
      StepMessages(max, s, steps[0]);
      RunMessagesFrom(max, Next(max, s, steps[0]), steps[1..], s');
    }
  }

  /** In every run each message is stored at its own place, sent to a matching job,
      or discarded, as many times in all as it was given; and the store never holds
      an empty queue or an empty inner map. */
  lemma RunAccounts(max: nat, steps: seq<Step>, s: State)
    requires Run(max, Empty, steps, s)
    ensures Accounted(s.stored, s.traffic) && SentWell(s.traffic) && Tidy(s.stored)
  {
    RunMessagesFrom(max, Empty, steps, s);
  }

  /** Poll leaves in the store exactly the messages within tolerance of now, in order. */
  lemma PollPrunes(max: nat, steps: seq<Step>, s: State, env: Env, now: nat, order: seq<Place>, p: Place)
    requires Run(max, Empty, steps, s) && Admissible(max, s, Poll(env, now, order))
    ensures var before, s' := PollJobs(max, s, env, now).stored, Next(max, s, Poll(env, now, order));
            && Tidy(s'.stored)
            && QueueAt(s'.stored, p) == Kept(QueueAt(before, p), now)
            && (forall m | m in QueueAt(s'.stored, p) :: Acceptable(now, m.block))
  {
    RunAccounts(max, steps, s);
    StepMessages(max, s, Poll(env, now, order));
    var s1 := PollJobs(max, s, env, now);
    PruneQueues(s1, now, order, p);
    if p !in order {
      assert p !in Elements(order);
      assert QueueAt(s1.stored, p) == [];
    }
    forall m | m in Kept(QueueAt(s1.stored, p), now) ensures Acceptable(now, m.block) {
      KeptMembers(QueueAt(s1.stored, p), now, m);
    }
  }

  /** Some job, waiting or active, is the one the message is for. */
  ghost predicate Wanted(s: State, m: Message) {
    || (exists i :: 0 <= i < |s.enqueued| && ShouldDeliver(s.enqueued[i], m))
    || (exists h :: h in s.active && ShouldDeliver(s.active[h], m))
  }

  /** The message went to `job` and nowhere else. */
  ghost predicate WentTo(s: State, s': State, env: Env, job: Job, m: Message) {
    && (job in s.enqueued || exists h :: h in s.active && s.active[h] == job)
    && ShouldDeliver(job, m)
    && s'.traffic.sent == s.traffic.sent + (if Open(env, job) then [Sent(job, m)] else [])
    && s'.traffic.discarded == s.traffic.discarded + (if Open(env, job) then [] else [m])
  }

  /** A message is stored, last in its own queue, exactly when no job wants it; else
      it goes to one job that does, and is lost only when that job is over. */
  lemma DeliverOutcome(s: State, env: Env, m: Message)
    requires forall h | h in s.active :: s.active[h].hash == h
    ensures var s' := Deliver(s, env, m);
            && (Wanted(s, m) ==> s'.stored == s.stored && exists job :: WentTo(s, s', env, job, m))
            && (!Wanted(s, m) ==>
                  && s'.traffic.sent == s.traffic.sent && s'.traffic.discarded == s.traffic.discarded
                  && forall p :: QueueAt(s'.stored, p) == QueueAt(s.stored, p) + if p == PlaceOf(m) then [m] else [])
  {
    var s' := Deliver(s, env, m);
    var first := FirstMatch(s.enqueued, m);
    MatchDelivers(s.enqueued, m);
    if first.Some? {
      assert WentTo(s, s', env, first.value, m);
    } else if m.hash in s.active && ShouldDeliver(s.active[m.hash], m) {
      assert WentTo(s, s', env, s.active[m.hash], m);
    } else {
      PutFacts(s.stored, PlaceOf(m), QueueAt(s.stored, PlaceOf(m)) + [m]);
    }
  }

  /** The messages of a queue that a job takes, or does not take, in order. */
  function Taking(job: Job, q: seq<Message>, takes: bool): seq<Message>
    decreases |q|
  {
    if q == [] then []
    else (if ShouldDeliver(job, q[0]) == takes then [q[0]] else []) + Taking(job, q[1..], takes)
  }

  function SentTo(job: Job, q: seq<Message>): seq<Sent>
    decreases |q|
  {
    if q == [] then [] else [Sent(job, q[0])] + SentTo(job, q[1..])
  }

  /** A job that is running gets, in order, every stored message it should, and only
      the others are discarded. */
  lemma {:induction false} StartSends(t: Traffic, env: Env, job: Job, q: seq<Message>)
    requires Open(env, job)
    ensures HandAll(t, env, job, q) ==
            t.(sent := t.sent + SentTo(job, Taking(job, q, true)), discarded := t.discarded + Taking(job, q, false))
    decreases |q|
  {
    if q != [] {
      var yes, no := Taking(job, q[1..], true), Taking(job, q[1..], false);
      if ShouldDeliver(job, q[0]) {
        StartSends(Hand(t, env, job, q[0]), env, job, q[1..]);
        assert ([q[0]] + yes)[1..] == yes && [] + no == no;
        assert t.sent + ([Sent(job, q[0])] + SentTo(job, yes)) == t.sent + [Sent(job, q[0])] + SentTo(job, yes);
      } else {
        StartSends(t.(discarded := t.discarded + [q[0]]), env, job, q[1..]);
        assert [] + yes == yes;
        assert t.discarded + ([q[0]] + no) == t.discarded + [q[0]] + no;
      }
    } else {
      assert t.sent + [] == t.sent && t.discarded + [] == t.discarded;
    }
  }

  // ---- Jobs -----------------------------------------------------------------------

  /** Jobs are under their own hash, leave the queue in push order, and outnumber the
      limit by no more than the forced starts. */
  ghost predicate JobInv(max: nat, s: State) {
    && (forall h | h in s.active :: s.active[h].hash == h)
    && s.log.pushed == s.log.taken + s.enqueued
    && |s.active| <= max + s.log.forced
  }

  lemma ActivateSize(active: map<Hash, Job>, job: Job)
    ensures |Activate(active, job)| == |active| + if job.hash in active then 0 else 1
  {
    if job.hash !in active {
      assert active[job.hash := job].Keys == active.Keys + {job.hash};
    }
  }

  function TakenOf(n: nat, jobs: seq<Job>): nat {
    if n < |jobs| then n else |jobs|
  }

  /** The active set after up to `n` jobs, apart from everything else. */
  function ActiveAfter(active: map<Hash, Job>, jobs: seq<Job>, n: nat): map<Hash, Job>
    decreases n
  {
    if n == 0 || jobs == [] then active else ActiveAfter(Activate(active, jobs[0]), jobs[1..], n - 1)
  }

  lemma {:induction false} StartUpToActive(s: State, env: Env, n: nat)
    ensures StartUpTo(s, env, n).active == ActiveAfter(s.active, s.enqueued, n)
    decreases n
  {
    if n != 0 && s.enqueued != [] {
      StartUpToActive(TakeNext(s, env), env, n - 1);
    }
  }

  lemma {:induction false} StartUpToEnqueued(s: State, env: Env, n: nat)
    ensures StartUpTo(s, env, n).enqueued == s.enqueued[TakenOf(n, s.enqueued)..]
    decreases n
  {
    if n != 0 && s.enqueued != [] {
      StartUpToEnqueued(TakeNext(s, env), env, n - 1);
    }
  }

  lemma {:induction false} StartUpToLog(s: State, env: Env, n: nat)
    ensures StartUpTo(s, env, n).log == s.log.(taken := s.log.taken + s.enqueued[..TakenOf(n, s.enqueued)])
    decreases n
  {
    if n == 0 || s.enqueued == [] {
      assert s.log.taken + s.enqueued[..0] == s.log.taken;
    } else {
      StartUpToLog(TakeNext(s, env), env, n - 1);
      var k := TakenOf(n, s.enqueued);
      assert s.log.taken + s.enqueued[..k] == (s.log.taken + [s.enqueued[0]]) + s.enqueued[1..][..k - 1];
    }
  }

  lemma {:induction false} ActiveAfterFacts(active: map<Hash, Job>, jobs: seq<Job>, n: nat)
    requires forall h | h in active :: active[h].hash == h
    ensures |ActiveAfter(active, jobs, n)| <= |active| + n
    ensures forall h | h in ActiveAfter(active, jobs, n) :: ActiveAfter(active, jobs, n)[h].hash == h
    decreases n
  {
    if n != 0 && jobs != [] {
      ActivateSize(active, jobs[0]);
      ActiveAfterFacts(Activate(active, jobs[0]), jobs[1..], n - 1);
    }
  }

  lemma RetainedSize(active: map<Hash, Job>, env: Env, now: nat)
    ensures |Retained(active, env, now)| <= |active|
  {
    SubsetSizes(Retained(active, env, now).Keys, active.Keys);
  }

  lemma PollJobsKeeps(max: nat, s: State, env: Env, now: nat)
    requires JobInv(max, s)
    ensures JobInv(max, PollJobs(max, s, env, now))
    ensures PollJobs(max, s, env, now).log.pushed == s.log.pushed
  {
    var active := Retained(s.active, env, now);
    var n := Slots(max, active);
    RetainedSize(s.active, env, now);
    var s1 := s.(active := active);
    StartUpToEnqueued(s1, env, n);
    StartUpToLog(s1, env, n);
    StartUpToActive(s1, env, n);
    ActiveAfterFacts(active, s.enqueued, n);
    var k := TakenOf(n, s.enqueued);
    assert s.log.taken + s.enqueued == (s.log.taken + s.enqueued[..k]) + s.enqueued[k..];
  }

  lemma StepJobs(max: nat, s: State, step: Step)
    requires JobInv(max, s)
    ensures JobInv(max, Next(max, s, step))
  {
    match step
    case DeliverMessage(env, m) =>
    case PushTask(env, job, force) =>
      ActivateSize(s.active, job);
      assert s.log.taken + s.enqueued + [job] == s.log.taken + (s.enqueued + [job]);
    case Poll(env, now, order) =>
      PollJobsKeeps(max, s, env, now);
  }

  lemma {:induction false} RunJobsFrom(max: nat, s: State, steps: seq<Step>, s': State)
    requires JobInv(max, s) && Run(max, s, steps, s')
    ensures JobInv(max, s')
    decreases |steps|
  {
    if |steps| > 0 {
      StepJobs(max, s, steps[0]);
      RunJobsFrom(max, Next(max, s, steps[0]), steps[1..], s');
    }
  }

  /** In every run jobs leave the queue in push order, and the active set exceeds the
      limit by at most the number of forced starts: not at all without them. */
  lemma RunStartsInOrder(max: nat, steps: seq<Step>, s: State)
    requires Run(max, Empty, steps, s)
    ensures s.log.pushed == s.log.taken + s.enqueued
    ensures |s.active| <= max + s.log.forced
  {
    RunJobsFrom(max, Empty, steps, s);
  }

  /** Poll keeps every job that is neither stalled nor done, and every job active
      afterwards was kept or was waiting. */
  lemma PollKeepsRunning(max: nat, s: State, env: Env, now: nat)
    ensures var s' := PollJobs(max, s, env, now);
            && (forall h | h in s.active && !Stalled(env, now, s.active[h]) && !Done(env, s.active[h]) ::
                  h in s'.active && s'.active[h] == s.active[h])
            && (forall h | h in s'.active ::
                  || s'.active[h] in s.enqueued
                  || (h in s.active && s'.active[h] == s.active[h]
                      && !Stalled(env, now, s.active[h]) && !Done(env, s.active[h])))
  {
    var active := Retained(s.active, env, now);
    StartUpToActive(s.(active := active), env, Slots(max, active));
    ActiveAfterMembers(active, s.enqueued, Slots(max, active));
  }

  lemma {:induction false} ActiveAfterMembers(active: map<Hash, Job>, jobs: seq<Job>, n: nat)
    ensures forall h | h in active :: h in ActiveAfter(active, jobs, n) && ActiveAfter(active, jobs, n)[h] == active[h]
    ensures forall h | h in ActiveAfter(active, jobs, n) ::
              ActiveAfter(active, jobs, n)[h] in jobs || (h in active && ActiveAfter(active, jobs, n)[h] == active[h])
    decreases n
  {
    if n != 0 && jobs != [] {
      ActiveAfterMembers(Activate(active, jobs[0]), jobs[1..], n - 1);
      assert jobs[0] in jobs && forall x | x in jobs[1..] :: x in jobs;
    }
  }

  // ---- Slots ----------------------------------------------------------------------

  /** Hashes new to the active set and different from one another. */
  predicate Fresh(active: map<Hash, Job>, jobs: seq<Job>) {
    && (forall i | 0 <= i < |jobs| :: jobs[i].hash !in active)
    && (forall i, j | 0 <= i < j < |jobs| :: jobs[i].hash != jobs[j].hash)
  }

  lemma {:induction false} FillsExactly(active: map<Hash, Job>, jobs: seq<Job>, n: nat)
    requires n <= |jobs|
    ensures |ActiveAfter(active, jobs, n)| <= |active| + n
    ensures |ActiveAfter(active, jobs, n)| == |active| + n <==> Fresh(active, jobs[..n])
    decreases n
  {
    if n > 0 {
      ActivateSize(active, jobs[0]);
      FillsExactly(Activate(active, jobs[0]), jobs[1..], n - 1);
      FreshStep(active, jobs[..n]);
      assert jobs[..n][1..] == jobs[1..][..n - 1];
    }
  }

  lemma FreshStep(active: map<Hash, Job>, jobs: seq<Job>)
    requires jobs != []
    ensures Fresh(active, jobs) <==> jobs[0].hash !in active && Fresh(Activate(active, jobs[0]), jobs[1..])
  {
    var rest := jobs[1..];
    assert forall i | 0 <= i < |rest| :: rest[i] == jobs[i + 1];
    if jobs[0].hash !in active && Fresh(Activate(active, jobs[0]), rest) {
      forall i | 0 <= i < |jobs| ensures jobs[i].hash !in active {
        if i > 0 { assert rest[i - 1].hash !in Activate(active, jobs[0]); }
      }
      forall i, j | 0 <= i < j < |jobs| ensures jobs[i].hash != jobs[j].hash {
        if i > 0 {
          assert rest[i - 1].hash != rest[j - 1].hash;
        } else {
          assert rest[j - 1].hash !in Activate(active, jobs[0]);
        }
      }
    }
  }

  /** Nothing waits while a slot is free. */
  predicate NoIdleSlot(max: nat, s: State) {
    s.enqueued == [] || |s.active| >= max
  }

  /** Poll ends with an empty queue or a full active set exactly when the queue fits
      the free slots or the jobs taken have fresh hashes. */
  lemma PollFillsExactly(max: nat, s: State, env: Env, now: nat)
    ensures var active := Retained(s.active, env, now);
            var n := Slots(max, active);
            NoIdleSlot(max, PollJobs(max, s, env, now)) <==>
            (|s.enqueued| <= n || Fresh(active, s.enqueued[..n]))
  {
    var active := Retained(s.active, env, now);
    var n := Slots(max, active);
    var s1 := s.(active := active);
    StartUpToEnqueued(s1, env, n);
    StartUpToActive(s1, env, n);
    if n < |s.enqueued| {
      FillsExactly(active, s.enqueued, n);
    }
  }

  /** The check callers make before pushing. */
  predicate JobExists(s: State, h: Hash) {
    h in s.active || exists i :: 0 <= i < |s.enqueued| && s.enqueued[i].hash == h
  }

  /** Runs in which every push is of a task not there yet. */
  ghost predicate FreshRun(max: nat, s: State, steps: seq<Step>, s': State)
    decreases |steps|
  {
    if |steps| == 0 then s' == s
    else
      && Admissible(max, s, steps[0])
      && (steps[0].PushTask? ==> !JobExists(s, steps[0].job.hash))
      && FreshRun(max, Next(max, s, steps[0]), steps[1..], s')
  }

  lemma {:induction false} StartUpToFresh(s: State, env: Env, n: nat)
    requires Fresh(s.active, s.enqueued)
    ensures Fresh(StartUpTo(s, env, n).active, StartUpTo(s, env, n).enqueued)
    decreases n
  {
    if n != 0 && s.enqueued != [] {
      FreshStep(s.active, s.enqueued);
      StartUpToFresh(TakeNext(s, env), env, n - 1);
    }
  }

  lemma StepFresh(max: nat, s: State, step: Step)
    requires Fresh(s.active, s.enqueued) && (step.PushTask? ==> !JobExists(s, step.job.hash))
    ensures Fresh(Next(max, s, step).active, Next(max, s, step).enqueued)
  {
    match step
    case Poll(env, now, order) =>
      var active := Retained(s.active, env, now);
      StartUpToFresh(s.(active := active), env, Slots(max, active));
    case _ =>
  }

  /** When callers check before pushing, every poll of every run ends with an empty
      queue or a full active set. */
  lemma {:induction false} FreshRunFills(max: nat, s: State, steps: seq<Step>, s': State, env: Env, now: nat)
    requires Fresh(s.active, s.enqueued) && JobInv(max, s) && FreshRun(max, s, steps, s')
    ensures NoIdleSlot(max, PollJobs(max, s', env, now))
    decreases |steps|
  {
    if |steps| > 0 {
      StepFresh(max, s, steps[0]);
      StepJobs(max, s, steps[0]);
      FreshRunFills(max, Next(max, s, steps[0]), steps[1..], s', env, now);
    } else {
      var n := Slots(max, Retained(s.active, env, now));
      PollFillsExactly(max, s, env, now);
      if n < |s.enqueued| {
        assert forall i | 0 <= i < n :: s.enqueued[..n][i] == s.enqueued[i];
      }
    }
  }

  /** From the start, with callers that check. */
  lemma CheckedPushesFill(max: nat, steps: seq<Step>, s: State, env: Env, now: nat)
    requires FreshRun(max, Empty, steps, s)
    ensures NoIdleSlot(max, PollJobs(max, s, env, now))
  {
    FreshRunFills(max, Empty, steps, s, env, now);
  }
}
