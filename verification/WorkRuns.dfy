/** The laws of the work manager over every run: messages are accounted for one by
    one, jobs start in push order, and slots are neither overrun nor left idle. */
module WorkRuns {
  import opened Orders
  import opened WorkSpec

  datatype Step =
    | DeliverMessage(env: Env, m: Message)
    | PushTask(env: Env, job: Job, force: bool)
    | Poll(env: Env, now: nat, order: seq<Place>)

  /** The pruning order is an iteration over the store as the jobs leave it. */
  ghost predicate Admissible(max: nat, s: State, step: Step) {
    step.Poll? ==> Enumerates(step.order, Places(PollJobs(max, s, step.env, step.now).stored))
  }

  ghost function Next(max: nat, s: State, step: Step): State {
    match step
    case DeliverMessage(env, m) => Deliver(s, env, m)
    case PushTask(env, job, force) => Push(s, env, job, force)
    case Poll(env, now, order) => PruneFrom(PollJobs(max, s, env, now), now, order)
  }

  ghost predicate Run(max: nat, s: State, steps: seq<Step>, s': State)
    decreases |steps|
  {
    if |steps| == 0 then s' == s
    else Admissible(max, s, steps[0]) && Run(max, Next(max, s, steps[0]), steps[1..], s')
  }

  // ---- The store ------------------------------------------------------------------

  /** A queue that is not empty and holds only messages of its own place. */
  predicate OwnQueue(p: Place, q: seq<Message>) {
    q != [] && forall i | 0 <= i < |q| :: PlaceOf(q[i]) == p
  }

  ghost predicate Tidy(stored: Store) {
    forall h | h in stored :: stored[h] != map[] && forall ss | ss in stored[h] :: OwnQueue(Place(h, ss), stored[h][ss])
  }

  lemma PutFacts(stored: Store, p: Place, q: seq<Message>)
    ensures forall p' :: QueueAt(Put(stored, p, q), p') == if p' == p then q else QueueAt(stored, p')
    ensures Tidy(stored) && OwnQueue(p, q) ==> Tidy(Put(stored, p, q))
  {
    assert p.ssid in Put(stored, p, q)[p.hash];
  }

  lemma WithoutFacts(stored: Store, p: Place)
    ensures forall p' :: QueueAt(Without(stored, p), p') == if p' == p then [] else QueueAt(stored, p')
    ensures Tidy(stored) ==> Tidy(Without(stored, p))
  {
    var inner := Inner(stored, p.hash);
    var rest := inner - {p.ssid};
    forall p' ensures QueueAt(Without(stored, p), p') == if p' == p then [] else QueueAt(stored, p') {
      if p'.hash == p.hash && p'.ssid != p.ssid && p'.ssid in inner {
        assert p'.ssid in rest;
      }
    }
  }

  lemma OwnPlace(stored: Store, p: Place)
    requires Tidy(stored)
    ensures QueueAt(stored, p) == [] || OwnQueue(p, QueueAt(stored, p))
  {
  }

  // ---- Accounting -----------------------------------------------------------------

  function Count(xs: seq<Message>, m: Message): nat
    decreases |xs|
  {
    if xs == [] then 0 else Count(xs[..|xs| - 1], m) + if xs[|xs| - 1] == m then 1 else 0
  }

  function SentCount(sent: seq<Sent>, m: Message): nat
    decreases |sent|
  {
    if sent == [] then 0 else SentCount(sent[..|sent| - 1], m) + if sent[|sent| - 1].msg == m then 1 else 0
  }

  /** How often a message was sent to a job or discarded. */
  function Spent(t: Traffic, m: Message): nat {
    SentCount(t.sent, m) + Count(t.discarded, m)
  }

  /** A message is stored at its own place, sent, or discarded, as many times in all
      as it was given. */
  ghost predicate Accounted(stored: Store, t: Traffic) {
    forall m :: Count(t.given, m) == Count(QueueAt(stored, PlaceOf(m)), m) + Spent(t, m)
  }

  /** Only to jobs of the message's session, task, signing set and block window. */
  ghost predicate SentWell(t: Traffic) {
    forall i | 0 <= i < |t.sent| :: ShouldDeliver(t.sent[i].job, t.sent[i].msg)
  }

  ghost predicate MessageInv(s: State) {
    Tidy(s.stored) && Accounted(s.stored, s.traffic) && SentWell(s.traffic)
  }

  lemma {:induction false} CountConcat(xs: seq<Message>, ys: seq<Message>, m: Message)
    ensures Count(xs + ys, m) == Count(xs, m) + Count(ys, m)
    decreases |ys|
  {
    if ys == [] {
      assert xs + ys == xs;
    } else {
      CountConcat(xs, ys[..|ys| - 1], m);
      assert (xs + ys)[..|xs + ys| - 1] == xs + ys[..|ys| - 1];
    }
  }

  lemma CountOne(x: Message, m: Message)
    ensures Count([x], m) == if x == m then 1 else 0
  {
    assert [x][..0] == [];
  }

  lemma {:induction false} CountAbsent(xs: seq<Message>, m: Message)
    requires m !in xs
    ensures Count(xs, m) == 0
    decreases |xs|
  {
    if xs != [] {
      CountAbsent(xs[..|xs| - 1], m);
    }
  }

  lemma HandSpends(t: Traffic, env: Env, job: Job, x: Message, m: Message)
    ensures Spent(Hand(t, env, job, x), m) == Spent(t, m) + if x == m then 1 else 0
  {
    assert (t.sent + [Sent(job, x)])[..|t.sent|] == t.sent;
    assert (t.discarded + [x])[..|t.discarded|] == t.discarded;
  }

  /** Emptying a queue into a job: every message is sent or discarded. */
  lemma {:induction false} HandAllSpends(t: Traffic, env: Env, job: Job, q: seq<Message>, m: Message)
    ensures Spent(HandAll(t, env, job, q), m) == Spent(t, m) + Count(q, m)
    decreases |q|
  {
    if q != [] {
      assert q == [q[0]] + q[1..];
      CountConcat([q[0]], q[1..], m);
      CountOne(q[0], m);
      if ShouldDeliver(job, q[0]) {
        HandSpends(t, env, job, q[0], m);
        HandAllSpends(Hand(t, env, job, q[0]), env, job, q[1..], m);
      } else {
        assert (t.discarded + [q[0]])[..|t.discarded|] == t.discarded;
        HandAllSpends(t.(discarded := t.discarded + [q[0]]), env, job, q[1..], m);
      }
    }
  }

  lemma {:induction false} HandAllWell(t: Traffic, env: Env, job: Job, q: seq<Message>)
    requires SentWell(t)
    ensures SentWell(HandAll(t, env, job, q))
    decreases |q|
  {
    if q != [] {
      if ShouldDeliver(job, q[0]) {
        HandAllWell(Hand(t, env, job, q[0]), env, job, q[1..]);
      } else {
        HandAllWell(t.(discarded := t.discarded + [q[0]]), env, job, q[1..]);
      }
    }
  }

  lemma OwnCount(stored: Store, p: Place, m: Message)
    requires Tidy(stored) && PlaceOf(m) != p
    ensures Count(QueueAt(stored, p), m) == 0
  {
    CountAbsent(QueueAt(stored, p), m);
  }

  lemma StartKeeps(s: State, env: Env, job: Job)
    requires MessageInv(s)
    ensures MessageInv(StartJob(s, env, job))
  {
    if env.starts(job.uid) && job.hash in s.stored {
      var p := Place(job.hash, job.ssid);
      var q := QueueAt(s.stored, p);
      var t, stored := HandAll(s.traffic, env, job, q), Without(s.stored, p);
      WithoutFacts(s.stored, p);
      HandAllWell(s.traffic, env, job, q);
      forall m ensures Count(t.given, m) == Count(QueueAt(stored, PlaceOf(m)), m) + Spent(t, m) {
        HandAllSpends(s.traffic, env, job, q, m);
        if PlaceOf(m) != p {
          OwnCount(s.stored, p, m);
        }
      }
    }
  }

  /** Starting a job touches the store at the job's own place only. */
  lemma StartLeavesOthers(s: State, env: Env, job: Job, p: Place)
    requires p != Place(job.hash, job.ssid)
    ensures QueueAt(StartJob(s, env, job).stored, p) == QueueAt(s.stored, p)
  {
    WithoutFacts(s.stored, Place(job.hash, job.ssid));
  }

  lemma {:induction false} MatchDelivers(jobs: seq<Job>, m: Message)
    ensures FirstMatch(jobs, m).Some? <==> exists i :: 0 <= i < |jobs| && ShouldDeliver(jobs[i], m)
    ensures FirstMatch(jobs, m).Some? ==>
              ShouldDeliver(FirstMatch(jobs, m).value, m) && FirstMatch(jobs, m).value in jobs
    decreases |jobs|
  {
    if jobs != [] {
      MatchDelivers(jobs[1..], m);
      assert forall i | 1 <= i < |jobs| :: jobs[i] == jobs[1..][i - 1];
    }
  }

  lemma HandKeeps(stored: Store, t: Traffic, env: Env, job: Job, m: Message)
    requires Accounted(stored, t) && SentWell(t) && ShouldDeliver(job, m)
    ensures var t' := Hand(t.(given := t.given + [m]), env, job, m); Accounted(stored, t') && SentWell(t')
  {
    var t1 := t.(given := t.given + [m]);
    var t' := Hand(t1, env, job, m);
    forall x ensures Count(t'.given, x) == Count(QueueAt(stored, PlaceOf(x)), x) + Spent(t', x) {
      CountConcat(t.given, [m], x);
      CountOne(m, x);
      HandSpends(t1, env, job, m, x);
      assert Spent(t1, x) == Spent(t, x);
    }
  }

  lemma StoreTidy(stored: Store, m: Message)
    requires Tidy(stored)
    ensures Tidy(Put(stored, PlaceOf(m), QueueAt(stored, PlaceOf(m)) + [m]))
  {
    var p, q := PlaceOf(m), QueueAt(stored, PlaceOf(m)) + [m];
    OwnPlace(stored, p);
    assert OwnQueue(p, q);
    PutFacts(stored, p, q);
  }

  lemma StoreCounts(stored: Store, t: Traffic, m: Message, x: Message)
    requires Count(t.given, x) == Count(QueueAt(stored, PlaceOf(x)), x) + Spent(t, x)
    ensures var stored' := Put(stored, PlaceOf(m), QueueAt(stored, PlaceOf(m)) + [m]);
            Count(t.given + [m], x) == Count(QueueAt(stored', PlaceOf(x)), x) + Spent(t, x)
  {
    PutFacts(stored, PlaceOf(m), QueueAt(stored, PlaceOf(m)) + [m]);
    CountConcat(t.given, [m], x);
    CountConcat(QueueAt(stored, PlaceOf(m)), [m], x);
    CountOne(m, x);
  }

  lemma StoreKeeps(stored: Store, t: Traffic, m: Message)
    requires Accounted(stored, t)
    ensures Accounted(Put(stored, PlaceOf(m), QueueAt(stored, PlaceOf(m)) + [m]), t.(given := t.given + [m]))
  {
    var t' := t.(given := t.given + [m]);
    var stored' := Put(stored, PlaceOf(m), QueueAt(stored, PlaceOf(m)) + [m]);
    forall x ensures Count(t'.given, x) == Count(QueueAt(stored', PlaceOf(x)), x) + Spent(t', x) {
      StoreCounts(stored, t, m, x);
      assert Spent(t', x) == Spent(t, x);
    }
  }

  lemma DeliverKeeps(s: State, env: Env, m: Message)
    requires MessageInv(s)
    ensures MessageInv(Deliver(s, env, m))
  {
    var first := FirstMatch(s.enqueued, m);
    if first.Some? {
      MatchDelivers(s.enqueued, m);
      HandKeeps(s.stored, s.traffic, env, first.value, m);
    } else if m.hash in s.active && ShouldDeliver(s.active[m.hash], m) {
      HandKeeps(s.stored, s.traffic, env, s.active[m.hash], m);
    } else {
      StoreTidy(s.stored, m);
      StoreKeeps(s.stored, s.traffic, m);
    }
  }

  lemma {:induction false} StartUpToKeeps(s: State, env: Env, n: nat)
    requires MessageInv(s)
    ensures MessageInv(StartUpTo(s, env, n))
    decreases n
  {
    if n != 0 && s.enqueued != [] {
      var s1 := s.(enqueued := s.enqueued[1..], log := s.log.(taken := s.log.taken + [s.enqueued[0]]));
      StartKeeps(s1, env, s.enqueued[0]);
      StartUpToKeeps(TakeNext(s, env), env, n - 1);
    }
  }

  // ---- Pruning --------------------------------------------------------------------

  lemma {:induction false} KeptMembers(q: seq<Message>, now: nat, m: Message)
    ensures m in Kept(q, now) <==> m in q && Acceptable(now, m.block)
    decreases |q|
  {
    if q != [] {
      KeptMembers(q[1..], now, m);
      assert q == [q[0]] + q[1..];
    }
  }

  lemma {:induction false} KeptCount(q: seq<Message>, now: nat, m: Message)
    ensures Count(q, m) == Count(Kept(q, now), m) + Count(Outdated(q, now), m)
    decreases |q|
  {
    if q != [] {
      KeptCount(q[1..], now, m);
      assert q == [q[0]] + q[1..];
      CountConcat([q[0]], q[1..], m);
      if Acceptable(now, q[0].block) {
        CountConcat([q[0]], Kept(q[1..], now), m);
        assert [] + Outdated(q[1..], now) == Outdated(q[1..], now);
      } else {
        CountConcat([q[0]], Outdated(q[1..], now), m);
        assert [] + Kept(q[1..], now) == Kept(q[1..], now);
      }
    }
  }

  lemma PruneAtFacts(stored: Store, now: nat, p: Place)
    ensures forall p' :: QueueAt(PruneAt(stored, now, p), p') ==
                         if p' == p then Kept(QueueAt(stored, p), now) else QueueAt(stored, p')
    ensures Tidy(stored) ==> Tidy(PruneAt(stored, now, p))
  {
    var kept := Kept(QueueAt(stored, p), now);
    PutFacts(stored, p, kept);
    WithoutFacts(stored, p);
    forall i | 0 <= i < |kept| && Tidy(stored) ensures PlaceOf(kept[i]) == p {
      KeptMembers(QueueAt(stored, p), now, kept[i]);
    }
  }

  lemma PruneOne(stored: Store, t: Traffic, now: nat, p: Place)
    requires Tidy(stored) && Accounted(stored, t)
    ensures Accounted(PruneAt(stored, now, p), t.(discarded := t.discarded + Outdated(QueueAt(stored, p), now)))
  {
    var q := QueueAt(stored, p);
    var gone := Outdated(q, now);
    var stored', t' := PruneAt(stored, now, p), t.(discarded := t.discarded + gone);
    PruneAtFacts(stored, now, p);
    forall m ensures Count(t'.given, m) == Count(QueueAt(stored', PlaceOf(m)), m) + Spent(t', m) {
      CountConcat(t.discarded, gone, m);
      KeptCount(q, now, m);
      if PlaceOf(m) != p {
        OwnCount(stored, p, m);
      }
    }
  }

  lemma {:induction false} PruneKeeps(s: State, now: nat, order: seq<Place>)
    requires MessageInv(s)
    ensures MessageInv(PruneFrom(s, now, order))
    decreases |order|
  {
    if order != [] {
      PruneOne(s.stored, s.traffic, now, order[0]);
      PruneAtFacts(s.stored, now, order[0]);
      PruneKeeps(PruneHead(s, now, order[0]), now, order[1..]);
    }
  }

  lemma {:induction false} PruneQueues(s: State, now: nat, order: seq<Place>, p: Place)
    ensures QueueAt(PruneFrom(s, now, order).stored, p) ==
            if p in order then Kept(QueueAt(s.stored, p), now) else QueueAt(s.stored, p)
    decreases |order|
  {
    if order != [] {
      PruneAtFacts(s.stored, now, order[0]);
      PruneQueues(PruneHead(s, now, order[0]), now, order[1..], p);
      KeptTwice(QueueAt(s.stored, p), now);
    }
  }

  lemma {:induction false} KeptTwice(q: seq<Message>, now: nat)
    ensures Kept(Kept(q, now), now) == Kept(q, now)
    decreases |q|
  {
    if q != [] {
      KeptTwice(q[1..], now);
      var rest := Kept(q[1..], now);
      if Acceptable(now, q[0].block) {
        assert ([q[0]] + rest)[1..] == rest;
      } else {
        assert [] + rest == rest;
      }
    }
  }
}
