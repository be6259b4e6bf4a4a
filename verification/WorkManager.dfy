/** The work manager as it changes its job sets and message store
    (dkg-gadget/src/signing_manager/work_manager.rs), against the functions of WorkSpec. */
module WorkManager {
  import opened Orders
  import opened WorkSpec
  import opened WorkRuns

  ghost predicate SameQueues(a: Store, b: Store) {
    forall p :: QueueAt(a, p) == QueueAt(b, p)
  }

  /** Without empty queues, a store is what its queues are. */
  lemma StoreExtensional(a: Store, b: Store)
    requires Tidy(a) && Tidy(b) && SameQueues(a, b)
    ensures a == b
  {
    SameKeys(a, b);
    SameKeys(b, a);
    forall h | h in a ensures a[h] == b[h] {
      forall ss | ss in a[h] ensures a[h][ss] == b[h][ss] {
        assert QueueAt(a, Place(h, ss)) == QueueAt(b, Place(h, ss));
      }
      MapsEqual(a[h], b[h]);
    }
    MapsEqual(a, b);
  }

  lemma SameKeys(a: Store, b: Store)
    requires Tidy(a) && SameQueues(a, b)
    ensures forall h | h in a :: h in b && a[h].Keys <= b[h].Keys
  {
    forall h | h in a ensures h in b && a[h].Keys <= b[h].Keys {
      forall ss | ss in a[h] ensures h in b && ss in b[h] {
        assert QueueAt(a, Place(h, ss)) == QueueAt(b, Place(h, ss));
      }
      var ss :| ss in a[h];
    }
  }

  lemma {:induction false} PruneTidy(s: State, now: nat, order: seq<Place>)
    requires Tidy(s.stored)
    ensures Tidy(PruneFrom(s, now, order).stored)
    decreases |order|
  {
    if order != [] {
      PruneAtFacts(s.stored, now, order[0]);
      PruneTidy(PruneHead(s, now, order[0]), now, order[1..]);
    }
  }

  lemma PruneStaysTidy(s: State, now: nat)
    requires Tidy(s.stored)
    ensures forall order :: Tidy(PruneFrom(s, now, order).stored)
  {
    forall order ensures Tidy(PruneFrom(s, now, order).stored) {
      PruneTidy(s, now, order);
    }
  }

  /** Own messages everywhere; empty queues only at the places listed. */
  ghost predicate TidyBut(stored: Store, empties: seq<Place>) {
    forall h | h in stored :: forall ss | ss in stored[h] ::
      OwnQueue(Place(h, ss), stored[h][ss]) || (stored[h][ss] == [] && Place(h, ss) in empties)
  }

  /** The places listed have lost their messages, and their outer maps are there. */
  ghost predicate Emptied(stored: Store, empties: seq<Place>) {
    forall j | 0 <= j < |empties| :: empties[j].hash in stored && QueueAt(stored, empties[j]) == []
  }

  /** Between the passes: the queues are those of the pruned store, and only places
      listed in `empties` have lost all their messages. */
  ghost predicate Halfway(stored: Store, pruned: Store, empties: seq<Place>) {
    SameQueues(stored, pruned) && TidyBut(stored, empties) && Emptied(stored, empties)
  }

  lemma PlacesPut(stored: Store, p: Place, q: seq<Message>)
    requires p in Places(stored)
    ensures Places(Put(stored, p, q)) == Places(stored)
  {
  }

  /** Pruning a queue in place may leave it empty. */
  lemma TidyButPut(stored: Store, empties: seq<Place>, now: nat, p: Place)
    requires TidyBut(stored, empties) && p in Places(stored)
    ensures var kept := Kept(QueueAt(stored, p), now);
            TidyBut(Put(stored, p, kept), if kept == [] then empties + [p] else empties)
  {
    var kept := Kept(QueueAt(stored, p), now);
    forall i | 0 <= i < |kept| ensures PlaceOf(kept[i]) == p {
      KeptMembers(QueueAt(stored, p), now, kept[i]);
    }
    assert forall x | x in empties :: x in empties + [p];
  }

  lemma EmptiedPut(stored: Store, empties: seq<Place>, now: nat, p: Place)
    requires Emptied(stored, empties) && p in Places(stored)
    ensures var kept := Kept(QueueAt(stored, p), now);
            Emptied(Put(stored, p, kept), if kept == [] then empties + [p] else empties)
  {
    PutFacts(stored, p, Kept(QueueAt(stored, p), now));
  }

  lemma SamePruned(stored: Store, pruned: Store, now: nat, p: Place)
    requires SameQueues(stored, pruned)
    ensures SameQueues(Put(stored, p, Kept(QueueAt(stored, p), now)), PruneAt(pruned, now, p))
  {
    PutFacts(stored, p, Kept(QueueAt(stored, p), now));
    PruneAtFacts(pruned, now, p);
  }

  function RemoveAt(stored: Store, p: Place): Store
    requires p.hash in stored
  {
    stored[p.hash := stored[p.hash] - {p.ssid}]
  }

  lemma RemoveEmpty(stored: Store, empties: seq<Place>)
    requires empties != [] && TidyBut(stored, empties)
    requires empties[0].hash in stored && QueueAt(stored, empties[0]) == []
    ensures TidyBut(RemoveAt(stored, empties[0]), empties[1..])
    ensures SameQueues(RemoveAt(stored, empties[0]), stored)
  {
    assert empties == [empties[0]] + empties[1..];
  }

  function NonEmpty(stored: Store): Store {
    map h | h in stored && stored[h] != map[] :: stored[h]
  }

  lemma DropEmptyMaps(stored: Store)
    requires TidyBut(stored, [])
    ensures Tidy(NonEmpty(stored)) && SameQueues(NonEmpty(stored), stored)
  {
  }

  lemma WithoutParts(stored: Store, p: Place)
    requires p.hash in stored
    ensures var rest := stored[p.hash] - {p.ssid};
            Without(stored, p) == if rest == map[] then stored - {p.hash} else (stored - {p.hash})[p.hash := rest]
  {
    var rest := stored[p.hash] - {p.ssid};
    if rest != map[] {
      MapsEqual(stored[p.hash := rest], (stored - {p.hash})[p.hash := rest]);
    }
  }

  class Manager {
    const maxTasks: nat
    var activeTasks: map<Hash, Job>
    var enqueuedTasks: seq<Job>
    var enqueuedMessages: Store
    ghost var traffic: Traffic
    ghost var log: Log

    ghost function Snapshot(): State
      reads this
    {
      State(activeTasks, enqueuedTasks, enqueuedMessages, traffic, log)
    }

    ghost predicate Valid()
      reads this
    {
      && Tidy(enqueuedMessages)
      && (forall h | h in activeTasks :: activeTasks[h].hash == h)
    }

    constructor (maxTasks: nat)
      ensures Valid() && Snapshot() == Empty && this.maxTasks == maxTasks
    {
      this.maxTasks := maxTasks;
      activeTasks, enqueuedTasks, enqueuedMessages := map[], [], map[];
      traffic, log := Traffic([], [], []), Log([], [], 0);
    }

    method DeliverMessage(env: Env, m: Message)
      requires Valid()
      modifies this`enqueuedMessages, this`traffic
      ensures Valid() && Snapshot() == Deliver(old(Snapshot()), env, m)
    {
      ghost var t := traffic.(given := traffic.given + [m]);
      for i := 0 to |enqueuedTasks|
        invariant unchanged(this)
        invariant FirstMatch(enqueuedTasks, m) == FirstMatch(enqueuedTasks[i..], m)
      {
        assert enqueuedTasks[i..][1..] == enqueuedTasks[i + 1..];
        if ShouldDeliver(enqueuedTasks[i], m) {
          traffic := Hand(t, env, enqueuedTasks[i], m);
          return;
        }
      }
      var order := HashOrder(activeTasks.Keys);
      assert forall h :: h in activeTasks <==> h in order by {
        assert forall h :: h in order <==> h in Elements(order);
      }
      for i := 0 to |order|
        invariant unchanged(this)
        invariant forall j | 0 <= j < i :: !ShouldDeliver(activeTasks[order[j]], m)
      {
        if ShouldDeliver(activeTasks[order[i]], m) {
          traffic := Hand(t, env, activeTasks[order[i]], m);
          return;
        }
      }
      StoreTidy(enqueuedMessages, m);
      var inner: map<Ssid, seq<Message>> := if m.hash in enqueuedMessages then enqueuedMessages[m.hash] else map[];
      var queue := if m.ssid in inner then inner[m.ssid] else [];
      enqueuedMessages := enqueuedMessages[m.hash := inner[m.ssid := queue + [m]]];
      traffic := t;
    }

    /** A stored queue, front first, into a job. */
    method DeliverQueue(env: Env, job: Job, messages: seq<Message>)
      modifies this`traffic
      ensures traffic == HandAll(old(traffic), env, job, messages)
    {
      var queue := messages;
      while queue != []
        invariant HandAll(traffic, env, job, queue) == HandAll(old(traffic), env, job, messages)
        decreases |queue|
      {
        var message := queue[0];
        queue := queue[1..];
        if ShouldDeliver(job, message) {
          traffic := Hand(traffic, env, job, message);
        } else {
          traffic := traffic.(discarded := traffic.discarded + [message]);
        }
      }
    }

    /** The messages stored for a job's task, other signing sets put back. */
    method DeliverStored(env: Env, job: Job)
      requires Tidy(enqueuedMessages) && job.hash in enqueuedMessages
      modifies this`enqueuedMessages, this`traffic
      ensures var p := Place(job.hash, job.ssid);
              && enqueuedMessages == Without(old(enqueuedMessages), p)
              && traffic == HandAll(old(traffic), env, job, QueueAt(old(enqueuedMessages), p))
      ensures Tidy(enqueuedMessages)
    {
      WithoutParts(enqueuedMessages, Place(job.hash, job.ssid));
      WithoutFacts(enqueuedMessages, Place(job.hash, job.ssid));
      var inner: map<Ssid, seq<Message>> := enqueuedMessages[job.hash];
      enqueuedMessages := enqueuedMessages - {job.hash};
      if job.ssid in inner {
        DeliverQueue(env, job, inner[job.ssid]);
      }
      inner := inner - {job.ssid};
      if inner != map[] {
        enqueuedMessages := enqueuedMessages[job.hash := inner];
      }
    }

    method StartJobUnconditional(env: Env, job: Job)
      requires Valid()
      modifies this`activeTasks, this`enqueuedMessages, this`traffic
      ensures Valid() && Snapshot() == StartJob(old(Snapshot()), env, job)
    {
      if env.starts(job.uid) && job.hash in enqueuedMessages {
        DeliverStored(env, job);
      }
      if job.hash !in activeTasks {
        activeTasks := activeTasks[job.hash := job];
      }
    }

    method PushTask(env: Env, job: Job, forceStart: bool)
      requires Valid()
      modifies this
      ensures Valid() && Snapshot() == Push(old(Snapshot()), env, job, forceStart)
    {
      if forceStart {
        log := log.(forced := log.forced + 1);
        StartJobUnconditional(env, job);
        return;
      }
      enqueuedTasks := enqueuedTasks + [job];
      log := log.(pushed := log.pushed + [job]);
    }

    method StartNextTask(env: Env)
      requires Valid() && enqueuedTasks != []
      modifies this
      ensures Valid() && Snapshot() == TakeNext(old(Snapshot()), env)
    {
      var job := enqueuedTasks[0];
      enqueuedTasks := enqueuedTasks[1..];
      log := log.(taken := log.taken + [job]);
      StartJobUnconditional(env, job);
    }

    method StartTasks(env: Env, tasksToStart: nat)
      requires Valid()
      modifies this
      ensures Valid() && Snapshot() == StartUpTo(old(Snapshot()), env, tasksToStart)
    {
      for i := 0 to tasksToStart
        invariant Valid()
        invariant StartUpTo(Snapshot(), env, tasksToStart - i) == StartUpTo(old(Snapshot()), env, tasksToStart)
      {
        if enqueuedTasks == [] {
          break;
        }
        StartNextTask(env);
      }
    }

    method PollTasks(env: Env, now: nat)
      requires Valid()
      modifies this
      ensures Valid() && Snapshot() == PollJobs(maxTasks, old(Snapshot()), env, now)
    {
      activeTasks := Retained(activeTasks, env, now);
      StartTasks(env, Slots(maxTasks, activeTasks));
    }

    /** Outdated messages go, queue by queue; `toRemove` lists the queues left empty. */
    method RetainAcceptable(now: nat) returns (toRemove: seq<Place>, ghost order: seq<Place>, ghost pruned: State)
      requires Valid()
      modifies this`enqueuedMessages, this`traffic
      ensures Enumerates(order, Places(old(enqueuedMessages)))
      ensures pruned == PruneFrom(old(Snapshot()), now, order) && pruned.traffic == traffic
      ensures Halfway(enqueuedMessages, pruned.stored, toRemove)
    {
      var places := HashOrder(Places(enqueuedMessages));
      order := places;
      pruned := Snapshot();
      toRemove := [];
      for i := 0 to |places|
        invariant PruneFrom(pruned, now, places[i..]) == PruneFrom(old(Snapshot()), now, places)
        invariant Halfway(enqueuedMessages, pruned.stored, toRemove) && pruned.traffic == traffic
        invariant Places(enqueuedMessages) == Elements(places)
      {
        assert places[i..][1..] == places[i + 1..];
        var p := places[i];
        assert p in Elements(places);
        var emptied := RetainAt(now, p, toRemove, pruned);
        pruned := PruneHead(pruned, now, p);
        if emptied {
          toRemove := toRemove + [p];
        }
      }
    }

    /** One queue loses its outdated messages. */
    method RetainAt(now: nat, p: Place, ghost toRemove: seq<Place>, ghost pruned: State) returns (emptied: bool)
      requires p in Places(enqueuedMessages)
      requires Halfway(enqueuedMessages, pruned.stored, toRemove) && traffic == pruned.traffic
      modifies this`enqueuedMessages, this`traffic
      ensures Places(enqueuedMessages) == Places(old(enqueuedMessages))
      ensures traffic == PruneHead(pruned, now, p).traffic
      ensures Halfway(enqueuedMessages, PruneHead(pruned, now, p).stored, if emptied then toRemove + [p] else toRemove)
    {
      var queue := QueueAt(enqueuedMessages, p);
      var kept := Kept(queue, now);
      SamePruned(enqueuedMessages, pruned.stored, now, p);
      EmptiedPut(enqueuedMessages, toRemove, now, p);
      PlacesPut(enqueuedMessages, p, kept);
      TidyButPut(enqueuedMessages, toRemove, now, p);
      enqueuedMessages := Put(enqueuedMessages, p, kept);
      traffic := traffic.(discarded := traffic.discarded + Outdated(queue, now));
      emptied := kept == [];
    }

    /** Queues left empty go, then inner maps left empty. */
    method RemoveEmptyQueues(toRemove: seq<Place>)
      requires TidyBut(enqueuedMessages, toRemove)
      requires Emptied(enqueuedMessages, toRemove)
      modifies this`enqueuedMessages
      ensures Tidy(enqueuedMessages) && SameQueues(enqueuedMessages, old(enqueuedMessages))
    {
      assert toRemove[0..] == toRemove;
      for i := 0 to |toRemove|
        invariant SameQueues(enqueuedMessages, old(enqueuedMessages))
        invariant TidyBut(enqueuedMessages, toRemove[i..])
        invariant Emptied(enqueuedMessages, toRemove[i..])
      {
        RemoveEmpty(enqueuedMessages, toRemove[i..]);
        enqueuedMessages := RemoveAt(enqueuedMessages, toRemove[i]);
        assert toRemove[i..][1..] == toRemove[i + 1..];
      }
      DropEmptyMaps(enqueuedMessages);
      enqueuedMessages := NonEmpty(enqueuedMessages);
    }

    method PruneMessages(now: nat) returns (ghost order: seq<Place>)
      requires Valid()
      modifies this`enqueuedMessages, this`traffic
      ensures Valid() && Enumerates(order, Places(old(enqueuedMessages)))
      ensures Snapshot() == PruneFrom(old(Snapshot()), now, order)
    {
      var toRemove;
      ghost var pruned;
      PruneStaysTidy(Snapshot(), now);
      toRemove, order, pruned := RetainAcceptable(now);
      RemoveEmptyQueues(toRemove);
      StoreExtensional(enqueuedMessages, pruned.stored);
    }

    method Poll(env: Env, now: nat) returns (ghost order: seq<Place>)
      requires Valid()
      modifies this
      ensures Valid()
      ensures var s := PollJobs(maxTasks, old(Snapshot()), env, now);
              Enumerates(order, Places(s.stored)) && Snapshot() == PruneFrom(s, now, order)
    {
      PollTasks(env, now);
      order := PruneMessages(now);
    }
  }
}
