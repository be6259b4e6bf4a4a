/** What the signing work manager's operations do
    (dkg-gadget/src/signing_manager/work_manager.rs), with the history its laws speak of. */
module WorkSpec {
  import opened Orders

  type Hash = nat
  type Ssid = nat
  type BlockId = nat

  /** A message, together with the hash of the job it is meant for. */
  datatype Message = Message(hash: Hash, session: nat, ssid: Ssid, block: BlockId, payload: nat)

  datatype Status = Beginning | Keygen | AwaitingProposals | OfflineAndVoting | Complete | Terminated

  /** A job and its protocol handle; `uid` tells handles apart. */
  datatype Job = Job(uid: nat, hash: Hash, session: nat, ssid: Ssid, block: BlockId, startedAt: nat)

  /** What an operation finds in the handles: protocol status, whether the start
      signal gets through, and whether the protocol still receives. */
  datatype Env = Env(status: nat -> Status, starts: nat -> bool, receives: nat -> bool)

  /** Stored messages, by task hash and then by signing-set id. */
  type Store = map<Hash, map<Ssid, seq<Message>>>

  datatype Place = Place(hash: Hash, ssid: Ssid)

  datatype Sent = Sent(job: Job, msg: Message)

  /** Messages given so far, and those sent to a job or discarded. */
  datatype Traffic = Traffic(given: seq<Message>, sent: seq<Sent>, discarded: seq<Message>)

  /** Jobs pushed, jobs taken from the queue, and the number of forced starts. */
  datatype Log = Log(pushed: seq<Job>, taken: seq<Job>, forced: nat)

  datatype State = State(active: map<Hash, Job>, enqueued: seq<Job>, stored: Store, traffic: Traffic, log: Log)

  const Empty: State := State(map[], [], map[], Traffic([], [], []), Log([], [], 0))

  const SIGN_TIMEOUT := 10
  const TOLERANCE := SIGN_TIMEOUT - 2

  /** Written as the source writes it; it is a distance bound. */
  predicate Acceptable(expected: BlockId, received: BlockId)
    ensures Acceptable(expected, received) <==> -8 <= received - expected <= 8
  {
    var above := received >= expected && received <= expected + TOLERANCE;
    var below := received < expected && received >= (if expected < TOLERANCE then 0 else expected - TOLERANCE);
    above || below || expected == received
  }

  predicate ShouldDeliver(job: Job, m: Message) {
    job.session == m.session && job.hash == m.hash && job.ssid == m.ssid && Acceptable(job.block, m.block)
  }

  predicate Open(env: Env, job: Job) {
    env.status(job.uid) != Complete && env.status(job.uid) != Terminated && env.receives(job.uid)
  }

  predicate Stalled(env: Env, now: nat, job: Job) {
    env.status(job.uid) == Terminated || now >= job.startedAt + SIGN_TIMEOUT
  }

  predicate Done(env: Env, job: Job) {
    env.status(job.uid) == Terminated || env.status(job.uid) == Complete
  }

  // ---- The message store --------------------------------------------------------

  function PlaceOf(m: Message): Place { Place(m.hash, m.ssid) }

  function QueueAt(stored: Store, p: Place): seq<Message> {
    if p.hash in stored && p.ssid in stored[p.hash] then stored[p.hash][p.ssid] else []
  }

  function Inner(stored: Store, h: Hash): map<Ssid, seq<Message>> {
    if h in stored then stored[h] else map[]
  }

  function Put(stored: Store, p: Place, q: seq<Message>): Store {
    stored[p.hash := Inner(stored, p.hash)[p.ssid := q]]
  }

  /** Without the queue at a place, nor an outer map left empty by that. */
  function Without(stored: Store, p: Place): Store {
    var rest := Inner(stored, p.hash) - {p.ssid};
    if rest == map[] then stored - {p.hash} else stored[p.hash := rest]
  }

  function Places(stored: Store): set<Place> {
    set h, ss | h in stored && ss in stored[h] :: Place(h, ss)
  }

  // ---- Delivery -------------------------------------------------------------------

  /** Over to the job's protocol, or lost when that is over. */
  function Hand(t: Traffic, env: Env, job: Job, m: Message): Traffic {
    if Open(env, job) then t.(sent := t.sent + [Sent(job, m)]) else t.(discarded := t.discarded + [m])
  }

  function FirstMatch(jobs: seq<Job>, m: Message): Option<Job>
    decreases |jobs|
  {
    if jobs == [] then None
    else if ShouldDeliver(jobs[0], m) then Some(jobs[0])
    else FirstMatch(jobs[1..], m)
  }

  function Deliver(s: State, env: Env, m: Message): State {
    var t := s.traffic.(given := s.traffic.given + [m]);
    var first := FirstMatch(s.enqueued, m);
    if first.Some? then s.(traffic := Hand(t, env, first.value, m))
    else if m.hash in s.active && ShouldDeliver(s.active[m.hash], m) then
      s.(traffic := Hand(t, env, s.active[m.hash], m))
    else s.(traffic := t, stored := Put(s.stored, PlaceOf(m), QueueAt(s.stored, PlaceOf(m)) + [m]))
  }

  // ---- Starting jobs --------------------------------------------------------------

  function HandAll(t: Traffic, env: Env, job: Job, q: seq<Message>): (r: Traffic)
    ensures r.given == t.given
    decreases |q|
  {
    if q == [] then t
    else if ShouldDeliver(job, q[0]) then HandAll(Hand(t, env, job, q[0]), env, job, q[1..])
    else HandAll(t.(discarded := t.discarded + [q[0]]), env, job, q[1..])
  }

  /** A job whose hash is active already does not replace the one that is. */
  function Activate(active: map<Hash, Job>, job: Job): map<Hash, Job> {
    if job.hash in active then active else active[job.hash := job]
  }

  function StartJob(s: State, env: Env, job: Job): State {
    var p := Place(job.hash, job.ssid);
    var s1 := s.(active := Activate(s.active, job));
    if env.starts(job.uid) && job.hash in s.stored then
      s1.(stored := Without(s.stored, p), traffic := HandAll(s.traffic, env, job, QueueAt(s.stored, p)))
    else s1
  }

  function Push(s: State, env: Env, job: Job, force: bool): State {
    if force then StartJob(s.(log := s.log.(forced := s.log.forced + 1)), env, job)
    else s.(enqueued := s.enqueued + [job], log := s.log.(pushed := s.log.pushed + [job]))
  }

  // ---- Poll -----------------------------------------------------------------------

  function Retained(active: map<Hash, Job>, env: Env, now: nat): map<Hash, Job> {
    map h | h in active && !Stalled(env, now, active[h]) && !Done(env, active[h]) :: active[h]
  }

  function TakeNext(s: State, env: Env): State
    requires s.enqueued != []
  {
    StartJob(s.(enqueued := s.enqueued[1..], log := s.log.(taken := s.log.taken + [s.enqueued[0]])), env, s.enqueued[0])
  }

  function StartUpTo(s: State, env: Env, n: nat): State
    decreases n
  {
    if n == 0 || s.enqueued == [] then s else StartUpTo(TakeNext(s, env), env, n - 1)
  }

  function Kept(q: seq<Message>, now: nat): seq<Message>
    decreases |q|
  {
    if q == [] then []
    else (if Acceptable(now, q[0].block) then [q[0]] else []) + Kept(q[1..], now)
  }

  function Outdated(q: seq<Message>, now: nat): seq<Message>
    decreases |q|
  {
    if q == [] then []
    else (if Acceptable(now, q[0].block) then [] else [q[0]]) + Outdated(q[1..], now)
  }

  /** The store without a place's outdated messages, nor the place when none is left. */
  function PruneAt(stored: Store, now: nat, p: Place): Store {
    var kept := Kept(QueueAt(stored, p), now);
    if kept == [] then Without(stored, p) else Put(stored, p, kept)
  }

  function PruneHead(s: State, now: nat, p: Place): State {
    s.(stored := PruneAt(s.stored, now, p),
       traffic := s.traffic.(discarded := s.traffic.discarded + Outdated(QueueAt(s.stored, p), now)))
  }

  /** Each place in turn loses its outdated messages. */
  function PruneFrom(s: State, now: nat, order: seq<Place>): (r: State)
    ensures r.active == s.active && r.enqueued == s.enqueued && r.log == s.log
    decreases |order|
  {
    if order == [] then s else PruneFrom(PruneHead(s, now, order[0]), now, order[1..])
  }

  function Slots(max: nat, active: map<Hash, Job>): nat {
    if max < |active| then 0 else max - |active|
  }

  /** Poll up to the pruning: finished jobs leave, waiting ones take their slots. */
  function PollJobs(max: nat, s: State, env: Env, now: nat): State {
    var active := Retained(s.active, env, now);
    StartUpTo(s.(active := active), env, Slots(max, active))
  }
}
