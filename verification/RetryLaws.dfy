/** Over every run of one proposal's retries: which sets are tried, when, and
    exactly when trying stops for good. */
module RetryLaws {
  import opened Orders
  import opened SigningRetry
  import opened SigningSets

  /** A pass over the proposal in a block, a reported failure, or the removal of its
      history, as a reported success does. */
  datatype Event = Block(now: nat, generated: seq<Members>) | Failure(ssid: Ssid) | Forget

  datatype Try = Try(ssid: Ssid, now: nat)

  /** A proposal's tracker and the attempts so far. */
  datatype World = World(t: Tracker, trace: seq<Try>)

  ghost function Next(w: World, e: Event): World {
    match e
    case Block(now, generated) =>
      var (t, next) := Attempt(w.t, now, generated);
      World(t, if next.Some? then w.trace + [Try(next.value, now)] else w.trace)
    case Failure(ssid) => World(Fail(w.t, ssid), w.trace)
    case Forget => World(NewTracker, w.trace)
  }

  /** Block numbers do not fall, the first attempt finds `k` sets, a failure is of a set
      tried in the current round, and nothing succeeds. */
  ghost predicate Orderly(k: nat, clock: nat, w: World, e: Event) {
    match e
    case Block(now, generated) => now >= clock && (w.trace == [] ==> |generated| == k)
    case Failure(ssid) => w.trace != [] && ssid <= w.trace[|w.trace| - 1].ssid
    case Forget => false
  }

  function Clock(clock: nat, e: Event): nat {
    if e.Block? then e.now else clock
  }

  ghost predicate Run(k: nat, clock: nat, w: World, events: seq<Event>, w': World)
    decreases |events|
  {
    if events == [] then w' == w
    else Orderly(k, clock, w, events[0]) && Run(k, Clock(clock, events[0]), Next(w, events[0]), events[1..], w')
  }

  // ---- The cycle ------------------------------------------------------------------

  /** The ids tried in the current round. */
  function UpTo(n: Ssid): (r: set<Ssid>)
    ensures forall x: Ssid :: x in r <==> x <= n
  {
    if n == 0 then {0} else UpTo(n - 1) + {n}
  }

  ghost predicate Spaced(trace: seq<Try>) {
    forall i | 0 < i < |trace| :: trace[i].now >= trace[i - 1].now + SIGN_TIMEOUT
  }

  ghost predicate Cyclic(k: nat, trace: seq<Try>)
    requires k > 0
  {
    forall i | 0 <= i < |trace| :: trace[i].ssid == i % k
  }

  ghost predicate Inv(k: nat, clock: nat, w: World)
    requires k > 0
  {
    && Cyclic(k, w.trace) && Spaced(w.trace)
    && (w.trace == [] ==> w.t == NewTracker)
    && (w.trace != [] ==>
          var last := w.trace[|w.trace| - 1];
          && |w.t.sets| == k && w.t.attempted == UpTo(last.ssid)
          && LatestStart(w.t.sets) == Some(last.now) && last.now <= clock)
  }

  lemma {:induction false} StartedBy(sets: seq<SigningSet>, i: nat)
    requires i < |sets| && sets[i].startedAt.Some?
    ensures LatestStart(sets).Some? && sets[i].startedAt.value <= LatestStart(sets).value
    decreases |sets|
  {
    if i < |sets| - 1 {
      StartedBy(sets[..|sets| - 1], i);
    }
  }

  lemma {:induction false} LatestAtMost(sets: seq<SigningSet>, now: nat)
    requires forall i | 0 <= i < |sets| && sets[i].startedAt.Some? :: sets[i].startedAt.value <= now
    ensures LatestStart(sets).Some? ==> LatestStart(sets).value <= now
    decreases |sets|
  {
    if sets != [] {
      LatestAtMost(sets[..|sets| - 1], now);
    }
  }

  lemma PinLatest(sets: seq<SigningSet>, i: nat, now: nat)
    requires i < |sets| && sets[i].startedAt == Some(now)
    requires forall j | 0 <= j < |sets| && sets[j].startedAt.Some? :: sets[j].startedAt.value <= now
    ensures LatestStart(sets) == Some(now)
  {
    LatestAtMost(sets, now);
    StartedBy(sets, i);
  }

  /** A set started now is the latest one. */
  lemma MarkedIsLatest(sets: seq<SigningSet>, i: nat, now: nat)
    requires i < |sets| && (LatestStart(sets).Some? ==> LatestStart(sets).value <= now)
    ensures LatestStart(MarkStarted(sets, i, now)) == Some(now)
  {
    var marked := MarkStarted(sets, i, now);
    forall j | 0 <= j < |marked| && marked[j].startedAt.Some? ensures marked[j].startedAt.value <= now {
      if j != i {
        StartedBy(sets, j);
      }
    }
    PinLatest(marked, i, now);
  }

  lemma {:induction false} UnstartedFacts(generated: seq<Members>)
    ensures |Unstarted(generated)| == |generated| && LatestStart(Unstarted(generated)) == None
    decreases |generated|
  {
    if generated != [] {
      UnstartedFacts(generated[..|generated| - 1]);
      var sets := Unstarted(generated);
      assert sets[..|sets| - 1] == Unstarted(generated[..|generated| - 1]);
    }
  }

  lemma NextInCycle(i: nat, k: nat)
    requires k > 0
    ensures (i + 1) % k == if i % k == k - 1 then 0 else i % k + 1
  {
    var q, r := i / k, i % k;
    assert i == q * k + r;
    if r == k - 1 {
      assert i + 1 == (q + 1) * k;
      ModUnique(i + 1, k, q + 1, 0);
    } else {
      ModUnique(i + 1, k, q, r + 1);
    }
  }

  lemma ModUnique(x: nat, k: nat, q: nat, r: nat)
    requires k > 0 && r < k && x == q * k + r
    ensures x % k == r
  {
    var q' := x / k;
    assert x == q' * k + x % k;
    if q' < q {
      MultiplesApart(q', q, k);
    } else if q' > q {
      MultiplesApart(q, q', k);
    }
  }

  lemma MultiplesApart(a: nat, b: nat, k: nat)
    requires a < b
    ensures a * k + k <= b * k
  {
    assert b * k == a * k + k + (b - a - 1) * k;
    NonNegative(b - a - 1, k);
  }

  lemma UpToNext(n: Ssid)
    requires n < SSID_RANGE - 1
    ensures UpTo(n) != {} && NextSsid(UpTo(n)) == n + 1
    ensures UpTo(n) + {n + 1} == UpTo(n + 1)
    ensures UpTo(0) == {0}
  {
    assert n in UpTo(n);
  }

  lemma TraceGrows(k: nat, trace: seq<Try>, next: Try)
    requires k > 0 && Cyclic(k, trace) && Spaced(trace) && next.ssid == |trace| % k
    requires trace != [] ==> next.now >= trace[|trace| - 1].now + SIGN_TIMEOUT
    ensures Cyclic(k, trace + [next]) && Spaced(trace + [next])
  {
  }

  lemma FirstTry(now: nat, generated: seq<Members>)
    requires generated != []
    ensures var (t, next) := Attempt(NewTracker, now, generated);
            && next == Some(0) && |t.sets| == |generated| && t.attempted == UpTo(0) && LatestStart(t.sets) == Some(now)
  {
    UnstartedFacts(generated);
    MarkedIsLatest(Unstarted(generated), 0, now);
    assert {} + {0} == UpTo(0);
  }

  lemma LaterTry(k: nat, t: Tracker, last: Ssid, now: nat, generated: seq<Members>)
    requires last < k < SSID_RANGE && |t.sets| == k && t.attempted == UpTo(last) && Ready(t.sets, now)
    ensures var (t', next) := Attempt(t, now, generated);
            && next == Some(if last == k - 1 then 0 else last + 1)
            && |t'.sets| == k && t'.attempted == UpTo(next.value) && LatestStart(t'.sets) == Some(now)
  {
    UpToNext(last);
    MarkedIsLatest(t.sets, if last + 1 < k then last + 1 else 0, now);
    assert {} + {0} == UpTo(0);
  }

  lemma BlockKeeps(k: nat, clock: nat, w: World, now: nat, generated: seq<Members>)
    requires 0 < k < SSID_RANGE && Inv(k, clock, w) && Orderly(k, clock, w, Block(now, generated))
    ensures Inv(k, now, Next(w, Block(now, generated)))
  {
    if Ready(w.t.sets, now) {
      var n := |w.trace|;
      if n == 0 {
        FirstTry(now, generated);
      } else {
        NextInCycle(n - 1, k);
        LaterTry(k, w.t, w.trace[n - 1].ssid, now, generated);
      }
      TraceGrows(k, w.trace, Try(Attempt(w.t, now, generated).1.value, now));
    }
  }

  lemma FailureKeeps(k: nat, clock: nat, w: World, ssid: Ssid)
    requires k > 0 && Inv(k, clock, w) && Orderly(k, clock, w, Failure(ssid))
    ensures Inv(k, clock, Next(w, Failure(ssid)))
  {
    var last := w.trace[|w.trace| - 1].ssid;
    assert UpTo(last) + {ssid} == UpTo(last);
  }

  lemma {:induction false} RunKeeps(k: nat, clock: nat, w: World, events: seq<Event>, w': World)
    requires 0 < k < SSID_RANGE && Inv(k, clock, w) && Run(k, clock, w, events, w')
    ensures Cyclic(k, w'.trace) && Spaced(w'.trace)
    decreases |events|
  {
    if events != [] {
      match events[0] {
        case Block(now, generated) => BlockKeeps(k, clock, w, now, generated);
        case Failure(ssid) => FailureKeeps(k, clock, w, ssid);
      }
      RunKeeps(k, Clock(clock, events[0]), Next(w, events[0]), events[1..], w');
    }
  }

  /** With `k` sets and failures reported in time, a proposal that is never signed
      tries the sets 0, 1, ..., k - 1, 0, 1, ... for ever, at least the timeout apart. */
  lemma RetriesCycle(k: nat, clock: nat, events: seq<Event>, w: World)
    requires 0 < k < SSID_RANGE && Run(k, clock, World(NewTracker, []), events, w)
    ensures Cyclic(k, w.trace) && Spaced(w.trace)
  {
    RunKeeps(k, clock, World(NewTracker, []), events, w);
  }

  /** A failure leaves the next attempt where it was exactly when it is of a set tried
      in the current round; one of an earlier round skips the sets up to it. */
  lemma OnScheduleExactly(k: nat, t: Tracker, last: Ssid, ssid: Ssid, now: nat, generated: seq<Members>)
    requires last < k < SSID_RANGE && ssid < k
    requires |t.sets| == k && t.attempted == UpTo(last) && Ready(t.sets, now)
    ensures Attempt(Fail(t, ssid), now, generated).1 == Attempt(t, now, generated).1 <==> ssid <= last
  {
    LaterTry(k, t, last, now, generated);
    if ssid <= last {
      assert UpTo(last) + {ssid} == UpTo(last);
    } else {
      assert Largest(UpTo(last) + {ssid}) == ssid;
    }
  }

  // ---- Sets are generated once ----------------------------------------------------

  function Names(sets: seq<SigningSet>): seq<Members>
    decreases |sets|
  {
    if sets == [] then [] else Names(sets[..|sets| - 1]) + [sets[|sets| - 1].members]
  }

  lemma {:induction false} NamesMarked(sets: seq<SigningSet>, i: nat, now: nat)
    requires i < |sets|
    ensures Names(MarkStarted(sets, i, now)) == Names(sets)
    decreases |sets|
  {
    var marked := MarkStarted(sets, i, now);
    var n := |sets| - 1;
    if i < n {
      NamesMarked(sets[..n], i, now);
      assert marked[..n] == MarkStarted(sets[..n], i, now);
    } else {
      assert marked[..n] == sets[..n];
    }
  }

  lemma TryKeepsNames(k: nat, t: Tracker, last: Ssid, now: nat, generated: seq<Members>)
    requires last < k < SSID_RANGE && |t.sets| == k && t.attempted == UpTo(last)
    ensures Names(Attempt(t, now, generated).0.sets) == Names(t.sets)
  {
    if Ready(t.sets, now) {
      UpToNext(last);
      NamesMarked(t.sets, if last + 1 < k then last + 1 else 0, now);
    }
  }

  /** After the first attempt the sets stay the ones generated for it. */
  lemma {:induction false} SetsStay(k: nat, clock: nat, w: World, events: seq<Event>, w': World)
    requires 0 < k < SSID_RANGE && Inv(k, clock, w) && w.trace != [] && Run(k, clock, w, events, w')
    ensures Names(w'.t.sets) == Names(w.t.sets)
    decreases |events|
  {
    if events != [] {
      var last := w.trace[|w.trace| - 1].ssid;
      match events[0] {
        case Block(now, generated) =>
          BlockKeeps(k, clock, w, now, generated);
          TryKeepsNames(k, w.t, last, now, generated);
        case Failure(ssid) =>
          FailureKeeps(k, clock, w, ssid);
      }
      SetsStay(k, Clock(clock, events[0]), Next(w, events[0]), events[1..], w');
    }
  }

  // ---- Exactly when a set is tried ------------------------------------------------

  /** Ids were recorded although no sets are there: nothing generates any more. */
  predicate Stuck(t: Tracker) {
    t.attempted != {} && t.sets == []
  }

  /** Below the value that wraps around; ids in use are below 256. */
  predicate Small(attempted: set<Ssid>) {
    forall x | x in attempted :: x < SSID_RANGE - 1
  }

  /** Whatever the tracker, a block tries a set exactly when no attempt is running, the
      tracker is not stuck, and, for a first attempt, there are sets to try. */
  lemma TriesExactly(t: Tracker, now: nat, generated: seq<Members>)
    requires Small(t.attempted)
    ensures Attempt(t, now, generated).1.Some?
       <==> Ready(t.sets, now) && !Stuck(t) && (t.attempted == {} ==> generated != [])
  {
    UnstartedFacts(generated);
  }

  /** Any events at all, with set ids as they occur. */
  ghost predicate AnyRun(w: World, events: seq<Event>, w': World)
    decreases |events|
  {
    if events == [] then w' == w
    else SmallEvent(events[0]) && AnyRun(Next(w, events[0]), events[1..], w')
  }

  predicate SmallEvent(e: Event) {
    e.Failure? ==> e.ssid < SSID_RANGE - 1
  }

  /** The tracker is stuck from beginning to end. */
  ghost predicate StuckThroughout(w: World, events: seq<Event>)
    decreases |events|
  {
    Stuck(w.t) && (events == [] || StuckThroughout(Next(w, events[0]), events[1..]))
  }

  lemma StuckStep(w: World, e: Event)
    requires Stuck(w.t) && Small(w.t.attempted) && SmallEvent(e)
    ensures Stuck(Next(w, e).t) <==> !e.Forget?
    ensures Small(Next(w, e).t.attempted) && Next(w, e).trace == w.trace
  {
  }

  /** Over any run a stuck tracker stays stuck exactly as long as no success is
      reported; until then no block tries a set. */
  lemma {:induction false} StuckExactly(w: World, events: seq<Event>, w': World)
    requires Stuck(w.t) && Small(w.t.attempted) && AnyRun(w, events, w')
    ensures StuckThroughout(w, events) <==> Forget !in events
    ensures Forget !in events ==> w'.trace == w.trace && Stuck(w'.t) && Small(w'.t.attempted)
    decreases |events|
  {
    if events != [] {
      var e := events[0];
      StuckStep(w, e);
      assert events == [e] + events[1..];
      if e.Forget? {
        assert !Stuck(Next(w, e).t);
      } else {
        StuckExactly(Next(w, e), events[1..], w');
      }
    }
  }

  /** After the success the next block that has sets to offer tries the first. */
  lemma ForgetRestarts(w: World, now: nat, generated: seq<Members>)
    requires generated != []
    ensures Next(Next(w, Forget), Block(now, generated)).trace == w.trace + [Try(0, now)]
  {
    FirstTry(now, generated);
  }

  /** A failure reported once the proposal's history is gone leaves it stuck, as when
      it arrives after a success: until another success, no block of any run tries a
      set. */
  lemma LateFailureStops(w: World, ssid: Ssid, events: seq<Event>, w': World)
    requires ssid < SSID_RANGE - 1 && Forget !in events
    requires AnyRun(Next(Next(w, Forget), Failure(ssid)), events, w')
    ensures w'.trace == w.trace
  {
    StuckExactly(Next(Next(w, Forget), Failure(ssid)), events, w');
  }

  /** A first block without sets leaves the proposal stuck as well: too few authorities
      for the signature threshold when it is first looked at. */
  lemma TooFewStop(w: World, n: nat, t: nat, sets: seq<Members>, now: nat, events: seq<Event>, w': World)
    requires Generated(n, t, sets) && n < t + 1 && Forget !in events
    requires AnyRun(Next(Next(w, Forget), Block(now, sets)), events, w')
    ensures w'.trace == w.trace
  {
    GeneratedSets(n, t, sets);
    EmptyBlock(now);
    StuckExactly(Next(Next(w, Forget), Block(now, sets)), events, w');
  }

  lemma EmptyBlock(now: nat)
    ensures Attempt(NewTracker, now, []) == (Tracker({0}, []), None)
  {
    assert {} + {0} == {0};
  }

  // ---- Exactly when trying stops ----------------------------------------------------

  /** The events after the last reported success. */
  function SinceForget(events: seq<Event>): seq<Event>
    decreases |events|
  {
    if Forget in events then SinceForget(events[1..]) else events
  }

  /** The first event is a failure or a block without sets. */
  predicate Stops(events: seq<Event>) {
    events != [] && (events[0].Failure? || (events[0].Block? && events[0].generated == []))
  }

  /** Fewer sets than ids; no more than 256 are ever generated. */
  ghost predicate Capped(events: seq<Event>) {
    forall i | 0 <= i < |events| && events[i].Block? :: |events[i].generated| < SSID_RANGE
  }

  /** Sets are there and one of them was tried. */
  predicate Going(t: Tracker) {
    t.attempted != {} && Small(t.attempted) && 0 < |t.sets| < SSID_RANGE
  }

  lemma GoingStep(w: World, e: Event)
    requires Going(w.t) && SmallEvent(e) && !e.Forget?
    ensures Going(Next(w, e).t)
  {
  }

  lemma {:induction false} GoingStays(w: World, events: seq<Event>, w': World)
    requires Going(w.t) && Forget !in events && AnyRun(w, events, w')
    ensures Going(w'.t)
    decreases |events|
  {
    if events != [] {
      assert events[0] in events;
      GoingStep(w, events[0]);
      GoingStays(Next(w, events[0]), events[1..], w');
    }
  }

  /** What the first event makes of a new tracker. */
  lemma FirstEvent(w: World, e: Event)
    requires w.t == NewTracker && !e.Forget? && SmallEvent(e) && Capped([e])
    ensures var t := Next(w, e).t;
            if Stops([e]) then Stuck(t) && Small(t.attempted) else Going(t)
  {
    match e
    case Failure(_) =>
    case Block(now, generated) =>
      assert [e][0] == e;
      if generated == [] {
        EmptyBlock(now);
      } else {
        FirstTry(now, generated);
      }
  }

  /** The state of a tracker, told from the events after the last success. */
  ghost predicate Told(t: Tracker, since: seq<Event>) {
    if since == [] then t == NewTracker
    else if Stops(since) then Stuck(t) && Small(t.attempted)
    else Going(t)
  }

  lemma FreshRun(w: World, events: seq<Event>, w': World)
    requires w.t == NewTracker && Forget !in events && Capped(events) && AnyRun(w, events, w')
    ensures Told(w'.t, events)
  {
    if events != [] {
      var e, rest := events[0], events[1..];
      assert e in events && Forget !in rest;
      FirstEvent(w, e);
      if Stops(events) {
        StuckExactly(Next(w, e), rest, w');
      } else {
        GoingStays(Next(w, e), rest, w');
      }
    }
  }

  lemma {:induction false} LaterRun(w: World, events: seq<Event>, w': World)
    requires Forget in events && Capped(events) && AnyRun(w, events, w')
    ensures Told(w'.t, SinceForget(events))
    decreases |events|
  {
    var e, rest := events[0], events[1..];
    assert events == [e] + rest;
    if Forget in rest {
      LaterRun(Next(w, e), rest, w');
    } else {
      FreshRun(Next(w, e), rest, w');
      assert SinceForget(rest) == rest;
    }
  }

  /** Over any run from a new tracker: trying has stopped exactly when the first event
      after the last success is a failure or a block that generates no sets; a block
      then tries a set exactly when trying has not stopped, no attempt is running, and a
      first attempt finds sets. */
  lemma StoppedExactly(w: World, events: seq<Event>, w': World, now: nat, generated: seq<Members>)
    requires w.t == NewTracker && Capped(events) && AnyRun(w, events, w')
    ensures Stuck(w'.t) <==> Stops(SinceForget(events))
    ensures Attempt(w'.t, now, generated).1.Some?
       <==> && Ready(w'.t.sets, now) && !Stops(SinceForget(events))
            && (SinceForget(events) == [] ==> generated != [])
  {
    if Forget in events {
      LaterRun(w, events, w');
    } else {
      FreshRun(w, events, w');
    }
    TriesExactly(w'.t, now, generated);
  }

  // ---- The manager's blocks as events -------------------------------------------------

  /** What visiting a proposal is for its tracker. */
  function EventOf(b: Batch, now: nat): Event {
    if b.waiting then Block(now, b.generated) else Forget
  }

  /** The events of one proposal in a pass. */
  function EventsFor(batches: seq<Batch>, h: Hash, now: nat): seq<Event>
    decreases |batches|
  {
    if batches == [] then []
    else (if batches[0].hash == h then [EventOf(batches[0], now)] else []) + EventsFor(batches[1..], h, now)
  }

  ghost function Play(w: World, events: seq<Event>): World
    decreases |events|
  {
    if events == [] then w else Play(Next(w, events[0]), events[1..])
  }

  /** A pass over many proposals is, for each of them, just its own events. */
  lemma {:induction false} PassIsEvents(
    history: SsidHistory, now: nat, me: nat, batches: seq<Batch>, h: Hash, trace: seq<Try>)
    ensures TrackerOf(Pass(history, now, me, batches), h)
         == Play(World(TrackerOf(history, h), trace), EventsFor(batches, h, now)).t
    decreases |batches|
  {
    if batches != [] {
      var b, rest := batches[0], batches[1..];
      var w := World(TrackerOf(history, h), trace);
      var after := Visit(history, now, me, b).0;
      if b.hash == h {
        var w' := Next(w, EventOf(b, now));
        assert TrackerOf(after, h) == w'.t;
        PassIsEvents(after, now, me, rest, h, w'.trace);
        assert ([EventOf(b, now)] + EventsFor(rest, h, now))[1..] == EventsFor(rest, h, now);
      } else {
        assert TrackerOf(after, h) == w.t;
        PassIsEvents(after, now, me, rest, h, trace);
        assert [] + EventsFor(rest, h, now) == EventsFor(rest, h, now);
      }
    }
  }
}
