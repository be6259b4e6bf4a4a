/** The choice of the next signing set for a proposal that is still unsigned
    (dkg-gadget/src/signing_manager/mod.rs). */
module SigningRetry {
  import opened Orders

  type Hash = nat
  type Ssid = x: nat | x < SSID_RANGE
  type Members = seq<nat>

  const SSID_RANGE := 0x1_0000
  const SIGN_TIMEOUT := 10

  datatype SigningSet = SigningSet(startedAt: Option<nat>, members: Members)

  datatype Tracker = Tracker(attempted: set<Ssid>, sets: seq<SigningSet>)

  const NewTracker := Tracker({}, [])

  type SsidHistory = map<Hash, Tracker>

  function TrackerOf(history: SsidHistory, h: Hash): Tracker {
    if h in history then history[h] else NewTracker
  }

  // ---- One attempt ----------------------------------------------------------------

  function Later(a: Option<nat>, b: Option<nat>): Option<nat> {
    if a.None? then b else if b.None? || b.value < a.value then a else b
  }

  /** The latest local start among a tracker's sets. */
  function LatestStart(sets: seq<SigningSet>): Option<nat>
    decreases |sets|
  {
    if sets == [] then None else Later(LatestStart(sets[..|sets| - 1]), sets[|sets| - 1].startedAt)
  }

  /** No attempt is running, or the latest one has timed out. */
  predicate Ready(sets: seq<SigningSet>, now: nat) {
    var latest := LatestStart(sets);
    latest.None? || now >= latest.value + SIGN_TIMEOUT
  }

  ghost function Largest(s: set<Ssid>): (r: Ssid)
    requires s != {}
    ensures r in s && forall x | x in s :: x <= r
    decreases |s|
  {
    var y :| y in s;
    var rest := s - {y};
    assert s == rest + {y};
    if rest == {} then y
    else
      var r := Largest(rest);
      if r < y then y else r
  }

  function Succ(x: Ssid): Ssid {
    (x + 1) % SSID_RANGE
  }

  /** The number after the largest one attempted, with 16-bit wrap-around. */
  ghost function NextSsid(attempted: set<Ssid>): Ssid {
    if attempted == {} then 0 else Succ(Largest(attempted))
  }

  function Unstarted(generated: seq<Members>): seq<SigningSet>
    decreases |generated|
  {
    if generated == [] then []
    else Unstarted(generated[..|generated| - 1]) + [SigningSet(None, generated[|generated| - 1])]
  }

  function MarkStarted(sets: seq<SigningSet>, i: nat, now: nat): seq<SigningSet>
    requires i < |sets|
  {
    sets[i := sets[i].(startedAt := Some(now))]
  }

  /** What one pass over a proposal does to its tracker, and the set it attempts.
      `generated` is what generating the sets would give. */
  ghost function Attempt(t: Tracker, now: nat, generated: seq<Members>): (r: (Tracker, Option<Ssid>))
    ensures r.1.Some? ==> r.1.value < |r.0.sets|
  {
    if !Ready(t.sets, now) then (t, None)
    else
      var first := NextSsid(t.attempted);
      var sets := if first == 0 then Unstarted(generated) else t.sets;
      var next := if first < |sets| then first else 0;
      var attempted := (if first < |sets| then t.attempted else {}) + {next};
      if next < |sets| then (Tracker(attempted, MarkStarted(sets, next, now)), Some(next))
      else (Tracker(attempted, sets), None)
  }

  function Fail(t: Tracker, ssid: Ssid): Tracker {
    t.(attempted := t.attempted + {ssid})
  }

  // ---- One block ------------------------------------------------------------------

  /** An unsigned proposal as a block finds it: whether the work manager has room,
      whether the proposal still waits, the sets generating would give, and whether a
      protocol could be created and pushed. */
  datatype Batch = Batch(hash: Hash, room: bool, waiting: bool, generated: seq<Members>, starts: bool)

  /** One proposal, and whether the pass breaks off after it: `me` is in the set tried
      but the protocol does not start. */
  ghost function Visit(history: SsidHistory, now: nat, me: nat, b: Batch): (SsidHistory, bool) {
    if !b.waiting then (history - {b.hash}, false)
    else
      var (t, next) := Attempt(TrackerOf(history, b.hash), now, b.generated);
      (history[b.hash := t], next.Some? && me in t.sets[next.value].members && !b.starts)
  }

  /** How many proposals a block gets to: it breaks off when the work manager is full or
      a protocol does not start. */
  ghost function Visited(history: SsidHistory, now: nat, me: nat, batches: seq<Batch>): (k: nat)
    ensures k <= |batches|
    decreases |batches|
  {
    if batches == [] || !batches[0].room then 0
    else
      var (after, breaks) := Visit(history, now, me, batches[0]);
      if breaks then 1 else 1 + Visited(after, now, me, batches[1..])
  }

  /** The trackers after visiting all of `batches`. */
  ghost function Pass(history: SsidHistory, now: nat, me: nat, batches: seq<Batch>): SsidHistory
    decreases |batches|
  {
    if batches == [] then history else Pass(Visit(history, now, me, batches[0]).0, now, me, batches[1..])
  }

  // ---- The manager ----------------------------------------------------------------

  lemma {:induction false} PassNext(history: SsidHistory, now: nat, me: nat, batches: seq<Batch>, i: nat)
    requires i < |batches|
    ensures Pass(history, now, me, batches[..i + 1])
         == Visit(Pass(history, now, me, batches[..i]), now, me, batches[i]).0
    decreases i
  {
    if i > 0 {
      var after, rest := Visit(history, now, me, batches[0]).0, batches[1..];
      assert batches[..i + 1][1..] == rest[..i] && batches[..i][1..] == rest[..i - 1];
      PassNext(after, now, me, rest, i - 1);
    } else {
      assert batches[..1][1..] == [];
    }
  }

  class Manager {
    var ssidHistory: SsidHistory

    constructor ()
      ensures ssidHistory == map[]
    {
      ssidHistory := map[];
    }

    method LatestAttempt(sets: seq<SigningSet>) returns (latest: Option<nat>)
      ensures latest == LatestStart(sets)
    {
      latest := None;
      for i := 0 to |sets|
        invariant latest == LatestStart(sets[..i])
      {
        latest := Later(latest, sets[i].startedAt);
        assert sets[..i + 1][..i] == sets[..i];
      }
      assert sets[..|sets|] == sets;
    }

    method FindNextSsid(attempted: set<Ssid>) returns (next: Ssid)
      ensures next == NextSsid(attempted)
    {
      if attempted == {} {
        return 0;
      }
      var order := HashOrder(attempted);
      assert forall x :: x in attempted <==> x in order by {
        assert forall x :: x in order <==> x in Elements(order);
      }
      assert order != [] by {
        assert Largest(attempted) in order;
      }
      var largest := order[0];
      for i := 1 to |order|
        invariant largest in order && forall j | 0 <= j < i :: order[j] <= largest
      {
        if order[i] > largest {
          largest := order[i];
        }
      }
      assert largest == Largest(attempted);
      next := Succ(largest);
    }

    /** One proposal of a finalized block: `waiting` says it is still unsigned. */
    method TryProposal(h: Hash, now: nat, waiting: bool, generated: seq<Members>) returns (attempt: Option<Ssid>)
      modifies this
      ensures !waiting ==> ssidHistory == old(ssidHistory) - {h} && attempt == None
      ensures waiting ==> var (t, next) := Attempt(TrackerOf(old(ssidHistory), h), now, generated);
                          ssidHistory == old(ssidHistory)[h := t] && attempt == next
    {
      if !waiting {
        ssidHistory := ssidHistory - {h};
        return None;
      }
      var tracker := TrackerOf(ssidHistory, h);
      ssidHistory := ssidHistory[h := tracker];
      var latest := LatestAttempt(tracker.sets);
      if latest.Some? && now < latest.value + SIGN_TIMEOUT {
        return None;
      }
      var next := FindNextSsid(tracker.attempted);
      if next == 0 {
        tracker := tracker.(sets := Unstarted(generated));
      }
      if next >= |tracker.sets| {
        tracker := tracker.(attempted := {});
        next := 0;
      }
      tracker := tracker.(attempted := tracker.attempted + {next});
      if next < |tracker.sets| {
        tracker := tracker.(sets := MarkStarted(tracker.sets, next, now));
        attempt := Some(next);
      } else {
        attempt := None;
      }
      ssidHistory := ssidHistory[h := tracker];
    }

    /** The proposals of a finalized block; `me` is the local party. */
    method OnBlockFinalized(now: nat, me: nat, batches: seq<Batch>)
      modifies this
      ensures ssidHistory == Pass(old(ssidHistory), now, me, batches[..Visited(old(ssidHistory), now, me, batches)])
    {
      var i := 0;
      while i < |batches|
        invariant 0 <= i <= Visited(old(ssidHistory), now, me, batches)
        invariant ssidHistory == Pass(old(ssidHistory), now, me, batches[..i])
        invariant Visited(old(ssidHistory), now, me, batches) == i + Visited(ssidHistory, now, me, batches[i..])
      {
        var b := batches[i];
        ghost var before := ssidHistory;
        assert batches[i..][0] == b && batches[i..][1..] == batches[i + 1..];
        if !b.room {
          return;
        }
        var attempt := TryProposal(b.hash, now, b.waiting, b.generated);
        assert ssidHistory == Visit(before, now, me, b).0;
        PassNext(old(ssidHistory), now, me, batches, i);
        i := i + 1;
        if attempt.Some? {
          var sets := ssidHistory[b.hash].sets;
          if me in sets[attempt.value].members && !b.starts {
            return;
          }
        }
      }
    }

    method ReportSuccess(h: Hash)
      modifies this
      ensures ssidHistory == old(ssidHistory) - {h}
    {
      ssidHistory := ssidHistory - {h};
    }

    method ReportFailure(h: Hash, ssid: Ssid)
      modifies this
      ensures ssidHistory == old(ssidHistory)[h := Fail(TrackerOf(old(ssidHistory), h), ssid)]
    {
      ssidHistory := ssidHistory[h := Fail(TrackerOf(ssidHistory, h), ssid)];
    }
  }
}
