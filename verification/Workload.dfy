/** Remaining work of parties that broadcast over one ordered log: the measure that
    bounds the runs of signing and of key generation. */
module Workload {
  import opened Orders
  import opened FrostMessages

  /** What a party still has before it, and how much of the log it has read. */
  datatype Load = Load(stages: nat, sends: nat, read: nat)

  /** Messages that the parties `ps` will still broadcast. */
  function TotalSends(loads: map<PartyId, Load>, ps: seq<PartyId>): nat
    requires forall p | p in ps :: p in loads
  {
    if ps == [] then 0 else loads[ps[0]].sends + TotalSends(loads, ps[1..])
  }

  /** Moves that the parties `ps` can still make when the log ends at `end`. */
  function TotalWork(loads: map<PartyId, Load>, ps: seq<PartyId>, end: int): int
    requires forall p | p in ps :: p in loads
  {
    if ps == [] then 0
    else loads[ps[0]].stages + (end - loads[ps[0]].read) + TotalWork(loads, ps[1..], end)
  }

  /** The moves left when the log has `length` messages so far. */
  function MovesLeft(loads: map<PartyId, Load>, length: nat, ps: seq<PartyId>): int
    requires forall p | p in ps :: p in loads
  {
    TotalWork(loads, ps, length + TotalSends(loads, ps))
  }

  lemma {:induction false} UpdateOne(loads: map<PartyId, Load>, p: PartyId, l: Load, ps: seq<PartyId>, end: int)
    requires forall x | x in ps :: x in loads
    requires NoDuplicates(ps)
    ensures TotalSends(loads[p := l], ps) == TotalSends(loads, ps) + (if p in ps then l.sends - loads[p].sends else 0)
    ensures TotalWork(loads[p := l], ps, end)
         == TotalWork(loads, ps, end) + (if p in ps then l.stages - loads[p].stages - l.read + loads[p].read else 0)
  {
    if ps != [] {
      UpdateOne(loads, p, l, ps[1..], end);
    }
  }

  /** A move of one party, paid for with a message or a read, is one move less. */
  lemma MovePays(loads: map<PartyId, Load>, p: PartyId, l: Load, length: nat, length': nat, ps: seq<PartyId>)
    requires p in ps && NoDuplicates(ps) && forall x | x in ps :: x in loads
    requires length' + l.sends == length + loads[p].sends
    requires l.stages - l.read == loads[p].stages - loads[p].read - 1
    ensures MovesLeft(loads[p := l], length', ps) == MovesLeft(loads, length, ps) - 1
  {
    UpdateOne(loads, p, l, ps, length + TotalSends(loads, ps));
  }

  lemma {:induction false} WorkNonNegative(loads: map<PartyId, Load>, ps: seq<PartyId>, end: int)
    requires forall x | x in ps :: x in loads && loads[x].read <= end
    ensures TotalWork(loads, ps, end) >= 0
  {
    if ps != [] {
      WorkNonNegative(loads, ps[1..], end);
    }
  }

  lemma MovesLeftNonNegative(loads: map<PartyId, Load>, length: nat, ps: seq<PartyId>)
    requires forall x | x in ps :: x in loads && loads[x].read <= length
    ensures MovesLeft(loads, length, ps) >= 0
  {
    WorkNonNegative(loads, ps, length + TotalSends(loads, ps));
  }
}
