/** Misbehaviour reports (pallets/dkg-metadata/src/lib.rs): what one report and any
    sequence of keygen reports do to the next committee, jailed fill-ins included. */
module Reports {
  import opened Orders
  import opened Authorities
  import opened MetadataSpec

  ghost predicate Proper(t: Thresholds) {
    t.sig < t.key
  }

  ghost predicate GoodThresholds(c: Committee) {
    && Proper(c.current) && Proper(c.next) && Proper(c.pending)
    && c.next.key <= |c.nextAuthorities|
  }

  ghost function NextBest(s: Storage): set<Id> {
    Elements(Authorities.Ids(s.committee.nextBest))
  }

  /** The members of the next-best set that are not jailed. */
  ghost function Free(s: Storage): set<Id> {
    NextBest(s) - s.standing.jailedKeygen.Keys
  }

  /** The next-best set as every operation leaves it: distinct next authorities, no
      more than the keygen threshold. Jailed ones may fill it up. */
  ghost predicate Filled(c: Committee) {
    var best := Authorities.Ids(c.nextBest);
    && NoDuplicates(c.nextAuthorities) && NoDuplicates(best)
    && Elements(best) <= Elements(c.nextAuthorities) && |best| <= c.next.key
  }

  /** ... and without jailed ones, as large as the keygen threshold. */
  ghost predicate JailSafe(s: Storage) {
    && Filled(s.committee) && Proper(s.committee.next)
    && NextBest(s) !! s.standing.jailedKeygen.Keys
    && |Authorities.Ids(s.committee.nextBest)| == s.committee.next.key >= 2
  }

  /** The unjailed candidates that could step in. */
  ghost function Reserve(s: Storage, offender: Id): set<Id> {
    Elements(s.committee.nextAuthorities) - NextBest(s) - s.standing.jailedKeygen.Keys - {offender}
  }

  /** A report the pallet looks into. */
  predicate Eligible(s: Storage, offender: Id, reporters: nat, order: seq<Id>) {
    && LooksInto(s, offender, reporters)
    && Enumerates(order, s.standing.reputations.Keys + {offender})
  }

  ghost predicate Accepted(env: Env, s: Storage, now: nat, offender: Id, reporters: nat, order: seq<Id>) {
    && Enumerates(order, s.standing.reputations.Keys + {offender})
    && ReportKeygen(env, s, now, offender, reporters, order).Some?
  }

  /** At least two are left once the offender is out. */
  ghost predicate Enough(s: Storage, offender: Id) {
    if offender in Free(s) && Reserve(s, offender) == {} then |Free(s)| >= 3 else |Free(s)| >= 2
  }

  /** What an accepted report does to the next-best set. */
  ghost predicate Outcome(s: Storage, s': Storage, offender: Id) {
    var jails := offender in Free(s);
    var reserve := Reserve(s, offender);
    && offender !in NextBest(s') && NextBest(s') !! s'.standing.jailedKeygen.Keys
    && s'.standing.jailedKeygen.Keys == s.standing.jailedKeygen.Keys + (if jails then {offender} else {})
    && s'.standing.jailedSigning == s.standing.jailedSigning
    && (!jails ==> NextBest(s') == Free(s))
    && (jails && reserve != {} ==>
          exists x :: x in reserve && NextBest(s') == Free(s) - {offender} + {x}
            && (forall y | y in reserve && y in s.standing.reputations ::
                  Rep(s.standing.reputations, y) <= Rep(s.standing.reputations, x)))
    && (jails && reserve == {} ==> NextBest(s') == Free(s) - {offender})
    && (if jails && reserve == {}
        then SameThresholds(s'.committee, LowerThresholds(s.committee, |Free(s)|))
        else SameThresholds(s'.committee, s.committee))
  }

  ghost predicate SameThresholds(a: Committee, b: Committee) {
    a.next == b.next && a.pending == b.pending
  }

  // ---- Lists and selections ---------------------------------------------------

  lemma NumberedIds(ids: seq<Id>)
    ensures Authorities.Ids(Numbered(ids)) == ids
  {
  }

  /** Selecting from a list that is not too long selects all of it, whoever is jailed. */
  lemma SelectAll(count: nat, ids: seq<Id>, rep: map<Id, nat>, jailed: set<Id>)
    requires NoDuplicates(ids) && |ids| <= count
    ensures var best := Authorities.Ids(BestAuthorities(count, ids, rep, jailed));
            NoDuplicates(best) && |best| == |ids| && Elements(best) == Elements(ids)
  {
    var best := BestIds(count, ids, rep, jailed);
    NumberedIds(best);
    BestIdsSpec(count, ids, rep, jailed);
    NoDuplicatesCardinality(best);
    NoDuplicatesCardinality(ids);
    SubsetSameSize(Elements(best), Elements(ids));
  }

  /** A list without one of its members. */
  lemma DropOne(xs: seq<Id>, x: Id)
    requires NoDuplicates(xs) && x in xs
    ensures NoDuplicates(Drop(xs, {x})) && Elements(Drop(xs, {x})) == Elements(xs) - {x} && |Drop(xs, {x})| == |xs| - 1
  {
    KeepDrop(xs, {x});
    NoDuplicatesCardinality(xs);
    NoDuplicatesCardinality(Drop(xs, {x}));
    assert Elements(xs) == (Elements(xs) - {x}) + {x};
  }

  lemma FirstElement(xs: seq<Id>)
    requires xs != []
    ensures xs[0] in Elements(xs)
  {
  }

  lemma {:induction false} DropNone(xs: seq<Id>, s: set<Id>)
    requires Elements(xs) !! s
    ensures Drop(xs, s) == xs
  {
    if xs != [] {
      assert xs[0] in Elements(xs);
      assert Elements(xs[1..]) <= Elements(xs);
      DropNone(xs[1..], s);
    }
  }

  lemma UnjailedIsFree(s: Storage)
    requires Filled(s.committee)
    ensures var u := Unjailed(s.committee, s.standing.jailedKeygen);
            NoDuplicates(u) && Elements(u) == Free(s) && |u| == |Free(s)| <= s.committee.next.key
  {
    var best := Authorities.Ids(s.committee.nextBest);
    KeepDrop(best, s.standing.jailedKeygen.Keys);
    NoDuplicatesCardinality(Drop(best, s.standing.jailedKeygen.Keys));
  }

  lemma SpareElements(c: Committee, unjailed: seq<Id>, jailed: map<Id, nat>)
    ensures Elements(Spare(c, unjailed, jailed)) == Elements(c.nextAuthorities) - Elements(unjailed) - jailed.Keys
  {
    KeepDrop(c.nextAuthorities, Elements(unjailed));
    KeepDrop(Drop(c.nextAuthorities, Elements(unjailed)), jailed.Keys);
  }

  /** The spare authorities are the reserve. */
  lemma SpareIsReserve(s: Storage, offender: Id, now: nat)
    requires Filled(s.committee) && offender in Free(s)
    ensures var u := Unjailed(s.committee, s.standing.jailedKeygen);
            Elements(Spare(s.committee, u, s.standing.jailedKeygen[offender := now])) == Reserve(s, offender)
  {
    UnjailedIsFree(s);
    var u := Unjailed(s.committee, s.standing.jailedKeygen);
    SpareElements(s.committee, u, s.standing.jailedKeygen[offender := now]);
    assert s.standing.jailedKeygen[offender := now].Keys == s.standing.jailedKeygen.Keys + {offender};
  }

  /** The replacement comes from the spare ones, and no spare one with a recorded
      reputation is better. */
  lemma ReplacementBest(rep: map<Id, nat>, spare: seq<Id>, order: seq<Id>)
    requires spare != [] && Enumerates(order, rep.Keys)
    ensures var x := Replacement(rep, spare, order);
            x in spare && forall y | y in spare && y in rep :: Rep(rep, y) <= Rep(rep, x)
  {
    var ranked := Keep(order, Elements(spare));
    KeepDrop(order, Elements(spare));
    assert forall y :: y in ranked <==> y in Elements(ranked);
    forall y | y in spare && y in rep ensures y in ranked {
      assert y in Elements(order);
    }
    assert ranked != [] ==> MostReputed(ranked, rep) in Elements(ranked);
  }

  /** The result of selecting exactly `ids`, if two are left. */
  ghost predicate Selects(r: Option<Storage>, c: Committee, st: Standing, ids: seq<Id>) {
    && (r.Some? <==> |ids| >= 2)
    && (r.Some? ==>
          && Filled(r.value.committee) && NextBest(r.value) == Elements(ids) && r.value.standing == st
          && SameThresholds(r.value.committee, c))
  }

  /** Reselecting a list that is not too long selects all of it. */
  lemma ReselectAll(s: Storage, c: Committee, st: Standing, ids: seq<Id>)
    requires NoDuplicates(ids) && |ids| <= c.next.key
    requires NoDuplicates(c.nextAuthorities) && Elements(ids) <= Elements(c.nextAuthorities)
    ensures Selects(Reselect(s, c, st, ids), c, st, ids)
  {
    SelectAll(c.next.key, ids, st.reputations, st.jailedKeygen.Keys);
  }

  // ---- One report -------------------------------------------------------------

  /** What a report leads to: refused exactly when too few would be left, otherwise a
      filled committee as described. */
  ghost predicate Leads(s: Storage, r: Option<Storage>, offender: Id) {
    && (r.Some? <==> Enough(s, offender))
    && (r.Some? ==> Filled(r.value.committee) && Outcome(s, r.value, offender))
  }

  lemma ReportOutside(env: Env, s: Storage, now: nat, offender: Id, reporters: nat, order: seq<Id>)
    requires Filled(s.committee) && Eligible(s, offender, reporters, order) && offender !in Free(s)
    ensures Leads(s, ReportKeygen(env, s, now, offender, reporters, order), offender)
  {
    UnjailedIsFree(s);
    var u := Unjailed(s.committee, s.standing.jailedKeygen);
    assert offender !in Elements(u);
    DropNone(u, {offender});
    ReselectAll(s, s.committee, Decayed(env, s.standing, offender), u);
  }

  /** The report jails the offender and swaps in a replacement. */
  lemma SwapShape(env: Env, s: Storage, now: nat, offender: Id, reporters: nat, order: seq<Id>)
    returns (x: Id)
    requires Filled(s.committee) && Eligible(s, offender, reporters, order)
    requires offender in Free(s) && Reserve(s, offender) != {}
    ensures x in Reserve(s, offender)
    ensures forall y | y in Reserve(s, offender) && y in s.standing.reputations ::
              Rep(s.standing.reputations, y) <= Rep(s.standing.reputations, x)
    ensures ReportKeygen(env, s, now, offender, reporters, order)
         == Reselect(s, s.committee, JailedStanding(env, s.standing, offender, now),
                     Drop(Unjailed(s.committee, s.standing.jailedKeygen), {offender}) + [x])
  {
    UnjailedIsFree(s);
    SpareIsReserve(s, offender, now);
    var st := JailedStanding(env, s.standing, offender, now);
    var u := Unjailed(s.committee, s.standing.jailedKeygen);
    assert offender in Elements(u);
    var spare := Spare(s.committee, u, st.jailedKeygen);
    assert spare != [];
    ReplacementBest(st.reputations, spare, order);
    x := Replacement(st.reputations, spare, order);
    assert x in Elements(spare);
    forall y | y in Reserve(s, offender) && y in s.standing.reputations
      ensures Rep(s.standing.reputations, y) <= Rep(s.standing.reputations, x)
    {
      assert y in Elements(spare);
    }
  }

  /** Standing after jailing the offender. */
  ghost predicate Jailed(s: Storage, st: Standing, offender: Id) {
    && st.jailedKeygen.Keys == s.standing.jailedKeygen.Keys + {offender}
    && st.jailedSigning == s.standing.jailedSigning
  }

  /** The unjailed members without the offender. */
  lemma OthersFacts(s: Storage, offender: Id)
    requires Filled(s.committee) && offender in Free(s)
    ensures var others := Drop(Unjailed(s.committee, s.standing.jailedKeygen), {offender});
            && NoDuplicates(others) && Elements(others) == Free(s) - {offender}
            && |others| == |Free(s)| - 1 < s.committee.next.key
  {
    UnjailedIsFree(s);
    var u := Unjailed(s.committee, s.standing.jailedKeygen);
    assert offender in Elements(u);
    DropOne(u, offender);
  }

  lemma AppendFresh(others: seq<Id>, x: Id)
    requires NoDuplicates(others) && x !in Elements(others)
    ensures NoDuplicates(others + [x]) && Elements(others + [x]) == Elements(others) + {x}
  {
    NoDuplicatesConcat(others, [x]);
    ElementsAppend(others, x);
  }

  lemma SwapLeads(s: Storage, r: Option<Storage>, st: Standing, offender: Id, x: Id, ids: seq<Id>)
    requires offender in Free(s) && x in Reserve(s, offender) && Jailed(s, st, offender)
    requires forall y | y in Reserve(s, offender) && y in s.standing.reputations ::
               Rep(s.standing.reputations, y) <= Rep(s.standing.reputations, x)
    requires Elements(ids) == Free(s) - {offender} + {x} && |ids| == |Free(s)| && Selects(r, s.committee, st, ids)
    ensures Leads(s, r, offender)
  {
  }

  lemma SwapIds(s: Storage, offender: Id, x: Id) returns (ids: seq<Id>)
    requires Filled(s.committee) && offender in Free(s) && x in Reserve(s, offender)
    ensures ids == Drop(Unjailed(s.committee, s.standing.jailedKeygen), {offender}) + [x]
    ensures NoDuplicates(ids) && Elements(ids) == Free(s) - {offender} + {x}
    ensures |ids| == |Free(s)| <= s.committee.next.key && Elements(ids) <= Elements(s.committee.nextAuthorities)
  {
    var others := Drop(Unjailed(s.committee, s.standing.jailedKeygen), {offender});
    OthersFacts(s, offender);
    AppendFresh(others, x);
    ids := others + [x];
  }

  lemma ReportSwap(env: Env, s: Storage, now: nat, offender: Id, reporters: nat, order: seq<Id>)
    returns (r: Option<Storage>)
    requires Filled(s.committee) && Eligible(s, offender, reporters, order)
    requires offender in Free(s) && Reserve(s, offender) != {}
    ensures r == ReportKeygen(env, s, now, offender, reporters, order) && Leads(s, r, offender)
  {
    var x := SwapShape(env, s, now, offender, reporters, order);
    var ids := SwapIds(s, offender, x);
    var st := JailedStanding(env, s.standing, offender, now);
    r := Reselect(s, s.committee, st, ids);
    ReselectAll(s, s.committee, st, ids);
    SwapLeads(s, r, st, offender, x, ids);
  }

  /** The report jails the offender and lowers the keygen threshold. */
  lemma LowerShape(env: Env, s: Storage, now: nat, offender: Id, reporters: nat, order: seq<Id>)
    requires Filled(s.committee) && Eligible(s, offender, reporters, order)
    requires offender in Free(s) && Reserve(s, offender) == {}
    ensures ReportKeygen(env, s, now, offender, reporters, order)
         == Reselect(s, LowerThresholds(s.committee, |Free(s)|), JailedStanding(env, s.standing, offender, now),
                     Drop(Unjailed(s.committee, s.standing.jailedKeygen), {offender}))
  {
    UnjailedIsFree(s);
    SpareIsReserve(s, offender, now);
    var u := Unjailed(s.committee, s.standing.jailedKeygen);
    assert offender in Elements(u);
    var spare := Spare(s.committee, u, s.standing.jailedKeygen[offender := now]);
    if spare != [] {
      FirstElement(spare);
    }
  }

  lemma LowerLeads(s: Storage, r: Option<Storage>, st: Standing, offender: Id, ids: seq<Id>)
    requires offender in Free(s) && Reserve(s, offender) == {} && Jailed(s, st, offender)
    requires Elements(ids) == Free(s) - {offender} && |ids| == |Free(s)| - 1
    requires Selects(r, LowerThresholds(s.committee, |Free(s)|), st, ids)
    ensures Leads(s, r, offender)
  {
  }

  lemma LowerResult(s: Storage, st: Standing, offender: Id) returns (r: Option<Storage>)
    requires Filled(s.committee) && offender in Free(s) && Reserve(s, offender) == {} && Jailed(s, st, offender)
    ensures r == Reselect(s, LowerThresholds(s.committee, |Free(s)|), st,
                          Drop(Unjailed(s.committee, s.standing.jailedKeygen), {offender}))
    ensures Leads(s, r, offender)
  {
    var c := LowerThresholds(s.committee, |Free(s)|);
    var others := Drop(Unjailed(s.committee, s.standing.jailedKeygen), {offender});
    OthersFacts(s, offender);
    ReselectAll(s, c, st, others);
    r := Reselect(s, c, st, others);
    LowerLeads(s, r, st, offender, others);
  }

  lemma ReportLower(env: Env, s: Storage, now: nat, offender: Id, reporters: nat, order: seq<Id>)
    returns (r: Option<Storage>)
    requires Filled(s.committee) && Eligible(s, offender, reporters, order)
    requires offender in Free(s) && Reserve(s, offender) == {}
    ensures r == ReportKeygen(env, s, now, offender, reporters, order) && Leads(s, r, offender)
  {
    LowerShape(env, s, now, offender, reporters, order);
    r := LowerResult(s, JailedStanding(env, s.standing, offender, now), offender);
  }

  /** From every filled committee: a report is accepted exactly when two members are
      left; the offender and every jailed fill-in are then out, an unjailed offender is
      jailed and either replaced by the most reputed reserve or, without reserve, the
      thresholds are lowered. */
  lemma ReportOutcome(env: Env, s: Storage, now: nat, offender: Id, reporters: nat, order: seq<Id>)
    requires Filled(s.committee) && Eligible(s, offender, reporters, order)
    ensures Leads(s, ReportKeygen(env, s, now, offender, reporters, order), offender)
  {
    if offender !in Free(s) {
      ReportOutside(env, s, now, offender, reporters, order);
    } else if Reserve(s, offender) != {} {
      var r := ReportSwap(env, s, now, offender, reporters, order);
    } else {
      var r := ReportLower(env, s, now, offender, reporters, order);
    }
  }

  // ---- Thresholds and seats ---------------------------------------------------

  lemma LowerExact(c: Committee, u: nat)
    requires Proper(c.next) && 2 < u <= c.next.key
    ensures var low := LowerThresholds(c, u);
            && low.next.key == low.pending.key == u - 1
            && (Proper(low.next) <==> c.next.sig < u)
            && (Proper(low.pending) <==> c.next.sig == u - 1 || (c.next.sig < u - 1 && c.pending.sig < u - 1))
  {
  }

  /** The report lowers the thresholds. */
  ghost predicate Lowers(s: Storage, offender: Id) {
    offender in Free(s) && Reserve(s, offender) == {}
  }

  ghost predicate KeepsNext(s: Storage, offender: Id) {
    !Lowers(s, offender) || s.committee.next.sig < |Free(s)|
  }

  ghost predicate KeepsPending(s: Storage, offender: Id) {
    || !Lowers(s, offender)
    || s.committee.next.sig == |Free(s)| - 1
    || (s.committee.next.sig < |Free(s)| - 1 && s.committee.pending.sig < |Free(s)| - 1)
  }

  /** From every filled committee with proper pairs, an accepted report keeps the next
      pair proper exactly when it lowers nothing or the next signature threshold is
      below the number of unjailed members; and the pending pair exactly when, besides,
      the pending signature threshold is lowered with it or was low enough. */
  lemma ReportThresholdsExact(env: Env, s: Storage, now: nat, offender: Id, reporters: nat, order: seq<Id>)
    requires Filled(s.committee) && GoodThresholds(s.committee) && Accepted(env, s, now, offender, reporters, order)
    ensures var c := ReportKeygen(env, s, now, offender, reporters, order).value.committee;
            && Proper(c.current) && c.next.key <= |c.nextAuthorities|
            && (Proper(c.next) <==> KeepsNext(s, offender))
            && (Proper(c.pending) <==> KeepsPending(s, offender))
  {
    ReportOutcome(env, s, now, offender, reporters, order);
    UnjailedIsFree(s);
    if Lowers(s, offender) {
      LowerExact(s.committee, |Free(s)|);
    }
  }

  /** A committee of exactly `n` distinct members, all from `authorities`. */
  ghost predicate Seats(best: seq<(nat, Id)>, n: nat, authorities: seq<Id>) {
    var ids := Authorities.Ids(best);
    NoDuplicates(ids) && |ids| == n && Elements(ids) <= Elements(authorities)
  }

  /** The next committee stays full: no jailed member filled it, or the threshold
      follows its size. */
  ghost predicate KeepsSeats(s: Storage, offender: Id) {
    |Free(s)| == s.committee.next.key || Lowers(s, offender)
  }

  lemma OutcomeSize(s: Storage, s': Storage, offender: Id)
    requires Outcome(s, s', offender)
    ensures |NextBest(s')| == |Free(s)| - if Lowers(s, offender) then 1 else 0
  {
    var free := Free(s);
    if offender in free {
      assert |free - {offender}| == |free| - 1;
    }
  }

  /** An accepted report leaves the next committee with exactly keygen-threshold
      members exactly when there was no jailed fill-in or the threshold is lowered. */
  lemma ReportSeatsExact(env: Env, s: Storage, now: nat, offender: Id, reporters: nat, order: seq<Id>)
    requires Filled(s.committee) && Proper(s.committee.next) && Accepted(env, s, now, offender, reporters, order)
    ensures var c := ReportKeygen(env, s, now, offender, reporters, order).value.committee;
            Seats(c.nextBest, c.next.key, c.nextAuthorities) <==> KeepsSeats(s, offender)
  {
    ReportOutcome(env, s, now, offender, reporters, order);
    var s' := ReportKeygen(env, s, now, offender, reporters, order).value;
    OutcomeSize(s, s', offender);
    NoDuplicatesCardinality(Authorities.Ids(s'.committee.nextBest));
    UnjailedIsFree(s);
    if Lowers(s, offender) {
      LowerExact(s.committee, |Free(s)|);
    }
  }

  /** Without jailed fill-ins everything stays in order: the committee stays jail-free
      and full with a proper pair, and a threshold falls by exactly one. */
  lemma JailSafeStays(env: Env, s: Storage, now: nat, offender: Id, reporters: nat, order: seq<Id>)
    requires JailSafe(s) && Accepted(env, s, now, offender, reporters, order)
    ensures var s' := ReportKeygen(env, s, now, offender, reporters, order).value;
            && JailSafe(s')
            && s'.committee.next.key == s.committee.next.key - if Lowers(s, offender) then 1 else 0
  {
    JailSafeFree(s);
    ReportOutcome(env, s, now, offender, reporters, order);
    ReportSeatsExact(env, s, now, offender, reporters, order);
    if Lowers(s, offender) {
      LowerExact(s.committee, |Free(s)|);
    }
  }

  lemma JailSafeFree(s: Storage)
    requires JailSafe(s)
    ensures Free(s) == NextBest(s) && |Free(s)| == s.committee.next.key
  {
    NoDuplicatesCardinality(Authorities.Ids(s.committee.nextBest));
  }

  // ---- Signing reports ----------------------------------------------------------

  /** The filter of a signing report drops nobody: the offender is not jailed yet. */
  lemma CountsAll(c: Committee, jailed: map<Id, nat>, offender: Id)
    requires offender !in jailed
    ensures Counted(c, jailed, offender) == Authorities.Ids(c.best)
  {
    DropNone(Authorities.Ids(c.best), jailed.Keys * {offender});
  }

  /** Fewer members are in office than their signature threshold. */
  predicate Understaffed(c: Committee) {
    0 < |c.best| < c.current.sig
  }

  /** An accepted signing report lowers the next and the pending signature threshold
      exactly when the committee in office is understaffed; it changes no committee
      otherwise. */
  lemma SigningOutcome(env: Env, s: Storage, now: nat, offender: Id, reporters: nat)
    requires ReportSigning(env, s, now, offender, reporters).Some?
    ensures ReportSigning(env, s, now, offender, reporters).value.committee
         == if Understaffed(s.committee) then LowerSignature(s.committee, |s.committee.best|) else s.committee
  {
    CountsAll(s.committee, s.standing.jailedSigning, offender);
  }

  ghost predicate KeepsSigning(c: Committee) {
    Understaffed(c) ==> |c.best| <= c.next.key && |c.best| <= c.pending.key
  }

  /** It keeps the pairs proper exactly when the committee in office is not understaffed
      or no larger than the next and the pending one. */
  lemma SigningThresholdsExact(env: Env, s: Storage, now: nat, offender: Id, reporters: nat)
    requires GoodThresholds(s.committee) && ReportSigning(env, s, now, offender, reporters).Some?
    ensures GoodThresholds(ReportSigning(env, s, now, offender, reporters).value.committee)
       <==> KeepsSigning(s.committee)
  {
    SigningOutcome(env, s, now, offender, reporters);
  }

  // ---- Sequences of reports ---------------------------------------------------

  datatype Complaint = Complaint(now: nat, offender: Id, reporters: nat, order: seq<Id>)

  ghost predicate Accepts(env: Env, s: Storage, c: Complaint) {
    Accepted(env, s, c.now, c.offender, c.reporters, c.order)
  }

  ghost function After(env: Env, s: Storage, c: Complaint): Storage
    requires Accepts(env, s, c)
  {
    ReportKeygen(env, s, c.now, c.offender, c.reporters, c.order).value
  }

  /** The state after a sequence of reports, None when one of them is refused. */
  ghost function AfterAll(env: Env, s: Storage, cs: seq<Complaint>): Option<Storage>
    decreases |cs|
  {
    if cs == [] then Some(s)
    else if Accepts(env, s, cs[0]) then AfterAll(env, After(env, s, cs[0]), cs[1..])
    else None
  }

  /** The offenders that a sequence of reports finds in the next-best set. */
  ghost function Caught(env: Env, s: Storage, cs: seq<Complaint>): set<Id>
    requires AfterAll(env, s, cs).Some?
    decreases |cs|
  {
    if cs == [] then {}
    else (if cs[0].offender in Free(s) then {cs[0].offender} else {}) + Caught(env, After(env, s, cs[0]), cs[1..])
  }

  /** How many of them no reserve could replace. */
  ghost function Unreplaced(env: Env, s: Storage, cs: seq<Complaint>): nat
    requires AfterAll(env, s, cs).Some?
    decreases |cs|
  {
    if cs == [] then 0
    else (if Lowers(s, cs[0].offender) then 1 else 0) + Unreplaced(env, After(env, s, cs[0]), cs[1..])
  }

  lemma OneReport(env: Env, s: Storage, c: Complaint) returns (s': Storage)
    requires Filled(s.committee) && Accepts(env, s, c)
    ensures s' == After(env, s, c) && Filled(s'.committee) && NextBest(s') !! s'.standing.jailedKeygen.Keys
    ensures s'.standing.jailedKeygen.Keys
         == s.standing.jailedKeygen.Keys + if c.offender in Free(s) then {c.offender} else {}
    ensures JailSafe(s) ==>
              JailSafe(s') && s'.committee.next.key == s.committee.next.key - if Lowers(s, c.offender) then 1 else 0
  {
    s' := After(env, s, c);
    ReportOutcome(env, s, c.now, c.offender, c.reporters, c.order);
    if JailSafe(s) {
      JailSafeStays(env, s, c.now, c.offender, c.reporters, c.order);
    }
  }

  /** Any sequence of accepted reports leaves nobody jailed in the committee, nor
      anybody it caught. From a jail-free full committee it stays full with `t < n`,
      and the keygen threshold falls by exactly the number nobody could replace. */
  lemma {:induction false} ReportsOutcome(env: Env, s: Storage, cs: seq<Complaint>)
    requires Filled(s.committee) && AfterAll(env, s, cs).Some?
    ensures var s' := AfterAll(env, s, cs).value;
            && Filled(s'.committee)
            && s'.standing.jailedKeygen.Keys == s.standing.jailedKeygen.Keys + Caught(env, s, cs)
            && (cs != [] || JailSafe(s) ==> NextBest(s') !! s'.standing.jailedKeygen.Keys)
            && (JailSafe(s) ==> JailSafe(s') && s'.committee.next.key == s.committee.next.key - Unreplaced(env, s, cs))
    decreases |cs|
  {
    if cs != [] {
      var s1 := OneReport(env, s, cs[0]);
      ReportsOutcome(env, s1, cs[1..]);
    }
  }

  // ---- Who stays out ----------------------------------------------------------

  /** A report against a member of the next-best set that finds a reserve is accepted. */
  lemma ReportAccepted(env: Env, s: Storage, offender: Id) returns (c: Complaint)
    requires JailSafe(s) && offender in NextBest(s) && Reserve(s, offender) != {}
    requires offender !in s.standing.jailedSigning
    ensures c.offender == offender && Accepts(env, s, c)
  {
    var order := SomeOrder(s.standing.reputations.Keys + {offender});
    c := Complaint(0, offender, s.committee.next.sig + 1, order);
    assert offender in Elements(s.committee.nextAuthorities);
    JailSafeFree(s);
    ReportOutcome(env, s, c.now, offender, c.reporters, order);
  }

  /** No next authority is jailed for signing, so each of them can be reported. */
  ghost predicate Reportable(s: Storage) {
    forall id | id in s.committee.nextAuthorities :: id !in s.standing.jailedSigning
  }

  lemma ReportKeepsReportable(env: Env, s: Storage, c: Complaint)
    requires Reportable(s) && Accepts(env, s, c)
    ensures Reportable(After(env, s, c))
    ensures After(env, s, c).committee.nextAuthorities == s.committee.nextAuthorities
  {
  }

  /** The unjailed next authorities outside the next-best set. */
  ghost function Waiting(s: Storage): set<Id> {
    Elements(s.committee.nextAuthorities) - NextBest(s) - s.standing.jailedKeygen.Keys
  }

  lemma SwapWaiting(s: Storage, s': Storage, target: Id)
    requires Free(s) == NextBest(s) && target in NextBest(s) && Waiting(s) != {} && Outcome(s, s', target)
    requires s'.committee.nextAuthorities == s.committee.nextAuthorities
    ensures exists x :: x in Waiting(s) && x in NextBest(s') && Waiting(s') == Waiting(s) - {x}
  {
    assert Reserve(s, target) == Waiting(s);
    var x :| x in Reserve(s, target) && NextBest(s') == Free(s) - {target} + {x};
    assert Waiting(s') == Waiting(s) - {x};
  }

  lemma SafeReport(env: Env, s: Storage, target: Id) returns (c: Complaint, s': Storage)
    requires JailSafe(s) && Reportable(s) && target in NextBest(s) && Reserve(s, target) != {}
    ensures Accepts(env, s, c) && s' == After(env, s, c) && Outcome(s, s', target)
    ensures JailSafe(s') && Reportable(s') && s'.committee.nextAuthorities == s.committee.nextAuthorities
  {
    assert target in Elements(s.committee.nextAuthorities);
    c := ReportAccepted(env, s, target);
    s' := After(env, s, c);
    JailSafeStays(env, s, c.now, c.offender, c.reporters, c.order);
    ReportOutcome(env, s, c.now, c.offender, c.reporters, c.order);
    ReportKeepsReportable(env, s, c);
  }

  /** One report against a member brings one of those waiting in. */
  lemma BringsOneIn(env: Env, s: Storage) returns (c: Complaint, s': Storage)
    requires JailSafe(s) && Reportable(s) && Waiting(s) != {}
    ensures Accepts(env, s, c) && s' == After(env, s, c)
    ensures JailSafe(s') && Reportable(s')
    ensures exists x :: x in Waiting(s) && x in NextBest(s') && Waiting(s') == Waiting(s) - {x}
  {
    var target := Authorities.Ids(s.committee.nextBest)[0];
    assert Reserve(s, target) == Waiting(s);
    c, s' := SafeReport(env, s, target);
    JailSafeFree(s);
    SwapWaiting(s, s', target);
  }

  /** An unjailed authority outside the next-best set gets into it after enough
      reports against its members. */
  lemma {:induction false} GetsIn(env: Env, s: Storage, id: Id) returns (cs: seq<Complaint>)
    requires JailSafe(s) && Reportable(s) && id in Waiting(s)
    ensures AfterAll(env, s, cs).Some? && id in NextBest(AfterAll(env, s, cs).value)
    decreases Waiting(s)
  {
    var c, s' := BringsOneIn(env, s);
    if id in NextBest(s') {
      cs := [c];
      assert AfterAll(env, s', []) == Some(s');
    } else {
      var rest := GetsIn(env, s', id);
      cs := [c] + rest;
      assert cs[1..] == rest;
    }
  }

  /** From a jail-free full committee: a reported offender is out for good, whatever
      reports follow, exactly when it was in the next-best set when reported: only
      then the report jails it. */
  lemma OutForGoodExact(env: Env, s: Storage, c: Complaint)
    requires JailSafe(s) && Reportable(s) && Accepts(env, s, c)
    ensures (forall cs: seq<Complaint> | AfterAll(env, After(env, s, c), cs).Some? ::
               c.offender !in NextBest(AfterAll(env, After(env, s, c), cs).value))
       <==> c.offender in NextBest(s)
  {
    var s' := After(env, s, c);
    JailSafeFree(s);
    JailSafeStays(env, s, c.now, c.offender, c.reporters, c.order);
    ReportOutcome(env, s, c.now, c.offender, c.reporters, c.order);
    if c.offender in NextBest(s) {
      forall cs: seq<Complaint> | AfterAll(env, s', cs).Some?
        ensures c.offender !in NextBest(AfterAll(env, s', cs).value)
      {
        ReportsOutcome(env, s', cs);
      }
    } else {
      ReportKeepsReportable(env, s, c);
      var cs := GetsIn(env, s', c.offender);
    }
  }
}
