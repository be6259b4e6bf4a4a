/** The bridge registry (pallets/bridge-registry/src/lib.rs): an incremental index
    of connected components, against reachability in the graph of links. */
module BridgeRegistry {
  import opened Orders

  type ResourceId = nat
  type BridgeIndex = nat
  type Info = seq<nat>

  datatype Link = Link(src: ResourceId, dest: ResourceId)

  /** A proposal handed to the registry; the anchor update carries its decoded
      link, or None when it does not decode. */
  datatype Proposal = Unsigned | OtherKind | AnchorUpdate(link: Option<Link>)

  datatype Result =
    | Ok | ProposalNotSigned | VerifyError | BridgeIndexError | OutOfBounds | BridgeNotFound | TooManyResources

  datatype Bridge = Bridge(info: Info, resources: seq<ResourceId>)

  datatype State = State(index: map<ResourceId, BridgeIndex>, bridges: map<BridgeIndex, Bridge>, next: BridgeIndex)

  /** Index zero stands for an unassigned resource. */
  function IndexOf(index: map<ResourceId, BridgeIndex>, r: ResourceId): BridgeIndex {
    if r in index then index[r] else 0
  }

  // ---- Effect of the operations ---------------------------------------------

  /** Neither resource is assigned: a new bridge. Writes before a failure stay. */
  function CreateBridge(max: nat, s: State, l: Link): (State, Result) {
    var s1 := s.(index := s.index[l.src := s.next][l.dest := s.next]);
    if max < 2 then (s1, OutOfBounds)
    else (s1.(bridges := s1.bridges[s.next := Bridge([], [l.src, l.dest])], next := s.next + 1), Ok)
  }

  /** One resource joins the bridge of the other. Writes before a failure stay. */
  function JoinBridge(max: nat, s: State, r: ResourceId, b: BridgeIndex): (State, Result) {
    var s1 := s.(index := s.index[r := b]);
    if b !in s1.bridges then (s1, BridgeNotFound)
    else if |s1.bridges[b].resources| >= max then (s1, TooManyResources)
    else
      var bridge := s1.bridges[b];
      (s1.(bridges := s1.bridges[b := bridge.(resources := bridge.resources + [r])]), Ok)
  }

  function ApplyLink(max: nat, s: State, l: Link): (State, Result) {
    var i, j := IndexOf(s.index, l.src), IndexOf(s.index, l.dest);
    if i == 0 && j == 0 then CreateBridge(max, s, l)
    else if i == 0 then JoinBridge(max, s, l.src, j)
    else if j == 0 then JoinBridge(max, s, l.dest, i)
    else if i == j then (s, Ok)
    else (s, BridgeIndexError)
  }

  function ApplyProposal(max: nat, s: State, p: Proposal): (State, Result) {
    match p
    case Unsigned => (s, ProposalNotSigned)
    case OtherKind => (s, Ok)
    case AnchorUpdate(None) => (s, VerifyError)
    case AnchorUpdate(Some(l)) => ApplyLink(max, s, l)
  }

  function ApplyMetadata(s: State, b: BridgeIndex, info: Info): State {
    s.(bridges := s.bridges[b := Bridge(info, if b in s.bridges then s.bridges[b].resources else [])])
  }

  /** The storage as genesis leaves it without preset bridges. */
  const Empty: State := State(map[], map[], 1)

  function AssignAll(index: map<ResourceId, BridgeIndex>, rs: seq<ResourceId>, b: BridgeIndex)
    : map<ResourceId, BridgeIndex>
    decreases |rs|
  {
    if rs == [] then index else AssignAll(index, rs[..|rs| - 1], b)[rs[|rs| - 1] := b]
  }

  function AddPreset(s: State, bridge: Bridge): State {
    State(AssignAll(s.index, bridge.resources, s.next), s.bridges[s.next := bridge], s.next + 1)
  }

  /** The storage as genesis leaves it with preset bridges. */
  function Preset(bridges: seq<Bridge>): State
    decreases |bridges|
  {
    if bridges == [] then Empty else AddPreset(Preset(bridges[..|bridges| - 1]), bridges[|bridges| - 1])
  }

  class Registry {
    const maxResources: nat
    const maxAdditionalFields: nat
    var resourceToBridgeIndex: map<ResourceId, BridgeIndex>
    var bridges: map<BridgeIndex, Bridge>
    var nextBridgeIndex: BridgeIndex

    function Snapshot(): State
      reads this
    {
      State(resourceToBridgeIndex, bridges, nextBridgeIndex)
    }

    /** Genesis. */
    constructor (maxResources: nat, maxAdditionalFields: nat, presets: seq<Bridge>)
      ensures Snapshot() == Preset(presets) && this.maxResources == maxResources
    {
      this.maxResources, this.maxAdditionalFields := maxResources, maxAdditionalFields;
      resourceToBridgeIndex, bridges, nextBridgeIndex := map[], map[], 1;
      new;
      for i := 0 to |presets|
        invariant Snapshot() == Preset(presets[..i])
      {
        var idx := nextBridgeIndex;
        assert presets[..i + 1][..i] == presets[..i];
        bridges := bridges[idx := presets[i]];
        nextBridgeIndex := idx + 1;
        var resources := presets[i].resources;
        for j := 0 to |resources|
          invariant bridges == Preset(presets[..i]).bridges[idx := presets[i]] && nextBridgeIndex == idx + 1
          invariant resourceToBridgeIndex == AssignAll(Preset(presets[..i]).index, resources[..j], idx)
        {
          assert resources[..j + 1][..j] == resources[..j];
          resourceToBridgeIndex := resourceToBridgeIndex[resources[j] := idx];
        }
        assert resources[..|resources|] == resources;
      }
      assert presets[..|presets|] == presets;
    }

    method SetMetadata(b: BridgeIndex, info: Info, fields: nat) returns (ok: bool)
      modifies this`bridges
      ensures ok == (fields <= maxAdditionalFields)
      ensures Snapshot() == if ok then ApplyMetadata(old(Snapshot()), b, info) else old(Snapshot())
    {
      if fields > maxAdditionalFields {
        return false;
      }
      var metadata;
      if b in bridges {
        metadata := bridges[b].(info := info);
      } else {
        metadata := Bridge(info, []);
      }
      bridges := bridges[b := metadata];
      ok := true;
    }

    method OnSignedProposal(p: Proposal) returns (result: Result)
      modifies this
      ensures (Snapshot(), result) == ApplyProposal(maxResources, old(Snapshot()), p)
    {
      if p.Unsigned? {
        return ProposalNotSigned;
      }
      if p.AnchorUpdate? {
        if p.link.None? {
          return VerifyError;
        }
        var src, dest := p.link.value.src, p.link.value.dest;
        var srcIndex := IndexOf(resourceToBridgeIndex, src);
        var destIndex := IndexOf(resourceToBridgeIndex, dest);
        if srcIndex == 0 || destIndex == 0 {
          if srcIndex == 0 && destIndex == 0 {
            var next := nextBridgeIndex;
            resourceToBridgeIndex := resourceToBridgeIndex[src := next];
            resourceToBridgeIndex := resourceToBridgeIndex[dest := next];
            var resources: seq<ResourceId> := [];
            if |resources| >= maxResources {
              return OutOfBounds;
            }
            resources := resources + [src];
            if |resources| >= maxResources {
              return OutOfBounds;
            }
            resources := resources + [dest];
            assert resources == [src, dest];
            bridges := bridges[next := Bridge([], resources)];
            nextBridgeIndex := next + 1;
          } else {
            var r, b := if srcIndex == 0 then src else dest, if srcIndex == 0 then destIndex else srcIndex;
            resourceToBridgeIndex := resourceToBridgeIndex[r := b];
            if b !in bridges {
              return BridgeNotFound;
            }
            var metadata := bridges[b];
            if |metadata.resources| >= maxResources {
              return TooManyResources;
            }
            metadata := metadata.(resources := metadata.resources + [r]);
            bridges := bridges[b := metadata];
          }
        } else if srcIndex != destIndex {
          return BridgeIndexError;
        }
      }
      result := Ok;
    }
  }

  // ---- The graph of links ---------------------------------------------------

  ghost predicate Linked(links: set<Link>, a: ResourceId, b: ResourceId) {
    Link(a, b) in links || Link(b, a) in links
  }

  ghost predicate Walk(links: set<Link>, p: seq<ResourceId>) {
    |p| >= 1 && (|p| == 1 || (Linked(links, p[0], p[1]) && Walk(links, p[1..])))
  }

  ghost predicate WalkBetween(links: set<Link>, p: seq<ResourceId>, a: ResourceId, b: ResourceId) {
    Walk(links, p) && p[0] == a && p[|p| - 1] == b
  }

  /** Some walk along links leads from `a` to `b`. */
  ghost predicate Connected(links: set<Link>, a: ResourceId, b: ResourceId) {
    exists p :: WalkBetween(links, p, a, b)
  }

  lemma {:induction false} WalkConcat(
    links: set<Link>, p: seq<ResourceId>, q: seq<ResourceId>, a: ResourceId, b: ResourceId, c: ResourceId)
    requires WalkBetween(links, p, a, b) && WalkBetween(links, q, b, c)
    ensures WalkBetween(links, p + q[1..], a, c)
  {
    if |p| == 1 {
      assert p + q[1..] == q;
    } else {
      WalkConcat(links, p[1..], q, p[1], b, c);
      assert (p + q[1..])[1..] == p[1..] + q[1..];
    }
  }

  lemma Joins(links: set<Link>, a: ResourceId, b: ResourceId, c: ResourceId)
    requires Connected(links, a, b) && Connected(links, b, c)
    ensures Connected(links, a, c)
  {
    var p :| WalkBetween(links, p, a, b);
    var q :| WalkBetween(links, q, b, c);
    WalkConcat(links, p, q, a, b, c);
  }

  lemma LinkConnects(links: set<Link>, a: ResourceId, b: ResourceId)
    requires a == b || Linked(links, a, b)
    ensures Connected(links, a, b)
  {
    if a == b {
      assert WalkBetween(links, [a], a, b);
    } else {
      assert [a, b][1..] == [b];
      assert WalkBetween(links, [a, b], a, b);
    }
  }

  lemma {:induction false} WalkBack(links: set<Link>, p: seq<ResourceId>, a: ResourceId, b: ResourceId)
    requires WalkBetween(links, p, a, b)
    ensures Connected(links, b, a)
  {
    if |p| == 1 {
      LinkConnects(links, b, a);
    } else {
      WalkBack(links, p[1..], p[1], b);
      LinkConnects(links, p[1], a);
      Joins(links, b, p[1], a);
    }
  }

  lemma {:induction false} WalkGrows(links: set<Link>, more: set<Link>, p: seq<ResourceId>)
    requires links <= more && Walk(links, p)
    ensures Walk(more, p)
  {
    if |p| > 1 {
      WalkGrows(links, more, p[1..]);
    }
  }

  lemma ConnectedGrows(links: set<Link>, more: set<Link>, a: ResourceId, b: ResourceId)
    requires links <= more && Connected(links, a, b)
    ensures Connected(more, a, b)
  {
    var p :| WalkBetween(links, p, a, b);
    WalkGrows(links, more, p);
    assert WalkBetween(more, p, a, b);
  }

  // ---- Runs -------------------------------------------------------------------

  datatype Op = Signed(p: Proposal) | SetMeta(b: BridgeIndex, info: Info)

  function Apply(max: nat, s: State, op: Op): State {
    match op
    case Signed(p) => ApplyProposal(max, s, p).0
    case SetMeta(b, info) => ApplyMetadata(s, b, info)
  }

  /** The link an operation adds: one that was not refused as a merge. */
  function Adds(max: nat, s: State, op: Op): set<Link> {
    match op
    case Signed(AnchorUpdate(Some(l))) => if ApplyLink(max, s, l).1 == BridgeIndexError then {} else {l}
    case _ => {}
  }

  function Run(max: nat, s: State, ops: seq<Op>): State
    decreases |ops|
  {
    if ops == [] then s else Run(max, Apply(max, s, ops[0]), ops[1..])
  }

  /** The links of a run, starting from those known before it. */
  function LinksOf(max: nat, s: State, ops: seq<Op>, links: set<Link>): set<Link>
    decreases |ops|
  {
    if ops == [] then links else LinksOf(max, Apply(max, s, ops[0]), ops[1..], links + Adds(max, s, ops[0]))
  }

  ghost predicate Touched(links: set<Link>, r: ResourceId) {
    exists l :: l in links && (l.src == r || l.dest == r)
  }

  /** The index map labels exactly the touched resources, by component. */
  ghost predicate Labels(index: map<ResourceId, BridgeIndex>, links: set<Link>) {
    && (forall r :: r in index <==> Touched(links, r))
    && (forall a, b | a in index && b in index :: index[a] == index[b] <==> Connected(links, a, b))
  }

  ghost predicate IndexInv(s: State, links: set<Link>) {
    && s.next >= 1
    && (forall r | r in s.index :: 1 <= s.index[r] < s.next)
    && (forall r | r in s.index :: Touched(links, r))
    && (forall l | l in links :: l.src in s.index && l.dest in s.index && s.index[l.src] == s.index[l.dest])
    && (forall a, b | a in s.index && b in s.index && s.index[a] == s.index[b] :: Connected(links, a, b))
  }

  /** Lists and index map agree, up to lists that are full. */
  ghost predicate ListInv(max: nat, s: State) {
    && (forall r | r in s.index :: s.index[r] in s.bridges)
    && (forall b, r | b in s.bridges && r in s.bridges[b].resources :: r in s.index && s.index[r] == b)
    && (forall r | r in s.index :: r in s.bridges[s.index[r]].resources || |s.bridges[s.index[r]].resources| == max)
    && (forall b | b in s.bridges :: |s.bridges[b].resources| <= max)
  }

  lemma {:induction false} WalkSameIndex(s: State, links: set<Link>, p: seq<ResourceId>)
    requires IndexInv(s, links) && Walk(links, p) && p[0] in s.index
    ensures p[|p| - 1] in s.index && s.index[p[|p| - 1]] == s.index[p[0]]
  {
    if |p| > 1 {
      WalkSameIndex(s, links, p[1..]);
    }
  }

  lemma InvLabels(s: State, links: set<Link>)
    requires IndexInv(s, links)
    ensures Labels(s.index, links)
  {
    forall a, b | a in s.index && b in s.index && Connected(links, a, b) ensures s.index[a] == s.index[b] {
      var p :| WalkBetween(links, p, a, b);
      WalkSameIndex(s, links, p);
    }
  }

  /** Relabelling after a link that gives `l`'s ends the index `b`, one of them or
      both being new. */
  lemma NewLinkIndex(s: State, links: set<Link>, l: Link, s': State)
    requires IndexInv(s, links)
    requires l.src in s'.index && l.dest in s'.index && s'.index[l.src] == s'.index[l.dest]
    requires forall r :: r in s'.index <==> r in s.index || r == l.src || r == l.dest
    requires forall r | r in s.index :: s'.index[r] == s.index[r]
    requires l.src in s.index || l.dest in s.index || s'.index[l.src] == s.next
    requires s'.next >= s.next && s'.index[l.src] < s'.next
    ensures IndexInv(s', links + {l})
  {
    var more := links + {l};
    LinkConnects(more, l.src, l.dest);
    LinkConnects(more, l.dest, l.src);
    forall r | r in s'.index ensures Touched(more, r) {
      if r in s.index {
        var k :| k in links && (k.src == r || k.dest == r);
        assert k in more;
      } else {
        assert l in more;
      }
    }
    forall a, b | a in s'.index && b in s'.index && s'.index[a] == s'.index[b] ensures Connected(more, a, b) {
      NewPair(s, links, l, s', a, b);
    }
  }

  lemma NewPair(s: State, links: set<Link>, l: Link, s': State, a: ResourceId, b: ResourceId)
    requires IndexInv(s, links)
    requires l.src in s'.index && l.dest in s'.index && s'.index[l.src] == s'.index[l.dest]
    requires forall r :: r in s'.index <==> r in s.index || r == l.src || r == l.dest
    requires forall r | r in s.index :: s'.index[r] == s.index[r]
    requires l.src in s.index || l.dest in s.index || s'.index[l.src] == s.next
    requires a in s'.index && b in s'.index && s'.index[a] == s'.index[b]
    ensures Connected(links + {l}, a, b)
  {
    var more := links + {l};
    LinkConnects(more, l.src, l.dest);
    LinkConnects(more, l.dest, l.src);
    if a in s.index && b in s.index {
      ConnectedGrows(links, more, a, b);
    } else if a == b {
      LinkConnects(more, a, b);
    } else if a in s.index {
      var end := if b == l.src then l.dest else l.src;
      if end in s.index { ConnectedGrows(links, more, a, end); Joins(more, a, end, b); }
    } else if b in s.index {
      var end := if a == l.src then l.dest else l.src;
      if end in s.index { ConnectedGrows(links, more, end, b); Joins(more, a, end, b); }
    }
  }

  // ---- Every step keeps the labelling ---------------------------------------

  lemma CreateKeeps(max: nat, s: State, links: set<Link>, l: Link)
    requires max >= 2 && IndexInv(s, links)
    requires l.src !in s.index && l.dest !in s.index
    ensures IndexInv(CreateBridge(max, s, l).0, links + {l})
  {
    NewLinkIndex(s, links, l, CreateBridge(max, s, l).0);
  }

  lemma CreateLists(max: nat, s: State, l: Link)
    requires max >= 2 && ListInv(max, s) && (forall r | r in s.index :: s.index[r] < s.next)
    requires l.src !in s.index && l.dest !in s.index
    ensures ListInv(max, CreateBridge(max, s, l).0)
  {
    assert CreateBridge(max, s, l).0.bridges[s.next].resources == [l.src, l.dest];
  }

  lemma JoinIndex(s: State, links: set<Link>, l: Link, r: ResourceId, other: ResourceId, s': State)
    requires IndexInv(s, links)
    requires (l == Link(r, other) || l == Link(other, r)) && r !in s.index && other in s.index
    requires s'.index == s.index[r := s.index[other]] && s'.next == s.next
    ensures IndexInv(s', links + {l})
  {
    NewLinkIndex(s, links, l, s');
  }

  lemma JoinKeeps(max: nat, s: State, links: set<Link>, l: Link, r: ResourceId, other: ResourceId)
    requires IndexInv(s, links) && ListInv(max, s)
    requires (l == Link(r, other) || l == Link(other, r)) && r !in s.index && other in s.index
    ensures IndexInv(JoinBridge(max, s, r, s.index[other]).0, links + {l})
    ensures ListInv(max, JoinBridge(max, s, r, s.index[other]).0)
  {
    JoinIndex(s, links, l, r, other, JoinBridge(max, s, r, s.index[other]).0);
    JoinLists(max, s, r, s.index[other]);
  }

  lemma JoinFull(max: nat, s: State, r: ResourceId, b: BridgeIndex)
    requires ListInv(max, s) && r !in s.index && b in s.bridges && |s.bridges[b].resources| == max
    ensures ListInv(max, s.(index := s.index[r := b]))
  {
  }

  lemma JoinRoom(max: nat, s: State, r: ResourceId, b: BridgeIndex, bridge: Bridge)
    requires ListInv(max, s) && r !in s.index && b in s.bridges && |s.bridges[b].resources| < max
    requires bridge.resources == s.bridges[b].resources + [r]
    ensures ListInv(max, s.(index := s.index[r := b], bridges := s.bridges[b := bridge]))
  {
    assert forall x :: x in bridge.resources <==> x in s.bridges[b].resources || x == r;
  }

  lemma JoinLists(max: nat, s: State, r: ResourceId, b: BridgeIndex)
    requires ListInv(max, s) && r !in s.index && b in s.bridges
    ensures ListInv(max, JoinBridge(max, s, r, b).0)
  {
    if |s.bridges[b].resources| >= max {
      JoinFull(max, s, r, b);
    } else {
      var bridge := s.bridges[b];
      JoinRoom(max, s, r, b, bridge.(resources := bridge.resources + [r]));
    }
  }

  lemma SameIndexKeeps(s: State, links: set<Link>, l: Link)
    requires IndexInv(s, links) && l.src in s.index && l.dest in s.index && s.index[l.src] == s.index[l.dest]
    ensures IndexInv(s, links + {l})
  {
    NewLinkIndex(s, links, l, s);
  }

  /** An operation that is not a link leaves indices and lists alone. */
  lemma QuietOp(max: nat, s: State, op: Op)
    requires !(op.Signed? && op.p.AnchorUpdate? && op.p.link.Some?)
    ensures Adds(max, s, op) == {}
    ensures var s' := Apply(max, s, op);
            && s'.index == s.index && s'.next == s.next && s.bridges.Keys <= s'.bridges.Keys
            && (forall b | b in s.bridges :: s'.bridges[b].resources == s.bridges[b].resources)
            && (forall b | b in s'.bridges && b !in s.bridges :: s'.bridges[b].resources == [])
  {
  }

  lemma QuietKeeps(max: nat, s: State, s': State, links: set<Link>)
    requires IndexInv(s, links) && ListInv(max, s)
    requires s'.index == s.index && s'.next == s.next && s.bridges.Keys <= s'.bridges.Keys
    requires forall b | b in s.bridges :: s'.bridges[b].resources == s.bridges[b].resources
    requires forall b | b in s'.bridges && b !in s.bridges :: s'.bridges[b].resources == []
    ensures IndexInv(s', links) && ListInv(max, s')
  {
  }

  lemma StepKeeps(max: nat, s: State, op: Op, links: set<Link>)
    requires max >= 2 && IndexInv(s, links) && ListInv(max, s)
    ensures IndexInv(Apply(max, s, op), links + Adds(max, s, op)) && ListInv(max, Apply(max, s, op))
  {
    assert links + {} == links;
    match op
    case Signed(AnchorUpdate(Some(l))) =>
      var outcome := LinkKeeps(max, s, l, links);
      assert Apply(max, s, op) == outcome.0;
      assert Adds(max, s, op) == if outcome.1 == BridgeIndexError then {} else {l};
    case _ =>
      QuietOp(max, s, op);
      QuietKeeps(max, s, Apply(max, s, op), links);
  }

  /** What one link does: the new state and whether the link took effect. */
  lemma LinkKeeps(max: nat, s: State, l: Link, links: set<Link>) returns (outcome: (State, Result))
    requires max >= 2 && IndexInv(s, links) && ListInv(max, s)
    ensures outcome == ApplyLink(max, s, l)
    ensures IndexInv(outcome.0, if outcome.1 == BridgeIndexError then links else links + {l})
    ensures ListInv(max, outcome.0)
  {
    outcome := ApplyLink(max, s, l);
    if l.src !in s.index && l.dest !in s.index {
      CreateKeeps(max, s, links, l);
      CreateLists(max, s, l);
    } else if l.src !in s.index {
      JoinKeeps(max, s, links, l, l.src, l.dest);
    } else if l.dest !in s.index {
      JoinKeeps(max, s, links, l, l.dest, l.src);
    } else if s.index[l.src] == s.index[l.dest] {
      SameIndexKeeps(s, links, l);
    }
  }

  lemma {:induction false} RunKeeps(max: nat, s: State, ops: seq<Op>, links: set<Link>)
    requires max >= 2 && IndexInv(s, links) && ListInv(max, s)
    ensures IndexInv(Run(max, s, ops), LinksOf(max, s, ops, links)) && ListInv(max, Run(max, s, ops))
    decreases |ops|
  {
    if ops != [] {
      StepKeeps(max, s, ops[0], links);
      RunKeeps(max, Apply(max, s, ops[0]), ops[1..], links + Adds(max, s, ops[0]));
    }
  }

  // ---- Preset bridges ---------------------------------------------------------

  /** The preset lists fit and share no resource. */
  ghost predicate GoodPresets(max: nat, bridges: seq<Bridge>) {
    && (forall i | 0 <= i < |bridges| :: |bridges[i].resources| <= max)
    && (forall i, j | 0 <= i < j < |bridges| :: forall r | r in bridges[i].resources :: r !in bridges[j].resources)
  }

  /** A preset list counts as links from its first resource to all of them. */
  function ListLinks(rs: seq<ResourceId>): set<Link> {
    set i | 0 <= i < |rs| :: Link(rs[0], rs[i])
  }

  function PresetLinks(bridges: seq<Bridge>): set<Link>
    decreases |bridges|
  {
    if bridges == [] then {} else PresetLinks(bridges[..|bridges| - 1]) + ListLinks(bridges[|bridges| - 1].resources)
  }

  lemma {:induction false} AssignAllFacts(index: map<ResourceId, BridgeIndex>, rs: seq<ResourceId>, b: BridgeIndex)
    ensures var after := AssignAll(index, rs, b);
            && (forall r :: r in after <==> r in index || r in rs)
            && (forall r | r in after :: after[r] == if r in rs then b else index[r])
    decreases |rs|
  {
    if rs != [] {
      AssignAllFacts(index, rs[..|rs| - 1], b);
      assert rs == rs[..|rs| - 1] + [rs[|rs| - 1]];
    }
  }

  lemma ListConnected(links: set<Link>, rs: seq<ResourceId>, a: ResourceId, b: ResourceId)
    requires ListLinks(rs) <= links && a in rs && b in rs
    ensures Connected(links, a, b)
  {
    assert Link(rs[0], a) in ListLinks(rs) && Link(rs[0], b) in ListLinks(rs);
    LinkConnects(links, a, rs[0]);
    LinkConnects(links, rs[0], b);
    Joins(links, a, rs[0], b);
  }

  lemma AddPresetIndex(s: State, links: set<Link>, bridge: Bridge)
    requires IndexInv(s, links) && forall r | r in bridge.resources :: r !in s.index
    ensures IndexInv(AddPreset(s, bridge), links + ListLinks(bridge.resources))
  {
    var rs := bridge.resources;
    var more, s' := links + ListLinks(rs), AddPreset(s, bridge);
    AssignAllFacts(s.index, rs, s.next);
    forall r | r in s'.index ensures Touched(more, r) {
      if r in s.index {
        var k :| k in links && (k.src == r || k.dest == r);
        assert k in more;
      } else {
        assert Link(rs[0], r) in more;
      }
    }
    forall a, b | a in s'.index && b in s'.index && s'.index[a] == s'.index[b] ensures Connected(more, a, b) {
      if a in rs {
        ListConnected(more, rs, a, b);
      } else {
        ConnectedGrows(links, more, a, b);
      }
    }
  }

  lemma AddPresetLists(max: nat, s: State, bridge: Bridge)
    requires ListInv(max, s) && (forall r | r in s.index :: s.index[r] < s.next)
    requires (forall r | r in bridge.resources :: r !in s.index) && |bridge.resources| <= max
    ensures ListInv(max, AddPreset(s, bridge))
  {
    AssignAllFacts(s.index, bridge.resources, s.next);
  }

  lemma {:induction false} PresetMember(bridges: seq<Bridge>, r: ResourceId)
    requires r in Preset(bridges).index
    ensures exists i :: 0 <= i < |bridges| && r in bridges[i].resources
    decreases |bridges|
  {
    var n := |bridges| - 1;
    var before := bridges[..n];
    AssignAllFacts(Preset(before).index, bridges[n].resources, Preset(before).next);
    if r !in bridges[n].resources {
      PresetMember(before, r);
      var i :| 0 <= i < |before| && r in before[i].resources;
      assert before[i] == bridges[i];
    }
  }

  /** Genesis with good presets is labelled by them. */
  lemma {:induction false} PresetKeeps(max: nat, bridges: seq<Bridge>)
    requires GoodPresets(max, bridges)
    ensures IndexInv(Preset(bridges), PresetLinks(bridges)) && ListInv(max, Preset(bridges))
    decreases |bridges|
  {
    if bridges != [] {
      var n := |bridges| - 1;
      PresetKeeps(max, bridges[..n]);
      forall r | r in bridges[n].resources ensures r !in Preset(bridges[..n]).index {
        if r in Preset(bridges[..n]).index {
          PresetMember(bridges[..n], r);
        }
      }
      AddPresetIndex(Preset(bridges[..n]), PresetLinks(bridges[..n]), bridges[n]);
      AddPresetLists(max, Preset(bridges[..n]), bridges[n]);
    }
  }

  // ---- Main results -----------------------------------------------------------

  /** The links known after a run. */
  function LinksAfter(max: nat, presets: seq<Bridge>, ops: seq<Op>): set<Link> {
    LinksOf(max, Preset(presets), ops, PresetLinks(presets))
  }

  function StateAfter(max: nat, presets: seq<Bridge>, ops: seq<Op>): State {
    Run(max, Preset(presets), ops)
  }

  lemma RunInv(max: nat, presets: seq<Bridge>, ops: seq<Op>)
    requires max >= 2 && GoodPresets(max, presets)
    ensures IndexInv(StateAfter(max, presets, ops), LinksAfter(max, presets, ops))
    ensures ListInv(max, StateAfter(max, presets, ops))
  {
    PresetKeeps(max, presets);
    RunKeeps(max, Preset(presets), ops, PresetLinks(presets));
  }

  /** In every run from genesis the index map is exactly the component labelling of
      the links that took effect, and lists and index map agree up to full lists. */
  lemma RunLabelsComponents(max: nat, presets: seq<Bridge>, ops: seq<Op>)
    requires max >= 2 && GoodPresets(max, presets)
    ensures Labels(StateAfter(max, presets, ops).index, LinksAfter(max, presets, ops))
    ensures ListInv(max, StateAfter(max, presets, ops))
  {
    RunInv(max, presets, ops);
    InvLabels(StateAfter(max, presets, ops), LinksAfter(max, presets, ops));
  }

  lemma RefusedIn(max: nat, s: State, links: set<Link>, l: Link)
    requires IndexInv(s, links) && Labels(s.index, links)
    ensures ApplyLink(max, s, l).1 == BridgeIndexError <==>
              Touched(links, l.src) && Touched(links, l.dest) && !Connected(links, l.src, l.dest)
  {
    assert l.src in s.index <==> Touched(links, l.src);
    assert l.dest in s.index <==> Touched(links, l.dest);
  }

  /** A link is refused exactly when it would merge two components already there. */
  lemma MergeRefusedExactly(max: nat, presets: seq<Bridge>, ops: seq<Op>, l: Link)
    requires max >= 2 && GoodPresets(max, presets)
    ensures var links := LinksAfter(max, presets, ops);
            ApplyLink(max, StateAfter(max, presets, ops), l).1 == BridgeIndexError <==>
            (Touched(links, l.src) && Touched(links, l.dest) && !Connected(links, l.src, l.dest))
  {
    var s, links := StateAfter(max, presets, ops), LinksAfter(max, presets, ops);
    RunInv(max, presets, ops);
    InvLabels(s, links);
    RefusedIn(max, s, links, l);
  }

  /** The list of an assigned resource's bridge is full. */
  predicate Full(max: nat, s: State, r: ResourceId) {
    r in s.index && s.index[r] in s.bridges && |s.bridges[s.index[r]].resources| == max
  }

  lemma OutcomeIn(max: nat, s: State, l: Link)
    requires max >= 2 && ListInv(max, s) && forall r | r in s.index :: s.index[r] >= 1
    ensures ApplyLink(max, s, l).1 in {Ok, BridgeIndexError, TooManyResources}
    ensures ApplyLink(max, s, l).1 == TooManyResources <==>
              (l.src in s.index && l.dest !in s.index && Full(max, s, l.src))
              || (l.dest in s.index && l.src !in s.index && Full(max, s, l.dest))
  {
  }

  /** A link fails for want of room exactly when it brings one new resource to a
      component whose list is full; no other failure happens besides the merge. */
  lemma LinkOutcome(max: nat, presets: seq<Bridge>, ops: seq<Op>, l: Link)
    requires max >= 2 && GoodPresets(max, presets)
    ensures ApplyLink(max, StateAfter(max, presets, ops), l).1 in {Ok, BridgeIndexError, TooManyResources}
    ensures var s, links := StateAfter(max, presets, ops), LinksAfter(max, presets, ops);
            ApplyLink(max, s, l).1 == TooManyResources <==>
            ((Touched(links, l.src) && !Touched(links, l.dest) && Full(max, s, l.src))
             || (Touched(links, l.dest) && !Touched(links, l.src) && Full(max, s, l.dest)))
  {
    var s, links := StateAfter(max, presets, ops), LinksAfter(max, presets, ops);
    RunInv(max, presets, ops);
    InvLabels(s, links);
    OutcomeIn(max, s, l);
    assert l.src in s.index <==> Touched(links, l.src);
    assert l.dest in s.index <==> Touched(links, l.dest);
  }

  // ---- Exactly when ------------------------------------------------------------

  ghost predicate AlwaysLabels(max: nat) {
    forall presets, ops | GoodPresets(max, presets) ::
      Labels(StateAfter(max, presets, ops).index, LinksAfter(max, presets, ops))
  }

  /** With room for fewer than two resources, two links far apart share an index. */
  lemma TwoPairsCollide(max: nat)
    requires max < 2
    ensures !AlwaysLabels(max)
  {
    var first, second := Link(1, 2), Link(3, 4);
    var op1, op2 := Signed(AnchorUpdate(Some(first))), Signed(AnchorUpdate(Some(second)));
    var s1 := Apply(max, Empty, op1);
    var s2 := Apply(max, s1, op2);
    var ops := [op1, op2];
    assert ops[1..] == [op2] && [op2][1..] == [];
    assert Run(max, Empty, ops) == Run(max, s1, [op2]) == Run(max, s2, []);
    var links := {first, second};
    assert Adds(max, Empty, op1) == {first} && Adds(max, s1, op2) == {second};
    assert LinksOf(max, Empty, ops, {}) == LinksOf(max, s1, [op2], {first}) by {
      assert {} + {first} == {first};
    }
    assert LinksOf(max, s1, [op2], {first}) == LinksOf(max, s2, [], links) by {
      assert {first} + {second} == links;
    }
    assert GoodPresets(max, []);
    assert StateAfter(max, [], ops) == s2 && LinksAfter(max, [], ops) == links;
    if Labels(s2.index, links) {
      assert s2.index[1] == s2.index[3];
      var p :| WalkBetween(links, p, 1, 3);
      StaysInPair(links, p);
    }
  }

  lemma {:induction false} StaysInPair(links: set<Link>, p: seq<ResourceId>)
    requires links == {Link(1, 2), Link(3, 4)} && Walk(links, p) && p[0] in {1, 2}
    ensures p[|p| - 1] in {1, 2}
  {
    if |p| > 1 {
      StaysInPair(links, p[1..]);
    }
  }

  /** The registry labels components in every run exactly when a bridge can list at
      least the two resources of its first link. */
  lemma LabelsExactly(max: nat)
    ensures AlwaysLabels(max) <==> max >= 2
  {
    if max >= 2 {
      forall presets, ops | GoodPresets(max, presets)
        ensures Labels(StateAfter(max, presets, ops).index, LinksAfter(max, presets, ops))
      {
        RunLabelsComponents(max, presets, ops);
      }
    } else {
      TwoPairsCollide(max);
    }
  }
}
