/** The voter set Merkle tree (pallets/dkg-metadata/src/lib.rs): the layer by
    layer computation against the recursive root of the perfect tree. */
module Merkle {
  type Id = nat
  type Hash = seq<nat>

  /** Keccak as the tree uses it: on a voter, on the padding byte and on two
      concatenated children. */
  datatype Hasher = Hasher(leaf: Id -> Hash, pad: Hash, node: (Hash, Hash) -> Hash)

  const U32_MAX: nat := 0xFFFF_FFFF

  function Pow2(n: nat): (r: nat)
    ensures r > n
  {
    if n == 0 then 1 else 2 * Pow2(n - 1)
  }

  /** `2u32.saturating_pow(h)` */
  function SaturatingPow2(h: nat): nat {
    if Pow2(h) <= U32_MAX then Pow2(h) else U32_MAX
  }

  /** The height of the tree: least that holds all voters, but one for one voter. */
  ghost predicate IsHeight(count: nat, h: nat) {
    if count == 1 then h == 1 else count <= Pow2(h) && forall g: nat | g < h :: Pow2(g) < count
  }

  lemma HeightUnique(count: nat, g: nat, h: nat)
    requires IsHeight(count, g) && IsHeight(count, h)
    ensures g == h
  {
  }

  method TreeHeight(count: nat) returns (h: nat)
    requires count <= U32_MAX
    ensures IsHeight(count, h)
  {
    if count == 1 {
      return 1;
    }
    h := 0;
    while SaturatingPow2(h) < count
      invariant forall g: nat | g < h :: Pow2(g) < count
      decreases count - h
    {
      h := h + 1;
    }
  }

  function Leaves(hasher: Hasher, voters: seq<Id>): (r: seq<Hash>)
    ensures |r| == |voters| && forall i | 0 <= i < |r| :: r[i] == hasher.leaf(voters[i])
  {
    seq(|voters|, i requires 0 <= i < |voters| => hasher.leaf(voters[i]))
  }

  function Pads(hasher: Hasher, n: nat): (r: seq<Hash>)
    ensures |r| == n && forall i | 0 <= i < n :: r[i] == hasher.pad
  {
    seq(n, _ => hasher.pad)
  }

  /** The voters' leaves padded to `2^h`. */
  function BaseLayer(hasher: Hasher, voters: seq<Id>, h: nat): (r: seq<Hash>)
    requires |voters| <= Pow2(h)
    ensures |r| == Pow2(h)
  {
    Leaves(hasher, voters) + Pads(hasher, Pow2(h) - |voters|)
  }

  method PreProcess(hasher: Hasher, voters: seq<Id>) returns (base: seq<Hash>, ghost h: nat)
    requires |voters| <= U32_MAX
    ensures IsHeight(|voters|, h) && |voters| <= Pow2(h) && base == BaseLayer(hasher, voters, h)
  {
    var height := TreeHeight(|voters|);
    h := height;
    base := Leaves(hasher, voters);
    while |base| != Pow2(height)
      invariant |voters| <= |base| <= Pow2(height)
      invariant base == Leaves(hasher, voters) + Pads(hasher, |base| - |voters|)
      decreases Pow2(height) - |base|
    {
      base := base + [hasher.pad];
    }
  }

  /** Neighbours hashed pairwise. */
  function LayerAbove(node: (Hash, Hash) -> Hash, layer: seq<Hash>): (r: seq<Hash>)
    requires |layer| % 2 == 0
    ensures |layer| == 2 * |r|
  {
    if layer == [] then [] else [node(layer[0], layer[1])] + LayerAbove(node, layer[2..])
  }

  /** Hashing neighbours; on the even layers of the tree no index is out of range. */
  method NextLayer(hasher: Hasher, layer: seq<Hash>) returns (above: seq<Hash>)
    requires |layer| % 2 == 0
    ensures above == LayerAbove(hasher.node, layer)
  {
    above := [];
    var index := 0;
    while index < |layer|
      invariant 0 <= index <= |layer| && index % 2 == 0
      invariant above + LayerAbove(hasher.node, layer[index..]) == LayerAbove(hasher.node, layer)
    {
      assert layer[index..][2..] == layer[index + 2..];
      above := above + [hasher.node(layer[index], layer[index + 1])];
      index := index + 2;
    }
  }

  /** The root of the perfect tree over `2^h` leaves, top down. */
  function PerfectRoot(node: (Hash, Hash) -> Hash, leaves: seq<Hash>, h: nat): Hash
    requires |leaves| == Pow2(h)
    decreases h
  {
    if h == 0 then leaves[0]
    else
      var half := Pow2(h - 1);
      node(PerfectRoot(node, leaves[..half], h - 1), PerfectRoot(node, leaves[half..], h - 1))
  }

  lemma {:induction false} LayerHalves(node: (Hash, Hash) -> Hash, left: seq<Hash>, right: seq<Hash>)
    requires |left| % 2 == 0 && |right| % 2 == 0
    ensures LayerAbove(node, left + right) == LayerAbove(node, left) + LayerAbove(node, right)
  {
    if left == [] {
      assert left + right == right;
    } else {
      assert (left + right)[2..] == left[2..] + right;
      LayerHalves(node, left[2..], right);
    }
  }

  /** The root over two halves, by definition. */
  lemma RootHalves(node: (Hash, Hash) -> Hash, left: seq<Hash>, right: seq<Hash>, h: nat)
    requires |left| == |right| == Pow2(h)
    ensures PerfectRoot(node, left + right, h + 1) == node(PerfectRoot(node, left, h), PerfectRoot(node, right, h))
  {
    assert (left + right)[..Pow2(h)] == left;
    assert (left + right)[Pow2(h)..] == right;
  }

  /** Going up one layer keeps the root. */
  lemma {:induction false} LayerKeepsRoot(node: (Hash, Hash) -> Hash, leaves: seq<Hash>, h: nat)
    requires |leaves| == Pow2(h + 1)
    ensures |LayerAbove(node, leaves)| == Pow2(h)
    ensures PerfectRoot(node, LayerAbove(node, leaves), h) == PerfectRoot(node, leaves, h + 1)
    decreases h
  {
    var left, right := leaves[..Pow2(h)], leaves[Pow2(h)..];
    assert leaves == left + right;
    RootHalves(node, left, right, h);
    if h > 0 {
      LayerKeepsRoot(node, left, h - 1);
      LayerKeepsRoot(node, right, h - 1);
      LayerHalves(node, left, right);
      RootHalves(node, LayerAbove(node, left), LayerAbove(node, right), h - 1);
    }
  }

  /** The root that the pallet stores for `voters`. */
  ghost predicate IsVoterRoot(hasher: Hasher, voters: seq<Id>, root: Hash) {
    exists h: nat ::
      && IsHeight(|voters|, h) && |voters| <= Pow2(h)
      && root == PerfectRoot(hasher.node, BaseLayer(hasher, voters, h), h)
  }

  /** `get_voter_set_tree_root` computes the root of the perfect tree of minimal
      height over the padded voter leaves. */
  method VoterRoot(hasher: Hasher, voters: seq<Id>) returns (root: Hash)
    requires |voters| <= U32_MAX
    ensures IsVoterRoot(hasher, voters, root)
  {
    var layer, h := PreProcess(hasher, voters);
    var height := TreeHeight(|voters|);
    HeightUnique(|voters|, height, h);
    ghost var base := layer;
    while height > 0
      invariant 0 <= height <= h && |layer| == Pow2(height)
      invariant PerfectRoot(hasher.node, layer, height) == PerfectRoot(hasher.node, base, h)
    {
      LayerKeepsRoot(hasher.node, layer, height - 1);
      layer := NextLayer(hasher, layer);
      height := height - 1;
    }
    root := layer[0];
  }

  // ---- What the root determines -------------------------------------------

  ghost predicate InjectiveNode(node: (Hash, Hash) -> Hash) {
    forall a, b, c, d :: node(a, b) == node(c, d) ==> a == c && b == d
  }

  ghost predicate InjectiveLeaf(leaf: Id -> Hash) {
    forall a, b :: leaf(a) == leaf(b) ==> a == b
  }

  lemma {:induction false} RootInjective(node: (Hash, Hash) -> Hash, a: seq<Hash>, b: seq<Hash>, h: nat)
    requires InjectiveNode(node) && |a| == |b| == Pow2(h)
    requires PerfectRoot(node, a, h) == PerfectRoot(node, b, h)
    ensures a == b
    decreases h
  {
    if h > 0 {
      var half := Pow2(h - 1);
      RootInjective(node, a[..half], b[..half], h - 1);
      RootInjective(node, a[half..], b[half..], h - 1);
      assert a == a[..half] + a[half..] && b == b[..half] + b[half..];
    }
  }

  /** With an injective hash the root determines the ordered voter leaves among
      voter sets of one size. */
  lemma RootDeterminesLeaves(hasher: Hasher, v: seq<Id>, w: seq<Id>, root: Hash)
    requires InjectiveNode(hasher.node) && |v| == |w|
    requires IsVoterRoot(hasher, v, root) && IsVoterRoot(hasher, w, root)
    ensures Leaves(hasher, v) == Leaves(hasher, w)
    ensures InjectiveLeaf(hasher.leaf) ==> v == w
  {
    var h: nat :| IsHeight(|v|, h) && |v| <= Pow2(h) && root == PerfectRoot(hasher.node, BaseLayer(hasher, v, h), h);
    var g: nat :| IsHeight(|w|, g) && |w| <= Pow2(g) && root == PerfectRoot(hasher.node, BaseLayer(hasher, w, g), g);
    HeightUnique(|v|, g, h);
    RootInjective(hasher.node, BaseLayer(hasher, v, h), BaseLayer(hasher, w, h), h);
    assert Leaves(hasher, v) == BaseLayer(hasher, v, h)[..|v|];
    assert Leaves(hasher, w) == BaseLayer(hasher, w, h)[..|w|];
    if InjectiveLeaf(hasher.leaf) {
      forall i | 0 <= i < |v| ensures v[i] == w[i] {
        assert Leaves(hasher, v)[i] == Leaves(hasher, w)[i];
      }
    }
  }

  /** Between different sizes of one height the padding must not be a leaf. */
  lemma RootDeterminesSize(hasher: Hasher, v: seq<Id>, w: seq<Id>, root: Hash, h: nat)
    requires InjectiveNode(hasher.node) && IsHeight(|v|, h) && IsHeight(|w|, h)
    requires IsVoterRoot(hasher, v, root) && IsVoterRoot(hasher, w, root)
    requires forall id :: hasher.leaf(id) != hasher.pad
    ensures |v| == |w|
  {
    var g: nat :| IsHeight(|v|, g) && |v| <= Pow2(g) && root == PerfectRoot(hasher.node, BaseLayer(hasher, v, g), g);
    var k: nat :| IsHeight(|w|, k) && |w| <= Pow2(k) && root == PerfectRoot(hasher.node, BaseLayer(hasher, w, k), k);
    HeightUnique(|v|, g, h);
    HeightUnique(|w|, k, h);
    PaddingShows(hasher, v, w, h);
    PaddingShows(hasher, w, v, h);
    RootInjective(hasher.node, BaseLayer(hasher, v, h), BaseLayer(hasher, w, h), h);
  }

  lemma PaddingShows(hasher: Hasher, v: seq<Id>, w: seq<Id>, h: nat)
    requires |v| <= Pow2(h) && |w| <= Pow2(h)
    requires forall id :: hasher.leaf(id) != hasher.pad
    ensures |v| < |w| ==> BaseLayer(hasher, v, h) != BaseLayer(hasher, w, h)
  {
    if |v| < |w| {
      assert BaseLayer(hasher, v, h)[|v|] == hasher.pad;
      assert BaseLayer(hasher, w, h)[|v|] == hasher.leaf(w[|v|]);
    }
  }
}
