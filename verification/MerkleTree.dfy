/** The mutable side of merkle/merkle.go: a tree of byte arrays built layer by layer, and
    roots and proofs that are copies of its digests. */
module MerkleTree {
  import opened Wrappers
  import opened MerkleSpec
  import opened MerkleLaws

  datatype MerkleError = NoLeaves | InvalidLeafIndex

  datatype SiblingHash = SiblingHash(hash: array<Byte>, isLeft: bool)

  datatype InclusionProof = InclusionProof(leafIndex: int, nodes: seq<SiblingHash>)

  /** The bytes a proof holds now. */
  ghost function View(nodes: seq<SiblingHash>): (view: seq<ProofNode>)
    reads set node | node in nodes :: node.hash
    ensures |view| == |nodes|
  {
    seq(|nodes|, i requires 0 <= i < |nodes| reads set node | node in nodes :: node.hash =>
      ProofNode(nodes[i].hash[..], nodes[i].isLeft))
  }

  /** The arrays hold exactly these digests, in order. */
  ghost predicate Holds(arrays: seq<array<Byte>>, digests: seq<Digest>)
    reads arrays
  {
    |arrays| == |digests| && forall i | 0 <= i < |arrays| :: arrays[i][..] == digests[i]
  }

  class Tree {
    var layers: seq<seq<array<Byte>>>
    var leafCount: nat
    ghost var hash: Hash
    ghost var leaves: seq<Bytes>
    ghost var Repr: set<object>

    ghost predicate LayersMatch()
      reads this, Repr
    {
      && this in Repr
      && leafCount == |leaves|
      && forall level | 0 <= level < |layers| ::
           && (forall a | a in layers[level] :: a in Repr)
           && Holds(layers[level], Layer(hash, leaves, level))
    }

    /** Every layer of the recursive tree over `leaves` is stored, up to the root. */
    ghost predicate Valid()
      reads this, Repr
    {
      leaves != [] && LayersMatch() && |layers| == Depth(|leaves|) + 1
    }

    constructor (H: Hash, leaves: seq<Bytes>)
      ensures fresh(Repr) && LayersMatch()
      ensures layers == [] && hash == H && this.leaves == leaves
    {
      layers, leafCount := [], |leaves|;
      hash, this.leaves, Repr := H, leaves, {this};
    }

    /** Stores a copy of the slice of pointers to one more layer. */
    method Append(layer: seq<array<Byte>>)
      requires LayersMatch() && Holds(layer, Layer(hash, leaves, |layers|))
      modifies this
      ensures LayersMatch() && layers == old(layers) + [layer]
      ensures Repr == old(Repr) + (set a | a in layer)
      ensures hash == old(hash) && leaves == old(leaves)
    {
      layers := layers + [layer];
      Repr := Repr + (set a | a in layer);
    }

    /** Appends layer after layer on top of the leaves, until one with a single node. */
    method StackLayers(H: Hash, leafHashes: seq<array<Byte>>)
      requires LayersMatch() && hash == H && leaves != [] && layers == []
      requires Holds(leafHashes, Layer(hash, leaves, 0))
      modifies this
      ensures Valid() && hash == old(hash) && leaves == old(leaves)
      ensures fresh(Repr - old(Repr) - (set a | a in leafHashes))
    {
      TopIsSingle(|leaves|);
      var current := leafHashes;
      ghost var made: set<object> := {};
      while true
        invariant LayersMatch() && hash == old(hash) && leaves == old(leaves)
        invariant |layers| <= Depth(|leaves|)
        invariant Holds(current, Layer(hash, leaves, |layers|))
        invariant fresh(made) && (forall a | a in current :: a in leafHashes || a in made)
        invariant forall o | o in Repr :: o in old(Repr) || o in leafHashes || o in made
        decreases |current|
      {
        Append(current);
        if |current| == 1 {
          break;
        }
        current := NextLayer(H, leaves, |layers| - 1, current);
        made := made + (set a | a in current);
      }
    }

    /** A fresh copy of the root digest. */
    method Root() returns (root: array<Byte>)
      requires Valid()
      ensures fresh(root) && root[..] == RootOf(hash, leaves)
    {
      TopIsSingle(|leaves|);
      root := Copy(layers[|layers| - 1][0]);
    }

    /** A fresh copy of the sibling of one node; a node without one is its own sibling. */
    method CopySibling(level: nat, idx: nat) returns (node: SiblingHash)
      requires Valid() && level < |layers| && idx < Width(|leaves|, level)
      ensures fresh(node.hash)
      ensures ProofNode(node.hash[..], node.isLeft) == SiblingOf(hash, leaves, level, idx)
    {
      var layer := layers[level];
      assert Holds(layer, Layer(hash, leaves, level));
      var sibling, isLeft;
      if idx % 2 == 0 {
        var siblingIdx := idx + 1;
        sibling := if siblingIdx < |layer| then layer[siblingIdx] else layer[idx];
        isLeft := false;
      } else {
        sibling := layer[idx - 1];
        isLeft := true;
      }
      var hashCopy := Copy(sibling);
      node := SiblingHash(hashCopy, isLeft);
    }

    /** A fresh copy of the siblings on the way up from the leaf. */
    method GenerateProof(leafIndex: int) returns (r: Result<InclusionProof, MerkleError>)
      requires Valid()
      ensures r.Failure? <==> !(0 <= leafIndex < |leaves|)
      ensures r.Failure? ==> r.error == InvalidLeafIndex
      ensures r.Success? ==>
                && r.value.leafIndex == leafIndex
                && (forall node | node in r.value.nodes :: fresh(node.hash))
                && View(r.value.nodes) == ProofFor(hash, leaves, leafIndex)
                && Accepts(hash, RootOf(hash, leaves), leaves[leafIndex], View(r.value.nodes))
    {
      if leafIndex < 0 || leafIndex >= leafCount {
        return Failure(InvalidLeafIndex);
      }
      hide Node, Layer, SiblingOf, RootOf, Accepts;
      TopIsSingle(|leaves|);
      var nodes: seq<SiblingHash> := [];
      var idx: nat := leafIndex;
      for level := 0 to |layers| - 1
        invariant idx == Ancestor(leafIndex, level) < Width(|leaves|, level)
        invariant |nodes| == level
        invariant forall node | node in nodes :: fresh(node.hash)
        invariant View(nodes) == ProofUpTo(hash, leaves, leafIndex, level)
      {
        ghost var before := View(nodes);
        var sibling := CopySibling(level, idx);
        nodes := nodes + [sibling];
        assert View(nodes) == before + [SiblingOf(hash, leaves, level, idx)];
        idx := idx / 2;
      }
      GeneratedProofAccepted(hash, leaves, leafIndex);
      r := Success(InclusionProof(leafIndex, nodes));
    }
  }

  method Copy(a: array<Byte>) returns (b: array<Byte>)
    ensures fresh(b) && b[..] == a[..]
  {
    b := new Byte[a.Length](i requires 0 <= i < a.Length reads a => a[i]);
  }

  method Store(d: Digest) returns (a: array<Byte>)
    ensures fresh(a) && a[..] == d
  {
    a := new Byte[32](i requires 0 <= i < 32 => d[i]);
  }

  /** Hashes neighbours pairwise; the last node of an odd layer is paired with itself. */
  method NextLayer(H: Hash, ghost leaves: seq<Bytes>, ghost level: nat, current: seq<array<Byte>>)
    returns (next: seq<array<Byte>>)
    requires Holds(current, Layer(H, leaves, level)) && |current| > 1
    ensures fresh(set a | a in next)
    ensures Holds(next, Layer(H, leaves, level + 1))
  {
    var working := current;
    if |working| % 2 != 0 {
      working := current + [current[|current| - 1]];
    }
    next := [];
    var i := 0;
    while i < |working|
      invariant i == 2 * |next| <= |working|
      invariant fresh(set a | a in next)
      invariant Holds(next, Layer(H, leaves, level + 1)[..|next|])
    {
      ghost var p := |next|;
      assert working[i] == current[2 * p] && working[i + 1] == current[RightChild(|current|, p)];
      assert InternalInput(working[i][..], working[i + 1][..]) == NodeInput(H, leaves, level + 1, p);
      var digest := HashInternal(H, working[i][..], working[i + 1][..]);
      assert digest == Layer(H, leaves, level + 1)[p];
      var a := Store(digest);
      next := next + [a];
      i := i + 2;
    }
    assert Layer(H, leaves, level + 1)[..|next|] == Layer(H, leaves, level + 1);
  }

  method HashLeaves(H: Hash, leaves: seq<Bytes>) returns (layer: seq<array<Byte>>)
    ensures fresh(set a | a in layer)
    ensures Holds(layer, Layer(H, leaves, 0))
  {
    layer := [];
    for i := 0 to |leaves|
      invariant fresh(set a | a in layer)
      invariant Holds(layer, Layer(H, leaves, 0)[..i])
    {
      var a := Store(HashLeaf(H, leaves[i]));
      layer := layer + [a];
    }
    assert Layer(H, leaves, 0)[..|leaves|] == Layer(H, leaves, 0);
  }

  /** Builds the tree bottom-up; only the empty list is refused. */
  method Build(H: Hash, leaves: seq<Bytes>) returns (r: Result<Tree, MerkleError>)
    ensures r.Failure? <==> leaves == []
    ensures r.Failure? ==> r.error == NoLeaves
    ensures r.Success? ==>
              && r.value.Valid() && fresh(r.value.Repr)
              && r.value.hash == H && r.value.leaves == leaves
  {
    if |leaves| == 0 {
      return Failure(NoLeaves);
    }
    var leafHashes := HashLeaves(H, leaves);
    var tree := new Tree(H, leaves);
    tree.StackLayers(H, leafHashes);
    r := Success(tree);
  }

  /** Folds the proof into the leaf. The leaf index in the proof is never consulted. */
  method VerifyProof(H: Hash, root: array<Byte>, leafData: Bytes, proof: Option<InclusionProof>) returns (ok: bool)
    ensures ok == (proof.Some? && Accepts(H, root[..], leafData, View(proof.value.nodes)))
  {
    if proof.None? {
      return false;
    }
    var nodes := proof.value.nodes;
    ghost var view := View(nodes);
    var current: Digest := HashLeaf(H, leafData);
    assert view[..0] == [];
    for i := 0 to |nodes|
      invariant current == Fold(H, leafData, view[..i])
    {
      assert view[..i + 1][..i] == view[..i];
      var node := nodes[i];
      if node.isLeft {
        current := HashInternal(H, node.hash[..], current);
      } else {
        current := HashInternal(H, current, node.hash[..]);
      }
    }
    assert view[..|nodes|] == view;
    ok := current == root[..];
  }
}
