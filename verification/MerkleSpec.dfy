/** The hash tree of merkle/merkle.go as a recursive function of its leaves.

    SHA-256 is a parameter: any function from byte strings to 32-byte digests. Nothing
    is assumed about it, so every statement holds for every such function. */
module MerkleSpec {

  newtype Byte = b: int | 0 <= b < 256

  type Bytes = seq<Byte>

  type Digest = d: Bytes | |d| == 32 witness seq(32, _ => 0)

  type Hash = Bytes -> Digest

  /** A sibling hash is whatever bytes the prover sent, of any length. */
  datatype ProofNode = ProofNode(hash: Bytes, isLeft: bool)

  datatype Proof = Proof(leafIndex: int, nodes: seq<ProofNode>)

  function LeafInput(data: Bytes): Bytes {
    [0] + data
  }

  function InternalInput(left: Bytes, right: Bytes): Bytes {
    [1] + left + right
  }

  function HashLeaf(H: Hash, data: Bytes): Digest {
    H(LeafInput(data))
  }

  function HashInternal(H: Hash, left: Bytes, right: Bytes): Digest {
    H(InternalInput(left, right))
  }

  // ----- shape -----

  /** Number of nodes in layer `level` of a tree over n leaves. */
  function Width(n: nat, level: nat): nat {
    if level == 0 then n else (Width(n, level - 1) + 1) / 2
  }

  /** Number of layers above the leaves. */
  function Depth(n: nat): nat {
    if n <= 1 then 0 else 1 + Depth((n + 1) / 2)
  }

  /** The right child of node p in a layer whose children number `width`: the last
      child of an odd layer is its own right sibling. */
  function RightChild(width: nat, p: nat): nat {
    if 2 * p + 1 < width then 2 * p + 1 else 2 * p
  }

  function Child(width: nat, p: nat, right: bool): nat {
    if right then RightChild(width, p) else 2 * p
  }

  /** Index, in layer `level`, of the node above leaf `index`. */
  function Ancestor(index: nat, level: nat): nat {
    if level == 0 then index else Ancestor(index, level - 1) / 2
  }

  function Pow2(k: nat): (r: nat)
    ensures r > 0
  {
    if k == 0 then 1 else 2 * Pow2(k - 1)
  }

  // ----- the recursive tree -----

  /** The bytes that hash to node p of layer `level`. */
  function NodeInput(H: Hash, leaves: seq<Bytes>, level: nat, p: nat): Bytes
    requires p < Width(|leaves|, level)
    decreases level, 0
  {
    if level == 0 then
      LeafInput(leaves[p])
    else
      var w := Width(|leaves|, level - 1);
      InternalInput(Node(H, leaves, level - 1, 2 * p), Node(H, leaves, level - 1, RightChild(w, p)))
  }

  function Node(H: Hash, leaves: seq<Bytes>, level: nat, p: nat): Digest
    requires p < Width(|leaves|, level)
    decreases level, 1
  {
    H(NodeInput(H, leaves, level, p))
  }

  function Layer(H: Hash, leaves: seq<Bytes>, level: nat): (layer: seq<Digest>)
    ensures |layer| == Width(|leaves|, level)
  {
    seq(Width(|leaves|, level), p requires 0 <= p < Width(|leaves|, level) => Node(H, leaves, level, p))
  }

  function RootOf(H: Hash, leaves: seq<Bytes>): Digest
    requires |leaves| > 0
  {
    TopIsSingle(|leaves|);
    Node(H, leaves, Depth(|leaves|), 0)
  }

  // ----- proofs -----

  function StepInput(current: Bytes, node: ProofNode): Bytes {
    if node.isLeft then InternalInput(node.hash, current) else InternalInput(current, node.hash)
  }

  /** The digest a verifier holds after folding the whole proof into the leaf. */
  function Fold(H: Hash, data: Bytes, nodes: seq<ProofNode>): Digest
    decreases |nodes|, 1
  {
    H(FoldInput(H, data, nodes))
  }

  /** The last byte string a verifier hashes. */
  function FoldInput(H: Hash, data: Bytes, nodes: seq<ProofNode>): Bytes
    decreases |nodes|, 0
  {
    if nodes == [] then
      LeafInput(data)
    else
      StepInput(Fold(H, data, nodes[..|nodes| - 1]), nodes[|nodes| - 1])
  }

  function Accepts(H: Hash, root: Bytes, data: Bytes, nodes: seq<ProofNode>): bool {
    Fold(H, data, nodes) == root
  }

  /** The sibling of node p, as the prover reports it. */
  function SiblingOf(H: Hash, leaves: seq<Bytes>, level: nat, p: nat): ProofNode
    requires p < Width(|leaves|, level)
  {
    if p % 2 == 0 then
      var s := if p + 1 < Width(|leaves|, level) then p + 1 else p;
      ProofNode(Node(H, leaves, level, s), false)
    else
      ProofNode(Node(H, leaves, level, p - 1), true)
  }

  /** The first `level` siblings on the way up from leaf `index`. */
  function ProofUpTo(H: Hash, leaves: seq<Bytes>, index: nat, level: nat): (nodes: seq<ProofNode>)
    requires index < |leaves|
    ensures |nodes| == level
  {
    if level == 0 then
      []
    else
      AncestorInRange(|leaves|, index, level - 1);
      ProofUpTo(H, leaves, index, level - 1) + [SiblingOf(H, leaves, level - 1, Ancestor(index, level - 1))]
  }

  function ProofFor(H: Hash, leaves: seq<Bytes>, index: nat): seq<ProofNode>
    requires index < |leaves|
  {
    ProofUpTo(H, leaves, index, Depth(|leaves|))
  }

  // ----- shape lemmas -----

  lemma {:induction false} TopIsSingle(n: nat)
    requires n > 0
    ensures Width(n, Depth(n)) == 1
    ensures forall level: nat | level < Depth(n) :: Width(n, level) > 1
  {
    if n > 1 {
      TopIsSingle((n + 1) / 2);
      forall level: nat | 0 < level <= Depth(n)
        ensures Width(n, level) == Width((n + 1) / 2, level - 1)
      {
        WidthShift(n, level);
      }
    }
  }

  lemma {:induction false} WidthShift(n: nat, level: nat)
    requires level > 0
    ensures Width(n, level) == Width((n + 1) / 2, level - 1)
  {
    if level > 1 {
      WidthShift(n, level - 1);
    }
  }

  lemma {:induction false} AncestorInRange(n: nat, index: nat, level: nat)
    requires index < n
    ensures Ancestor(index, level) < Width(n, level)
  {
    if level > 0 {
      AncestorInRange(n, index, level - 1);
    }
  }

  /** Layer `level` has ceil(n / 2^level) nodes. */
  lemma {:induction false} WidthIsCeiling(n: nat, level: nat)
    requires n > 0
    ensures (Width(n, level) - 1) * Pow2(level) < n <= Width(n, level) * Pow2(level)
  {
    if level > 0 {
      WidthIsCeiling(n, level - 1);
      HalfIsCeiling(n, Width(n, level - 1), Pow2(level - 1));
    }
  }

  lemma HalfIsCeiling(n: nat, w: nat, m: nat)
    requires m > 0 && (w - 1) * m < n <= w * m
    ensures ((w + 1) / 2 - 1) * (2 * m) < n <= (w + 1) / 2 * (2 * m)
  {
    var half := (w + 1) / 2;
    if w == 2 * half {
      assert half * (2 * m) == w * m && (half - 1) * (2 * m) == (w - 1) * m - m;
    } else {
      assert w == 2 * half - 1;
      assert half * (2 * m) == w * m + m && (half - 1) * (2 * m) == (w - 1) * m;
    }
  }

  /** A tree over n leaves has ceil(log2 n) layers above them. */
  lemma {:induction false} DepthIsCeilLog(n: nat)
    requires n > 0
    ensures n <= Pow2(Depth(n))
    ensures Depth(n) > 0 ==> Pow2(Depth(n) - 1) < n
  {
    if n > 1 {
      DepthIsCeilLog((n + 1) / 2);
    }
  }
}
