/** What a root and a proof commit to.

    A claim of the form "some collision exists" would be empty, because every function to
    32-byte digests has collisions. So the collisions here are computed by a function from
    the data at hand, and one side of each is a byte string that was really hashed. */
module MerkleLaws {
  import opened Wrappers
  import opened MerkleSpec

  predicate Collision(H: Hash, c: (Bytes, Bytes)) {
    c.0 != c.1 && H(c.0) == H(c.1)
  }

  /** x is one of the byte strings hashed while building the tree. */
  ghost predicate HashedByBuild(H: Hash, leaves: seq<Bytes>, x: Bytes) {
    exists level: nat, p: nat | level <= Depth(|leaves|) && p < Width(|leaves|, level) ::
      x == NodeInput(H, leaves, level, p)
  }

  /** x is one of the byte strings hashed while verifying the proof. */
  ghost predicate HashedByVerify(H: Hash, data: Bytes, nodes: seq<ProofNode>, x: Bytes) {
    exists m: nat | m <= |nodes| :: x == FoldInput(H, data, nodes[..m])
  }

  // ----- completeness -----

  lemma {:induction false} ProofFolds(H: Hash, leaves: seq<Bytes>, index: nat, level: nat)
    requires index < |leaves|
    requires Ancestor(index, level) < Width(|leaves|, level)
    ensures Fold(H, leaves[index], ProofUpTo(H, leaves, index, level)) == Node(H, leaves, level, Ancestor(index, level))
  {
    if level > 0 {
      AncestorInRange(|leaves|, index, level - 1);
      ProofFolds(H, leaves, index, level - 1);
      var nodes := ProofUpTo(H, leaves, index, level);
      assert nodes[..level - 1] == ProofUpTo(H, leaves, index, level - 1);
    }
  }

  /** Every leaf of every tree has a proof of ceil(log2 n) siblings that is accepted. */
  lemma GeneratedProofAccepted(H: Hash, leaves: seq<Bytes>, index: nat)
    requires index < |leaves|
    ensures |ProofFor(H, leaves, index)| == Depth(|leaves|)
    ensures Accepts(H, RootOf(H, leaves), leaves[index], ProofFor(H, leaves, index))
  {
    TopIsSingle(|leaves|);
    AncestorInRange(|leaves|, index, Depth(|leaves|));
    ProofFolds(H, leaves, index, Depth(|leaves|));
  }

  // ----- the bytes that are hashed -----

  /** A leaf is hashed behind a 0 byte; an inner node is hashed behind a 1 byte, the left child
      before the right one, which is the left one again at the end of an odd layer. */
  lemma NodeInBytes(H: Hash, leaves: seq<Bytes>, level: nat, p: nat)
    requires p < Width(|leaves|, level)
    ensures level == 0 ==> p < |leaves| && Node(H, leaves, 0, p) == H([0] + leaves[p])
    ensures level > 0 ==>
              var w := Width(|leaves|, level - 1);
              && 2 * p < w
              && var left := Node(H, leaves, level - 1, 2 * p);
                 var right := if 2 * p + 1 < w then Node(H, leaves, level - 1, 2 * p + 1) else left;
                 Node(H, leaves, level, p) == H([1] + left + right)
  {
  }

  /** The verifier hashes the data as a leaf, and then at each step the sibling and what it has,
      with the sibling first exactly if it is on the left. */
  lemma FoldInBytes(H: Hash, data: Bytes, nodes: seq<ProofNode>, x: ProofNode)
    ensures Fold(H, data, []) == H([0] + data)
    ensures Fold(H, data, nodes + [x]) ==
            if x.isLeft then H([1] + x.hash + Fold(H, data, nodes)) else H([1] + Fold(H, data, nodes) + x.hash)
  {
    assert (nodes + [x])[..|nodes|] == nodes;
  }

  // ----- soundness -----

  /** The leaf reached from node p by reading the IsLeft bits from the top down. */
  function Reached(n: nat, level: nat, p: nat, nodes: seq<ProofNode>): (leaf: nat)
    requires p < Width(n, level) && |nodes| == level
    ensures leaf < n
    decreases level
  {
    if level == 0 then
      p
    else
      var w := Width(n, level - 1);
      Reached(n, level - 1, Child(w, p, nodes[level - 1].isLeft), nodes[..level - 1])
  }

  /** The proof is the path from node p down to the leaf holding `data`, with the tree's
      own sibling at each step. */
  ghost predicate Opens(H: Hash, leaves: seq<Bytes>, level: nat, p: nat, data: Bytes, nodes: seq<ProofNode>)
    requires p < Width(|leaves|, level)
    decreases level
  {
    && |nodes| == level
    && if level == 0 then
         data == leaves[p]
       else
         var w, last := Width(|leaves|, level - 1), nodes[level - 1];
         && last.hash == Node(H, leaves, level - 1, Child(w, p, !last.isLeft))
         && Opens(H, leaves, level - 1, Child(w, p, last.isLeft), data, nodes[..level - 1])
  }

  lemma {:induction false} OpensReaches(H: Hash, leaves: seq<Bytes>, level: nat, p: nat, data: Bytes,
      nodes: seq<ProofNode>)
    requires p < Width(|leaves|, level) && Opens(H, leaves, level, p, data, nodes)
    ensures data == leaves[Reached(|leaves|, level, p, nodes)]
    decreases level
  {
    if level > 0 {
      var w := Width(|leaves|, level - 1);
      OpensReaches(H, leaves, level - 1, Child(w, p, nodes[level - 1].isLeft), data, nodes[..level - 1]);
    }
  }

  lemma {:induction false} OpensFolds(H: Hash, leaves: seq<Bytes>, level: nat, p: nat, data: Bytes,
      nodes: seq<ProofNode>)
    requires p < Width(|leaves|, level) && Opens(H, leaves, level, p, data, nodes)
    ensures Fold(H, data, nodes) == Node(H, leaves, level, p)
    decreases level
  {
    if level > 0 {
      var w := Width(|leaves|, level - 1);
      OpensFolds(H, leaves, level - 1, Child(w, p, nodes[level - 1].isLeft), data, nodes[..level - 1]);
    }
  }

  /** Walks down from node p beside the proof, and stops where the bytes the builder
      hashed and the bytes the verifier hashed first differ. */
  function FindForgery(H: Hash, leaves: seq<Bytes>, level: nat, p: nat, data: Bytes, nodes: seq<ProofNode>)
    : (Bytes, Bytes)
    requires p < Width(|leaves|, level)
    decreases level
  {
    var built, folded := NodeInput(H, leaves, level, p), FoldInput(H, data, nodes);
    if built != folded || level == 0 || nodes == [] then
      (built, folded)
    else
      var w, last := Width(|leaves|, level - 1), nodes[|nodes| - 1];
      FindForgery(H, leaves, level - 1, Child(w, p, last.isLeft), data, nodes[..|nodes| - 1])
  }

  /** Digests are 32 bytes long, so equal inputs to an internal hash split at one place
      whatever length of sibling the prover sent. */
  lemma SplitForced(left: Digest, right: Digest, current: Digest, node: ProofNode)
    requires InternalInput(left, right) == StepInput(current, node)
    ensures if node.isLeft then node.hash == left && current == right else current == left && node.hash == right
  {
    var whole := left + right;
    assert whole == InternalInput(left, right)[1..];
    if node.isLeft {
      assert whole == node.hash + current by {
        assert StepInput(current, node)[1..] == node.hash + current;
      }
      assert |node.hash| == 32;
      assert left == whole[..32] == node.hash && right == whole[32..] == current;
    } else {
      assert whole == current + node.hash by {
        assert StepInput(current, node)[1..] == current + node.hash;
      }
      assert left == whole[..32] == current && right == whole[32..] == node.hash;
    }
  }

  lemma LeafInputsDiffer(x: Bytes, y: Bytes)
    ensures x != y ==> LeafInput(x) != LeafInput(y)
  {
    assert LeafInput(x)[1..] == x && LeafInput(y)[1..] == y;
  }

  lemma {:induction false} ForgeryFound(H: Hash, leaves: seq<Bytes>, level: nat, p: nat, data: Bytes,
      nodes: seq<ProofNode>)
    requires p < Width(|leaves|, level) && level <= Depth(|leaves|)
    requires Fold(H, data, nodes) == Node(H, leaves, level, p)
    requires !Opens(H, leaves, level, p, data, nodes)
    ensures var c := FindForgery(H, leaves, level, p, data, nodes);
            Collision(H, c) && HashedByBuild(H, leaves, c.0) && HashedByVerify(H, data, nodes, c.1)
    decreases level
  {
    var built, folded := NodeInput(H, leaves, level, p), FoldInput(H, data, nodes);
    assert built[0] == if level == 0 then 0 else 1;
    assert folded[0] == if nodes == [] then 0 else 1;
    if built != folded {
      assert nodes[..|nodes|] == nodes;
    } else if level == 0 {
      LeafInputsDiffer(data, leaves[p]);
    } else {
      var m := |nodes| - 1;
      var w, last, rest := Width(|leaves|, level - 1), nodes[m], nodes[..m];
      var left, right := Node(H, leaves, level - 1, 2 * p), Node(H, leaves, level - 1, RightChild(w, p));
      SplitForced(left, right, Fold(H, data, rest), last);
      ForgeryFound(H, leaves, level - 1, Child(w, p, last.isLeft), data, rest);
      var c := FindForgery(H, leaves, level, p, data, nodes);
      var k: nat :| k <= |rest| && c.1 == FoldInput(H, data, rest[..k]);
      assert rest[..k] == nodes[..k];
    }
  }

  /** For every leaf list, data and proof, of any length and with siblings of any size: the
      proof is accepted against the tree's root exactly when it opens the tree at `data`,
      unless it yields two different byte strings, one hashed by Build and one hashed by
      VerifyProof, with the same digest. */
  lemma AcceptedExactlyWhenOpens(H: Hash, leaves: seq<Bytes>, data: Bytes, nodes: seq<ProofNode>)
    requires leaves != []
    ensures Width(|leaves|, Depth(|leaves|)) == 1
    ensures var d := Depth(|leaves|);
            var c := FindForgery(H, leaves, d, 0, data, nodes);
            && (Opens(H, leaves, d, 0, data, nodes) ==>
                 && Accepts(H, RootOf(H, leaves), data, nodes)
                 && data == leaves[Reached(|leaves|, d, 0, nodes)])
            && (Accepts(H, RootOf(H, leaves), data, nodes) && !Opens(H, leaves, d, 0, data, nodes) ==>
                 Collision(H, c) && HashedByBuild(H, leaves, c.0) && HashedByVerify(H, data, nodes, c.1))
  {
    TopIsSingle(|leaves|);
    var d := Depth(|leaves|);
    if Opens(H, leaves, d, 0, data, nodes) {
      OpensFolds(H, leaves, d, 0, data, nodes);
      OpensReaches(H, leaves, d, 0, data, nodes);
    } else if Accepts(H, RootOf(H, leaves), data, nodes) {
      ForgeryFound(H, leaves, d, 0, data, nodes);
    }
  }

  /** No proof of the wrong length, and no proof of data that is not a leaf, is accepted
      without handing over a collision. */
  lemma ForgeryIsCollision(H: Hash, leaves: seq<Bytes>, data: Bytes, nodes: seq<ProofNode>)
    requires leaves != [] && Accepts(H, RootOf(H, leaves), data, nodes)
    requires |nodes| != Depth(|leaves|) || data !in leaves
    ensures Width(|leaves|, Depth(|leaves|)) == 1
    ensures var c := FindForgery(H, leaves, Depth(|leaves|), 0, data, nodes);
            Collision(H, c) && HashedByBuild(H, leaves, c.0) && HashedByVerify(H, data, nodes, c.1)
  {
    AcceptedExactlyWhenOpens(H, leaves, data, nodes);
  }

  /** Two proofs that open one tree with the same IsLeft bits are the same proof. */
  lemma {:induction false} BitsDetermineProof(H: Hash, leaves: seq<Bytes>, level: nat, p: nat,
      data: Bytes, nodes: seq<ProofNode>, data': Bytes, nodes': seq<ProofNode>)
    requires p < Width(|leaves|, level)
    requires Opens(H, leaves, level, p, data, nodes) && Opens(H, leaves, level, p, data', nodes')
    requires forall i | 0 <= i < level :: nodes[i].isLeft == nodes'[i].isLeft
    ensures data == data' && nodes == nodes'
    decreases level
  {
    if level > 0 {
      var w := Width(|leaves|, level - 1);
      BitsDetermineProof(H, leaves, level - 1, Child(w, p, nodes[level - 1].isLeft),
        data, nodes[..level - 1], data', nodes'[..level - 1]);
      assert nodes == nodes[..level - 1] + [nodes[level - 1]];
      assert nodes' == nodes'[..level - 1] + [nodes'[level - 1]];
    }
  }

  // ----- the proofs of one leaf -----

  /** Node p is the last one of an odd layer, and so its own sibling. */
  predicate IsOddEnd(n: nat, level: nat, p: nat) {
    Width(n, level) % 2 == 1 && p == Width(n, level) - 1
  }

  /** The step of a proof of this leaf at a level: the sibling's hash is fixed, and its side is
      too, unless the leaf's ancestor at that level is its own sibling. */
  ghost predicate StepFits(H: Hash, leaves: seq<Bytes>, index: nat, level: nat, node: ProofNode)
    requires Ancestor(index, level) < Width(|leaves|, level)
  {
    var p := Ancestor(index, level);
    var sibling := SiblingOf(H, leaves, level, p);
    node.hash == sibling.hash && (node.isLeft == sibling.isLeft || IsOddEnd(|leaves|, level, p))
  }

  ghost predicate StepsFit(H: Hash, leaves: seq<Bytes>, index: nat, nodes: seq<ProofNode>)
    requires index < |leaves|
  {
    forall level: nat | level < |nodes| ::
      Ancestor(index, level) < Width(|leaves|, level) && StepFits(H, leaves, index, level, nodes[level])
  }

  /** The child taken on the way down to the leaf's ancestor. */
  lemma ChildIsAncestor(n: nat, index: nat, level: nat, p: nat, isLeft: bool)
    requires level > 0 && p < Width(n, level) && index < n
    ensures Ancestor(index, level - 1) < Width(n, level - 1)
    ensures var q := Ancestor(index, level - 1);
            Child(Width(n, level - 1), p, isLeft) == q <==>
              p == Ancestor(index, level) && (isLeft == (q % 2 == 1) || IsOddEnd(n, level - 1, q))
  {
    AncestorInRange(n, index, level - 1);
  }

  /** The hash of the other child is the one the prover reports. */
  lemma OtherChildIsSibling(H: Hash, leaves: seq<Bytes>, index: nat, level: nat, isLeft: bool)
    requires level > 0 && index < |leaves| && Ancestor(index, level) < Width(|leaves|, level)
    requires Ancestor(index, level - 1) < Width(|leaves|, level - 1)
    requires Child(Width(|leaves|, level - 1), Ancestor(index, level), isLeft) == Ancestor(index, level - 1)
    ensures Node(H, leaves, level - 1, Child(Width(|leaves|, level - 1), Ancestor(index, level), !isLeft))
            == SiblingOf(H, leaves, level - 1, Ancestor(index, level - 1)).hash
  {
    hide Node;
  }

  lemma {:induction false} OpeningsOfNode(H: Hash, leaves: seq<Bytes>, index: nat, level: nat, p: nat,
      data: Bytes, nodes: seq<ProofNode>)
    requires index < |leaves| && p < Width(|leaves|, level) && |nodes| == level
    ensures Opens(H, leaves, level, p, data, nodes) && Reached(|leaves|, level, p, nodes) == index <==>
            p == Ancestor(index, level) && data == leaves[index] && StepsFit(H, leaves, index, nodes)
    decreases level
  {
    if level > 0 {
      hide Node, SiblingOf, IsOddEnd, Child;
      var m := level - 1;
      var last, rest := nodes[m], nodes[..m];
      var child := Child(Width(|leaves|, m), p, last.isLeft);
      ChildIsAncestor(|leaves|, index, level, p, last.isLeft);
      OpeningsOfNode(H, leaves, index, m, child, data, rest);
      SideIs(H, leaves, m, Ancestor(index, m));
      if p == Ancestor(index, level) && child == Ancestor(index, m) {
        OtherChildIsSibling(H, leaves, index, level, last.isLeft);
      }
      StepsFitSnoc(H, leaves, index, rest, last);
      assert nodes == rest + [last];
      hide Ancestor, StepsFit;
    }
  }

  lemma SideIs(H: Hash, leaves: seq<Bytes>, level: nat, p: nat)
    requires p < Width(|leaves|, level)
    ensures SiblingOf(H, leaves, level, p).isLeft == (p % 2 == 1)
  {
    hide Node;
  }

  lemma StepsFitSnoc(H: Hash, leaves: seq<Bytes>, index: nat, nodes: seq<ProofNode>, node: ProofNode)
    requires index < |leaves| && Ancestor(index, |nodes|) < Width(|leaves|, |nodes|)
    ensures StepsFit(H, leaves, index, nodes + [node]) <==>
            StepsFit(H, leaves, index, nodes) && StepFits(H, leaves, index, |nodes|, node)
  {
    hide StepFits, Ancestor;
    var all := nodes + [node];
    if StepsFit(H, leaves, index, all) {
      assert forall level: nat | level < |nodes| :: all[level] == nodes[level];
      assert all[|nodes|] == node;
    }
  }

  /** All the proofs of a leaf: those that open the tree at its position are exactly the
      lists of one node per layer with the reported hashes, and with the reported sides except
      at the odd ends, where either side will do. */
  lemma OpeningsExactly(H: Hash, leaves: seq<Bytes>, index: nat, nodes: seq<ProofNode>)
    requires index < |leaves|
    ensures Width(|leaves|, Depth(|leaves|)) == 1
    ensures var d := Depth(|leaves|);
            Opens(H, leaves, d, 0, leaves[index], nodes) && Reached(|leaves|, d, 0, nodes) == index <==>
            |nodes| == d && StepsFit(H, leaves, index, nodes)
  {
    var d := Depth(|leaves|);
    TopIsSingle(|leaves|);
    AncestorInRange(|leaves|, index, d);
    if |nodes| == d {
      OpeningsOfNode(H, leaves, index, d, 0, leaves[index], nodes);
    }
  }

  /** Some layer below the root has the leaf's ancestor at its odd end. */
  ghost predicate MeetsOddEnd(n: nat, index: nat) {
    exists level: nat | level < Depth(n) :: IsOddEnd(n, level, Ancestor(index, level))
  }

  ghost predicate IsOtherProof(H: Hash, leaves: seq<Bytes>, index: nat, nodes: seq<ProofNode>)
    requires index < |leaves| && Width(|leaves|, Depth(|leaves|)) == 1
  {
    var d := Depth(|leaves|);
    && nodes != ProofFor(H, leaves, index)
    && Opens(H, leaves, d, 0, leaves[index], nodes)
    && Reached(|leaves|, d, 0, nodes) == index
  }

  lemma {:induction false} ProofUpToAt(H: Hash, leaves: seq<Bytes>, index: nat, upTo: nat, level: nat)
    requires index < |leaves| && level < upTo
    ensures Ancestor(index, level) < Width(|leaves|, level)
    ensures ProofUpTo(H, leaves, index, upTo)[level] == SiblingOf(H, leaves, level, Ancestor(index, level))
  {
    AncestorInRange(|leaves|, index, level);
    if level < upTo - 1 {
      ProofUpToAt(H, leaves, index, upTo - 1, level);
    }
  }

  /** The generated proof with one side flipped, at a level where the node is its own sibling. */
  function Flipped(nodes: seq<ProofNode>, level: nat): (flipped: seq<ProofNode>)
    requires level < |nodes|
    ensures |flipped| == |nodes|
  {
    nodes[level := nodes[level].(isLeft := !nodes[level].isLeft)]
  }

  lemma FlippedIsOtherProof(H: Hash, leaves: seq<Bytes>, index: nat, level: nat)
    requires index < |leaves| && level < Depth(|leaves|) && IsOddEnd(|leaves|, level, Ancestor(index, level))
    ensures Width(|leaves|, Depth(|leaves|)) == 1
    ensures var nodes := Flipped(ProofFor(H, leaves, index), level);
            IsOtherProof(H, leaves, index, nodes) && Accepts(H, RootOf(H, leaves), leaves[index], nodes)
  {
    var d := Depth(|leaves|);
    TopIsSingle(|leaves|);
    var proof := ProofFor(H, leaves, index);
    var nodes := Flipped(proof, level);
    forall l: nat | l < d ensures Ancestor(index, l) < Width(|leaves|, l) && StepFits(H, leaves, index, l, nodes[l]) {
      ProofUpToAt(H, leaves, index, d, l);
    }
    hide StepFits, Ancestor, ProofFor, IsOddEnd;
    OpeningsExactly(H, leaves, index, nodes);
    OpensFolds(H, leaves, d, 0, leaves[index], nodes);
    assert nodes[level] != proof[level];
  }

  /** Exactly when a leaf has a second proof: when on the way up to the root it comes by the
      odd end of some layer. This is not a matter of odd leaf lists only. */
  lemma SecondProofExactly(H: Hash, leaves: seq<Bytes>, index: nat)
    requires index < |leaves|
    ensures Width(|leaves|, Depth(|leaves|)) == 1
    ensures (exists nodes :: IsOtherProof(H, leaves, index, nodes)) <==> MeetsOddEnd(|leaves|, index)
  {
    TopIsSingle(|leaves|);
    var d := Depth(|leaves|);
    forall nodes | IsOtherProof(H, leaves, index, nodes) ensures MeetsOddEnd(|leaves|, index) {
      OpeningsExactly(H, leaves, index, nodes);
      var proof := ProofFor(H, leaves, index);
      var l :| 0 <= l < d && nodes[l] != proof[l];
      ProofUpToAt(H, leaves, index, d, l);
      assert StepFits(H, leaves, index, l, nodes[l]);
    }
    if MeetsOddEnd(|leaves|, index) {
      var l: nat :| l < d && IsOddEnd(|leaves|, l, Ancestor(index, l));
      FlippedIsOtherProof(H, leaves, index, l);
    }
    hide Node;
  }

  /** Two ways to meet the condition: the last leaf of an odd list, and leaf 4 of six, whose
      parent is the third node of its layer. */
  lemma OddLeafHasTwoProofs(H: Hash, leaves: seq<Bytes>)
    requires |leaves| > 1
    ensures |leaves| % 2 == 1 ==>
              var last := |leaves| - 1;
              var proof := ProofFor(H, leaves, last);
              && |proof| > 0 && !proof[0].isLeft
              && Accepts(H, RootOf(H, leaves), leaves[last], proof)
              && Accepts(H, RootOf(H, leaves), leaves[last], Flipped(proof, 0))
    ensures |leaves| == 6 ==>
              && |ProofFor(H, leaves, 4)| == 3
              && Accepts(H, RootOf(H, leaves), leaves[4], Flipped(ProofFor(H, leaves, 4), 1))
  {
    hide Node, RootOf, ProofFor, Accepts, Flipped, IsOtherProof, Depth, Width;
    TopIsSingle(|leaves|);
    if |leaves| % 2 == 1 {
      LastLeafIsOddEnd(H, leaves);
      GeneratedProofAccepted(H, leaves, |leaves| - 1);
      FlippedIsOtherProof(H, leaves, |leaves| - 1, 0);
    }
    if |leaves| == 6 {
      LeafFourOfSix();
      GeneratedProofAccepted(H, leaves, 4);
      FlippedIsOtherProof(H, leaves, 4, 1);
    }
  }

  lemma LastLeafIsOddEnd(H: Hash, leaves: seq<Bytes>)
    requires |leaves| > 1 && |leaves| % 2 == 1
    ensures Depth(|leaves|) > 0 && IsOddEnd(|leaves|, 0, Ancestor(|leaves| - 1, 0))
    ensures !ProofFor(H, leaves, |leaves| - 1)[0].isLeft
  {
    hide Node, NodeInput, SiblingOf, ProofUpTo, Depth, Width, Ancestor;
    LeafLayer(|leaves|, |leaves| - 1);
    ProofUpToAt(H, leaves, |leaves| - 1, Depth(|leaves|), 0);
    SideIs(H, leaves, 0, |leaves| - 1);
  }

  lemma LeafLayer(n: nat, index: nat)
    ensures Width(n, 0) == n && Ancestor(index, 0) == index
    ensures n > 1 ==> Depth(n) > 0
  {
  }

  lemma LeafFourOfSix()
    ensures Depth(6) == 3 && IsOddEnd(6, 1, Ancestor(4, 1))
  {
    assert Width(6, 0) == 6 && Ancestor(4, 0) == 4;
  }

  // ----- the perfect tree -----

  /** The leaves below node p, a leaf standing once for each time a layer repeats it. */
  function Expand(n: nat, level: nat, p: nat): (indices: seq<nat>)
    requires p < Width(n, level)
    ensures |indices| == Pow2(level)
    ensures forall i | 0 <= i < |indices| :: indices[i] < n
  {
    if level == 0 then [p] else Expand(n, level - 1, 2 * p) + Expand(n, level - 1, RightChild(Width(n, level - 1), p))
  }

  /** The root of the perfect binary tree over 2^level leaves, in the bytes that are hashed. */
  function PerfectRoot(H: Hash, data: seq<Bytes>, level: nat): Digest
    requires |data| == Pow2(level)
  {
    if level == 0 then
      H([0] + data[0])
    else
      var half := Pow2(level - 1);
      var left, right := PerfectRoot(H, data[..half], level - 1), PerfectRoot(H, data[half..], level - 1);
      H([1] + left + right)
  }

  lemma {:induction false} NodeIsPerfect(H: Hash, leaves: seq<Bytes>, level: nat, p: nat)
    requires p < Width(|leaves|, level)
    ensures Node(H, leaves, level, p) == PerfectRoot(H, Pick(leaves, Expand(|leaves|, level, p)), level)
  {
    if level > 0 {
      var half := Pow2(level - 1);
      var r := RightChild(Width(|leaves|, level - 1), p);
      NodeIsPerfect(H, leaves, level - 1, 2 * p);
      NodeIsPerfect(H, leaves, level - 1, r);
      var all := Pick(leaves, Expand(|leaves|, level, p));
      assert all[..half] == Pick(leaves, Expand(|leaves|, level - 1, 2 * p));
      assert all[half..] == Pick(leaves, Expand(|leaves|, level - 1, r));
    }
  }

  /** The unpadded layers give the root of a perfect tree over 2^ceil(log2 n) leaves,
      where the repeats made layer by layer are written out. */
  lemma RootIsPerfect(H: Hash, leaves: seq<Bytes>)
    requires leaves != []
    ensures Width(|leaves|, Depth(|leaves|)) == 1
    ensures RootOf(H, leaves) ==
            PerfectRoot(H, Pick(leaves, Expand(|leaves|, Depth(|leaves|), 0)), Depth(|leaves|))
  {
    TopIsSingle(|leaves|);
    NodeIsPerfect(H, leaves, Depth(|leaves|), 0);
  }

  /** Layer-by-layer repetition is not padding with the last leaf: six leaves expand to
      0 1 2 3 4 5 4 5, not to 0 1 2 3 4 5 5 5. */
  lemma SixLeavesExpand()
    ensures Depth(6) == 3 && Width(6, 3) == 1
    ensures Expand(6, 3, 0) == [0, 1, 2, 3, 4, 5, 4, 5]
  {
    assert Width(6, 0) == 6 && Width(6, 1) == 3 && Width(6, 2) == 2;
    assert Expand(6, 1, 0) == [0, 1];
    assert Expand(6, 1, 1) == [2, 3];
    assert Expand(6, 1, 2) == [4, 5];
    assert Expand(6, 2, 0) == [0, 1, 2, 3];
    assert Expand(6, 2, 1) == [4, 5, 4, 5];
  }

  // ----- binding -----

  /** Walks down two trees side by side, of any shapes, and returns the first pair of different
      byte strings hashed at corresponding places. */
  function FindDifference(H: Hash, a: seq<Bytes>, la: nat, p: nat, b: seq<Bytes>, lb: nat, q: nat)
    : Option<(Bytes, Bytes)>
    requires p < Width(|a|, la) && q < Width(|b|, lb)
    decreases la
  {
    var x, y := NodeInput(H, a, la, p), NodeInput(H, b, lb, q);
    if x != y then
      Some((x, y))
    else if la == 0 || lb == 0 then
      None
    else
      var left := FindDifference(H, a, la - 1, 2 * p, b, lb - 1, 2 * q);
      if left.Some? then left
      else FindDifference(H, a, la - 1, RightChild(Width(|a|, la - 1), p), b, lb - 1, RightChild(Width(|b|, lb - 1), q))
  }

  /** The leaves below a node, written out. */
  function Below(leaves: seq<Bytes>, level: nat, p: nat): seq<Bytes>
    requires p < Width(|leaves|, level)
  {
    Pick(leaves, Expand(|leaves|, level, p))
  }

  /** What a walk has found: a collision, or that the nodes stand for the same leaves. */
  ghost predicate WalkFound(H: Hash, a: seq<Bytes>, la: nat, p: nat, b: seq<Bytes>, lb: nat, q: nat,
      found: Option<(Bytes, Bytes)>)
    requires p < Width(|a|, la) && q < Width(|b|, lb)
  {
    match found
    case Some(c) => Collision(H, c) && HashedByBuild(H, a, c.0) && HashedByBuild(H, b, c.1)
    case None => la == lb && Below(a, la, p) == Below(b, lb, q)
  }

  lemma BelowChildren(leaves: seq<Bytes>, level: nat, p: nat)
    requires level > 0 && p < Width(|leaves|, level)
    ensures var r := RightChild(Width(|leaves|, level - 1), p);
            Below(leaves, level, p) == Below(leaves, level - 1, 2 * p) + Below(leaves, level - 1, r)
  {
  }

  /** Equal inputs are hashed at leaves of both trees or at inner nodes of both. */
  lemma SameKindOfInput(H: Hash, a: seq<Bytes>, la: nat, p: nat, b: seq<Bytes>, lb: nat, q: nat)
    requires p < Width(|a|, la) && q < Width(|b|, lb)
    requires NodeInput(H, a, la, p) == NodeInput(H, b, lb, q)
    ensures la == 0 <==> lb == 0
  {
    var x, y := NodeInput(H, a, la, p), NodeInput(H, b, lb, q);
    assert x[0] == if la == 0 then 0 else 1;
    assert y[0] == if lb == 0 then 0 else 1;
  }

  lemma SameLeaf(H: Hash, a: seq<Bytes>, p: nat, b: seq<Bytes>, q: nat)
    requires p < |a| && q < |b| && LeafInput(a[p]) == LeafInput(b[q])
    ensures Below(a, 0, p) == Below(b, 0, q)
  {
    LeafInputsDiffer(a[p], b[q]);
  }

  lemma SameChildren(H: Hash, a: seq<Bytes>, la: nat, p: nat, b: seq<Bytes>, lb: nat, q: nat)
    requires la > 0 && lb > 0 && p < Width(|a|, la) && q < Width(|b|, lb)
    requires NodeInput(H, a, la, p) == NodeInput(H, b, lb, q)
    ensures Node(H, a, la - 1, 2 * p) == Node(H, b, lb - 1, 2 * q)
    ensures Node(H, a, la - 1, RightChild(Width(|a|, la - 1), p))
            == Node(H, b, lb - 1, RightChild(Width(|b|, lb - 1), q))
  {
    var r, t := RightChild(Width(|a|, la - 1), p), RightChild(Width(|b|, lb - 1), q);
    var node := ProofNode(Node(H, b, lb - 1, t), false);
    SplitForced(Node(H, a, la - 1, 2 * p), Node(H, a, la - 1, r), Node(H, b, lb - 1, 2 * q), node);
  }

  lemma NodeInputIsHashed(H: Hash, leaves: seq<Bytes>, level: nat, p: nat)
    requires level <= Depth(|leaves|) && p < Width(|leaves|, level)
    ensures HashedByBuild(H, leaves, NodeInput(H, leaves, level, p))
    ensures Node(H, leaves, level, p) == H(NodeInput(H, leaves, level, p))
  {
  }

  lemma {:induction false} WalkFinds(H: Hash, a: seq<Bytes>, la: nat, p: nat, b: seq<Bytes>, lb: nat, q: nat)
    requires p < Width(|a|, la) && la <= Depth(|a|) && q < Width(|b|, lb) && lb <= Depth(|b|)
    requires Node(H, a, la, p) == Node(H, b, lb, q)
    ensures WalkFound(H, a, la, p, b, lb, q, FindDifference(H, a, la, p, b, lb, q))
    decreases la
  {
    hide Node, NodeInput, Below, HashedByBuild, Expand, Depth;
    NodeInputIsHashed(H, a, la, p);
    NodeInputIsHashed(H, b, lb, q);
    if NodeInput(H, a, la, p) == NodeInput(H, b, lb, q) {
      SameKindOfInput(H, a, la, p, b, lb, q);
      if la == 0 {
        LeafNodeInput(H, a, p);
        LeafNodeInput(H, b, q);
        SameLeaf(H, a, p, b, q);
      } else {
        SameChildren(H, a, la, p, b, lb, q);
        WalkFinds(H, a, la - 1, 2 * p, b, lb - 1, 2 * q);
        WalkFinds(H, a, la - 1, RightChild(Width(|a|, la - 1), p), b, lb - 1, RightChild(Width(|b|, lb - 1), q));
        BelowChildren(a, la, p);
        BelowChildren(b, lb, q);
      }
    }
  }

  lemma LeafNodeInput(H: Hash, leaves: seq<Bytes>, p: nat)
    requires p < |leaves|
    ensures Width(|leaves|, 0) == |leaves| && NodeInput(H, leaves, 0, p) == LeafInput(leaves[p])
  {
  }

  /** The leaves a root stands for: with the repeats of every layer written out. */
  function Expansion(leaves: seq<Bytes>): seq<Bytes>
    requires leaves != []
  {
    TopIsSingle(|leaves|);
    Below(leaves, Depth(|leaves|), 0)
  }

  function RootDifference(H: Hash, a: seq<Bytes>, b: seq<Bytes>): Option<(Bytes, Bytes)>
    requires a != [] && b != []
  {
    TopIsSingle(|a|);
    TopIsSingle(|b|);
    FindDifference(H, a, Depth(|a|), 0, b, Depth(|b|), 0)
  }

  /** Exactly which leaf lists share a root, of any two lengths: those of one depth whose
      expansions are the same, and no others unless two different byte strings, one hashed for
      each tree, have one digest. */
  lemma SameRootExactly(H: Hash, a: seq<Bytes>, b: seq<Bytes>)
    requires a != [] && b != []
    ensures Depth(|a|) == Depth(|b|) && Expansion(a) == Expansion(b) ==> RootOf(H, a) == RootOf(H, b)
    ensures RootOf(H, a) == RootOf(H, b) ==>
              match RootDifference(H, a, b)
              case Some(c) => Collision(H, c) && HashedByBuild(H, a, c.0) && HashedByBuild(H, b, c.1)
              case None => Depth(|a|) == Depth(|b|) && Expansion(a) == Expansion(b)
  {
    hide Node, Expand, HashedByBuild, PerfectRoot, FindDifference;
    TopIsSingle(|a|);
    TopIsSingle(|b|);
    RootIsPerfect(H, a);
    RootIsPerfect(H, b);
    if RootOf(H, a) == RootOf(H, b) {
      WalkFinds(H, a, Depth(|a|), 0, b, Depth(|b|), 0);
    }
  }

  /** Every leaf below a node is in its expansion. */
  lemma {:induction false} ExpandCovers(n: nat, index: nat, level: nat, p: nat)
    requires index < n && p < Width(n, level) && Ancestor(index, level) == p
    ensures index in Expand(n, level, p)
  {
    if level > 0 {
      AncestorInRange(n, index, level - 1);
      ExpandCovers(n, index, level - 1, Ancestor(index, level - 1));
    }
  }

  lemma SameExpansionSameLeaves(a: seq<Bytes>, b: seq<Bytes>)
    requires |a| == |b| > 0 && Expansion(a) == Expansion(b)
    ensures a == b
  {
    var n, d := |a|, Depth(|a|);
    TopIsSingle(n);
    var indices := Expand(n, d, 0);
    forall i: nat | i < n ensures a[i] == b[i] {
      AncestorInRange(n, i, d);
      ExpandCovers(n, i, d, 0);
      var k :| 0 <= k < |indices| && indices[k] == i;
      assert Pick(a, indices)[k] == a[i] && Pick(b, indices)[k] == b[i];
    }
  }

  /** Two leaf lists of one length with one root are the same list, or a collision between a
      byte string hashed for one tree and one hashed for the other. */
  lemma RootBindsLeaves(H: Hash, a: seq<Bytes>, b: seq<Bytes>)
    requires |a| == |b| > 0
    ensures RootOf(H, a) == RootOf(H, b) ==>
              match RootDifference(H, a, b)
              case Some(c) => Collision(H, c) && HashedByBuild(H, a, c.0) && HashedByBuild(H, b, c.1)
              case None => a == b
  {
    SameRootExactly(H, a, b);
    hide RootOf, HashedByBuild, RootDifference, Expansion;
    if Expansion(a) == Expansion(b) {
      SameExpansionSameLeaves(a, b);
    }
  }

  lemma {:induction false} RepeatedLeafBelow(leaves: seq<Bytes>, level: nat, p: nat)
    requires |leaves| % 2 == 1 && level > 0 && p < Width(|leaves|, level)
    ensures Width(|leaves| + 1, level) == Width(|leaves|, level)
    ensures Below(leaves + [leaves[|leaves| - 1]], level, p) == Below(leaves, level, p)
  {
    var more := leaves + [leaves[|leaves| - 1]];
    if level > 1 {
      var w := Width(|leaves|, level - 1);
      RepeatedLeafBelow(leaves, level - 1, 2 * p);
      RepeatedLeafBelow(leaves, level - 1, RightChild(w, p));
      BelowChildren(leaves, level, p);
      BelowChildren(more, level, p);
    } else {
      assert Width(|leaves|, 0) == |leaves| && Width(|more|, 0) == |leaves| + 1;
      assert Below(leaves, 1, p) == Below(leaves, 0, 2 * p) + Below(leaves, 0, RightChild(|leaves|, p));
      assert Below(more, 1, p) == Below(more, 0, 2 * p) + Below(more, 0, RightChild(|more|, p));
    }
  }

  /** So a root does not bind the number of leaves: for every hash, repeating the last leaf of
      an odd list of more than one leaf does not change the root. */
  lemma RepeatedLastLeafSameRoot(H: Hash, leaves: seq<Bytes>)
    requires |leaves| > 1 && |leaves| % 2 == 1
    ensures RootOf(H, leaves + [leaves[|leaves| - 1]]) == RootOf(H, leaves)
  {
    var more := leaves + [leaves[|leaves| - 1]];
    assert Depth(|more|) == Depth(|leaves|) > 0;
    TopIsSingle(|leaves|);
    RepeatedLeafBelow(leaves, Depth(|leaves|), 0);
    hide RootOf, Below;
    SameRootExactly(H, more, leaves);
  }
}
