/**
 The manifest's Merkle tree: level-by-level reduction, inclusion proofs, and what a verified proof
 binds.  The hash is an arbitrary function from byte strings to 32-byte digests.
 */
module Merkle {
  import opened Wrappers
  import opened Bytes

  type Digest = d: bytes | |d| == 32 witness seq(32, _ => 0)
  type Hash = bytes -> Digest

  const NODE_TAG: byte := 1

  function NodeInput(left: Digest, right: Digest): bytes {
    [NODE_TAG] + left + right
  }

  function HashNode(h: Hash, left: Digest, right: Digest): Digest {
    h(NodeInput(left, right))
  }

  lemma {:induction false} NodeInputInjective(l1: Digest, r1: Digest, l2: Digest, r2: Digest)
    requires NodeInput(l1, r1) == NodeInput(l2, r2)
    ensures l1 == l2 && r1 == r2
  {
    var a, b := NodeInput(l1, r1), NodeInput(l2, r2);
    assert a[1..33] == l1 && a[33..] == r1;
    assert b[1..33] == l2 && b[33..] == r2;
  }

  // ----- Reduction, as the code does it -----

  /** One level up: neighbours are paired, an unpaired last node is promoted unchanged. */
  function NextLevel(h: Hash, level: seq<Digest>): (up: seq<Digest>)
    ensures |up| == (|level| + 1) / 2
  {
    if |level| <= 1 then level
    else [HashNode(h, level[0], level[1])] + NextLevel(h, level[2..])
  }

  method ReduceLevel(h: Hash, level: seq<Digest>) returns (up: seq<Digest>)
    ensures up == NextLevel(h, level)
  {
    hide HashNode, NextLevel;
    up := [];
    var i := 0;
    assert level[0..] == level && [] + NextLevel(h, level) == NextLevel(h, level);
    while i < |level|
      invariant 0 <= i <= |level|
      invariant up + NextLevel(h, level[i..]) == NextLevel(h, level)
    {
      NextLevelFrom(h, level, i);
      if i + 1 < |level| {
        up := up + [HashNode(h, level[i], level[i + 1])];
        i := i + 2;
      } else {
        up := up + [level[i]];
        i := i + 1;
      }
    }
    NoNextLevel(h, level[i..]);
  }

  lemma {:induction false} NextLevelFrom(h: Hash, level: seq<Digest>, i: nat)
    requires i < |level|
    ensures i + 1 < |level| ==>
              NextLevel(h, level[i..]) == [HashNode(h, level[i], level[i + 1])] + NextLevel(h, level[i + 2..])
    ensures i + 1 == |level| ==> NextLevel(h, level[i..]) == [level[i]] + NextLevel(h, level[i + 1..])
  {
    hide HashNode;
    if i + 1 < |level| {
      assert level[i..][2..] == level[i + 2..];
    }
  }

  lemma {:induction false} NoNextLevel(h: Hash, level: seq<Digest>)
    ensures level == [] ==> NextLevel(h, level) == []
  {
  }

  function LevelRoot(h: Hash, level: seq<Digest>): Digest
    requires level != []
    decreases |level|
  {
    if |level| == 1 then level[0] else LevelRoot(h, NextLevel(h, level))
  }

  function MerkleRoot(h: Hash, leaves: seq<Digest>): Digest {
    if leaves == [] then h([]) else LevelRoot(h, leaves)
  }

  method ComputeRoot(h: Hash, leaves: seq<Digest>) returns (root: Digest)
    ensures root == MerkleRoot(h, leaves)
  {
    if leaves == [] {
      return h([]);
    }
    var level := leaves;
    while |level| > 1
      invariant level != [] && LevelRoot(h, level) == LevelRoot(h, leaves)
    {
      level := ReduceLevel(h, level);
    }
    return level[0];
  }

  // ----- The tree hash of section 2.1 of RFC 6962, on the given leaf values -----

  /** The largest 2^i * k smaller than n. */
  function Grow(k: nat, n: nat): nat
    requires 0 < k < n
    decreases n - k
  {
    if 2 * k < n then Grow(2 * k, n) else k
  }

  /** The largest power of two smaller than n. */
  function SplitPoint(n: nat): nat
    requires n >= 2
  {
    Grow(1, n)
  }

  ghost predicate IsPowerOfTwo(k: nat) {
    k == 1 || (k > 1 && k % 2 == 0 && IsPowerOfTwo(k / 2))
  }

  lemma {:induction false} GrowBounds(k: nat, n: nat)
    requires 0 < k < n
    ensures k <= Grow(k, n) < n <= 2 * Grow(k, n)
    ensures IsPowerOfTwo(k) ==> IsPowerOfTwo(Grow(k, n))
    decreases n - k
  {
    if 2 * k < n {
      hide IsPowerOfTwo;
      Doubled(k);
      GrowBounds(2 * k, n);
    }
  }

  lemma {:induction false} Doubled(k: nat)
    ensures IsPowerOfTwo(k) ==> IsPowerOfTwo(2 * k)
  {
    assert (2 * k) / 2 == k;
  }

  function TreeHash(h: Hash, leaves: seq<Digest>): Digest
    decreases |leaves|
  {
    if leaves == [] then h([])
    else if |leaves| == 1 then leaves[0]
    else
      var k := SplitPoint(|leaves|);
      GrowBounds(1, |leaves|);
      HashNode(h, TreeHash(h, leaves[..k]), TreeHash(h, leaves[k..]))
  }

  // ----- Both roots agree -----

  lemma {:induction false} GrowDoubles(k: nat, n: nat)
    requires 0 < k && 2 * k < n
    ensures Grow(2 * k, n) == 2 * Grow(k, (n + 1) / 2)
    decreases n - k
  {
    if 4 * k < n {
      GrowDoubles(2 * k, n);
    }
  }

  lemma {:induction false} SplitTwo()
    ensures SplitPoint(2) == 1
  {
  }

  lemma {:induction false} SplitDoubles(n: nat)
    requires n > 2
    ensures SplitPoint(n) == 2 * SplitPoint((n + 1) / 2)
    ensures 1 < SplitPoint(n) < n
  {
    GrowDoubles(1, n);
    GrowBounds(2, n);
  }

  lemma {:induction false} NextLevelAppend(h: Hash, a: seq<Digest>, b: seq<Digest>)
    requires |a| % 2 == 0
    ensures NextLevel(h, a + b) == NextLevel(h, a) + NextLevel(h, b)
  {
    hide HashNode;
    if a == [] {
      assert a + b == b;
    } else {
      NextLevelAppend(h, a[2..], b);
      assert (a + b)[2..] == a[2..] + b;
    }
  }

  lemma {:induction false} TreeHashNextLevel(h: Hash, leaves: seq<Digest>)
    requires leaves != []
    ensures TreeHash(h, NextLevel(h, leaves)) == TreeHash(h, leaves)
    decreases |leaves|
  {
    hide HashNode, SplitPoint;
    if |leaves| == 2 {
      SplitTwo();
      assert leaves[2..] == [];
      assert leaves[..1] == [leaves[0]] && leaves[1..] == [leaves[1]];
    } else if |leaves| > 2 {
      var n, k := |leaves|, SplitPoint(|leaves|);
      SplitDoubles(n);
      var a, b := leaves[..k], leaves[k..];
      assert leaves == a + b;
      NextLevelAppend(h, a, b);
      var up := NextLevel(h, leaves);
      assert up[..k / 2] == NextLevel(h, a) && up[k / 2..] == NextLevel(h, b);
      TreeHashNextLevel(h, a);
      TreeHashNextLevel(h, b);
    }
  }

  lemma {:induction false} LevelRootIsTreeHash(h: Hash, level: seq<Digest>)
    requires level != []
    ensures LevelRoot(h, level) == TreeHash(h, level)
    decreases |level|
  {
    if |level| > 1 {
      LevelRootIsTreeHash(h, NextLevel(h, level));
      TreeHashNextLevel(h, level);
    }
  }

  /** Pairing level by level yields the root of the recursive power-of-two split. */
  lemma {:induction false} RootIsTreeHash(h: Hash, leaves: seq<Digest>)
    ensures MerkleRoot(h, leaves) == TreeHash(h, leaves)
  {
    if leaves != [] {
      LevelRootIsTreeHash(h, leaves);
    }
  }

  // ----- Inclusion proofs -----

  datatype ProofStep = ProofStep(sibling: Digest, siblingIsRight: bool)

  datatype InclusionProof = InclusionProof(index: nat, treeSize: nat, path: seq<ProofStep>)

  datatype ManifestError = IndexOutOfRange

  function StepInput(acc: Digest, step: ProofStep): bytes {
    if step.siblingIsRight then NodeInput(acc, step.sibling) else NodeInput(step.sibling, acc)
  }

  /** The root recomputed from a leaf and its authentication path. */
  function RootFromPath(h: Hash, leaf: Digest, path: seq<ProofStep>): Digest
    decreases |path|
  {
    if path == [] then leaf else RootFromPath(h, h(StepInput(leaf, path[0])), path[1..])
  }

  predicate VerifyInclusion(h: Hash, leaf: Digest, proof: InclusionProof, root: Digest) {
    proof.index < proof.treeSize && RootFromPath(h, leaf, proof.path) == root
  }

  /** The step node `idx` contributes at one level: none when it is promoted. */
  function SiblingStep(level: seq<Digest>, idx: nat): seq<ProofStep>
    requires idx < |level|
  {
    if idx % 2 == 0 then
      if idx + 1 < |level| then [ProofStep(level[idx + 1], true)] else []
    else [ProofStep(level[idx - 1], false)]
  }

  function ProofPath(h: Hash, level: seq<Digest>, idx: nat): seq<ProofStep>
    requires idx < |level|
    decreases |level|
  {
    if |level| == 1 then []
    else SiblingStep(level, idx) + ProofPath(h, NextLevel(h, level), idx / 2)
  }

  lemma {:induction false} ProofPathUnfolds(h: Hash, level: seq<Digest>, idx: nat)
    requires idx < |level|
    ensures |level| == 1 ==> ProofPath(h, level, idx) == []
    ensures |level| > 1 ==>
      ProofPath(h, level, idx) == SiblingStep(level, idx) + ProofPath(h, NextLevel(h, level), idx / 2)
  {
    hide NextLevel, SiblingStep;
  }

  lemma {:induction false} AppendAssociates<T>(a: seq<T>, b: seq<T>, c: seq<T>)
    ensures (a + b) + c == a + (b + c)
    ensures b == [] ==> a + b == a
  {
  }

  method BuildProof(h: Hash, leaves: seq<Digest>, index: nat) returns (r: Result<InclusionProof, ManifestError>)
    ensures index >= |leaves| ==> r == Err(IndexOutOfRange)
    ensures index < |leaves| ==> r == Ok(InclusionProof(index, |leaves|, ProofPath(h, leaves, index)))
  {
    if index >= |leaves| {
      return Err(IndexOutOfRange);
    }
    hide NextLevel, ProofPath;
    var path: seq<ProofStep> := [];
    var level := leaves;
    var idx: nat := index;
    while |level| > 1
      invariant idx < |level|
      invariant path + ProofPath(h, level, idx) == ProofPath(h, leaves, index)
      decreases |level|
    {
      ProofPathUnfolds(h, level, idx);
      AppendAssociates(path, SiblingStep(level, idx), ProofPath(h, NextLevel(h, level), idx / 2));
      if idx % 2 == 0 {
        if idx + 1 < |level| {
          path := path + [ProofStep(level[idx + 1], true)];
        }
      } else {
        path := path + [ProofStep(level[idx - 1], false)];
      }
      level := ReduceLevel(h, level);
      idx := idx / 2;
    }
    ProofPathUnfolds(h, level, idx);
    assert path + [] == path;
    return Ok(InclusionProof(index, |leaves|, path));
  }

  lemma {:induction false} NextLevelAt(h: Hash, level: seq<Digest>, idx: nat)
    requires idx < |level|
    ensures NextLevel(h, level)[idx / 2] ==
      if idx % 2 == 1 then HashNode(h, level[idx - 1], level[idx])
      else if idx + 1 < |level| then HashNode(h, level[idx], level[idx + 1])
      else level[idx]
  {
    hide HashNode;
    if idx >= 2 {
      var rest := level[2..];
      NextLevelAt(h, rest, idx - 2);
      assert NextLevel(h, level)[idx / 2] == NextLevel(h, rest)[(idx - 2) / 2];
    }
  }

  lemma {:induction false} RootFromPathAppend(h: Hash, leaf: Digest, p: seq<ProofStep>, q: seq<ProofStep>)
    ensures RootFromPath(h, leaf, p + q) == RootFromPath(h, RootFromPath(h, leaf, p), q)
    decreases |p|
  {
    if p == [] {
      assert p + q == q;
    } else {
      assert (p + q)[1..] == p[1..] + q;
      RootFromPathAppend(h, h(StepInput(leaf, p[0])), p[1..], q);
    }
  }

  lemma {:induction false} PathReachesRoot(h: Hash, level: seq<Digest>, idx: nat)
    requires idx < |level|
    ensures RootFromPath(h, level[idx], ProofPath(h, level, idx)) == LevelRoot(h, level)
    decreases |level|
  {
    if |level| > 1 {
      NextLevelAt(h, level, idx);
      PathReachesRoot(h, NextLevel(h, level), idx / 2);
      RootFromPathAppend(h, level[idx], SiblingStep(level, idx), ProofPath(h, NextLevel(h, level), idx / 2));
    }
  }

  /** Every inclusion proof the log hands out verifies against its root. */
  lemma {:induction false} ProofVerifies(h: Hash, leaves: seq<Digest>, index: nat)
    requires index < |leaves|
    ensures VerifyInclusion(h, leaves[index],
              InclusionProof(index, |leaves|, ProofPath(h, leaves, index)), MerkleRoot(h, leaves))
  {
    PathReachesRoot(h, leaves, index);
  }

  // ----- What an accepted path binds -----

  /** Every interior-node input hashed when the tree over `leaves` is computed. */
  ghost function TreeInputs(h: Hash, leaves: seq<Digest>): set<bytes>
    decreases |leaves|
  {
    if |leaves| <= 1 then {}
    else
      var k := SplitPoint(|leaves|);
      GrowBounds(1, |leaves|);
      TreeInputs(h, leaves[..k]) + TreeInputs(h, leaves[k..])
        + {NodeInput(TreeHash(h, leaves[..k]), TreeHash(h, leaves[k..]))}
  }

  /** Every input the verifier hashes while following a path. */
  ghost function PathInputs(h: Hash, leaf: Digest, path: seq<ProofStep>): set<bytes>
    decreases |path|
  {
    if path == [] then {}
    else
      PathInputs(h, leaf, path[..|path| - 1])
        + {StepInput(RootFromPath(h, leaf, path[..|path| - 1]), path[|path| - 1])}
  }

  /** Where a path that reaches the root of an honest tree can have started. */
  datatype Landing =
    | AtLeaf(index: nat)                  // on a leaf of the tree
    | AtNode(honest: bytes)               // on an interior node of the tree
    | BelowLeaf(index: nat, offered: bytes)  // under a leaf of the tree
    | Collides(honest: bytes, offered: bytes)  // nowhere: two inputs share a digest

  ghost predicate Lands(h: Hash, leaves: seq<Digest>, leaf: Digest, path: seq<ProofStep>, at: Landing) {
    match at
    case AtLeaf(i) => i < |leaves| && leaf == leaves[i]
    case AtNode(a) => a in TreeInputs(h, leaves) && leaf == h(a)
    case BelowLeaf(i, b) => i < |leaves| && b in PathInputs(h, leaf, path) && leaves[i] == h(b)
    case Collides(a, b) =>
      a in TreeInputs(h, leaves) && b in PathInputs(h, leaf, path) && a != b && h(a) == h(b)
  }

  /** Follow an accepted path down from the root until it leaves the honest tree. */
  lemma {:induction false} FollowPath(h: Hash, leaves: seq<Digest>, leaf: Digest, path: seq<ProofStep>)
    returns (at: Landing)
    requires leaves != []
    requires RootFromPath(h, leaf, path) == TreeHash(h, leaves)
    ensures Lands(h, leaves, leaf, path, at)
    decreases |path|
  {
    if path == [] {
      if |leaves| == 1 {
        return AtLeaf(0);
      }
      GrowBounds(1, |leaves|);
      var k := SplitPoint(|leaves|);
      return AtNode(NodeInput(TreeHash(h, leaves[..k]), TreeHash(h, leaves[k..])));
    }
    var init, last := path[..|path| - 1], path[|path| - 1];
    assert path == init + [last];
    RootFromPathAppend(h, leaf, init, [last]);
    var acc := RootFromPath(h, leaf, init);
    var offered := StepInput(acc, last);
    assert RootFromPath(h, acc, [last]) == h(offered);
    if |leaves| == 1 {
      return BelowLeaf(0, offered);
    }
    GrowBounds(1, |leaves|);
    var k := SplitPoint(|leaves|);
    var left, right := leaves[..k], leaves[k..];
    var honest := NodeInput(TreeHash(h, left), TreeHash(h, right));
    if offered != honest {
      return Collides(honest, offered);
    }
    if last.siblingIsRight {
      NodeInputInjective(acc, last.sibling, TreeHash(h, left), TreeHash(h, right));
      at := FollowPath(h, left, leaf, init);
    } else {
      NodeInputInjective(last.sibling, acc, TreeHash(h, left), TreeHash(h, right));
      at := FollowPath(h, right, leaf, init);
      match at {
        case AtLeaf(i) => at := AtLeaf(i + k);
        case BelowLeaf(i, b) => at := BelowLeaf(i + k, b);
        case _ =>
      }
    }
  }
}
