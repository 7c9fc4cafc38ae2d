/**
 The commitment tree of crates/commitments/src/merkle.rs.

 Nodes are joined by plain concatenation, left then right, as the code does; an odd level
 pairs its last node with itself.
 */
module Merkle {
  import opened Hashing
  import opened Wrappers

  const MAX_DEPTH: nat := 32

  datatype CommitmentError = EmptyClaims | DepthExceeded(limit: nat)

  // ---------------------------------------------------------------- the tree as a function

  function Pow2(d: nat): (p: nat)
    ensures p >= 1
  {
    if d == 0 then 1 else 2 * Pow2(d - 1)
  }

  /** The number of levels above the leaves of a tree with `n` leaves. */
  function Depth(n: nat): nat
    requires n >= 1
  {
    if n == 1 then 0 else 1 + Depth((n + 1) / 2)
  }

  /** The position paired with `i` on a level of `n` nodes: the last node of an odd level pairs with itself. */
  function Sibling(n: nat, i: nat): (s: nat)
    requires i < n
    ensures s < n
  {
    if i % 2 == 1 then i - 1 else if i + 1 < n then i + 1 else i
  }

  /** The 64 bytes hashed for the parent of the pair that starts at `2 * j`. */
  function PairPreimage(level: seq<Digest>, j: nat): (p: seq<byte>)
    requires 2 * j < |level|
    ensures |p| == 64
  {
    Join(level[2 * j], level[Sibling(|level|, 2 * j)])
  }

  function NextLevel(H: Hash, level: seq<Digest>): (next: seq<Digest>)
    ensures |next| == (|level| + 1) / 2
    ensures forall j :: 0 <= j < |next| ==> next[j] == H(PairPreimage(level, j))
  {
    seq<Digest>((|level| + 1) / 2, j requires 0 <= j < (|level| + 1) / 2 => H(PairPreimage(level, j)))
  }

  /** All levels, leaves first. */
  function Levels(H: Hash, leaves: seq<Digest>): (levels: seq<seq<Digest>>)
    requires leaves != []
    ensures levels != [] && levels[0] == leaves
    decreases |leaves|
  {
    if |leaves| == 1 then [leaves] else [leaves] + Levels(H, NextLevel(H, leaves))
  }

  function Root(H: Hash, leaves: seq<Digest>): Digest
    requires leaves != []
    decreases |leaves|
  {
    if |leaves| == 1 then leaves[0] else Root(H, NextLevel(H, leaves))
  }

  /** The siblings met on the way from leaf `i` to the root. */
  function PathOf(H: Hash, leaves: seq<Digest>, i: nat): (path: seq<Digest>)
    requires i < |leaves|
    ensures |path| == Depth(|leaves|)
    decreases |leaves|
  {
    if |leaves| == 1 then []
    else [leaves[Sibling(|leaves|, i)]] + PathOf(H, NextLevel(H, leaves), i / 2)
  }

  /** 0 where the walked node is a left child, 1 where it is a right child. */
  function SidesOf(n: nat, i: nat): (sides: seq<byte>)
    requires i < n
    ensures |sides| == Depth(n)
    ensures forall k :: 0 <= k < |sides| ==> sides[k] <= 1
  {
    if n == 1 then [] else [i % 2] + SidesOf((n + 1) / 2, i / 2)
  }

  function JoinPreimage(current: Digest, sibling: Digest, side: byte): (p: seq<byte>)
    ensures |p| == 64
  {
    if side == 0 then Join(current, sibling) else Join(sibling, current)
  }

  /** The hash reached by joining `current` with each sibling in turn. */
  function Fold(H: Hash, current: Digest, path: seq<Digest>, sides: seq<byte>): Digest
    requires |path| == |sides|
    decreases |path|
  {
    if path == [] then current
    else Fold(H, H(JoinPreimage(current, path[0], sides[0])), path[1..], sides[1..])
  }

  // ---------------------------------------------------------------- facts about the levels

  /** What makes `levels` the tree over `levels[0]`. */
  ghost predicate IsTree(H: Hash, levels: seq<seq<Digest>>) {
    && levels != []
    && |levels[|levels| - 1]| == 1
    && forall k {:trigger NextLevel(H, levels[k])} :: 0 <= k < |levels| - 1 ==>
      |levels[k]| > 1 && levels[k + 1] == NextLevel(H, levels[k])
  }

  lemma {:induction false} LevelsAreTree(H: Hash, leaves: seq<Digest>)
    requires leaves != []
    ensures IsTree(H, Levels(H, leaves))
    ensures |Levels(H, leaves)| == Depth(|leaves|) + 1
    ensures Levels(H, leaves)[Depth(|leaves|)] == [Root(H, leaves)]
    decreases |leaves|
  {
    if |leaves| > 1 {
      var next := NextLevel(H, leaves);
      LevelsAreTree(H, next);
      var rest := Levels(H, next);
      var levels := Levels(H, leaves);
      assert levels == [leaves] + rest;
      forall k | 0 <= k < |levels| - 1
        ensures |levels[k]| > 1 && levels[k + 1] == NextLevel(H, levels[k])
      {
        if k > 0 {
          assert levels[k] == rest[k - 1] && levels[k + 1] == rest[k];
          assert rest[k] == NextLevel(H, rest[k - 1]);
        }
      }
    }
  }

  lemma TopLevel(H: Hash, leaves: seq<Digest>)
    requires leaves != []
    ensures |Levels(H, leaves)| == Depth(|leaves|) + 1 && Levels(H, leaves)[Depth(|leaves|)] == [Root(H, leaves)]
  {
    LevelsAreTree(H, leaves);
  }

  lemma LevelAbove(H: Hash, leaves: seq<Digest>, k: nat)
    requires leaves != [] && k < |Levels(H, leaves)| - 1
    ensures |Levels(H, leaves)[k]| > 1 && Levels(H, leaves)[k + 1] == NextLevel(H, Levels(H, leaves)[k])
  {
    LevelsAreTree(H, leaves);
    var next := NextLevel(H, Levels(H, leaves)[k]);
  }

  /** `Depth(n)` is the least `d` with `2^d >= n`. */
  lemma {:induction false} DepthIsCeilLog2(n: nat, d: nat)
    requires n >= 1
    ensures n <= Pow2(d) <==> Depth(n) <= d
  {
    if n > 1 && d > 0 {
      DepthIsCeilLog2((n + 1) / 2, d - 1);
    }
  }

  lemma {:induction false} FoldSnoc(H: Hash, current: Digest, path: seq<Digest>, sides: seq<byte>)
    requires |path| == |sides| && path != []
    ensures var m := |path| - 1;
      Fold(H, current, path, sides) == H(JoinPreimage(Fold(H, current, path[..m], sides[..m]), path[m], sides[m]))
    decreases |path|
  {
    var m := |path| - 1;
    if m > 0 {
      var next := H(JoinPreimage(current, path[0], sides[0]));
      FoldSnoc(H, next, path[1..], sides[1..]);
      assert path[1..][..m - 1] == path[..m][1..];
      assert sides[1..][..m - 1] == sides[..m][1..];
    }
  }

  /** Every leaf's path folds to the root. */
  lemma {:induction false} PathFoldsToRoot(H: Hash, leaves: seq<Digest>, i: nat)
    requires i < |leaves|
    ensures Fold(H, leaves[i], PathOf(H, leaves, i), SidesOf(|leaves|, i)) == Root(H, leaves)
    decreases |leaves|
  {
    if |leaves| > 1 {
      var next := NextLevel(H, leaves);
      var sibling := leaves[Sibling(|leaves|, i)];
      assert JoinPreimage(leaves[i], sibling, i % 2) == PairPreimage(leaves, i / 2);
      PathFoldsToRoot(H, next, i / 2);
      var path, sides := PathOf(H, leaves, i), SidesOf(|leaves|, i);
      assert path[1..] == PathOf(H, next, i / 2);
      assert sides[1..] == SidesOf(|next|, i / 2);
    }
  }

  // ---------------------------------------------------------------- which way round

  /** A node hashes its two children, left then right; without a right one, the left one twice. */
  lemma NextLevelHashes(H: Hash, level: seq<Digest>, j: nat)
    requires 2 * j < |level|
    ensures var (left: seq<byte>, last) := (level[2 * j], 2 * j + 1 == |level|);
      NextLevel(H, level)[j] == H(left + if last then level[2 * j] else level[2 * j + 1])
  {
    assert NextLevel(H, level)[j] == H(PairPreimage(level, j));
  }

  /** One step of a fold: side 0 has the walked node on the left, any other on the right. */
  lemma FoldJoins(H: Hash, current: Digest, sibling: Digest, side: byte, path: seq<Digest>, sides: seq<byte>)
    requires |path| == |sides|
    ensures var (c: seq<byte>, s: seq<byte>) := (current, sibling);
      Fold(H, current, [sibling] + path, [side] + sides) == Fold(H, H(if side == 0 then c + s else s + c), path, sides)
  {
    assert ([sibling] + path)[1..] == path && ([side] + sides)[1..] == sides;
  }

  /** Entry `k` of a path is the neighbour on level `k`, and its side the parity of the walked node's place there. */
  lemma {:induction false} PathEntry(H: Hash, leaves: seq<Digest>, i: nat, k: nat)
    requires i < |leaves| && k < Depth(|leaves|)
    ensures k < |Levels(H, leaves)| && Place(i, k) < |Levels(H, leaves)[k]|
    ensures var (level, place) := (Levels(H, leaves)[k], Place(i, k));
      && PathOf(H, leaves, i)[k] ==
         (if place % 2 == 1 then level[place - 1] else if place + 1 < |level| then level[place + 1] else level[place])
      && SidesOf(|leaves|, i)[k] == place % 2
    decreases k
  {
    if k > 0 {
      PathEntry(H, NextLevel(H, leaves), i / 2, k - 1);
    }
  }

  /** Where the walk from leaf `i` stands on level `k`. */
  function Place(i: nat, k: nat): nat {
    if k == 0 then i else Place(i / 2, k - 1)
  }

  lemma RootOfThree(H: Hash, a: Digest, b: Digest, c: Digest)
    ensures var l: seq<byte> := a; Root(H, [a, b]) == H(l + b)
    ensures var (l: seq<byte>, r: seq<byte>, q: seq<byte>) := (a, c, H(Join(a, b)));
      Root(H, [a, b, c]) == H(q + H(r + c)) && H(Join(a, b)) == H(l + b)
  {
    NextLevelHashes(H, [a, b], 0);
    NextLevelHashes(H, [a, b, c], 0);
    NextLevelHashes(H, [a, b, c], 1);
    var (l: seq<byte>, r: seq<byte>) := (a, c);
    assert NextLevel(H, [a, b, c]) == [H(l + b), H(r + c)];
    NextLevelHashes(H, [H(l + b), H(r + c)], 0);
    assert Root(H, NextLevel(H, [a, b, c])) == Root(H, [NextLevel(H, [H(l + b), H(r + c)])[0]]);
  }

  // ---------------------------------------------------------------- the Rust code

  datatype MerkleProof = MerkleProof(leaf: Digest, path: seq<Digest>, indices: seq<byte>)

  ghost function ProofOf(H: Hash, leaves: seq<Digest>, i: nat): MerkleProof
    requires i < |leaves|
  {
    MerkleProof(leaves[i], PathOf(H, leaves, i), SidesOf(|leaves|, i))
  }

  datatype MerkleTree = MerkleTree(nodes: seq<seq<Digest>>, leaves: seq<Digest>) {
    /** The shape that `Build` gives a tree. */
    ghost predicate Valid(H: Hash) {
      leaves != [] && nodes == Levels(H, leaves)
    }

    function GetRoot(): Digest
      requires nodes != [] && nodes[|nodes| - 1] != []
    {
      nodes[|nodes| - 1][0]
    }
  }

  /** Left then right, never sorted. */
  method HashPair(H: Hash, left: Digest, right: Digest) returns (hash: Digest)
    ensures hash == H(Join(left, right))
    ensures var l: seq<byte> := left; hash == H(l + right)
  {
    var combined := new byte[64](_ => 0);
    CopyInto(combined, 0, left);
    CopyInto(combined, 32, right);
    assert combined[..] == Join(left, right);
    hash := H(combined[..]);
  }

  /** `(n as f64).log2().ceil()`; only its comparison with 32 matters, and there the double is exact enough. */
  function CeilLog2(n: nat): (d: nat)
    requires n >= 1
    ensures n <= Pow2(d) && (d > 0 ==> Pow2(d - 1) < n)
  {
    DepthIsCeilLog2(n, Depth(n));
    if Depth(n) > 0 then DepthIsCeilLog2(n, Depth(n) - 1); Depth(n) else 0
  }

  /** The body of the while loop: one level from the one below it. */
  method HashLevel(H: Hash, current: seq<Digest>) returns (next: seq<Digest>)
    ensures next == NextLevel(H, current)
  {
    next := [];
    var i := 0;
    while i < |current|
      invariant i == 2 * |next| && |next| <= (|current| + 1) / 2
      invariant forall j :: 0 <= j < |next| ==> next[j] == H(PairPreimage(current, j))
    {
      var hash;
      if i + 1 < |current| {
        hash := HashPair(H, current[i], current[i + 1]);
      } else {
        hash := HashPair(H, current[i], current[i]);
      }
      next := next + [hash];
      i := i + 2;
    }
  }

  /** The while loop: levels are pushed until one node is left. */
  method BuildLevels(H: Hash, claimHashes: seq<Digest>) returns (nodes: seq<seq<Digest>>)
    requires claimHashes != []
    ensures nodes == Levels(H, claimHashes)
  {
    nodes := [claimHashes];
    var current := claimHashes;
    while |current| > 1
      invariant nodes != [] && current != [] && nodes[|nodes| - 1] == current
      invariant nodes[..|nodes| - 1] + Levels(H, current) == Levels(H, claimHashes)
      decreases |current|
    {
      var next := HashLevel(H, current);
      nodes := nodes + [next];
      current := next;
    }
    assert nodes[..|nodes| - 1] + [current] == nodes;
  }

  lemma Pow2Of32()
    ensures Pow2(MAX_DEPTH) == 0x1_0000_0000
  {
    assert Pow2(8) == 256;
    assert Pow2(16) == 0x1_0000;
    assert Pow2(24) == 0x100_0000;
  }

  method Build(H: Hash, claimHashes: seq<Digest>) returns (r: Result<MerkleTree, CommitmentError>)
    ensures claimHashes == [] ==> r == Err(EmptyClaims)
    ensures claimHashes != [] && |claimHashes| > 0x1_0000_0000 ==> r == Err(DepthExceeded(32))
    ensures 0 < |claimHashes| <= 0x1_0000_0000 ==>
      r.Ok? && r.value.leaves == claimHashes && r.value.Valid(H)
  {
    if claimHashes == [] {
      return Err(EmptyClaims);
    }
    DepthIsCeilLog2(|claimHashes|, MAX_DEPTH);
    Pow2Of32();
    if CeilLog2(|claimHashes|) > MAX_DEPTH {
      return Err(DepthExceeded(MAX_DEPTH));
    }
    var nodes := BuildLevels(H, claimHashes);
    r := Ok(MerkleTree(nodes, claimHashes));
  }

  /** The sibling met is the path's next entry, and the rest is the path from the level above. */
  lemma PathStep(H: Hash, nodes: seq<Digest>, i: nat, path: seq<Digest>, k: nat)
    requires |nodes| > 1 && i < |nodes| && k <= |path| && PathOf(H, nodes, i) == path[k..]
    ensures k < |path| && path[..k] + [nodes[Sibling(|nodes|, i)]] == path[..k + 1]
    ensures PathOf(H, NextLevel(H, nodes), i / 2) == path[k + 1..]
  {
    assert path[k..][1..] == path[k + 1..];
    assert PathOf(H, nodes, i)[1..] == PathOf(H, NextLevel(H, nodes), i / 2);
  }

  lemma SidesStep(H: Hash, nodes: seq<Digest>, i: nat, sides: seq<byte>, k: nat)
    requires |nodes| > 1 && i < |nodes| && k <= |sides| && SidesOf(|nodes|, i) == sides[k..]
    ensures k < |sides| && sides[..k] + [if i % 2 == 1 then 1 else 0] == sides[..k + 1]
    ensures i / 2 < |NextLevel(H, nodes)| && SidesOf(|NextLevel(H, nodes)|, i / 2) == sides[k + 1..]
  {
    assert sides[k..][1..] == sides[k + 1..];
    assert SidesOf(|nodes|, i)[1..] == SidesOf((|nodes| + 1) / 2, i / 2);
  }

  method Prove(H: Hash, tree: MerkleTree, index: nat) returns (proof: MerkleProof)
    requires tree.Valid(H)
    requires index < |tree.leaves|
    ensures proof == ProofOf(H, tree.leaves, index)
  {
    TopLevel(H, tree.leaves);
    ghost var wholePath, allSides := PathOf(H, tree.leaves, index), SidesOf(|tree.leaves|, index);
    var path: seq<Digest>, indices: seq<byte> := [], [];
    var current: nat := index;
    for level := 0 to |tree.nodes| - 1
      invariant current < |tree.nodes[level]|
      invariant path == wholePath[..level] && PathOf(H, tree.nodes[level], current) == wholePath[level..]
      invariant indices == allSides[..level] && SidesOf(|tree.nodes[level]|, current) == allSides[level..]
    {
      var nodes := tree.nodes[level];
      var isRight := current % 2 == 1;
      var sibling := if isRight then current - 1
                     else if current + 1 < |nodes| then current + 1 else current;
      LevelAbove(H, tree.leaves, level);
      PathStep(H, nodes, current, wholePath, level);
      SidesStep(H, nodes, current, allSides, level);
      path := path + [nodes[sibling]];
      indices := indices + [if isRight then 1 else 0];
      current := current / 2;
    }
    proof := MerkleProof(tree.leaves[index], path, indices);
  }

  method VerifyMerkleProof(H: Hash, leaf: Digest, path: seq<Digest>, indices: seq<byte>, expectedRoot: Digest)
    returns (ok: bool)
    ensures ok <==> |path| == |indices| && Fold(H, leaf, path, indices) == expectedRoot
  {
    if |path| != |indices| {
      return false;
    }
    var current := leaf;
    for k := 0 to |path|
      invariant Fold(H, current, path[k..], indices[k..]) == Fold(H, leaf, path, indices)
    {
      if indices[k] == 0 {
        current := HashPair(H, current, path[k]);
      } else {
        current := HashPair(H, path[k], current);
      }
    }
    ok := current == expectedRoot;
  }

  /** Accepts exactly the proofs that fold to the root, every proof that `Prove` makes among them. */
  method Verify(H: Hash, tree: MerkleTree, proof: MerkleProof) returns (ok: bool)
    requires tree.Valid(H)
    ensures ok
      <==> |proof.path| == |proof.indices| && Fold(H, proof.leaf, proof.path, proof.indices) == Root(H, tree.leaves)
    ensures (exists i: nat :: i < |tree.leaves| && proof == ProofOf(H, tree.leaves, i)) ==> ok
  {
    TopLevel(H, tree.leaves);
    ok := VerifyMerkleProof(H, proof.leaf, proof.path, proof.indices, tree.GetRoot());
    forall i: nat | i < |tree.leaves| && proof == ProofOf(H, tree.leaves, i)
      ensures ok
    {
      PathFoldsToRoot(H, tree.leaves, i);
    }
  }
}
