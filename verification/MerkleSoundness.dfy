/**
 What a root commits to.

 Both results are constructive: a walk down the committed tree, alongside the path a prover
 offers, either ends at a committed claim or stops where two different byte strings hash alike.
 */
module MerkleSoundness {
  import opened Hashing
  import opened Merkle

  // ---------------------------------------------------------------- walking down a tree

  datatype WalkEnd =
    | AtNode(height: nat, index: nat)      // the path ran out at this node
    | BelowLeaf(index: nat, rest: nat)     // this leaf was reached with `rest` path entries left
    | Clash(x: seq<byte>, y: seq<byte>)    // two byte strings with one hash

  function Child(n: nat, j: nat, side: byte): (c: nat)
    requires 2 * j < n
    ensures c < n
  {
    if side == 0 then 2 * j else Sibling(n, 2 * j)
  }

  /** What the end of a walk from level `k` says about the hash `start` that the path carries up. */
  ghost predicate Explains(
      H: Hash, levels: seq<seq<Digest>>, k: nat, start: Digest, path: seq<Digest>, sides: seq<byte>, end: WalkEnd)
    requires levels != [] && k < |levels| && |path| == |sides|
  {
    match end
    case AtNode(h, i) => h + |path| == k && i < |levels[h]| && start == levels[h][i]
    case BelowLeaf(i, rest) =>
      && 0 < rest && rest + k == |path| && i < |levels[0]|
      && Fold(H, start, path[..rest], sides[..rest]) == levels[0][i]
    case Clash(x, y) => Collide(H, x, y)
  }

  /** Follow `path` from its last entry, starting at node `j` on level `k`. */
  function Walk(H: Hash, levels: seq<seq<Digest>>, k: nat, j: nat, start: Digest, path: seq<Digest>, sides: seq<byte>)
    : (end: WalkEnd)
    requires IsTree(H, levels)
    requires k < |levels| && j < |levels[k]|
    requires |path| == |sides| && Fold(H, start, path, sides) == levels[k][j]
    ensures Explains(H, levels, k, start, path, sides, end)
    decreases |path|
  {
    if path == [] then AtNode(k, j)
    else if k == 0 then
      assert path[..|path|] == path && sides[..|sides|] == sides;
      BelowLeaf(j, |path|)
    else
      var m := |path| - 1;
      FoldSnoc(H, start, path, sides);
      assert levels[k] == NextLevel(H, levels[k - 1]);
      var below := Fold(H, start, path[..m], sides[..m]);
      var offered := JoinPreimage(below, path[m], sides[m]);
      var committed := PairPreimage(levels[k - 1], j);
      if offered != committed then Clash(offered, committed)
      else
        JoinedChild(levels[k - 1], j, below, path[m], sides[m]);
        var end := Walk(H, levels, k - 1, Child(|levels[k - 1]|, j, sides[m]), start, path[..m], sides[..m]);
        assert end.BelowLeaf? ==>
          path[..m][..end.rest] == path[..end.rest] && sides[..m][..end.rest] == sides[..end.rest];
        end
  }

  lemma JoinedChild(level: seq<Digest>, j: nat, current: Digest, sibling: Digest, side: byte)
    requires 2 * j < |level|
    requires JoinPreimage(current, sibling, side) == PairPreimage(level, j)
    ensures current == level[Child(|level|, j, side)]
  {
    var l, r := level[2 * j], level[Sibling(|level|, 2 * j)];
    if side == 0 {
      JoinInjective(current, sibling, l, r);
    } else {
      JoinInjective(sibling, current, l, r);
    }
  }

  // ---------------------------------------------------------------- locating a preimage

  /**
   Where a byte string was found: a committed claim, an inner node, or below a claim whose own
   preimage is a pair of digests, with the part of the path that leads up to that claim.
   */
  datatype Finding =
    | Committed(index: nat)
    | Inner(height: nat, index: nat)
    | InsideLeaf(index: nat, below: seq<Digest>, sides: seq<byte>)
    | Collision(x: seq<byte>, y: seq<byte>)

  /** The path `below` folds the hash of `preimage` into the very pair that the claim `leaf` hashes. */
  ghost predicate Hangs(H: Hash, leaf: Leaf, preimage: seq<byte>, below: seq<Digest>, sides: seq<byte>) {
    && below != [] && |below| == |sides|
    && var m := |below| - 1;
    JoinPreimage(Fold(H, H(preimage), below[..m], sides[..m]), below[m], sides[m]) == leaf.Preimage(H)
  }

  /** What a finding says about a byte string that a path of length `n` carries to the root. */
  ghost predicate Locates(H: Hash, leaves: seq<Leaf>, preimage: seq<byte>, n: nat, f: Finding)
    requires leaves != []
  {
    var depth, levels := Depth(|leaves|), Levels(H, LeafHashes(H, leaves));
    match f
    case Committed(i) => n == depth && i < |leaves| && leaves[i].Preimage(H) == preimage
    case Inner(h, i) =>
      && 0 < h && h + n == depth && |preimage| == 64
      && h < |levels| && 2 * i < |levels[h - 1]| && preimage == PairPreimage(levels[h - 1], i)
    case InsideLeaf(i, below, sides) =>
      depth + |below| == n && i < |leaves| && Hangs(H, leaves[i], preimage, below, sides)
    case Collision(x, y) => Collide(H, x, y)
  }

  /**
   Where in the tree over `leaves` is the byte string whose hash a path carries to the root?
   The lengths decide: only a 64-byte string can be an inner node, and only a path longer
   than the tree can end below a leaf, which then has a 64-byte preimage itself.
   */
  function Locate(H: Hash, leaves: seq<Leaf>, preimage: seq<byte>, path: seq<Digest>, sides: seq<byte>): (f: Finding)
    requires leaves != [] && |path| == |sides|
    requires Fold(H, H(preimage), path, sides) == Root(H, LeafHashes(H, leaves))
    ensures Locates(H, leaves, preimage, |path|, f)
    ensures f.InsideLeaf? ==> f.below <= path && f.sides <= sides
  {
    var hashes := LeafHashes(H, leaves);
    var levels := Levels(H, hashes);
    LevelsAreTree(H, hashes);
    match Walk(H, levels, Depth(|leaves|), 0, H(preimage), path, sides)
    case AtNode(h, i) => AtNodeFinding(H, leaves, preimage, h, i)
    case BelowLeaf(i, rest) =>
      FoldSnoc(H, H(preimage), path[..rest], sides[..rest]);
      BelowLeafFinding(H, leaves, preimage, i, path[..rest], sides[..rest])
    case Clash(x, y) => Collision(x, y)
  }

  function AtNodeFinding(H: Hash, leaves: seq<Leaf>, preimage: seq<byte>, h: nat, i: nat): (f: Finding)
    requires leaves != [] && h <= Depth(|leaves|)
    requires var levels := Levels(H, LeafHashes(H, leaves));
      h < |levels| && i < |levels[h]| && levels[h][i] == H(preimage)
    ensures Locates(H, leaves, preimage, Depth(|leaves|) - h, f) && !f.InsideLeaf?
  {
    var levels := Levels(H, LeafHashes(H, leaves));
    if h == 0 then
      var p := leaves[i].Preimage(H);
      if p == preimage then Committed(i) else Collision(p, preimage)
    else
      LevelAbove(H, LeafHashes(H, leaves), h - 1);
      var p := PairPreimage(levels[h - 1], i);
      if p == preimage then Inner(h, i) else Collision(p, preimage)
  }

  function BelowLeafFinding(H: Hash, leaves: seq<Leaf>, preimage: seq<byte>, i: nat, below: seq<Digest>,
                            sides: seq<byte>): (f: Finding)
    requires i < |leaves| && below != [] && |below| == |sides|
    requires var m := |below| - 1;
      H(JoinPreimage(Fold(H, H(preimage), below[..m], sides[..m]), below[m], sides[m])) == leaves[i].LeafHash(H)
    ensures Locates(H, leaves, preimage, Depth(|leaves|) + |below|, f)
    ensures f.Collision? || f == InsideLeaf(i, below, sides)
  {
    var m := |below| - 1;
    var p := JoinPreimage(Fold(H, H(preimage), below[..m], sides[..m]), below[m], sides[m]);
    if p == leaves[i].Preimage(H) then InsideLeaf(i, below, sides) else Collision(p, leaves[i].Preimage(H))
  }

  // ---------------------------------------------------------------- binding

  /** Two unequal leaf lists of one length with one root give up a colliding pair. */
  function BindingCollision(H: Hash, a: seq<Digest>, b: seq<Digest>): (clash: (seq<byte>, seq<byte>))
    requires |a| == |b| && a != b && a != []
    requires Root(H, a) == Root(H, b)
    ensures Collide(H, clash.0, clash.1)
    decreases |a|
  {
    if NextLevel(H, a) != NextLevel(H, b) then
      BindingCollision(H, NextLevel(H, a), NextLevel(H, b))
    else
      var i := FirstDifference(a, b);
      assert |a| > 1;
      var x, y := PairPreimage(a, i / 2), PairPreimage(b, i / 2);
      assert x != y by {
        if x == y {
          JoinInjective(a[i - i % 2], a[Sibling(|a|, i - i % 2)], b[i - i % 2], b[Sibling(|b|, i - i % 2)]);
          assert false;
        }
      }
      assert NextLevel(H, a)[i / 2] == NextLevel(H, b)[i / 2];
      (x, y)
  }

  function FirstDifference(a: seq<Digest>, b: seq<Digest>): (i: nat)
    requires |a| == |b| && a != b
    ensures i < |a| && a[i] != b[i]
  {
    if a[0] != b[0] then 0
    else
      assert a == [a[0]] + a[1..] && b == [b[0]] + b[1..];
      1 + FirstDifference(a[1..], b[1..])
  }

  /** Equal length cannot be dropped: repeating the last leaf of an odd list keeps the root. */
  lemma RepeatedLastLeafKeepsRoot(H: Hash, leaves: seq<Digest>)
    requires |leaves| % 2 == 1 && |leaves| > 1
    ensures Root(H, leaves + [leaves[|leaves| - 1]]) == Root(H, leaves)
  {
    var longer := leaves + [leaves[|leaves| - 1]];
    var next, next' := NextLevel(H, leaves), NextLevel(H, longer);
    assert |next| == |next'|;
    forall j | 0 <= j < |next|
      ensures next[j] == next'[j]
    {
      RepeatedLastLeafKeepsPair(leaves, j);
    }
    assert next == next';
  }

  lemma RepeatedLastLeafKeepsPair(leaves: seq<Digest>, j: nat)
    requires |leaves| % 2 == 1 && 2 * j < |leaves|
    ensures PairPreimage(leaves + [leaves[|leaves| - 1]], j) == PairPreimage(leaves, j)
  {
    var n := |leaves|;
    if 2 * j + 1 < n {
      assert Sibling(n, 2 * j) == 2 * j + 1 == Sibling(n + 1, 2 * j);
    } else {
      assert Sibling(n, 2 * j) == n - 1 && Sibling(n + 1, 2 * j) == n;
    }
  }
}
