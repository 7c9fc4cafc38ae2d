/**
 The part all predicate circuits share: private inputs that place a claim hash under the
 public root.  Which byte strings they can place there is settled exactly.
 */
module Openings {
  import opened Hashing
  import opened Merkle
  import opened MerkleSoundness
  import opened MerklePlaces
  import NoirLib

  const TREE_DEPTH: nat := 8

  predicate AreBits(sides: seq<byte>) {
    forall k :: 0 <= k < |sides| ==> sides[k] <= 1
  }

  /** The private inputs that place a claim hash under the public root. */
  datatype Opening = Opening(claimHash: Digest, path: seq<Digest>, indices: seq<byte>, treeDepth: u32) {
    /** The circuit's arrays have a fixed length, and an index is one bit. */
    predicate Shaped() {
      |path| == |indices| == TREE_DEPTH && AreBits(indices)
    }

    predicate Accepts(H: Hash, root: Digest)
      requires Shaped()
    {
      NoirLib.PathAccepts(H, claimHash, path, indices, root, treeDepth)
    }

    function Steps(): nat {
      NoirLib.Min(treeDepth, TREE_DEPTH)
    }
  }

  ghost predicate Commits(H: Hash, root: Digest, leaves: seq<Leaf>) {
    leaves != [] && root == Root(H, LeafHashes(H, leaves))
  }

  /** An accepted opening of the hash of `preimage`. */
  predicate Opens(H: Hash, root: Digest, opening: Opening, preimage: seq<byte>) {
    opening.Shaped() && opening.claimHash == H(preimage) && opening.Accepts(H, root)
  }

  /** What an accepted opening of a claim hash with a known preimage shows. */
  function Open(H: Hash, leaves: seq<Leaf>, root: Digest, opening: Opening, preimage: seq<byte>): (f: Finding)
    requires Commits(H, root, leaves) && Opens(H, root, opening, preimage)
    ensures Locates(H, leaves, preimage, opening.Steps(), f)
    ensures f.InsideLeaf? ==> AreBits(f.sides)
  {
    var m := opening.Steps();
    Locate(H, leaves, preimage, opening.path[..m], opening.indices[..m])
  }

  // ---------------------------------------------------------------- what can be opened

  /** A place in the tree, or below one of its leaves, that a circuit's fixed arrays can reach. */
  ghost predicate IsPlace(H: Hash, leaves: seq<Leaf>, preimage: seq<byte>, n: nat, f: Finding) {
    && leaves != [] && n <= TREE_DEPTH && !f.Collision? && Locates(H, leaves, preimage, n, f)
    && (f.InsideLeaf? ==> AreBits(f.sides))
  }

  ghost predicate HasPlace(H: Hash, leaves: seq<Leaf>, preimage: seq<byte>) {
    exists n, f :: IsPlace(H, leaves, preimage, n, f)
  }

  /** Some path hangs the byte string below a leaf, within the depth that is left under the tree. */
  ghost predicate NestedIn(H: Hash, leaves: seq<Leaf>, preimage: seq<byte>) {
    exists i, below, sides :: NestedAt(H, leaves, preimage, i, below, sides)
  }

  ghost predicate NestedAt(H: Hash, leaves: seq<Leaf>, preimage: seq<byte>, i: nat, below: seq<Digest>,
                           sides: seq<byte>)
  {
    && i < |leaves| && Depth(|leaves|) + |below| <= TREE_DEPTH && AreBits(sides)
    && Hangs(H, leaves[i], preimage, below, sides)
  }

  function Padded<T>(values: seq<T>, n: nat, filler: T): (padded: seq<T>)
    ensures |values| <= n ==> |padded| == n
    ensures values <= padded
    ensures forall k :: |values| <= k < |padded| ==> padded[k] == filler
  {
    if |values| >= n then values else Padded(values, n - 1, filler) + [filler]
  }

  function PaddedOpening(leaf: Digest, path: seq<Digest>, sides: seq<byte>): (o: Opening)
    requires |path| == |sides| <= TREE_DEPTH && AreBits(sides)
    ensures o.Shaped() && o.Steps() == |path| && o.path[..|path|] == path && o.indices[..|path|] == sides
  {
    Opening(leaf, Padded(path, TREE_DEPTH, ZERO_DIGEST), Padded(sides, TREE_DEPTH, 0), |path|)
  }

  /** The opening of a place, and what it is found to show. */
  lemma PlaceOpens(H: Hash, leaves: seq<Leaf>, root: Digest, preimage: seq<byte>, n: nat, f: Finding)
    returns (o: Opening)
    requires Commits(H, root, leaves) && IsPlace(H, leaves, preimage, n, f)
    ensures InTree(H, leaves, f) && |PlacePath(H, leaves, f)| == |PlaceSides(H, leaves, f)| == n
    ensures AreBits(PlaceSides(H, leaves, f))
    ensures o == PaddedOpening(H(preimage), PlacePath(H, leaves, f), PlaceSides(H, leaves, f))
    ensures Opens(H, root, o, preimage) && !Open(H, leaves, root, o, preimage).Collision?
  {
    LocateFinds(H, leaves, preimage, n, f);
    o := PaddedOpening(H(preimage), PlacePath(H, leaves, f), PlaceSides(H, leaves, f));
  }

  /**
   Exactly the byte strings with a place can be opened: for every other one an accepted opening
   gives up a collision.
   */
  lemma OpensExactly(H: Hash, leaves: seq<Leaf>, root: Digest, preimage: seq<byte>)
    requires Commits(H, root, leaves)
    ensures (exists o :: Opens(H, root, o, preimage) && !Open(H, leaves, root, o, preimage).Collision?)
      <==> HasPlace(H, leaves, preimage)
  {
    if o :| Opens(H, root, o, preimage) && !Open(H, leaves, root, o, preimage).Collision? {
      assert IsPlace(H, leaves, preimage, o.Steps(), Open(H, leaves, root, o, preimage));
    }
    if n, f :| IsPlace(H, leaves, preimage, n, f) {
      var o := PlaceOpens(H, leaves, root, preimage, n, f);
    }
  }

  /** For a byte string that is not a pair of digests, and not committed, only nesting is left. */
  lemma UncommittedOpensExactly(H: Hash, leaves: seq<Leaf>, root: Digest, preimage: seq<byte>)
    requires Commits(H, root, leaves) && |preimage| != 64
    requires forall i :: 0 <= i < |leaves| ==> leaves[i].Preimage(H) != preimage
    ensures (exists o :: Opens(H, root, o, preimage) && !Open(H, leaves, root, o, preimage).Collision?)
      <==> NestedIn(H, leaves, preimage)
  {
    OpensExactly(H, leaves, root, preimage);
    if n, f :| IsPlace(H, leaves, preimage, n, f) {
      assert NestedAt(H, leaves, preimage, f.index, f.below, f.sides);
    }
    if i: nat, below, sides :| NestedAt(H, leaves, preimage, i, below, sides) {
      NestedHasPlace(H, leaves, preimage, i, below, sides);
    }
  }

  lemma NestedHasPlace(H: Hash, leaves: seq<Leaf>, preimage: seq<byte>, i: nat, below: seq<Digest>, sides: seq<byte>)
    requires NestedAt(H, leaves, preimage, i, below, sides)
    ensures HasPlace(H, leaves, preimage)
  {
    assert IsPlace(H, leaves, preimage, Depth(|leaves|) + |below|, InsideLeaf(i, below, sides));
  }

  // ---------------------------------------------------------------- when nothing can be nested

  /** A condition on the tree alone: it fills the circuit's depth, or no claim hashes 64 bytes. */
  ghost predicate NoRoomBelow(H: Hash, leaves: seq<Leaf>) {
    (leaves != [] && Depth(|leaves|) >= TREE_DEPTH) || forall i :: 0 <= i < |leaves| ==> |leaves[i].Preimage(H)| != 64
  }

  lemma NothingNested(H: Hash, leaves: seq<Leaf>, preimage: seq<byte>)
    requires leaves != [] && NoRoomBelow(H, leaves)
    ensures !NestedIn(H, leaves, preimage)
  {
    forall i: nat, below, sides | i < |leaves| && Hangs(H, leaves[i], preimage, below, sides)
      ensures |leaves[i].Preimage(H)| == 64 && below != []
    {
    }
  }

  /** A value claim whose id is the hash of the byte string nests it, one step below its leaf. */
  lemma ValueClaimNests(H: Hash, leaves: seq<Leaf>, i: nat, name: seq<byte>, preimage: seq<byte>)
    requires i < |leaves| && Depth(|leaves|) < TREE_DEPTH && leaves[i] == Valued(name, H(preimage))
    ensures NestedAt(H, leaves, preimage, i, [H(name)], [1])
  {
    assert [H(name)][..0] == [];
  }
}
