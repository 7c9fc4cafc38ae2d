/**
 The range and validity circuits, read as the assertions of their `main`.

 A soundness theorem says what an accepted witness proves about the tree the root commits to,
 as a statement about the finding a named function extracts from the witness: the committed
 claim, or two byte strings with one hash.  The binding of product and requester asserts a
 value equal to itself and is not part of this model.
 */
module Circuits {
  import opened Hashing
  import opened Merkle
  import opened MerkleSoundness
  import opened Openings

  // ---------------------------------------------------------------- range predicates

  datatype Comparison = AtLeast | AtMost

  predicate Meets(comparison: Comparison, value: u64, threshold: u64) {
    match comparison
    case AtLeast => value >= threshold
    case AtMost => value <= threshold
  }

  datatype RangeWitness = RangeWitness(value: u64, claimType: Digest, unit: Digest, opening: Opening)
  {
    function Preimage(): seq<byte> {
      NumericPreimage(claimType, value, unit)
    }
  }

  /** `inRange` is the circuit's own check that the value is physically sensible. */
  predicate RangeAccepts(H: Hash, comparison: Comparison, inRange: u64 -> bool, threshold: u64, root: Digest,
                         w: RangeWitness)
    requires w.opening.Shaped()
  {
    && w.opening.Accepts(H, root)
    && H(NumericPreimage(w.claimType, w.value, w.unit)) == w.opening.claimHash
    && Meets(comparison, w.value, threshold)
    && inRange(w.value)
  }

  /**
   What an accepted range witness shows, at any private depth and over any tree.  No 72-byte
   claim can pass for an inner node; what is left beside a committed claim is a path deeper
   than the tree that hangs the claim below a leaf.
   */
  function RangeFinding(H: Hash, leaves: seq<Leaf>, comparison: Comparison, inRange: u64 -> bool, threshold: u64,
                        root: Digest, w: RangeWitness): (f: Finding)
    requires Commits(H, root, leaves)
    requires w.opening.Shaped() && RangeAccepts(H, comparison, inRange, threshold, root, w)
    ensures Locates(H, leaves, w.Preimage(), w.opening.Steps(), f) && !f.Inner?
    ensures f.InsideLeaf? ==> NestedAt(H, leaves, w.Preimage(), f.index, f.below, f.sides)
  {
    Open(H, leaves, root, w.opening, w.Preimage())
  }

  /**
   One committed numeric claim has exactly this type hash, value and unit hash, or there is a
   collision.  A free text can be such a claim too, if it is the very 72 bytes.
   */
  ghost predicate IsCommittedValue(H: Hash, leaves: seq<Leaf>, claimType: Digest, value: u64, unit: Digest, f: Finding)
  {
    match f
    case Committed(i) =>
      && i < |leaves|
      && match leaves[i] {
           case Numeric(t, v, u) => claimType == H(t) && value == v && unit == H(u)
           case Document(text) => text == NumericPreimage(claimType, value, unit)
           case _ => false
         }
    case Collision(x, y) => Collide(H, x, y)
    case _ => false
  }

  lemma CommittedValue(H: Hash, leaves: seq<Leaf>, claimType: Digest, value: u64, unit: Digest, n: nat, f: Finding)
    requires leaves != [] && Locates(H, leaves, NumericPreimage(claimType, value, unit), n, f) && !f.InsideLeaf?
    ensures IsCommittedValue(H, leaves, claimType, value, unit, f)
  {
    if f.Committed? && leaves[f.index].Numeric? {
      var leaf := leaves[f.index];
      NumericPreimageInjective(H(leaf.claimType), leaf.value, H(leaf.unit), claimType, value, unit);
    }
  }

  /** Where nothing is nested, and so in every tree without room below, the witness is exactly a committed claim. */
  lemma RangeSoundness(H: Hash, leaves: seq<Leaf>, comparison: Comparison, inRange: u64 -> bool, threshold: u64,
                       root: Digest, w: RangeWitness)
    requires Commits(H, root, leaves)
    requires w.opening.Shaped() && RangeAccepts(H, comparison, inRange, threshold, root, w)
    requires NoRoomBelow(H, leaves) || !NestedIn(H, leaves, w.Preimage())
    ensures IsCommittedValue(H, leaves, w.claimType, w.value, w.unit,
      RangeFinding(H, leaves, comparison, inRange, threshold, root, w))
    ensures comparison.AtLeast? ==> w.value >= threshold
    ensures comparison.AtMost? ==> w.value <= threshold
  {
    if NoRoomBelow(H, leaves) {
      NothingNested(H, leaves, w.Preimage());
    }
    CommittedValue(H, leaves, w.claimType, w.value, w.unit, w.opening.Steps(),
      RangeFinding(H, leaves, comparison, inRange, threshold, root, w));
  }

  /**
   Exactly when the circuit accepts a claim that was never committed, up to collisions: it
   meets the predicate, and some path within the remaining depth hangs it below a leaf.
   */
  lemma RangeExactly(H: Hash, leaves: seq<Leaf>, comparison: Comparison, inRange: u64 -> bool, threshold: u64,
                     root: Digest, claimType: Digest, value: u64, unit: Digest)
    requires Commits(H, root, leaves)
    requires forall i :: 0 <= i < |leaves| ==> leaves[i].Preimage(H) != NumericPreimage(claimType, value, unit)
    ensures (exists o: Opening ::
      AcceptsUnclashed(H, leaves, comparison, inRange, threshold, root, RangeWitness(value, claimType, unit, o)))
      <==>
      && (comparison.AtLeast? ==> value >= threshold) && (comparison.AtMost? ==> value <= threshold) && inRange(value)
      && NestedIn(H, leaves, NumericPreimage(claimType, value, unit))
  {
    var p := NumericPreimage(claimType, value, unit);
    UncommittedOpensExactly(H, leaves, root, p);
    forall o: Opening
      ensures var w := RangeWitness(value, claimType, unit, o);
        AcceptsUnclashed(H, leaves, comparison, inRange, threshold, root, w) <==>
        && Meets(comparison, value, threshold) && inRange(value)
        && Opens(H, root, o, p) && !Open(H, leaves, root, o, p).Collision?
    {
      AcceptsIfOpens(H, leaves, comparison, inRange, threshold, root, RangeWitness(value, claimType, unit, o));
    }
  }

  lemma AcceptsIfOpens(H: Hash, leaves: seq<Leaf>, comparison: Comparison, inRange: u64 -> bool, threshold: u64,
                       root: Digest, w: RangeWitness)
    requires Commits(H, root, leaves)
    ensures AcceptsUnclashed(H, leaves, comparison, inRange, threshold, root, w) <==>
      && Meets(comparison, w.value, threshold) && inRange(w.value)
      && Opens(H, root, w.opening, w.Preimage()) && !Open(H, leaves, root, w.opening, w.Preimage()).Collision?
  {
  }

  ghost predicate AcceptsUnclashed(H: Hash, leaves: seq<Leaf>, comparison: Comparison, inRange: u64 -> bool,
                                   threshold: u64, root: Digest, w: RangeWitness)
    requires Commits(H, root, leaves)
  {
    && w.opening.Shaped() && RangeAccepts(H, comparison, inRange, threshold, root, w)
    && !RangeFinding(H, leaves, comparison, inRange, threshold, root, w).Collision?
  }

  /**
   So range soundness does not hold of every tree: a tree of one value claim, whose id is the
   hash of a numeric claim, commits to no numeric claim, yet that one is accepted at depth one.
   */
  lemma NestedClaimIsAccepted(H: Hash, comparison: Comparison, inRange: u64 -> bool, threshold: u64,
                              name: seq<byte>, claimType: Digest, value: u64, unit: Digest)
    requires (comparison.AtLeast? ==> value >= threshold) && (comparison.AtMost? ==> value <= threshold)
    requires inRange(value)
    ensures var p := NumericPreimage(claimType, value, unit);
      var leaves := [Valued(name, H(p))];
      var w := RangeWitness(value, claimType, unit, PaddedOpening(H(p), [H(name)], [1]));
      && leaves[0].Preimage(H) != p
      && RangeAccepts(H, comparison, inRange, threshold, Root(H, LeafHashes(H, leaves)), w)
      && NestedIn(H, leaves, p)
  {
    var p := NumericPreimage(claimType, value, unit);
    var leaves := [Valued(name, H(p))];
    ValueClaimNests(H, leaves, 0, name, p);
    assert |leaves[0].Preimage(H)| == 64;
    FoldSnoc(H, H(p), [H(name)], [1]);
    assert [H(name)][..0] == [];
  }

  // ---------------------------------------------------------------- validity windows

  datatype WindowWitness = WindowWitness(validFrom: u64, validUntil: u64, claimType: Digest, opening: Opening)
  {
    function Preimage(): seq<byte> {
      WindowPreimage(claimType, validFrom, validUntil)
    }
  }

  predicate WindowAccepts(H: Hash, timestamp: u64, root: Digest, w: WindowWitness)
    requires w.opening.Shaped()
  {
    && w.opening.Accepts(H, root)
    && H(WindowPreimage(w.claimType, w.validFrom, w.validUntil)) == w.opening.claimHash
    && InWindow(timestamp, w.validFrom, w.validUntil)
  }

  predicate InWindow(timestamp: u64, validFrom: u64, validUntil: u64) {
    && timestamp >= validFrom
    && timestamp <= validUntil
    && validUntil > validFrom
  }

  function WindowFinding(H: Hash, leaves: seq<Leaf>, timestamp: u64, root: Digest, w: WindowWitness): (f: Finding)
    requires Commits(H, root, leaves)
    requires w.opening.Shaped() && WindowAccepts(H, timestamp, root, w)
    ensures Locates(H, leaves, w.Preimage(), w.opening.Steps(), f) && !f.Inner?
    ensures f.InsideLeaf? ==> NestedAt(H, leaves, w.Preimage(), f.index, f.below, f.sides)
  {
    Open(H, leaves, root, w.opening, w.Preimage())
  }

  /** One committed window of this type, with these bounds, contains the time, or there is a collision. */
  ghost predicate IsCommittedWindow(H: Hash, leaves: seq<Leaf>, timestamp: u64, w: WindowWitness, f: Finding) {
    match f
    case Committed(i) =>
      && i < |leaves|
      && match leaves[i] {
           case Window(t, validFrom, validUntil) =>
             && w.claimType == H(t) && w.validFrom == validFrom && w.validUntil == validUntil
             && validFrom <= timestamp <= validUntil
           case Document(text) => text == w.Preimage()
           case _ => false
         }
    case Collision(x, y) => Collide(H, x, y)
    case _ => false
  }

  lemma WindowSoundness(H: Hash, leaves: seq<Leaf>, timestamp: u64, root: Digest, w: WindowWitness)
    requires Commits(H, root, leaves)
    requires w.opening.Shaped() && WindowAccepts(H, timestamp, root, w)
    requires NoRoomBelow(H, leaves) || !NestedIn(H, leaves, w.Preimage())
    ensures IsCommittedWindow(H, leaves, timestamp, w, WindowFinding(H, leaves, timestamp, root, w))
  {
    if NoRoomBelow(H, leaves) {
      NothingNested(H, leaves, w.Preimage());
    }
    var f := WindowFinding(H, leaves, timestamp, root, w);
    if f.Committed? && leaves[f.index].Window? {
      var leaf := leaves[f.index];
      WindowPreimageInjective(H(leaf.claimType), leaf.validFrom, leaf.validUntil, w.claimType, w.validFrom,
        w.validUntil);
    }
  }

  ghost predicate WindowUnclashed(H: Hash, leaves: seq<Leaf>, timestamp: u64, root: Digest, w: WindowWitness)
    requires Commits(H, root, leaves)
  {
    && w.opening.Shaped() && WindowAccepts(H, timestamp, root, w)
    && !WindowFinding(H, leaves, timestamp, root, w).Collision?
  }

  /** Exactly when a window that was never committed is accepted, up to collisions. */
  lemma WindowExactly(H: Hash, leaves: seq<Leaf>, timestamp: u64, root: Digest, claimType: Digest, validFrom: u64,
                      validUntil: u64)
    requires Commits(H, root, leaves)
    requires forall i :: 0 <= i < |leaves| ==> leaves[i].Preimage(H) != WindowPreimage(claimType, validFrom, validUntil)
    ensures (exists o: Opening ::
      WindowUnclashed(H, leaves, timestamp, root, WindowWitness(validFrom, validUntil, claimType, o)))
      <==>
      && validFrom <= timestamp <= validUntil && validFrom < validUntil
      && NestedIn(H, leaves, WindowPreimage(claimType, validFrom, validUntil))
  {
    var p := WindowPreimage(claimType, validFrom, validUntil);
    UncommittedOpensExactly(H, leaves, root, p);
    forall o: Opening
      ensures WindowUnclashed(H, leaves, timestamp, root, WindowWitness(validFrom, validUntil, claimType, o)) <==>
        InWindow(timestamp, validFrom, validUntil) && Opens(H, root, o, p) && !Open(H, leaves, root, o, p).Collision?
    {
      WindowIfOpens(H, leaves, timestamp, root, WindowWitness(validFrom, validUntil, claimType, o));
    }
  }

  lemma WindowIfOpens(H: Hash, leaves: seq<Leaf>, timestamp: u64, root: Digest, w: WindowWitness)
    requires Commits(H, root, leaves)
    ensures WindowUnclashed(H, leaves, timestamp, root, w) <==>
      && InWindow(timestamp, w.validFrom, w.validUntil)
      && Opens(H, root, w.opening, w.Preimage()) && !Open(H, leaves, root, w.opening, w.Preimage()).Collision?
  {
  }
}
