/**
 The set-membership circuit: a committed value is, or is not, on a public list.  A witness is
 `Accepts`-ed exactly if its assertions hold; soundness is stated for the finding that a named
 function extracts from it.
 */
module SetCircuit {
  import opened Hashing
  import opened Merkle
  import opened MerkleSoundness
  import opened ListBinding
  import opened Openings
  import NoirLib

  /** What the template leaves open: domain separator, MAX_SET_SIZE, and whether to be on the list or off it. */
  datatype Circuit = Circuit(domain: Tag, maxSize: u32, member: bool)

  datatype Witness = Witness(value: Digest, claimType: Digest, elements: seq<Digest>, setSize: u32, opening: Opening) {
    /** The circuit's arrays have a fixed length; the count says how much of the list is meant. */
    predicate Shaped(c: Circuit) {
      opening.Shaped() && |elements| == c.maxSize
    }

    function Elements(): seq<Digest> {
      elements[..NoirLib.Min(setSize, |elements|)]
    }
  }

  predicate Accepts(H: Hash, c: Circuit, setHash: Digest, root: Digest, w: Witness)
    requires w.Shaped(c)
  {
    && w.opening.Accepts(H, root)
    && H(Join(w.claimType, w.value)) == w.opening.claimHash
    && HashList(H, c.domain, w.claimType, w.Elements()) == setHash
    && (w.value in w.Elements() <==> c.member)
  }

  method CircuitMain(H: Hash, c: Circuit, setHash: Digest, root: Digest, w: Witness) returns (accepted: bool)
    requires w.Shaped(c)
    ensures accepted <==> Accepts(H, c, setHash, root, w)
  {
    var valid := NoirLib.VerifyMerkleProof(H, w.opening.claimHash, w.opening.path, w.opening.indices, root,
      w.opening.treeDepth);
    if !valid {
      return false;
    }
    var claimHash := NoirLib.HashPair(H, w.claimType, w.value);
    if claimHash != w.opening.claimHash {
      return false;
    }
    var computed := NoirLib.HashSubstanceList(H, c.domain, w.claimType, w.elements, w.setSize);
    if computed != setHash {
      return false;
    }
    var found := false;
    for i := 0 to |w.elements|
      invariant found <==> w.value in w.elements[..NoirLib.Min(w.setSize, i)]
    {
      if i < w.setSize {
        assert w.elements[..i + 1] == w.elements[..i] + [w.elements[i]];
        var equal := NoirLib.BytesEqual(w.value, w.elements[i]);
        if equal {
          found := true;
        }
      }
    }
    accepted := found == c.member;
  }

  // ---------------------------------------------------------------- what acceptance shows

  /**
   The prover used the named type and the list `s`, and its value is found in or below the tree, or
   there is a collision.
   */
  ghost predicate IsFinding(H: Hash, leaves: seq<Leaf>, name: seq<byte>, s: seq<Digest>, member: bool, w: Witness,
                            f: Finding)
    requires leaves != []
  {
    if f.Collision? then Collide(H, f.x, f.y)
    else
      && w.claimType == H(name) && w.Elements() == s && (w.value in s <==> member)
      && Locates(H, leaves, Join(H(name), w.value), w.opening.Steps(), f)
      && (f.InsideLeaf? ==> NestedAt(H, leaves, Join(H(name), w.value), f.index, f.below, f.sides))
  }

  /** The public hash was made from the list `s` under the claim type named `name`; any tree, any private depth. */
  function SetFinding(H: Hash, leaves: seq<Leaf>, c: Circuit, name: seq<byte>, s: seq<Digest>,
                      root: Digest, w: Witness): (f: Finding)
    requires Commits(H, root, leaves)
    requires w.Shaped(c) && Accepts(H, c, HashList(H, c.domain, H(name), s), root, w)
    ensures IsFinding(H, leaves, name, s, c.member, w, f)
  {
    if w.claimType != H(name) || w.Elements() != s then
      var clash := ListCollision(H, c.domain, w.claimType, w.Elements(), H(name), s);
      Collision(clash.0, clash.1)
    else
      Open(H, leaves, root, w.opening, Join(w.claimType, w.value))
  }

  ghost predicate AcceptsUnclashed(H: Hash, leaves: seq<Leaf>, c: Circuit, name: seq<byte>, s: seq<Digest>,
                                   root: Digest, w: Witness)
    requires Commits(H, root, leaves)
  {
    && w.Shaped(c) && Accepts(H, c, HashList(H, c.domain, H(name), s), root, w)
    && !SetFinding(H, leaves, c, name, s, root, w).Collision?
  }

  /**
   Exactly the values that are accepted for the list `s`, up to collisions: those on, or off,
   the list whose claim has a place in the tree or below one of its leaves.  The list has to fit
   the circuit's array.
   */
  lemma SetExactly(H: Hash, leaves: seq<Leaf>, c: Circuit, name: seq<byte>, s: seq<Digest>, root: Digest, value: Digest)
    requires Commits(H, root, leaves)
    ensures (exists w: Witness :: w.value == value && AcceptsUnclashed(H, leaves, c, name, s, root, w))
      <==> |s| <= c.maxSize && (value in s <==> c.member) && HasPlace(H, leaves, Join(H(name), value))
  {
    var p := Join(H(name), value);
    OpensExactly(H, leaves, root, p);
    if w: Witness :| w.value == value && AcceptsUnclashed(H, leaves, c, name, s, root, w) {
      AcceptedOpens(H, leaves, c, name, s, root, w);
    }
    if |s| <= c.maxSize && (value in s <==> c.member) {
      if o :| Opens(H, root, o, p) && !Open(H, leaves, root, o, p).Collision? {
        OpenedAccepts(H, leaves, c, name, s, root, value, o);
      }
    }
  }

  lemma AcceptedOpens(H: Hash, leaves: seq<Leaf>, c: Circuit, name: seq<byte>, s: seq<Digest>, root: Digest, w: Witness)
    requires Commits(H, root, leaves) && AcceptsUnclashed(H, leaves, c, name, s, root, w)
    ensures Opens(H, root, w.opening, Join(H(name), w.value))
    ensures !Open(H, leaves, root, w.opening, Join(H(name), w.value)).Collision?
    ensures |s| <= c.maxSize && (w.value in s <==> c.member)
  {
  }

  lemma OpenedAccepts(H: Hash, leaves: seq<Leaf>, c: Circuit, name: seq<byte>, s: seq<Digest>, root: Digest,
                      value: Digest, o: Opening)
    requires Commits(H, root, leaves) && |s| <= c.maxSize && (value in s <==> c.member)
    requires Opens(H, root, o, Join(H(name), value)) && !Open(H, leaves, root, o, Join(H(name), value)).Collision?
    ensures AcceptsUnclashed(H, leaves, c, name, s, root, WitnessOf(H, c, name, s, value, o))
  {
  }

  /** The list is padded to the circuit's array, and its length is the count. */
  function WitnessOf(H: Hash, c: Circuit, name: seq<byte>, s: seq<Digest>, value: Digest, o: Opening): (w: Witness)
    requires |s| <= c.maxSize && o.Shaped()
    ensures w.Shaped(c) && w.Elements() == s && w.value == value && w.claimType == H(name) && w.opening == o
  {
    Witness(value, H(name), Padded(s, c.maxSize, ZERO_DIGEST), |s|, o)
  }

  lemma JudgedByList(H: Hash, c: Circuit, setHash: Digest, root: Digest, w: Witness, s: seq<Digest>)
    requires w.Shaped(c) && w.opening.Accepts(H, root) && w.opening.claimHash == H(Join(w.claimType, w.value))
    requires w.Elements() == s && HashList(H, c.domain, w.claimType, s) == setHash
    ensures Accepts(H, c, setHash, root, w) <==> (w.value in s <==> c.member)
  {
  }

  /** An opened value is judged by the list alone. */
  lemma OpenedIsJudged(H: Hash, c: Circuit, name: seq<byte>, s: seq<Digest>, value: Digest, root: Digest, o: Opening)
    requires |s| <= c.maxSize && Opens(H, root, o, Join(H(name), value))
    ensures Accepts(H, c, HashList(H, c.domain, H(name), s), root, WitnessOf(H, c, name, s, value, o))
      <==> (value in s <==> c.member)
  {
    var w := WitnessOf(H, c, name, s, value, o);
    JudgedByList(H, c, HashList(H, c.domain, H(name), s), root, w, s);
  }

  // ---------------------------------------------------------------- soundness

  /**
   The claim is the value under `name`, or another claim that hashes the very same pair: a text
   that is those bytes, or a list that ends in the value, if `name` is the chain before it.
   */
  ghost predicate StandsFor(H: Hash, leaf: Leaf, name: seq<byte>, value: Digest) {
    match leaf
    case Valued(t, v) => t == name && v == value
    case Document(text) => text == Join(H(name), value)
    case Substances(t, items) =>
      && items != [] && value == items[|items| - 1]
      && name == ListPreimage(H, SUBSTANCE_PRODUCT, H(t), items[..|items| - 1])
    case _ => false
  }

  /** `name` is the very byte string hashed at the node `j` of level `k`. */
  predicate NamesNode(H: Hash, leaves: seq<Leaf>, k: nat, j: nat, name: seq<byte>)
    requires leaves != []
  {
    var levels := Levels(H, LeafHashes(H, leaves));
    && k < |levels| && j < |levels[k]|
    && if k == 0 then j < |leaves| && leaves[j].Preimage(H) == name
       else 2 * j < |levels[k - 1]| && PairPreimage(levels[k - 1], j) == name
  }

  /** A type hash that equals a node of the tree gives up a collision, unless the node hashes the name itself. */
  function NodeOrName(H: Hash, leaves: seq<Leaf>, k: nat, j: nat, name: seq<byte>): (clash: (seq<byte>, seq<byte>))
    requires leaves != [] && !NamesNode(H, leaves, k, j, name)
    requires var levels := Levels(H, LeafHashes(H, leaves)); k < |levels| && j < |levels[k]| && levels[k][j] == H(name)
    ensures Collide(H, clash.0, clash.1)
  {
    LevelsAreTree(H, LeafHashes(H, leaves));
    var levels := Levels(H, LeafHashes(H, leaves));
    if k == 0 then (leaves[j].Preimage(H), name)
    else
      assert levels[k] == NextLevel(H, levels[k - 1]);
      (PairPreimage(levels[k - 1], j), name)
  }

  /** What a caller can look up about the claims and the name: they are told apart by their bytes or their lengths. */
  ghost predicate Distinguishable(H: Hash, leaves: seq<Leaf>, name: seq<byte>, steps: nat)
    requires leaves != []
  {
    && (steps < Depth(|leaves|) ==> |name| != 64 && forall i :: 0 <= i < |leaves| ==> leaves[i].Preimage(H) != name)
    && (forall i :: 0 <= i < |leaves| ==>
          && (leaves[i].Document? ==> |leaves[i].text| != 64)
          && (leaves[i].Substances? ==> |name| != 36 && |name| != 64))
  }

  /**
   The finding, followed down to what hashes the value's pair: a claim that stands for it, a node
   whose left half hashes the name itself, or a place below a leaf.
   */
  function SetExtract(H: Hash, leaves: seq<Leaf>, c: Circuit, name: seq<byte>, s: seq<Digest>, root: Digest, w: Witness)
    : (f: Finding)
    requires Commits(H, root, leaves)
    requires w.Shaped(c) && Accepts(H, c, HashList(H, c.domain, H(name), s), root, w)
    ensures IsFinding(H, leaves, name, s, c.member, w, f)
    ensures f.Committed? ==> StandsFor(H, leaves[f.index], name, w.value)
    ensures f.Inner? ==> f.height > 0 && NamesNode(H, leaves, f.height - 1, 2 * f.index, name)
  {
    var f := SetFinding(H, leaves, c, name, s, root, w);
    if f.Collision? then f else Followed(H, leaves, name, w.value, w.opening.Steps(), f)
  }

  function Followed(H: Hash, leaves: seq<Leaf>, name: seq<byte>, value: Digest, steps: nat, found: Finding)
    : (f: Finding)
    requires leaves != [] && Locates(H, leaves, Join(H(name), value), steps, found)
    ensures f == found || (f.Collision? && Collide(H, f.x, f.y))
    ensures f.Committed? ==> f.index < |leaves| && StandsFor(H, leaves[f.index], name, value)
    ensures f.Inner? ==> f.height > 0 && NamesNode(H, leaves, f.height - 1, 2 * f.index, name)
  {
    match found
    case Committed(i) => ValueOrCollision(H, leaves, name, value, i)
    case Inner(h, i) => NameOrCollision(H, leaves, name, value, h, i)
    case _ => found
  }

  function NameOrCollision(H: Hash, leaves: seq<Leaf>, name: seq<byte>, value: Digest, h: nat, i: nat): (f: Finding)
    requires leaves != []
    requires var levels := Levels(H, LeafHashes(H, leaves));
      0 < h < |levels| && 2 * i < |levels[h - 1]| && Join(H(name), value) == PairPreimage(levels[h - 1], i)
    ensures f == Inner(h, i) || (f.Collision? && Collide(H, f.x, f.y))
    ensures f == Inner(h, i) ==> NamesNode(H, leaves, h - 1, 2 * i, name)
  {
    var below := Levels(H, LeafHashes(H, leaves))[h - 1];
    JoinInjective(H(name), value, below[2 * i], below[Sibling(|below|, 2 * i)]);
    if NamesNode(H, leaves, h - 1, 2 * i, name) then Inner(h, i)
    else
      var clash := NodeOrName(H, leaves, h - 1, 2 * i, name);
      Collision(clash.0, clash.1)
  }

  function ValueOrCollision(H: Hash, leaves: seq<Leaf>, name: seq<byte>, value: Digest, i: nat): (f: Finding)
    requires i < |leaves| && leaves[i].Preimage(H) == Join(H(name), value)
    ensures f == Committed(i) || (f.Collision? && Collide(H, f.x, f.y))
    ensures f == Committed(i) ==> StandsFor(H, leaves[i], name, value)
  {
    match leaves[i]
    case Valued(t, v) =>
      JoinInjective(H(t), v, H(name), value);
      if t == name then Committed(i) else Collision(t, name)
    case Substances(t, items) =>
      assert items != [];
      var n := |items| - 1;
      var step := ListPreimage(H, SUBSTANCE_PRODUCT, H(t), items[..n]);
      assert HashList(H, SUBSTANCE_PRODUCT, H(t), items[..n]) == H(step);
      JoinInjective(H(step), items[n], H(name), value);
      if step == name then Committed(i) else Collision(step, name)
    case _ => Committed(i)
  }

  /**
   Where nothing is nested, and so in every tree that fills the circuit's depth, the value has a
   claim that stands for it, or a node that hashes the name; where names and claims can be told
   apart it is a committed claim of the type.
   */
  lemma SetSoundness(H: Hash, leaves: seq<Leaf>, c: Circuit, name: seq<byte>, s: seq<Digest>, root: Digest, w: Witness)
    requires Commits(H, root, leaves)
    requires w.Shaped(c) && Accepts(H, c, HashList(H, c.domain, H(name), s), root, w)
    requires NoRoomBelow(H, leaves) || w.opening.Steps() <= Depth(|leaves|)
      || !NestedIn(H, leaves, Join(H(name), w.value))
    ensures var f := SetExtract(H, leaves, c, name, s, root, w);
      && (f.Collision? ==> Collide(H, f.x, f.y))
      && (!f.Collision? ==> IsMember(H, leaves, name, w.value, w.opening.Steps(), f) && (w.value in s <==> c.member))
  {
    if NoRoomBelow(H, leaves) {
      NothingNested(H, leaves, Join(H(name), w.value));
    }
  }

  /** A claim that stands for the value, at the tree's depth, or a node that hashes the name, further up. */
  ghost predicate IsMember(H: Hash, leaves: seq<Leaf>, name: seq<byte>, value: Digest, steps: nat, f: Finding)
    requires leaves != []
  {
    match f
    case Committed(i) =>
      && i < |leaves| && StandsFor(H, leaves[i], name, value)
      && (Distinguishable(H, leaves, name, steps) ==> leaves[i] == Valued(name, value))
    case Inner(h, i) =>
      steps < Depth(|leaves|) && h > 0 && NamesNode(H, leaves, h - 1, 2 * i, name)
        && !Distinguishable(H, leaves, name, steps)
    case _ => false
  }

  /**
   So set soundness does not hold of every tree: where a committed id is the hash of another
   claim of the type, that claim's value is accepted one step below, though it was never committed.
   */
  lemma NestedMemberIsAccepted(H: Hash, domain: Tag, maxSize: u32, other: seq<byte>, name: seq<byte>, s: seq<Digest>,
                               value: Digest)
    requires |s| <= maxSize
    ensures var (c, p) := (Circuit(domain, maxSize, value in s), Join(H(name), value));
      var leaves := [Valued(other, H(p))];
      var w := WitnessOf(H, c, name, s, value, PaddedOpening(H(p), [H(other)], [1]));
      && Accepts(H, c, HashList(H, domain, H(name), s), Root(H, LeafHashes(H, leaves)), w)
      && NestedIn(H, leaves, p)
      && (H(p) != value ==> leaves[0] != Valued(name, value))
  {
    var p := Join(H(name), value);
    var leaves := [Valued(other, H(p))];
    ValueClaimNests(H, leaves, 0, other, p);
    FoldSnoc(H, H(p), [H(other)], [1]);
    assert [H(other)][..0] == [];
  }
}
