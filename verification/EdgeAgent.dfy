/**
 The supplier's agent: it commits to its claims, later rebuilds a proof for one of them, and
 pads that proof to the fixed arrays of the circuits.

 A stored claim is either the leaf its JSON value parses to, or malformed; the parsing itself
 is not part of this model.
 */
module EdgeAgent {
  import opened Hashing
  import opened Merkle
  import opened MerkleSoundness
  import opened Circuits
  import opened Openings
  import opened Wrappers
  import NoirLib
  import SetCircuit
  import SubstanceCircuit

  datatype AgentError =
    | NoClaims
    | ClaimNotFound(id: string)
    | MalformedClaim(id: string)
    | TreeError(error: CommitmentError)
    | Revoked
    | Expired
    | InvalidClaimIndex
    | TooLong(length: nat, limit: nat)

  datatype Claim = Readable(leaf: Leaf) | Malformed

  datatype Commitment = Commitment(root: Digest, claimIds: seq<string>, validUntil: Option<nat>, revoked: bool)

  // ---------------------------------------------------------------- claim hashes

  method HashClaimValue(H: Hash, claimType: Digest, value: u64, unit: Digest) returns (hash: Digest)
    ensures hash == H(NumericPreimage(claimType, value, unit))
    ensures hash == H(claimType + BigEndian(value, 8) + unit)
  {
    var data := new byte[72](_ => 0);
    CopyInto(data, 0, claimType);
    CopyInto(data, 32, BigEndian(value, 8));
    CopyInto(data, 40, unit);
    assert data[..] == NumericPreimage(claimType, value, unit);
    hash := H(data[..]);
  }

  method HashClaimBytes(H: Hash, claimType: Digest, valueHash: Digest) returns (hash: Digest)
    ensures hash == H(Join(claimType, valueHash))
    ensures var t: seq<byte> := claimType; hash == H(t + valueHash)
  {
    var data := new byte[64](_ => 0);
    CopyInto(data, 0, claimType);
    CopyInto(data, 32, valueHash);
    assert data[..] == Join(claimType, valueHash);
    hash := H(data[..]);
  }

  method HashCertWindow(H: Hash, claimType: Digest, validFrom: u64, validUntil: u64) returns (hash: Digest)
    ensures hash == H(WindowPreimage(claimType, validFrom, validUntil))
    ensures hash == H(claimType + BigEndian(validFrom, 8) + BigEndian(validUntil, 8))
  {
    var data := new byte[48](_ => 0);
    CopyInto(data, 0, claimType);
    CopyInto(data, 32, BigEndian(validFrom, 8));
    CopyInto(data, 40, BigEndian(validUntil, 8));
    assert data[..] == WindowPreimage(claimType, validFrom, validUntil);
    hash := H(data[..]);
  }

  const U32: nat := 0x1_0000_0000

  /** The entries a 32-bit index counts below `count`; past 2^32 entries it starts again from zero. */
  function Counted(items: seq<Digest>, count: u32): (counted: seq<Digest>)
    ensures |items| <= U32 ==> counted == items[..NoirLib.Min(count, |items|)]
  {
    if items == [] then []
    else
      var m := |items| - 1;
      var front := Counted(items[..m], count);
      assert |items| <= U32 && m < count ==> items[..m + 1] == items[..m] + [items[m]];
      assert |items| <= U32 ==> items[..m][..NoirLib.Min(count, m)] == items[..NoirLib.Min(count, m)];
      if m % U32 < count then front + [items[m]] else front
  }

  /** The index is truncated to 32 bits before it is compared, as `i as u32` is. */
  method HashSubstanceList(H: Hash, domain: Tag, claimType: Digest, substances: seq<Digest>, count: u32)
    returns (hash: Digest)
    ensures hash == HashList(H, domain, claimType, Counted(substances, count))
    ensures |substances| <= U32 ==>
      hash == HashList(H, domain, claimType, substances[..NoirLib.Min(count, |substances|)])
  {
    var seed := new byte[36](_ => 0);
    CopyInto(seed, 0, domain);
    CopyInto(seed, 4, claimType);
    assert seed[..] == SeedPreimage(domain, claimType);
    hash := H(seed[..]);
    for i := 0 to |substances|
      invariant hash == HashList(H, domain, claimType, Counted(substances[..i], count))
    {
      assert substances[..i + 1][..i] == substances[..i];
      if i % U32 < count {
        var chain := Counted(substances[..i], count);
        assert (chain + [substances[i]])[..|chain|] == chain;
        hash := HashClaimBytes(H, hash, substances[i]);
      }
    }
    assert substances[..|substances|] == substances;
  }

  function AgentHash(H: Hash, leaf: Leaf): Digest {
    match leaf
    case Substances(t, items) => HashList(H, SUBSTANCE_PRODUCT, H(t), Counted(items, |items| % U32))
    case _ => leaf.LeafHash(H)
  }

  /** Every leaf hashes to its own preimage, except a list whose length does not fit 32 bits. */
  method ComputeClaimHash(H: Hash, leaf: Leaf) returns (hash: Digest)
    ensures hash == AgentHash(H, leaf)
    ensures (leaf.Substances? ==> |leaf.items| < U32) ==> hash == leaf.LeafHash(H)
  {
    match leaf {
      case Numeric(t, v, u) => hash := HashClaimValue(H, H(t), v, H(u));
      case Window(t, f, u) => hash := HashCertWindow(H, H(t), f, u);
      case Valued(t, v) => hash := HashClaimBytes(H, H(t), v);
      case Substances(t, items) =>
        hash := HashSubstanceList(H, SUBSTANCE_PRODUCT, H(t), items, |items| % U32);
      case Document(text) => hash := H(text);
    }
    AgentHashIsLeafHash(H, leaf);
  }

  lemma AgentHashIsLeafHash(H: Hash, leaf: Leaf)
    ensures (leaf.Substances? ==> |leaf.items| < U32) ==> AgentHash(H, leaf) == leaf.LeafHash(H)
  {
    if leaf.Substances? {
      assert leaf.items[..|leaf.items|] == leaf.items;
    }
  }

  // ---------------------------------------------------------------- commitments and proofs

  function AgentHashes(H: Hash, leaves: seq<Leaf>): (hashes: seq<Digest>)
    ensures |hashes| == |leaves|
  {
    seq(|leaves|, i requires 0 <= i < |leaves| => AgentHash(H, leaves[i]))
  }

  /** The agent's hashes are the leaves' own, as long as every list can be counted in 32 bits. */
  lemma AgentHashesAreLeafHashes(H: Hash, leaves: seq<Leaf>)
    requires forall i :: 0 <= i < |leaves| && leaves[i].Substances? ==> |leaves[i].items| < U32
    ensures AgentHashes(H, leaves) == LeafHashes(H, leaves)
  {
    forall i | 0 <= i < |leaves|
      ensures AgentHashes(H, leaves)[i] == LeafHashes(H, leaves)[i]
    {
      AgentHashIsLeafHash(H, leaves[i]);
    }
  }

  /** The leaves named by `ids`, or the first problem met. */
  function LoadLeaves(claims: map<string, Claim>, ids: seq<string>): (r: Result<seq<Leaf>, AgentError>)
    ensures r.Ok? ==> |r.value| == |ids| && forall i :: 0 <= i < |ids| ==>
      ids[i] in claims && claims[ids[i]] == Readable(r.value[i])
  {
    if ids == [] then Ok([])
    else
      var last := ids[|ids| - 1];
      match LoadLeaves(claims, ids[..|ids| - 1])
      case Err(e) => Err(e)
      case Ok(front) =>
        if last !in claims then Err(ClaimNotFound(last))
        else if claims[last].Malformed? then Err(MalformedClaim(last))
        else Ok(front + [claims[last].leaf])
  }

  /** The problem is that of the first id in order that has one: it is unknown, or its claim is malformed. */
  lemma {:induction false} FirstProblem(claims: map<string, Claim>, ids: seq<string>) returns (i: nat)
    requires LoadLeaves(claims, ids).Err?
    ensures i < |ids| && (forall j :: 0 <= j < i ==> ids[j] in claims && claims[ids[j]].Readable?)
    ensures ids[i] !in claims ==> LoadLeaves(claims, ids) == Err(ClaimNotFound(ids[i]))
    ensures ids[i] in claims ==> claims[ids[i]].Malformed? && LoadLeaves(claims, ids) == Err(MalformedClaim(ids[i]))
    decreases |ids|
  {
    var front := ids[..|ids| - 1];
    if LoadLeaves(claims, front).Err? {
      i := FirstProblem(claims, front);
    } else {
      i := |ids| - 1;
      assert forall j :: 0 <= j < |front| ==> front[j] == ids[j];
    }
  }

  /** The loop both commands run: load each claim, hash it, push the hash. */
  method LoadHashes(H: Hash, claims: map<string, Claim>, ids: seq<string>) returns (r: Result<seq<Digest>, AgentError>)
    ensures LoadLeaves(claims, ids).Ok? ==> r == Ok(AgentHashes(H, LoadLeaves(claims, ids).value))
    ensures LoadLeaves(claims, ids).Err? ==> r == Err(LoadLeaves(claims, ids).error)
  {
    var hashes: seq<Digest> := [];
    ghost var leaves: seq<Leaf> := [];
    for i := 0 to |ids|
      invariant LoadLeaves(claims, ids[..i]) == Ok(leaves)
      invariant hashes == AgentHashes(H, leaves)
    {
      assert ids[..i + 1][..i] == ids[..i];
      if ids[i] !in claims {
        LoadErrorStays(claims, ids, i + 1);
        return Err(ClaimNotFound(ids[i]));
      }
      match claims[ids[i]]
      case Malformed =>
        LoadErrorStays(claims, ids, i + 1);
        return Err(MalformedClaim(ids[i]));
      case Readable(leaf) =>
        var hash := ComputeClaimHash(H, leaf);
        assert AgentHashes(H, leaves + [leaf]) == AgentHashes(H, leaves) + [AgentHash(H, leaf)];
        hashes := hashes + [hash];
        leaves := leaves + [leaf];
    }
    assert ids[..|ids|] == ids;
    r := Ok(hashes);
  }

  lemma {:induction false} LoadErrorStays(claims: map<string, Claim>, ids: seq<string>, i: nat)
    requires i <= |ids| && LoadLeaves(claims, ids[..i]).Err?
    ensures LoadLeaves(claims, ids) == LoadLeaves(claims, ids[..i])
    decreases |ids|
  {
    if i < |ids| {
      var front := ids[..|ids| - 1];
      assert front[..i] == ids[..i];
      LoadErrorStays(claims, front, i);
    } else {
      assert ids[..i] == ids;
    }
  }

  method CreateCommitment(H: Hash, claims: map<string, Claim>, ids: seq<string>, validUntil: Option<nat>)
    returns (r: Result<Commitment, AgentError>)
    ensures ids == [] ==> r == Err(NoClaims)
    ensures ids != [] && LoadLeaves(claims, ids).Err? ==> r == Err(LoadLeaves(claims, ids).error)
    ensures ids != [] && LoadLeaves(claims, ids).Ok? ==>
      r == if |ids| > 0x1_0000_0000 then Err(TreeError(DepthExceeded(32)))
           else Ok(Commitment(Root(H, AgentHashes(H, LoadLeaves(claims, ids).value)), ids, validUntil, false))
  {
    if ids == [] {
      return Err(NoClaims);
    }
    var loaded := LoadHashes(H, claims, ids);
    match loaded
    case Err(e) => return Err(e);
    case Ok(hashes) =>
      var built := Build(H, hashes);
      match built
      case Err(e) => return Err(TreeError(e));
      case Ok(tree) =>
        LevelsAreTree(H, hashes);
        r := Ok(Commitment(tree.GetRoot(), ids, validUntil, false));
  }

  /** The first reason not to prove a claim, in the order the command looks for them. */
  function Refusal(claims: map<string, Claim>, commitment: Commitment, index: nat, now: nat): Option<AgentError> {
    if commitment.revoked then Some(Revoked)
    else if commitment.validUntil.Some? && now > commitment.validUntil.value then Some(Expired)
    else if index >= |commitment.claimIds| then Some(InvalidClaimIndex)
    else if commitment.claimIds[index] !in claims then Some(ClaimNotFound(commitment.claimIds[index]))
    else
      match LoadLeaves(claims, commitment.claimIds)
      case Err(e) => Some(e)
      case Ok(_) => if |commitment.claimIds| > 0x1_0000_0000 then Some(TreeError(DepthExceeded(32))) else None
  }

  method GenerateProof(H: Hash, claims: map<string, Claim>, commitment: Commitment, index: nat, now: nat)
    returns (r: Result<MerkleProof, AgentError>)
    ensures Refusal(claims, commitment, index, now).Some? ==> r == Err(Refusal(claims, commitment, index, now).value)
    ensures commitment.revoked ==> r == Err(Revoked)
    ensures !commitment.revoked && commitment.validUntil.Some? && now > commitment.validUntil.value ==>
      r == Err(Expired)
    ensures !commitment.revoked && commitment.validUntil.None? && index >= |commitment.claimIds| ==>
      r == Err(InvalidClaimIndex)
    ensures r.Ok? <==>
      && !commitment.revoked
      && (commitment.validUntil.Some? ==> now <= commitment.validUntil.value)
      && index < |commitment.claimIds| <= 0x1_0000_0000
      && LoadLeaves(claims, commitment.claimIds).Ok?
    ensures r.Ok? ==>
      var hashes := AgentHashes(H, LoadLeaves(claims, commitment.claimIds).value);
      r.value == ProofOf(H, hashes, index)
  {
    if commitment.revoked {
      return Err(Revoked);
    }
    if commitment.validUntil.Some? && now > commitment.validUntil.value {
      return Err(Expired);
    }
    if index >= |commitment.claimIds| {
      return Err(InvalidClaimIndex);
    }
    if commitment.claimIds[index] !in claims {
      MissingIsError(claims, commitment.claimIds, index);
      return Err(ClaimNotFound(commitment.claimIds[index]));
    }
    var loaded := LoadHashes(H, claims, commitment.claimIds);
    match loaded
    case Err(e) => return Err(e);
    case Ok(hashes) =>
      var built := Build(H, hashes);
      match built
      case Err(e) => return Err(TreeError(e));
      case Ok(tree) =>
        var proof := Prove(H, tree, index);
        r := Ok(proof);
  }

  lemma {:induction false} MissingIsError(claims: map<string, Claim>, ids: seq<string>, index: nat)
    requires index < |ids| && ids[index] !in claims
    ensures LoadLeaves(claims, ids).Err?
    decreases |ids|
  {
    if index < |ids| - 1 {
      MissingIsError(claims, ids[..|ids| - 1], index);
    }
  }

  /**
   A rebuilt proof is valid for the stored root exactly when the rebuilt root is the stored one.
   It is if no committed claim's hash has changed, and if one has, the two lists of hashes give
   up a collision.
   */
  lemma RebuiltProof(H: Hash, before: seq<Leaf>, now: seq<Leaf>, i: nat)
    requires |before| == |now| && i < |now|
    ensures var stored, hashes := LeafHashes(H, before), LeafHashes(H, now);
      Fold(H, hashes[i], PathOf(H, hashes, i), SidesOf(|hashes|, i)) == Root(H, stored) <==>
      Root(H, hashes) == Root(H, stored)
    ensures var stored, hashes := LeafHashes(H, before), LeafHashes(H, now);
      && (hashes == stored ==> Root(H, hashes) == Root(H, stored))
      && (hashes != stored && Root(H, hashes) == Root(H, stored) ==>
            var clash := BindingCollision(H, stored, hashes); Collide(H, clash.0, clash.1))
  {
    PathFoldsToRoot(H, LeafHashes(H, now), i);
  }

  // ---------------------------------------------------------------- padding

  /** `pad_merkle_path`, `pad_merkle_indices` and `pad_substances` are this loop with their own filler. */
  method Pad<T>(values: seq<T>, n: nat, filler: T) returns (r: Result<seq<T>, AgentError>)
    ensures |values| > n ==> r == Err(TooLong(|values|, n))
    ensures |values| <= n ==> r == Ok(Padded(values, n, filler))
  {
    if |values| > n {
      return Err(TooLong(|values|, n));
    }
    var padded := values;
    while |padded| < n
      invariant |values| <= |padded| <= n
      invariant padded == Padded(values, |padded|, filler)
    {
      padded := padded + [filler];
    }
    r := Ok(padded);
  }

  /** The circuit's check of a padded path is the Rust check of the path itself. */
  lemma PaddingIsInvisible(H: Hash, leaf: Digest, path: seq<Digest>, sides: seq<byte>, root: Digest, n: nat)
    requires |path| == |sides| <= n < U32
    ensures NoirLib.PathAccepts(H, leaf, Padded(path, n, ZERO_DIGEST), Padded(sides, n, 0), root, |path|)
      <==> Fold(H, leaf, path, sides) == root
  {
    assert Padded(path, n, ZERO_DIGEST)[..|path|] == path;
    assert Padded(sides, n, 0)[..|path|] == sides;
  }

  /** The circuit's chain over a padded list with its count is the Rust chain over the list. */
  lemma ListPaddingIsInvisible(H: Hash, domain: Tag, claimType: Digest, values: seq<Digest>, n: nat)
    requires |values| <= n
    ensures HashList(H, domain, claimType, Padded(values, n, ZERO_DIGEST)[..NoirLib.Min(|values|, n)])
      == HashList(H, domain, claimType, values)
  {
    assert Padded(values, n, ZERO_DIGEST)[..|values|] == values;
  }

  /** A tree's paths fit the circuits' arrays exactly when it has at most 256 leaves. */
  lemma PaddingFits(H: Hash, leaves: seq<Digest>, i: nat)
    requires i < |leaves|
    ensures |PathOf(H, leaves, i)| <= TREE_DEPTH <==> |leaves| <= 256
  {
    DepthIsCeilLog2(|leaves|, TREE_DEPTH);
    assert Pow2(8) == 256;
  }

  /** What the substance circuit is given: the path and both lists, each padded or refused. */
  method SubstanceInputs(H: Hash, name: seq<byte>, items: seq<Digest>, forbidden: seq<Digest>, proof: MerkleProof)
    returns (r: Result<SubstanceCircuit.Witness, AgentError>)
    ensures r.Ok?
      <==> |proof.path| <= 8 && |proof.indices| <= 8 && |items| <= 32 && |forbidden| <= 64
    ensures r.Ok? && |proof.path| == |proof.indices| && AreBits(proof.indices) ==>
      var opening := PaddedOpening(proof.leaf, proof.path, proof.indices);
      r.value == SubstanceCircuit.WitnessOf(H, name, forbidden, items, opening)
  {
    var path :- Pad(proof.path, TREE_DEPTH, ZERO_DIGEST);
    var indices :- Pad(proof.indices, TREE_DEPTH, 0);
    var products :- Pad(items, SubstanceCircuit.MAX_PRODUCT_SUBSTANCES, ZERO_DIGEST);
    var padded :- Pad(forbidden, SubstanceCircuit.MAX_FORBIDDEN_SUBSTANCES, ZERO_DIGEST);
    var opening := Opening(proof.leaf, path, indices, |proof.path| % U32);
    r := Ok(SubstanceCircuit.Witness(products, |items| % U32, padded, |forbidden| % U32, H(name), opening));
  }

  // ---------------------------------------------------------------- from claims to circuit

  /** At most 256 committed claims, none of which has changed since. */
  ghost predicate Unchanged(claims: map<string, Claim>, later: map<string, Claim>, ids: seq<string>) {
    && |ids| <= 256 && LoadLeaves(claims, ids).Ok?
    && forall id :: id in ids ==> id in later && later[id] == claims[id]
  }

  ghost function CommittedRoot(H: Hash, claims: map<string, Claim>, ids: seq<string>): Digest
    requires ids != [] && LoadLeaves(claims, ids).Ok?
  {
    Root(H, LeafHashes(H, LoadLeaves(claims, ids).value))
  }

  /** The agent's proof for one leaf, padded to the circuits' arrays. */
  ghost function AgentOpening(H: Hash, leaves: seq<Leaf>, i: nat): (o: Opening)
    requires i < |leaves| <= 256
    ensures o.Shaped() && o.claimHash == leaves[i].LeafHash(H) && o.Accepts(H, Root(H, LeafHashes(H, leaves)))
  {
    var hashes := LeafHashes(H, leaves);
    PaddingFits(H, hashes, i);
    PathFoldsToRoot(H, hashes, i);
    PaddingIsInvisible(H, hashes[i], PathOf(H, hashes, i), SidesOf(|hashes|, i), Root(H, hashes), TREE_DEPTH);
    PaddedOpening(hashes[i], PathOf(H, hashes, i), SidesOf(|hashes|, i))
  }

  /** The opening the agent rebuilds from the claims as they are now is accepted under the root stored before. */
  lemma HonestOpening(H: Hash, claims: map<string, Claim>, later: map<string, Claim>, ids: seq<string>, index: nat)
    requires index < |ids| && Unchanged(claims, later, ids)
    ensures LoadLeaves(later, ids) == LoadLeaves(claims, ids)
    ensures var o := AgentOpening(H, LoadLeaves(later, ids).value, index);
      o.Accepts(H, CommittedRoot(H, claims, ids)) && o.claimHash == claims[ids[index]].leaf.LeafHash(H)
  {
    UnchangedLeaves(claims, later, ids);
  }

  /**
   The range circuit accepts the agent's own witness for a numeric claim exactly when the claim
   meets the predicate.
   */
  lemma HonestRangeProof(H: Hash, claims: map<string, Claim>, later: map<string, Claim>, ids: seq<string>, index: nat,
                         comparison: Comparison, inRange: u64 -> bool, threshold: u64)
    requires index < |ids| && Unchanged(claims, later, ids) && claims[ids[index]].leaf.Numeric?
    ensures LoadLeaves(later, ids) == LoadLeaves(claims, ids)
    ensures var leaf := claims[ids[index]].leaf;
      var opening := AgentOpening(H, LoadLeaves(later, ids).value, index);
      var w := RangeWitness(leaf.value, H(leaf.claimType), H(leaf.unit), opening);
      RangeAccepts(H, comparison, inRange, threshold, CommittedRoot(H, claims, ids), w)
      <==>
      && (comparison.AtLeast? ==> leaf.value >= threshold)
      && (comparison.AtMost? ==> leaf.value <= threshold) && inRange(leaf.value)
  {
    HonestOpening(H, claims, later, ids, index);
  }

  /** The validity circuit, exactly when the committed window contains the time. */
  lemma HonestWindowProof(H: Hash, claims: map<string, Claim>, later: map<string, Claim>, ids: seq<string>, index: nat,
                          timestamp: u64)
    requires index < |ids| && Unchanged(claims, later, ids) && claims[ids[index]].leaf.Window?
    ensures LoadLeaves(later, ids) == LoadLeaves(claims, ids)
    ensures var leaf := claims[ids[index]].leaf;
      var opening := AgentOpening(H, LoadLeaves(later, ids).value, index);
      WindowAccepts(H, timestamp, CommittedRoot(H, claims, ids),
        WindowWitness(leaf.validFrom, leaf.validUntil, H(leaf.claimType), opening))
      <==> leaf.validFrom <= timestamp <= leaf.validUntil && leaf.validFrom < leaf.validUntil
  {
    HonestOpening(H, claims, later, ids, index);
  }

  /** A set circuit, exactly when the committed value is on the list or off it, as configured; the list has to fit. */
  lemma HonestSetProof(H: Hash, claims: map<string, Claim>, later: map<string, Claim>, ids: seq<string>, index: nat,
                       c: SetCircuit.Circuit, s: seq<Digest>)
    requires index < |ids| && Unchanged(claims, later, ids) && claims[ids[index]].leaf.Valued?
    requires |s| <= c.maxSize
    ensures LoadLeaves(later, ids) == LoadLeaves(claims, ids)
    ensures var leaf := claims[ids[index]].leaf;
      var opening := AgentOpening(H, LoadLeaves(later, ids).value, index);
      var w := SetCircuit.WitnessOf(H, c, leaf.claimType, s, leaf.valueHash, opening);
      SetCircuit.Accepts(H, c, HashList(H, c.domain, H(leaf.claimType), s), CommittedRoot(H, claims, ids), w)
      <==> (leaf.valueHash in s <==> c.member)
  {
    var leaf := claims[ids[index]].leaf;
    HonestOpening(H, claims, later, ids, index);
    var opening := AgentOpening(H, LoadLeaves(later, ids).value, index);
    SetCircuit.OpenedIsJudged(H, c, leaf.claimType, s, leaf.valueHash, CommittedRoot(H, claims, ids), opening);
  }

  /** The substance circuit, exactly when the committed list is free of forbidden items; both lists have to fit. */
  lemma HonestSubstanceProof(H: Hash, claims: map<string, Claim>, later: map<string, Claim>, ids: seq<string>,
                             index: nat, forbidden: seq<Digest>)
    requires index < |ids| && Unchanged(claims, later, ids) && claims[ids[index]].leaf.Substances?
    requires SubstanceCircuit.Fits(claims[ids[index]].leaf.items, forbidden)
    ensures LoadLeaves(later, ids) == LoadLeaves(claims, ids)
    ensures var leaf := claims[ids[index]].leaf;
      var opening := AgentOpening(H, LoadLeaves(later, ids).value, index);
      var w := SubstanceCircuit.WitnessOf(H, leaf.claimType, forbidden, leaf.items, opening);
      var listHash := HashList(H, SUBSTANCE_FORBIDDEN, H(leaf.claimType), forbidden);
      SubstanceCircuit.Accepts(H, listHash, CommittedRoot(H, claims, ids), w)
      <==> forall i, j :: 0 <= i < |leaf.items| && 0 <= j < |forbidden| ==> leaf.items[i] != forbidden[j]
  {
    SubstanceCircuit.DisjointEntries(claims[ids[index]].leaf.items, forbidden);
    HonestOpening(H, claims, later, ids, index);
  }

  lemma {:induction false} UnchangedLeaves(claims: map<string, Claim>, later: map<string, Claim>, ids: seq<string>)
    requires LoadLeaves(claims, ids).Ok?
    requires forall id :: id in ids ==> id in later && later[id] == claims[id]
    ensures LoadLeaves(later, ids) == LoadLeaves(claims, ids)
  {
    if ids != [] {
      UnchangedLeaves(claims, later, ids[..|ids| - 1]);
      assert ids[|ids| - 1] in ids;
    }
  }
}
