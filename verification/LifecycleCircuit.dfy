/** The circuit that bounds the total of several committed lifecycle values. */
module LifecycleCircuit {
  import opened Hashing
  import opened Merkle
  import opened MerkleSoundness
  import opened Circuits
  import opened Openings
  import NoirLib

  const U64: nat := 0x1_0000_0000_0000_0000

  datatype Stage = Stage(value: u64, claimType: Digest, unit: Digest, opening: Opening)
  {
    function Preimage(): seq<byte> {
      NumericPreimage(claimType, value, unit)
    }
  }

  ghost predicate Shaped(stages: seq<Stage>) {
    forall i :: 0 <= i < |stages| ==> stages[i].opening.Shaped()
  }

  function Sum(stages: seq<Stage>): nat {
    if stages == [] then 0 else Sum(stages[..|stages| - 1]) + stages[|stages| - 1].value
  }

  predicate StageAccepts(H: Hash, root: Digest, stage: Stage)
    requires stage.opening.Shaped()
  {
    && stage.opening.Accepts(H, root)
    && H(NumericPreimage(stage.claimType, stage.value, stage.unit)) == stage.opening.claimHash
  }

  lemma SumSnoc(stages: seq<Stage>, stage: Stage)
    ensures Sum([]) == 0 && Sum(stages + [stage]) == Sum(stages) + stage.value
  {
    assert (stages + [stage])[..|stages|] == stages;
  }

  /** What acceptance means, with the total taken over the integers. */
  ghost predicate Accepts(H: Hash, inRange: u64 -> bool, threshold: u64, root: Digest, stages: seq<Stage>)
    requires Shaped(stages)
  {
    && (forall i :: 0 <= i < |stages| ==> StageAccepts(H, root, stages[i]) && inRange(stages[i].value))
    && Sum(stages) <= threshold
  }

  /**
   The running total, which wraps at 2^64, with a guard after each addition.  The guards pass
   exactly when no addition wrapped, and then the total is the true one.
   */
  method GuardedTotal(stages: seq<Stage>) returns (ok: bool, total: u64)
    ensures ok <==> Sum(stages) < U64
    ensures ok ==> total == Sum(stages)
  {
    total := 0;
    for i := 0 to |stages|
      invariant total == Sum(stages[..i])
    {
      SumOfPrefix(stages, i);
      SumGrows(stages, i + 1);
      total := (total + stages[i].value) % U64;
      if total < stages[i].value {
        return false, total;
      }
    }
    assert stages[..|stages|] == stages;
    ok := true;
  }

  /** The circuit accepts exactly when every stage opens and the true total is within the threshold. */
  method CircuitMain(H: Hash, inRange: u64 -> bool, threshold: u64, root: Digest, stages: seq<Stage>)
    returns (accepted: bool)
    requires Shaped(stages)
    ensures accepted <==> Accepts(H, inRange, threshold, root, stages)
    ensures accepted <==>
      && (forall i :: 0 <= i < |stages| ==> StageAccepts(H, root, stages[i]) && inRange(stages[i].value))
      && Sum(stages) <= threshold
  {
    for i := 0 to |stages|
      invariant forall k :: 0 <= k < i ==> StageAccepts(H, root, stages[k])
    {
      var opening := stages[i].opening;
      var valid := NoirLib.VerifyMerkleProof(H, opening.claimHash, opening.path, opening.indices, root,
        opening.treeDepth);
      if !valid {
        return false;
      }
      var computed := NoirLib.HashClaimValue(H, stages[i].claimType, stages[i].value, stages[i].unit);
      var equal := NoirLib.BytesEqual(computed, opening.claimHash);
      if !equal {
        return false;
      }
    }

    var noOverflow, total := GuardedTotal(stages);
    if !noOverflow {
      return false;
    }
    if total > threshold {
      return false;
    }
    for i := 0 to |stages|
      invariant forall k :: 0 <= k < i ==> inRange(stages[k].value)
    {
      if !inRange(stages[i].value) {
        return false;
      }
    }
    accepted := true;
  }

  lemma SumOfPrefix(stages: seq<Stage>, i: nat)
    requires i < |stages|
    ensures Sum(stages[..i + 1]) == Sum(stages[..i]) + stages[i].value
  {
    assert stages[..i + 1][..i] == stages[..i];
  }

  lemma {:induction false} SumGrows(stages: seq<Stage>, i: nat)
    requires i <= |stages|
    ensures Sum(stages[..i]) <= Sum(stages)
    decreases |stages| - i
  {
    if i == |stages| {
      assert stages[..i] == stages;
    } else {
      SumOfPrefix(stages, i);
      SumGrows(stages, i + 1);
    }
  }

  /** What an accepted stage shows, at any private depth and over any tree. */
  function StageFinding(H: Hash, leaves: seq<Leaf>, root: Digest, stage: Stage): (f: Finding)
    requires Commits(H, root, leaves)
    requires stage.opening.Shaped() && StageAccepts(H, root, stage)
    ensures Locates(H, leaves, stage.Preimage(), stage.opening.Steps(), f) && !f.Inner?
    ensures f.InsideLeaf? ==> NestedAt(H, leaves, stage.Preimage(), f.index, f.below, f.sides)
  {
    Open(H, leaves, root, stage.opening, stage.Preimage())
  }

  /** A stage whose claim is nested nowhere is a committed claim, so the bound is on committed values. */
  lemma Soundness(H: Hash, leaves: seq<Leaf>, inRange: u64 -> bool, threshold: u64, root: Digest, stages: seq<Stage>,
                  i: nat)
    requires Commits(H, root, leaves)
    requires Shaped(stages) && Accepts(H, inRange, threshold, root, stages) && i < |stages|
    requires NoRoomBelow(H, leaves) || !NestedIn(H, leaves, stages[i].Preimage())
    ensures stages[i].value <= Sum(stages) <= threshold
    ensures IsCommittedValue(H, leaves, stages[i].claimType, stages[i].value, stages[i].unit,
      StageFinding(H, leaves, root, stages[i]))
  {
    SumOfPrefix(stages, i);
    SumGrows(stages, i + 1);
    var stage := stages[i];
    if NoRoomBelow(H, leaves) {
      NothingNested(H, leaves, stage.Preimage());
    }
    CommittedValue(H, leaves, stage.claimType, stage.value, stage.unit, stage.opening.Steps(),
      StageFinding(H, leaves, root, stage));
  }

  ghost predicate StageUnclashed(H: Hash, leaves: seq<Leaf>, root: Digest, stage: Stage)
    requires Commits(H, root, leaves)
  {
    stage.opening.Shaped() && StageAccepts(H, root, stage) && !StageFinding(H, leaves, root, stage).Collision?
  }

  /** Exactly when a stage is accepted for a claim that was never committed, up to collisions. */
  lemma StageExactly(H: Hash, leaves: seq<Leaf>, root: Digest, claimType: Digest, value: u64, unit: Digest)
    requires Commits(H, root, leaves)
    requires forall i :: 0 <= i < |leaves| ==> leaves[i].Preimage(H) != NumericPreimage(claimType, value, unit)
    ensures (exists o: Opening :: StageUnclashed(H, leaves, root, Stage(value, claimType, unit, o)))
      <==> NestedIn(H, leaves, NumericPreimage(claimType, value, unit))
  {
    var p := NumericPreimage(claimType, value, unit);
    UncommittedOpensExactly(H, leaves, root, p);
    forall o: Opening
      ensures StageUnclashed(H, leaves, root, Stage(value, claimType, unit, o)) <==>
        Opens(H, root, o, p) && !Open(H, leaves, root, o, p).Collision?
    {
      UnclashedIfOpens(H, leaves, root, Stage(value, claimType, unit, o));
    }
  }

  lemma UnclashedIfOpens(H: Hash, leaves: seq<Leaf>, root: Digest, stage: Stage)
    requires Commits(H, root, leaves)
    ensures StageUnclashed(H, leaves, root, stage) <==>
      Opens(H, root, stage.opening, stage.Preimage())
        && !Open(H, leaves, root, stage.opening, stage.Preimage()).Collision?
  {
  }
}
