/** The circuit that shows no substance of a committed list is on a forbidden list. */
module SubstanceCircuit {
  import opened Hashing
  import opened Merkle
  import opened MerkleSoundness
  import opened ListBinding
  import opened Openings
  import opened Wrappers
  import NoirLib

  const MAX_PRODUCT_SUBSTANCES: u32 := 32
  const MAX_FORBIDDEN_SUBSTANCES: u32 := 64

  datatype Witness = Witness(products: seq<Digest>, productCount: u32, forbidden: seq<Digest>, forbiddenCount: u32,
                             claimType: Digest, opening: Opening) {
    /** The circuit's arrays have a fixed length; the counts say how much of them is meant. */
    predicate Shaped() {
      opening.Shaped() && |products| == MAX_PRODUCT_SUBSTANCES && |forbidden| == MAX_FORBIDDEN_SUBSTANCES
    }

    function Products(): seq<Digest> {
      products[..NoirLib.Min(productCount, |products|)]
    }

    function Forbidden(): seq<Digest> {
      forbidden[..NoirLib.Min(forbiddenCount, |forbidden|)]
    }
  }

  predicate Disjoint(xs: seq<Digest>, ys: seq<Digest>) {
    forall x :: x in xs ==> x !in ys
  }

  lemma DisjointEntries(xs: seq<Digest>, ys: seq<Digest>)
    ensures Disjoint(xs, ys) <==> forall i, j :: 0 <= i < |xs| && 0 <= j < |ys| ==> xs[i] != ys[j]
  {
    if !Disjoint(xs, ys) {
      var x :| x in xs && x in ys;
      var i, j :| 0 <= i < |xs| && 0 <= j < |ys| && xs[i] == x && ys[j] == x;
    } else {
      forall i, j | 0 <= i < |xs| && 0 <= j < |ys|
        ensures xs[i] != ys[j]
      {
        assert xs[i] in xs && ys[j] in ys;
      }
    }
  }

  predicate Accepts(H: Hash, listHash: Digest, root: Digest, w: Witness)
    requires w.Shaped()
  {
    && w.opening.Accepts(H, root)
    && HashList(H, SUBSTANCE_FORBIDDEN, w.claimType, w.Forbidden()) == listHash
    && HashList(H, SUBSTANCE_PRODUCT, w.claimType, w.Products()) == w.opening.claimHash
    && Disjoint(w.Products(), w.Forbidden())
  }

  method CircuitMain(H: Hash, listHash: Digest, root: Digest, w: Witness) returns (accepted: bool)
    requires w.Shaped()
    ensures accepted <==> Accepts(H, listHash, root, w)
  {
    var valid := NoirLib.VerifyMerkleProof(H, w.opening.claimHash, w.opening.path, w.opening.indices, root,
      w.opening.treeDepth);
    var forbiddenHash := NoirLib.HashSubstanceList(H, SUBSTANCE_FORBIDDEN, w.claimType, w.forbidden, w.forbiddenCount);
    var productHash := NoirLib.HashSubstanceList(H, SUBSTANCE_PRODUCT, w.claimType, w.products, w.productCount);
    if !valid || forbiddenHash != listHash || productHash != w.opening.claimHash {
      return false;
    }
    accepted := true;
    for i := 0 to |w.products|
      invariant accepted <==> Disjoint(w.products[..NoirLib.Min(w.productCount, i)], w.Forbidden())
    {
      if i < w.productCount {
        assert w.products[..i + 1] == w.products[..i] + [w.products[i]];
        for j := 0 to |w.forbidden|
          invariant accepted <==>
            && Disjoint(w.products[..i], w.Forbidden())
            && w.products[i] !in w.forbidden[..NoirLib.Min(w.forbiddenCount, j)]
        {
          if j < w.forbiddenCount {
            assert w.forbidden[..j + 1] == w.forbidden[..j] + [w.forbidden[j]];
            var isMatch := NoirLib.BytesEqual(w.products[i], w.forbidden[j]);
            if isMatch {
              accepted := false;
            }
          }
        }
      }
    }
  }

  // ---------------------------------------------------------------- following a chain down

  /**
   The claim is the list `items` under `name`, or another claim that hashes the very bytes of its
   chain: a text that is those bytes, or a value claim under a type whose name is the chain so far.
   */
  ghost predicate Spells(H: Hash, leaf: Leaf, name: seq<byte>, items: seq<Digest>) {
    match leaf
    case Substances(t, xs) => t == name && xs == items
    case Document(text) => text == ListPreimage(H, SUBSTANCE_PRODUCT, H(name), items)
    case Valued(t, v) =>
      && items != [] && v == items[|items| - 1]
      && t == ListPreimage(H, SUBSTANCE_PRODUCT, H(name), items[..|items| - 1])
    case _ => false
  }

  /**
   What a caller can see of the claims: no text, and no type name of a value claim, is as long as a
   chain preimage.
   */
  ghost predicate Plain(leaves: seq<Leaf>) {
    forall i :: 0 <= i < |leaves| ==>
      && (leaves[i].Document? ==> |leaves[i].text| != 36 && |leaves[i].text| != 64)
      && (leaves[i].Valued? ==> |leaves[i].claimType| != 36 && |leaves[i].claimType| != 64)
  }

  /** A claim spells `items` without its last `k` entries. */
  ghost predicate SpellsFront(H: Hash, leaves: seq<Leaf>, i: nat, k: nat, name: seq<byte>, items: seq<Digest>) {
    i < |leaves| && k <= |items| && Spells(H, leaves[i], name, items[..|items| - k])
  }

  ghost predicate StartsCommitted(H: Hash, leaves: seq<Leaf>, k: nat, name: seq<byte>, items: seq<Digest>, f: Finding) {
    match f
    case Committed(i) => SpellsFront(H, leaves, i, k, name, items)
    case Collision(x, y) => Collide(H, x, y)
    case _ => false
  }

  /**
   A chain whose hash is the node `j` of level `k`.  Each chain step is a pair whose left half
   is the chain so far, so each level peels off one item, down to a claim that spells the rest.
   */
  function ListLeaf(H: Hash, leaves: seq<Leaf>, k: nat, j: nat, name: seq<byte>, items: seq<Digest>): (f: Finding)
    requires leaves != []
    requires var levels := Levels(H, LeafHashes(H, leaves));
      k < |levels| && j < |levels[k]| && levels[k][j] == HashList(H, SUBSTANCE_PRODUCT, H(name), items)
    ensures StartsCommitted(H, leaves, k, name, items, f)
    decreases k
  {
    LevelsAreTree(H, LeafHashes(H, leaves));
    var levels := Levels(H, LeafHashes(H, leaves));
    if k == 0 then
      assert items[..|items|] == items;
      LeafOfList(H, leaves[j], j, name, items)
    else
      assert levels[k] == NextLevel(H, levels[k - 1]);
      var clash := PairOrClash(H, levels[k - 1], j, name, items);
      if clash.Some? then Collision(clash.value.0, clash.value.1)
      else
        var front := items[..|items| - 1];
        FrontOfFront(items, k);
        ListLeaf(H, leaves, k - 1, 2 * j, name, front)
  }

  lemma FrontOfFront(items: seq<Digest>, k: nat)
    requires items != [] && k > 0
    ensures k <= |items| ==> items[..|items| - 1][..|items| - 1 - (k - 1)] == items[..|items| - k]
  {
  }

  /** A pair that hashes as a chain is its last step, with the chain before it on the left; or the two clash. */
  function PairOrClash(H: Hash, level: seq<Digest>, j: nat, name: seq<byte>, items: seq<Digest>)
    : (clash: Option<(seq<byte>, seq<byte>)>)
    requires 2 * j < |level|
    requires H(PairPreimage(level, j)) == HashList(H, SUBSTANCE_PRODUCT, H(name), items)
    ensures clash.Some? ==> Collide(H, clash.value.0, clash.value.1)
    ensures clash.None? ==>
      items != [] && level[2 * j] == HashList(H, SUBSTANCE_PRODUCT, H(name), items[..|items| - 1])
  {
    var (chain, pair) := (ListPreimage(H, SUBSTANCE_PRODUCT, H(name), items), PairPreimage(level, j));
    if chain != pair then Some((chain, pair))
    else
      var n := |items| - 1;
      var front := HashList(H, SUBSTANCE_PRODUCT, H(name), items[..n]);
      JoinInjective(front, items[n], level[2 * j], level[Sibling(|level|, 2 * j)]);
      None
  }

  function LeafOfList(H: Hash, leaf: Leaf, i: nat, name: seq<byte>, items: seq<Digest>): (f: Finding)
    requires leaf.LeafHash(H) == HashList(H, SUBSTANCE_PRODUCT, H(name), items)
    ensures f.Committed? || f.Collision?
    ensures f.Committed? ==> f.index == i && Spells(H, leaf, name, items)
    ensures f.Collision? ==> Collide(H, f.x, f.y)
  {
    var chain := ListPreimage(H, SUBSTANCE_PRODUCT, H(name), items);
    if leaf.Preimage(H) != chain then Collision(leaf.Preimage(H), chain)
    else
      match leaf
      case Substances(t, xs) =>
        if H(t) != H(name) || xs != items then
          var clash := ListCollision(H, SUBSTANCE_PRODUCT, H(t), xs, H(name), items);
          Collision(clash.0, clash.1)
        else if t != name then Collision(t, name)
        else Committed(i)
      case Valued(t, v) =>
        var n := |items| - 1;
        JoinInjective(H(t), v, HashList(H, SUBSTANCE_PRODUCT, H(name), items[..n]), items[n]);
        var step := ListPreimage(H, SUBSTANCE_PRODUCT, H(name), items[..n]);
        if t == step then Committed(i) else Collision(t, step)
      case _ => Committed(i)
  }

  // ---------------------------------------------------------------- what acceptance shows

  /**
   The prover used the forbidden list, its products are disjoint from it, and their chain has a
   place, or there is a collision.
   */
  ghost predicate IsFinding(H: Hash, leaves: seq<Leaf>, name: seq<byte>, forbidden: seq<Digest>, w: Witness, f: Finding)
    requires leaves != []
  {
    if f.Collision? then Collide(H, f.x, f.y)
    else
      && w.claimType == H(name) && w.Forbidden() == forbidden && Disjoint(w.Products(), forbidden)
      && Locates(H, leaves, ListPreimage(H, SUBSTANCE_PRODUCT, H(name), w.Products()), w.opening.Steps(), f)
      && (f.InsideLeaf? ==>
            NestedAt(H, leaves, ListPreimage(H, SUBSTANCE_PRODUCT, H(name), w.Products()), f.index, f.below, f.sides))
  }

  /** The public hash was made from the list `forbidden` under the type named `name`; any tree, any private depth. */
  function ListFinding(H: Hash, leaves: seq<Leaf>, name: seq<byte>, forbidden: seq<Digest>, root: Digest, w: Witness)
    : (f: Finding)
    requires Commits(H, root, leaves)
    requires w.Shaped() && Accepts(H, HashList(H, SUBSTANCE_FORBIDDEN, H(name), forbidden), root, w)
    ensures IsFinding(H, leaves, name, forbidden, w, f)
  {
    if w.claimType != H(name) || w.Forbidden() != forbidden then
      var clash := ListCollision(H, SUBSTANCE_FORBIDDEN, w.claimType, w.Forbidden(), H(name), forbidden);
      Collision(clash.0, clash.1)
    else
      Open(H, leaves, root, w.opening, ListPreimage(H, SUBSTANCE_PRODUCT, H(name), w.Products()))
  }

  ghost predicate AcceptsUnclashed(H: Hash, leaves: seq<Leaf>, name: seq<byte>, forbidden: seq<Digest>, root: Digest,
                                   w: Witness)
    requires Commits(H, root, leaves)
  {
    && w.Shaped() && Accepts(H, HashList(H, SUBSTANCE_FORBIDDEN, H(name), forbidden), root, w)
    && !ListFinding(H, leaves, name, forbidden, root, w).Collision?
  }

  /** Exactly the product lists that are accepted, up to collisions: both lists have to fit the circuit's arrays. */
  lemma ListExactly(H: Hash, leaves: seq<Leaf>, name: seq<byte>, forbidden: seq<Digest>, root: Digest,
                    products: seq<Digest>)
    requires Commits(H, root, leaves)
    ensures (exists w: Witness :: w.Products() == products && AcceptsUnclashed(H, leaves, name, forbidden, root, w))
      <==>
      && Fits(products, forbidden) && Disjoint(products, forbidden)
      && HasPlace(H, leaves, ListPreimage(H, SUBSTANCE_PRODUCT, H(name), products))
  {
    var p := ListPreimage(H, SUBSTANCE_PRODUCT, H(name), products);
    OpensExactly(H, leaves, root, p);
    if w: Witness :| w.Products() == products && AcceptsUnclashed(H, leaves, name, forbidden, root, w) {
      AcceptedOpens(H, leaves, name, forbidden, root, w);
    }
    if Fits(products, forbidden) && Disjoint(products, forbidden) {
      if o :| Opens(H, root, o, p) && !Open(H, leaves, root, o, p).Collision? {
        OpenedAccepts(H, leaves, name, forbidden, root, WitnessOf(H, name, forbidden, products, o));
      }
    }
  }

  lemma AcceptedOpens(H: Hash, leaves: seq<Leaf>, name: seq<byte>, forbidden: seq<Digest>, root: Digest, w: Witness)
    requires Commits(H, root, leaves) && AcceptsUnclashed(H, leaves, name, forbidden, root, w)
    ensures var p := ListPreimage(H, SUBSTANCE_PRODUCT, H(name), w.Products());
      Opens(H, root, w.opening, p) && !Open(H, leaves, root, w.opening, p).Collision?
    ensures Fits(w.Products(), forbidden) && Disjoint(w.Products(), forbidden)
  {
  }

  lemma OpenedAccepts(H: Hash, leaves: seq<Leaf>, name: seq<byte>, forbidden: seq<Digest>, root: Digest, w: Witness)
    requires Commits(H, root, leaves) && w.Shaped() && Disjoint(w.Products(), forbidden)
    requires w.claimType == H(name) && w.Forbidden() == forbidden
    requires var p := ListPreimage(H, SUBSTANCE_PRODUCT, H(name), w.Products());
      Opens(H, root, w.opening, p) && !Open(H, leaves, root, w.opening, p).Collision?
    ensures AcceptsUnclashed(H, leaves, name, forbidden, root, w)
  {
  }

  predicate Fits(products: seq<Digest>, forbidden: seq<Digest>) {
    |products| <= MAX_PRODUCT_SUBSTANCES && |forbidden| <= MAX_FORBIDDEN_SUBSTANCES
  }

  /** The witness an agent hands to the circuit: both lists padded, with their counts. */
  function WitnessOf(H: Hash, name: seq<byte>, forbidden: seq<Digest>, products: seq<Digest>, o: Opening): (w: Witness)
    requires Fits(products, forbidden) && o.Shaped()
    ensures w.Shaped() && w.Products() == products && w.Forbidden() == forbidden && w.claimType == H(name)
    ensures w.opening == o
  {
    Witness(Padded(products, MAX_PRODUCT_SUBSTANCES, ZERO_DIGEST), |products|,
            Padded(forbidden, MAX_FORBIDDEN_SUBSTANCES, ZERO_DIGEST), |forbidden|, H(name), o)
  }

  // ---------------------------------------------------------------- soundness

  /** The finding, followed down to the committed list that starts the witness list. */
  function ListExtract(H: Hash, leaves: seq<Leaf>, name: seq<byte>, forbidden: seq<Digest>, root: Digest, w: Witness)
    : (f: Finding)
    requires Commits(H, root, leaves)
    requires w.Shaped() && Accepts(H, HashList(H, SUBSTANCE_FORBIDDEN, H(name), forbidden), root, w)
    ensures IsClear(H, leaves, name, forbidden, w, f)
  {
    LevelsAreTree(H, LeafHashes(H, leaves));
    var f := ListFinding(H, leaves, name, forbidden, root, w);
    match f
    case Committed(i) => ListLeaf(H, leaves, 0, i, name, w.Products())
    case Inner(h, i) =>
      LevelAbove(H, LeafHashes(H, leaves), h - 1);
      ListLeaf(H, leaves, h, i, name, w.Products())
    case _ => f
  }

  /**
   A claim spells the witness list, without as many of its last items as the path is short of the
   tree, and none of them is forbidden; or the witness chain is nested below a leaf, by a depth
   beyond the tree's; or there is a collision.
   */
  ghost predicate IsClear(H: Hash, leaves: seq<Leaf>, name: seq<byte>, forbidden: seq<Digest>, w: Witness, f: Finding)
    requires leaves != []
  {
    match f
    case Committed(i) =>
      && w.opening.Steps() <= Depth(|leaves|)
      && SpellsFront(H, leaves, i, Depth(|leaves|) - w.opening.Steps(), name, w.Products())
      && Disjoint(w.Products(), forbidden)
    case InsideLeaf(i, below, sides) =>
      && NestedAt(H, leaves, ListPreimage(H, SUBSTANCE_PRODUCT, H(name), w.Products()), i, below, sides)
      && w.opening.Steps() == Depth(|leaves|) + |below|
    case Collision(x, y) => Collide(H, x, y)
    case Inner(_, _) => false
  }

  /**
   Where nothing is nested, and so in every tree without room below, a claim spells the beginning
   of a list free of forbidden items.  Among plain claims it is a committed list of the type.
   */
  lemma Soundness(H: Hash, leaves: seq<Leaf>, name: seq<byte>, forbidden: seq<Digest>, root: Digest, w: Witness)
    requires Commits(H, root, leaves)
    requires w.Shaped() && Accepts(H, HashList(H, SUBSTANCE_FORBIDDEN, H(name), forbidden), root, w)
    requires NoRoomBelow(H, leaves) || w.opening.Steps() <= Depth(|leaves|)
      || !NestedIn(H, leaves, ListPreimage(H, SUBSTANCE_PRODUCT, H(name), w.Products()))
    ensures var f := ListExtract(H, leaves, name, forbidden, root, w);
      && (f.Committed? || f.Collision?)
      && (f.Committed? ==>
            && SpellsFront(H, leaves, f.index, Depth(|leaves|) - w.opening.Steps(), name, w.Products())
            && Disjoint(w.Products(), forbidden)
            && (Plain(leaves) ==> leaves[f.index].Substances?)
            && (leaves[f.index].Substances? ==>
              leaves[f.index].claimType == name && Disjoint(leaves[f.index].items, forbidden)))
      && (f.Collision? ==> Collide(H, f.x, f.y))
  {
    if NoRoomBelow(H, leaves) {
      NothingNested(H, leaves, ListPreimage(H, SUBSTANCE_PRODUCT, H(name), w.Products()));
    }
  }

  /**
   An agent can commit to a list longer than the circuit's array, but never prove anything of it:
   where every list of the type is too long, what is accepted at the tree's depth is a claim that
   is no list but spells one, which no plain claim does, or it shows a collision.
   */
  lemma LongListIsNeverProved(H: Hash, leaves: seq<Leaf>, name: seq<byte>, forbidden: seq<Digest>, root: Digest,
                              w: Witness)
    requires Commits(H, root, leaves)
    requires w.Shaped() && Accepts(H, HashList(H, SUBSTANCE_FORBIDDEN, H(name), forbidden), root, w)
    requires w.opening.Steps() == Depth(|leaves|)
    requires forall i :: 0 <= i < |leaves| && leaves[i].Substances? && leaves[i].claimType == name ==>
      |leaves[i].items| > MAX_PRODUCT_SUBSTANCES
    ensures var f := ListExtract(H, leaves, name, forbidden, root, w);
      && (f.Committed? || f.Collision?)
      && (f.Committed? ==>
        SpellsFront(H, leaves, f.index, 0, name, w.Products()) && !leaves[f.index].Substances? && !Plain(leaves))
      && (f.Collision? ==> Collide(H, f.x, f.y))
  {
    Soundness(H, leaves, name, forbidden, root, w);
    assert w.Products()[..|w.Products()|] == w.Products();
    assert |w.Products()| <= MAX_PRODUCT_SUBSTANCES;
  }

  // ---------------------------------------------------------------- lists nest their own beginnings

  function Zeros(n: nat): seq<byte> {
    seq(n, i => 0)
  }

  /** Chaining the rest of a list onto the hash of its beginning. */
  lemma {:induction false} ChainFolds(H: Hash, tag: Tag, t: Digest, front: seq<Digest>, rest: seq<Digest>)
    ensures Fold(H, HashList(H, tag, t, front), rest, Zeros(|rest|)) == HashList(H, tag, t, front + rest)
    decreases |rest|
  {
    if rest == [] {
      assert front + rest == front;
    } else {
      var m := |rest| - 1;
      ChainFolds(H, tag, t, front, rest[..m]);
      FoldSnoc(H, HashList(H, tag, t, front), rest, Zeros(|rest|));
      assert Zeros(|rest|)[..m] == Zeros(m);
      assert (front + rest)[..|front + rest| - 1] == front + rest[..m];
    }
  }

  /** The beginning of a committed list hangs below the list's own leaf, by the items it leaves off. */
  lemma PrefixNests(H: Hash, leaves: seq<Leaf>, i: nat, name: seq<byte>, items: seq<Digest>, k: nat)
    requires i < |leaves| && leaves[i] == Substances(name, items) && k < |items|
    requires Depth(|leaves|) + (|items| - k) <= TREE_DEPTH
    ensures NestedAt(H, leaves, ListPreimage(H, SUBSTANCE_PRODUCT, H(name), items[..k]), i, items[k..],
      Zeros(|items| - k))
  {
    var rest := items[k..];
    RestHangs(H, H(name), items, k, rest);
    assert |Zeros(|rest|)| == |rest|;
  }

  lemma RestHangs(H: Hash, t: Digest, items: seq<Digest>, k: nat, rest: seq<Digest>)
    requires k < |items| && rest == items[k..]
    ensures var (m, zeros) := (|rest| - 1, Zeros(|rest|));
      JoinPreimage(Fold(H, HashList(H, SUBSTANCE_PRODUCT, t, items[..k]), rest[..m], zeros[..m]), rest[m], zeros[m])
        == ListPreimage(H, SUBSTANCE_PRODUCT, t, items)
  {
    var m := |rest| - 1;
    ChainFolds(H, SUBSTANCE_PRODUCT, t, items[..k], rest[..m]);
    assert Zeros(|rest|)[..m] == Zeros(m);
    assert items[..k] + rest[..m] == items[..|items| - 1];
  }

  /**
   So soundness does not hold of every tree: of a committed list whose last items are forbidden,
   the beginning alone is accepted, at a depth beyond the tree's.
   */
  lemma ForbiddenTailIsAccepted(H: Hash, leaves: seq<Leaf>, i: nat, name: seq<byte>, items: seq<Digest>, k: nat,
                                forbidden: seq<Digest>, root: Digest)
    requires Commits(H, root, leaves) && i < |leaves| && leaves[i] == Substances(name, items) && k < |items|
    requires Depth(|leaves|) + (|items| - k) <= TREE_DEPTH
    requires Fits(items[..k], forbidden) && Disjoint(items[..k], forbidden)
    ensures exists w: Witness :: w.Products() == items[..k] && AcceptsUnclashed(H, leaves, name, forbidden, root, w)
  {
    PrefixNests(H, leaves, i, name, items, k);
    var p := ListPreimage(H, SUBSTANCE_PRODUCT, H(name), items[..k]);
    NestedHasPlace(H, leaves, p, i, items[k..], Zeros(|items| - k));
    ListExactly(H, leaves, name, forbidden, root, items[..k]);
  }
}
