/**
 The converse of locating: every place a byte string has in a tree comes with a path that
 carries its hash to the root, and locating it by that path finds a place again.
 */
module MerklePlaces {
  import opened Hashing
  import opened Merkle
  import opened MerkleSoundness

  // ---------------------------------------------------------------- the path of a place

  lemma {:induction false} FoldAppend(H: Hash, c: Digest, a: seq<Digest>, sa: seq<byte>, b: seq<Digest>, sb: seq<byte>)
    requires |a| == |sa| && |b| == |sb|
    ensures Fold(H, c, a + b, sa + sb) == Fold(H, Fold(H, c, a, sa), b, sb)
    decreases |a|
  {
    if a == [] {
      assert a + b == b && sa + sb == sb;
    } else {
      FoldAppend(H, H(JoinPreimage(c, a[0], sa[0])), a[1..], sa[1..], b, sb);
      assert (a + b)[1..] == a[1..] + b && (sa + sb)[1..] == sa[1..] + sb;
    }
  }

  /** The part of a tree above one of its levels is the tree over that level. */
  lemma {:induction false} TreeAbove(H: Hash, leaves: seq<Digest>, h: nat)
    requires leaves != [] && h <= Depth(|leaves|)
    ensures h < |Levels(H, leaves)| && Levels(H, leaves)[h] != []
    ensures var level := Levels(H, leaves)[h];
      && Levels(H, level) == Levels(H, leaves)[h..]
      && Root(H, level) == Root(H, leaves) && Depth(|level|) == Depth(|leaves|) - h
    decreases h
  {
    TopLevel(H, leaves);
    if h > 0 {
      var next := NextLevel(H, leaves);
      TreeAbove(H, next, h - 1);
      assert Levels(H, leaves) == [leaves] + Levels(H, next);
      assert Levels(H, leaves)[h] == Levels(H, next)[h - 1];
      assert Levels(H, leaves)[h..] == Levels(H, next)[h - 1..];
    }
  }

  /** The path from the place a finding names up to the root. */
  function PlacePath(H: Hash, leaves: seq<Leaf>, f: Finding): seq<Digest>
    requires leaves != [] && InTree(H, leaves, f)
  {
    var hashes := LeafHashes(H, leaves);
    match f
    case Committed(i) => PathOf(H, hashes, i)
    case Inner(h, i) => PathOf(H, Levels(H, hashes)[h], i)
    case InsideLeaf(i, below, _) => below + PathOf(H, hashes, i)
  }

  function PlaceSides(H: Hash, leaves: seq<Leaf>, f: Finding): seq<byte>
    requires leaves != [] && InTree(H, leaves, f)
  {
    match f
    case Committed(i) => SidesOf(|leaves|, i)
    case Inner(h, i) => SidesOf(|Levels(H, LeafHashes(H, leaves))[h]|, i)
    case InsideLeaf(i, _, sides) => sides + SidesOf(|leaves|, i)
  }

  predicate InTree(H: Hash, leaves: seq<Leaf>, f: Finding)
    requires leaves != []
  {
    match f
    case Committed(i) => i < |leaves|
    case Inner(h, i) =>
      var levels := Levels(H, LeafHashes(H, leaves));
      h < |levels| && i < |levels[h]|
    case InsideLeaf(i, _, _) => i < |leaves|
    case Collision(_, _) => false
  }

  lemma LocatedInTree(H: Hash, leaves: seq<Leaf>, preimage: seq<byte>, n: nat, f: Finding)
    requires leaves != [] && Locates(H, leaves, preimage, n, f) && !f.Collision?
    ensures InTree(H, leaves, f)
  {
    if f.Inner? {
      TopLevel(H, LeafHashes(H, leaves));
      LevelAbove(H, LeafHashes(H, leaves), f.height - 1);
    }
  }

  /** From every place a byte string has in the tree, its path carries it to the root. */
  lemma PlaceFolds(H: Hash, leaves: seq<Leaf>, preimage: seq<byte>, n: nat, f: Finding)
    requires leaves != [] && Locates(H, leaves, preimage, n, f) && !f.Collision?
    ensures InTree(H, leaves, f)
    ensures |PlacePath(H, leaves, f)| == |PlaceSides(H, leaves, f)| == n
    ensures Fold(H, H(preimage), PlacePath(H, leaves, f), PlaceSides(H, leaves, f)) == Root(H, LeafHashes(H, leaves))
  {
    var hashes := LeafHashes(H, leaves);
    LocatedInTree(H, leaves, preimage, n, f);
    match f
    case Committed(i) => PathFoldsToRoot(H, hashes, i);
    case Inner(h, i) => NodeFolds(H, hashes, h, i);
    case InsideLeaf(i, below, sides) => HangingFolds(H, leaves, preimage, i, below, sides);
  }

  lemma NodeFolds(H: Hash, hashes: seq<Digest>, h: nat, i: nat)
    requires hashes != [] && 0 < h <= Depth(|hashes|)
    requires var levels := Levels(H, hashes); h < |levels| && i < |levels[h]|
    ensures var levels := Levels(H, hashes);
      && 2 * i < |levels[h - 1]| && levels[h][i] == H(PairPreimage(levels[h - 1], i))
      && |PathOf(H, levels[h], i)| == |SidesOf(|levels[h]|, i)| == Depth(|hashes|) - h
      && Fold(H, levels[h][i], PathOf(H, levels[h], i), SidesOf(|levels[h]|, i)) == Root(H, hashes)
  {
    TreeAbove(H, hashes, h);
    LevelAbove(H, hashes, h - 1);
    PathFoldsToRoot(H, Levels(H, hashes)[h], i);
  }

  lemma HangingFolds(H: Hash, leaves: seq<Leaf>, preimage: seq<byte>, i: nat, below: seq<Digest>, sides: seq<byte>)
    requires i < |leaves| && Hangs(H, leaves[i], preimage, below, sides)
    ensures var hashes := LeafHashes(H, leaves);
      Fold(H, H(preimage), below + PathOf(H, hashes, i), sides + SidesOf(|hashes|, i)) == Root(H, hashes)
  {
    var hashes := LeafHashes(H, leaves);
    PathFoldsToRoot(H, hashes, i);
    FoldSnoc(H, H(preimage), below, sides);
    FoldAppend(H, H(preimage), below, sides, PathOf(H, hashes, i), SidesOf(|hashes|, i));
  }

  // ---------------------------------------------------------------- and the walk down that path finds the place

  function Ancestor(i: nat, t: nat): nat {
    if t == 0 then i else Ancestor(i, t - 1) / 2
  }

  /** The entries of a path, read off the levels. */
  lemma {:induction false} PathEntry(H: Hash, leaves: seq<Digest>, i: nat, t: nat)
    requires i < |leaves| && t < Depth(|leaves|)
    ensures t + 1 < |Levels(H, leaves)| && Ancestor(i, t) < |Levels(H, leaves)[t]|
    ensures var level := Levels(H, leaves)[t];
      && PathOf(H, leaves, i)[t] == level[Sibling(|level|, Ancestor(i, t))]
      && SidesOf(|leaves|, i)[t] == Ancestor(i, t) % 2
    decreases t
  {
    TopLevel(H, leaves);
    if t > 0 {
      PathEntry(H, NextLevel(H, leaves), i / 2, t - 1);
      AncestorOfParent(i, t);
      EntryAbove(H, leaves, i, t);
    }
  }

  /** Entry `t` from a level is entry `t - 1` from the next. */
  lemma EntryAbove(H: Hash, leaves: seq<Digest>, i: nat, t: nat)
    requires i < |leaves| && 0 < t < Depth(|leaves|)
    ensures var next := NextLevel(H, leaves);
      && i / 2 < |next| && Depth(|leaves|) == Depth(|next|) + 1
      && |Levels(H, leaves)| == |Levels(H, next)| + 1 && Levels(H, leaves)[1..] == Levels(H, next)
      && PathOf(H, leaves, i)[t] == PathOf(H, next, i / 2)[t - 1]
      && SidesOf(|leaves|, i)[t] == SidesOf(|next|, i / 2)[t - 1]
  {
    assert Levels(H, leaves) == [leaves] + Levels(H, NextLevel(H, leaves));
  }

  lemma {:induction false} AncestorOfParent(i: nat, t: nat)
    requires t > 0
    ensures Ancestor(i, t) == Ancestor(i / 2, t - 1)
  {
    if t > 1 {
      AncestorOfParent(i, t - 1);
    }
  }

  /** Joining a node with its sibling on its own side is the preimage of its parent, and leads back to it. */
  lemma ParentOf(level: seq<Digest>, a: nat)
    requires a < |level|
    ensures 2 * (a / 2) < |level| && Child(|level|, a / 2, a % 2) == a
    ensures JoinPreimage(level[a], level[Sibling(|level|, a)], a % 2) == PairPreimage(level, a / 2)
  {
  }

  /** `up` and `us` are the siblings and sides met on the way up from node `i` of level `h`. */
  ghost predicate Climbs(levels: seq<seq<Digest>>, h: nat, i: nat, up: seq<Digest>, us: seq<byte>) {
    && |up| == |us| && h + |up| < |levels|
    && forall u {:trigger Ancestor(i, u)} :: 0 <= u < |up| ==> IsStep(levels[h + u], Ancestor(i, u), up[u], us[u])
  }

  predicate IsStep(level: seq<Digest>, a: nat, sibling: Digest, side: byte) {
    a < |level| && sibling == level[Sibling(|level|, a)] && side == a % 2
  }

  lemma PathClimbs(H: Hash, hashes: seq<Digest>, h: nat, i: nat)
    requires hashes != [] && h <= Depth(|hashes|)
    requires var levels := Levels(H, hashes); h < |levels| && i < |levels[h]|
    ensures var (levels, level) := (Levels(H, hashes), Levels(H, hashes)[h]);
      && Climbs(levels, h, i, PathOf(H, level, i), SidesOf(|level|, i))
      && |PathOf(H, level, i)| == Depth(|hashes|) - h && Ancestor(i, Depth(|hashes|) - h) == 0
  {
    TreeAbove(H, hashes, h);
    TopLevel(H, hashes);
    var (levels, level) := (Levels(H, hashes), Levels(H, hashes)[h]);
    forall u | 0 <= u < Depth(|level|)
      ensures IsStep(levels[h + u], Ancestor(i, u), PathOf(H, level, i)[u], SidesOf(|level|, i)[u])
    {
      PathEntry(H, level, i, u);
      assert Levels(H, level)[u] == levels[h + u];
    }
    RootIndex(|level|, i);
  }

  /** The walk from the `t`-th ancestor of a node along `path` ends at `end`. */
  ghost predicate WalksTo(H: Hash, levels: seq<seq<Digest>>, k: nat, a: nat, start: Digest, path: seq<Digest>,
                          sides: seq<byte>, end: WalkEnd)
    requires IsTree(H, levels)
  {
    && k < |levels| && a < |levels[k]|
    && |path| == |sides| && Fold(H, start, path, sides) == levels[k][a]
    && Walk(H, levels, k, a, start, path, sides) == end
  }

  /** One step of the walk undoes one step of the climb. */
  lemma StepDown(H: Hash, levels: seq<seq<Digest>>, k: nat, a: nat, start: Digest, front: seq<Digest>, sides: seq<byte>,
                 sibling: Digest, side: byte, end: WalkEnd)
    requires IsTree(H, levels) && 0 < k < |levels| && WalksTo(H, levels, k - 1, a, start, front, sides, end)
    requires IsStep(levels[k - 1], a, sibling, side)
    ensures WalksTo(H, levels, k, a / 2, start, front + [sibling], sides + [side], end)
  {
    var (path, ss) := (front + [sibling], sides + [side]);
    assert levels[k] == NextLevel(H, levels[k - 1]);
    ParentOf(levels[k - 1], a);
    FoldSnoc(H, start, path, ss);
    assert path[..|front|] == front && ss[..|front|] == sides;
  }

  /** `below` and then the first `t` entries of `up`. */
  function Along<T>(below: seq<T>, up: seq<T>, t: nat): seq<T>
    requires t <= |up|
  {
    if t == 0 then below else Along(below, up, t - 1) + [up[t - 1]]
  }

  lemma {:induction false} AlongIsAppend<T>(below: seq<T>, up: seq<T>, t: nat)
    requires t <= |up|
    ensures Along(below, up, t) == below + up[..t]
  {
    if t > 0 {
      AlongIsAppend(below, up, t - 1);
      assert up[..t] == up[..t - 1] + [up[t - 1]];
    }
  }

  /** What holds of a node and the path to it, and of the next node up whenever it holds of one. */
  ghost predicate PassesUp(levels: seq<seq<Digest>>, holds: (nat, nat, seq<Digest>, seq<byte>) -> bool) {
    forall k: nat, a: nat, path: seq<Digest>, ss: seq<byte>, sibling: Digest, side: byte
      {:trigger holds(k, a, path, ss), IsStep(levels[k], a, sibling, side)} ::
      k + 1 < |levels| && holds(k, a, path, ss) && IsStep(levels[k], a, sibling, side)
      ==> holds(k + 1, a / 2, path + [sibling], ss + [side])
  }

  lemma {:induction false} ClimbInduction(levels: seq<seq<Digest>>, h: nat, i: nat, below: seq<Digest>,
                                          sides: seq<byte>, up: seq<Digest>, us: seq<byte>, t: nat,
                                          holds: (nat, nat, seq<Digest>, seq<byte>) -> bool)
    requires PassesUp(levels, holds) && Climbs(levels, h, i, up, us) && t <= |up| && holds(h, i, below, sides)
    ensures holds(h + t, Ancestor(i, t), Along(below, up, t), Along(sides, us, t))
  {
    if t > 0 {
      ClimbInduction(levels, h, i, below, sides, up, us, t - 1, holds);
      assert IsStep(levels[h + (t - 1)], Ancestor(i, t - 1), up[t - 1], us[t - 1]);
    }
  }

  lemma ClimbToRoot(levels: seq<seq<Digest>>, h: nat, i: nat, below: seq<Digest>, sides: seq<byte>,
                    up: seq<Digest>, us: seq<byte>, holds: (nat, nat, seq<Digest>, seq<byte>) -> bool)
    requires PassesUp(levels, holds) && Climbs(levels, h, i, up, us) && Ancestor(i, |up|) == 0
    requires holds(h, i, below, sides)
    ensures holds(h + |up|, 0, below + up, sides + us)
  {
    ClimbInduction(levels, h, i, below, sides, up, us, |up|, holds);
    AlongAll(below, up);
    AlongAll(sides, us);
  }

  ghost function Walking(H: Hash, levels: seq<seq<Digest>>, start: Digest, end: WalkEnd)
    : (nat, nat, seq<Digest>, seq<byte>) -> bool
    requires IsTree(H, levels)
  {
    (k: nat, a: nat, path: seq<Digest>, ss: seq<byte>) => WalksTo(H, levels, k, a, start, path, ss, end)
  }

  lemma WalkPassesUp(H: Hash, levels: seq<seq<Digest>>, start: Digest, end: WalkEnd)
    requires IsTree(H, levels)
    ensures PassesUp(levels, Walking(H, levels, start, end))
  {
    var holds := Walking(H, levels, start, end);
    forall k: nat, a: nat, path: seq<Digest>, ss: seq<byte>, sibling: Digest, side: byte
      | k + 1 < |levels| && holds(k, a, path, ss) && IsStep(levels[k], a, sibling, side)
      ensures holds(k + 1, a / 2, path + [sibling], ss + [side])
    {
      WalkStepsUp(H, levels, k, a, start, path, ss, sibling, side, end);
    }
  }

  lemma WalkStepsUp(H: Hash, levels: seq<seq<Digest>>, k: nat, a: nat, start: Digest, path: seq<Digest>, ss: seq<byte>,
                    sibling: Digest, side: byte, end: WalkEnd)
    requires IsTree(H, levels) && k + 1 < |levels| && IsStep(levels[k], a, sibling, side)
    requires Walking(H, levels, start, end)(k, a, path, ss)
    ensures Walking(H, levels, start, end)(k + 1, a / 2, path + [sibling], ss + [side])
  {
    StepDown(H, levels, k + 1, a, start, path, ss, sibling, side, end);
  }

  /** Climbing from a node to the root and walking down again ends where the climb began. */
  lemma WalkFromRoot(H: Hash, levels: seq<seq<Digest>>, h: nat, i: nat, start: Digest,
                     below: seq<Digest>, sides: seq<byte>, up: seq<Digest>, us: seq<byte>, end: WalkEnd)
    requires IsTree(H, levels) && Climbs(levels, h, i, up, us) && Ancestor(i, |up|) == 0
    requires Walking(H, levels, start, end)(h, i, below, sides)
    ensures Walking(H, levels, start, end)(h + |up|, 0, below + up, sides + us)
  {
    WalkPassesUp(H, levels, start, end);
    ClimbToRoot(levels, h, i, below, sides, up, us, Walking(H, levels, start, end));
  }

  lemma AlongAll<T>(below: seq<T>, up: seq<T>)
    ensures Along(below, up, |up|) == below + up
  {
    AlongIsAppend(below, up, |up|);
    assert up[..|up|] == up;
  }

  /** So locating a byte string by the path of a place it has finds a place, not a collision. */
  lemma LocateFinds(H: Hash, leaves: seq<Leaf>, preimage: seq<byte>, n: nat, f: Finding)
    requires leaves != [] && Locates(H, leaves, preimage, n, f) && !f.Collision?
    ensures InTree(H, leaves, f)
    ensures var (path, sides) := (PlacePath(H, leaves, f), PlaceSides(H, leaves, f));
      && |path| == |sides| == n && Fold(H, H(preimage), path, sides) == Root(H, LeafHashes(H, leaves))
      && !Locate(H, leaves, preimage, path, sides).Collision?
  {
    PlaceFolds(H, leaves, preimage, n, f);
    match f
    case Committed(i) =>
      NodeHash(H, leaves, preimage, f, 0, i);
      NodeIsFound(H, leaves, preimage, 0, i, PlacePath(H, leaves, f), PlaceSides(H, leaves, f));
    case Inner(h, i) =>
      NodeHash(H, leaves, preimage, f, h, i);
      NodeIsFound(H, leaves, preimage, h, i, PlacePath(H, leaves, f), PlaceSides(H, leaves, f));
    case InsideLeaf(i, below, sides) => HangingIsFound(H, leaves, preimage, i, below, sides);
  }

  lemma NodeIsFound(H: Hash, leaves: seq<Leaf>, preimage: seq<byte>, h: nat, i: nat, path: seq<Digest>,
                    sides: seq<byte>)
    requires leaves != [] && h <= Depth(|leaves|) && |path| == |sides|
    requires Fold(H, H(preimage), path, sides) == Root(H, LeafHashes(H, leaves))
    requires var levels := Levels(H, LeafHashes(H, leaves));
      && IsTree(H, levels) && h < |levels| && i < |levels[h]| && levels[h][i] == H(preimage)
      && path == PathOf(H, levels[h], i) && sides == SidesOf(|levels[h]|, i)
    ensures Locate(H, leaves, preimage, path, sides) == AtNodeFinding(H, leaves, preimage, h, i)
  {
    PathClimbs(H, LeafHashes(H, leaves), h, i);
    WalkFromNode(H, Levels(H, LeafHashes(H, leaves)), h, i, H(preimage), path, sides);
    LocateAtNode(H, leaves, preimage, path, sides, h, i);
  }

  lemma WalkFromNode(H: Hash, levels: seq<seq<Digest>>, h: nat, i: nat, start: Digest, path: seq<Digest>,
                     sides: seq<byte>)
    requires IsTree(H, levels) && h < |levels| && i < |levels[h]| && levels[h][i] == start
    requires Climbs(levels, h, i, path, sides) && Ancestor(i, |path|) == 0
    ensures Walking(H, levels, start, AtNode(h, i))(h + |path|, 0, path, sides)
  {
    WalkStarts(H, levels, h, i, start, [], [], AtNode(h, i));
    WalkFromRoot(H, levels, h, i, start, [], [], path, sides, AtNode(h, i));
    NothingBelow(path);
    NothingBelow(sides);
  }

  lemma WalkStarts(H: Hash, levels: seq<seq<Digest>>, h: nat, i: nat, start: Digest, below: seq<Digest>,
                   sides: seq<byte>, end: WalkEnd)
    requires IsTree(H, levels) && h < |levels| && i < |levels[h]| && |below| == |sides|
    requires Fold(H, start, below, sides) == levels[h][i]
    requires if below == [] then end == AtNode(h, i) else h == 0 && end == BelowLeaf(i, |below|)
    ensures Walking(H, levels, start, end)(h, i, below, sides)
  {
    assert WalksTo(H, levels, h, i, start, below, sides, end);
  }

  lemma NothingBelow<T>(up: seq<T>)
    ensures [] + up == up
  {
  }

  lemma LocateAtNode(H: Hash, leaves: seq<Leaf>, preimage: seq<byte>, path: seq<Digest>, sides: seq<byte>, h: nat,
                     i: nat)
    requires leaves != [] && h <= Depth(|leaves|) && |path| == |sides|
    requires Fold(H, H(preimage), path, sides) == Root(H, LeafHashes(H, leaves))
    requires var levels := Levels(H, LeafHashes(H, leaves));
      && IsTree(H, levels) && h < |levels| && i < |levels[h]| && levels[h][i] == H(preimage)
      && Walking(H, levels, H(preimage), AtNode(h, i))(Depth(|leaves|), 0, path, sides)
    ensures Locate(H, leaves, preimage, path, sides) == AtNodeFinding(H, leaves, preimage, h, i)
  {
  }

  lemma NodeHash(H: Hash, leaves: seq<Leaf>, preimage: seq<byte>, f: Finding, h: nat, i: nat)
    requires leaves != [] && h <= Depth(|leaves|) && Locates(H, leaves, preimage, Depth(|leaves|) - h, f)
    requires f == (if h == 0 then Committed(i) else Inner(h, i)) && InTree(H, leaves, f)
    ensures var levels := Levels(H, LeafHashes(H, leaves));
      && h < |levels| && i < |levels[h]| && levels[h][i] == H(preimage)
      && IsTree(H, levels)
      && AtNodeFinding(H, leaves, preimage, h, i) == f
  {
    var hashes := LeafHashes(H, leaves);
    LevelsAreTree(H, hashes);
    if h > 0 {
      LevelAbove(H, hashes, h - 1);
    }
  }

  lemma HangingIsFound(H: Hash, leaves: seq<Leaf>, preimage: seq<byte>, i: nat, below: seq<Digest>, sides: seq<byte>)
    requires i < |leaves| && Hangs(H, leaves[i], preimage, below, sides)
    requires var f := InsideLeaf(i, below, sides);
      var (path, ss) := (PlacePath(H, leaves, f), PlaceSides(H, leaves, f));
      |path| == |ss| && Fold(H, H(preimage), path, ss) == Root(H, LeafHashes(H, leaves))
    ensures var f := InsideLeaf(i, below, sides);
      Locate(H, leaves, preimage, PlacePath(H, leaves, f), PlaceSides(H, leaves, f)) == f
  {
    var hashes := LeafHashes(H, leaves);
    LevelsAreTree(H, hashes);
    FoldSnoc(H, H(preimage), below, sides);
    WalkStarts(H, Levels(H, hashes), 0, i, H(preimage), below, sides, BelowLeaf(i, |below|));
    PathClimbs(H, hashes, 0, i);
    WalkFromRoot(H, Levels(H, hashes), 0, i, H(preimage), below, sides, PathOf(H, hashes, i), SidesOf(|hashes|, i),
                 BelowLeaf(i, |below|));
    var f := InsideLeaf(i, below, sides);
    assert PlacePath(H, leaves, f)[..|below|] == below && PlaceSides(H, leaves, f)[..|below|] == sides;
  }

  lemma {:induction false} RootIndex(n: nat, i: nat)
    requires i < n
    ensures Ancestor(i, Depth(n)) == 0
    decreases n
  {
    if n > 1 {
      RootIndex((n + 1) / 2, i / 2);
      AncestorOfParent(i, Depth(n));
    }
  }
}
