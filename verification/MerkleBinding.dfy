/**
 When two commitments have one root.  An odd level pairs its last node with itself, so every
 tree is the full tree over its leaves with some of them repeated; and a shallow tree can sit on
 the inner nodes of a deeper one.  Up to collisions those are the only ways.
 */
module MerkleBinding {
  import opened Hashing
  import opened Merkle
  import opened MerklePlaces
  import opened MerkleSoundness

  // ---------------------------------------------------------------- the full tree

  predicate Below(ks: seq<nat>, n: nat) {
    forall i :: 0 <= i < |ks| ==> ks[i] < n
  }

  /** The positions a parent level stands for, one level down: each pair, or the lone last node twice. */
  function Children(n: nat, parents: seq<nat>): (ks: seq<nat>)
    requires Below(parents, (n + 1) / 2)
    ensures |ks| == 2 * |parents| && Below(ks, n)
  {
    if parents == [] then []
    else
      var last := parents[|parents| - 1];
      Children(n, parents[..|parents| - 1]) + [2 * last, Sibling(n, 2 * last)]
  }

  /** Which of `n` leaves stands where in the full tree of the same depth. */
  function Positions(n: nat): (ks: seq<nat>)
    requires n >= 1
    ensures |ks| == Pow2(Depth(n)) && Below(ks, n)
  {
    if n == 1 then [0] else Children(n, Positions((n + 1) / 2))
  }

  function Pick(a: seq<Digest>, ks: seq<nat>): (picked: seq<Digest>)
    requires Below(ks, |a|)
    ensures |picked| == |ks| && forall i :: 0 <= i < |ks| ==> picked[i] == a[ks[i]]
  {
    seq<Digest>(|ks|, i requires 0 <= i < |ks| => a[ks[i]])
  }

  /** The leaves of the full tree: a missing node is the one that the code pairs in its place. */
  function Filled(a: seq<Digest>): (full: seq<Digest>)
    requires a != []
    ensures |full| == Pow2(Depth(|a|))
  {
    Pick(a, Positions(|a|))
  }

  lemma NextLevelSnoc(H: Hash, level: seq<Digest>, x: Digest, y: Digest)
    requires |level| % 2 == 0
    ensures NextLevel(H, level + [x, y]) == NextLevel(H, level) + [H(Join(x, y))]
  {
    var (longer, m) := (level + [x, y], |level| / 2);
    forall j | 0 <= j <= m
      ensures NextLevel(H, longer)[j] == (NextLevel(H, level) + [H(Join(x, y))])[j]
    {
      assert Sibling(|longer|, 2 * j) == 2 * j + 1 && (j < m ==> Sibling(|level|, 2 * j) == 2 * j + 1);
      assert PairPreimage(longer, j) == if j < m then PairPreimage(level, j) else Join(x, y);
    }
  }

  /** Hashing the children of picked nodes in pairs gives the picked nodes of the next level. */
  lemma {:induction false} ChildrenHashUp(H: Hash, a: seq<Digest>, parents: seq<nat>)
    requires Below(parents, (|a| + 1) / 2)
    ensures NextLevel(H, Pick(a, Children(|a|, parents))) == Pick(NextLevel(H, a), parents)
    decreases |parents|
  {
    if parents == [] {
      assert Pick(a, Children(|a|, parents)) == [];
    } else {
      var (init, k) := (parents[..|parents| - 1], parents[|parents| - 1]);
      ChildrenHashUp(H, a, init);
      var (x, y) := (a[2 * k], a[Sibling(|a|, 2 * k)]);
      assert Pick(a, Children(|a|, parents)) == Pick(a, Children(|a|, init)) + [x, y];
      NextLevelSnoc(H, Pick(a, Children(|a|, init)), x, y);
      assert Pick(NextLevel(H, a), parents) == Pick(NextLevel(H, a), init) + [H(Join(x, y))];
    }
  }

  lemma {:induction false} FilledKeepsRoot(H: Hash, a: seq<Digest>)
    requires a != []
    ensures Root(H, Filled(a)) == Root(H, a)
    decreases |a|
  {
    if |a| == 1 {
      assert Filled(a) == a;
    } else {
      ChildrenHashUp(H, a, Positions((|a| + 1) / 2));
      FilledKeepsRoot(H, NextLevel(H, a));
    }
  }

  lemma {:induction false} ChildIsThere(n: nat, parents: seq<nat>, k: nat)
    requires Below(parents, (n + 1) / 2)
    requires k < n && k / 2 in parents
    ensures k in Children(n, parents)
    decreases |parents|
  {
    var (init, last) := (parents[..|parents| - 1], parents[|parents| - 1]);
    if last == k / 2 {
      assert Children(n, parents)[2 * |init|] == 2 * last
        && Children(n, parents)[2 * |init| + 1] == Sibling(n, 2 * last);
    } else {
      ChildIsThere(n, init, k);
    }
  }

  /** No leaf is left out of the full tree. */
  lemma {:induction false} LeafIsFilled(n: nat, k: nat)
    requires k < n
    ensures k in Positions(n)
    decreases n
  {
    if n > 1 {
      LeafIsFilled((n + 1) / 2, k / 2);
      ChildIsThere(n, Positions((n + 1) / 2), k);
    }
  }

  lemma FilledHasTheLeaves(a: seq<Digest>, x: Digest)
    requires a != []
    ensures x in Filled(a) <==> x in a
  {
    if x in a {
      var k :| 0 <= k < |a| && a[k] == x;
      LeafIsFilled(|a|, k);
      var i :| 0 <= i < |Positions(|a|)| && Positions(|a|)[i] == k;
      assert Filled(a)[i] == x;
    }
  }

  // ---------------------------------------------------------------- one root

  /** The level of a tree as deep as another, shallower, tree. */
  function LevelOfDepth(H: Hash, b: seq<Digest>, d: nat): (level: seq<Digest>)
    requires b != [] && d <= Depth(|b|)
    ensures level != [] && Depth(|level|) == d && Root(H, level) == Root(H, b)
  {
    TreeAbove(H, b, Depth(|b|) - d);
    Levels(H, b)[Depth(|b|) - d]
  }

  function FilledCollision(H: Hash, a: seq<Digest>, b: seq<Digest>): (clash: (seq<byte>, seq<byte>))
    requires a != [] && b != [] && Depth(|a|) == Depth(|b|)
    requires Root(H, a) == Root(H, b) && Filled(a) != Filled(b)
    ensures Collide(H, clash.0, clash.1)
  {
    FilledKeepsRoot(H, a);
    FilledKeepsRoot(H, b);
    BindingCollision(H, Filled(a), Filled(b))
  }

  /**
   Two lists of any lengths have one root exactly if the shallower, filled up, is the filled-up
   level of the same depth in the other's tree; or else the two full levels give up a collision.
   */
  lemma RootsMeetExactly(H: Hash, a: seq<Digest>, b: seq<Digest>)
    requires a != [] && b != [] && Depth(|a|) <= Depth(|b|)
    ensures var level := LevelOfDepth(H, b, Depth(|a|));
      && (Filled(a) == Filled(level) ==> Root(H, a) == Root(H, b) && forall x :: x in a <==> x in level)
      && (Filled(a) != Filled(level) && Root(H, a) == Root(H, b) ==>
            var clash := FilledCollision(H, a, level); Collide(H, clash.0, clash.1))
  {
    var level := LevelOfDepth(H, b, Depth(|a|));
    FilledKeepsRoot(H, a);
    FilledKeepsRoot(H, level);
    forall x
      ensures (x in Filled(a) <==> x in a) && (x in Filled(level) <==> x in level)
    {
      FilledHasTheLeaves(a, x);
      FilledHasTheLeaves(level, x);
    }
  }
}
