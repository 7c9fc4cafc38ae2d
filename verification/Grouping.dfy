/**
 Grouping rows by a key in one pass, for any kind of row: which keys there are, in what order,
 and what sums over the groups say about the sum over all rows.
 */
module Grouping {

  function SumOver<T>(rows: seq<T>, f: T -> int): int {
    if rows == [] then 0 else SumOver(rows[..|rows| - 1], f) + f(rows[|rows| - 1])
  }

  function One<T>(): T -> int { (u: T) => 1 }

  function Nothing<T>(): T -> int { (u: T) => 0 }

  /** `f` on the rows whose key is `k`, nothing on the others. */
  function At<T, K(==)>(key: T -> K, k: K, f: T -> int): T -> int {
    (u: T) => if key(u) == k then f(u) else 0
  }

  lemma {:induction false} SumSnoc<T>(rows: seq<T>, u: T, f: T -> int)
    ensures SumOver(rows + [u], f) == SumOver(rows, f) + f(u)
  {
    assert (rows + [u])[..|rows|] == rows;
  }

  lemma {:induction false} SumConcat<T>(a: seq<T>, b: seq<T>, f: T -> int)
    ensures SumOver(a + b, f) == SumOver(a, f) + SumOver(b, f)
    decreases |b|
  {
    if b == [] {
      assert a + b == a;
    } else {
      var init, last := b[..|b| - 1], b[|b| - 1];
      assert a + b == (a + init) + [last];
      SumSnoc(a + init, last, f);
      SumConcat(a, init, f);
    }
  }

  /** A sum does not see the order of its rows. */
  lemma {:induction false} SumPermuted<T>(a: seq<T>, b: seq<T>, f: T -> int)
    requires multiset(a) == multiset(b)
    ensures SumOver(a, f) == SumOver(b, f)
    decreases |a|
  {
    assert |a| == |multiset(a)| == |multiset(b)| == |b|;
    if a != [] {
      var init, last := a[..|a| - 1], a[|a| - 1];
      var j := Removed(a, b);
      SumPermuted(init, b[..j] + b[j + 1..], f);
      SumConcat(b[..j], b[j + 1..], f);
      SumConcat(b[..j] + [last], b[j + 1..], f);
      SumSnoc(b[..j], last, f);
    }
  }

  /** A permutation has the last row somewhere, and without it permutes the rest. */
  lemma Removed<T>(a: seq<T>, b: seq<T>) returns (j: nat)
    requires a != [] && multiset(a) == multiset(b)
    ensures j < |b| && b[j] == a[|a| - 1]
    ensures b == b[..j] + [a[|a| - 1]] + b[j + 1..]
    ensures multiset(a[..|a| - 1]) == multiset(b[..j] + b[j + 1..])
  {
    var init, last := a[..|a| - 1], a[|a| - 1];
    assert a == init + [last];
    assert last in multiset(b);
    j :| 0 <= j < |b| && b[j] == last;
    var rest := b[..j] + b[j + 1..];
    assert b == b[..j] + [last] + b[j + 1..];
    assert multiset(a) == multiset(init) + multiset{last};
    assert multiset(b) == multiset(rest) + multiset{last};
    assert multiset(init) == multiset(a) - multiset{last} == multiset(b) - multiset{last} == multiset(rest);
  }

  lemma {:induction false} SumPointwise<T>(rows: seq<T>, f: T -> int, g: T -> int)
    requires forall u | u in rows :: f(u) == g(u)
    ensures SumOver(rows, f) == SumOver(rows, g)
    decreases |rows|
  {
    if rows != [] {
      SumPointwise(rows[..|rows| - 1], f, g);
    }
  }

  /** A sum that is nowhere below another and above it somewhere is greater. */
  lemma {:induction false} SumIsGreater<T>(rows: seq<T>, f: T -> int, g: T -> int, u: T)
    requires forall v | v in rows :: f(v) >= g(v)
    requires u in rows && f(u) > g(u)
    ensures SumOver(rows, f) > SumOver(rows, g)
    decreases |rows|
  {
    var init, last := rows[..|rows| - 1], rows[|rows| - 1];
    if u in init {
      SumIsGreater(init, f, g, u);
    } else {
      SumIsNotLess(init, f, g);
    }
  }

  lemma {:induction false} SumIsNotLess<T>(rows: seq<T>, f: T -> int, g: T -> int)
    requires forall v | v in rows :: f(v) >= g(v)
    ensures SumOver(rows, f) >= SumOver(rows, g)
    decreases |rows|
  {
    if rows != [] {
      SumIsNotLess(rows[..|rows| - 1], f, g);
    }
  }

  lemma {:induction false} SumOfConstants<T>(rows: seq<T>)
    ensures SumOver(rows, One()) == |rows|
    ensures SumOver(rows, Nothing()) == 0
    decreases |rows|
  {
    if rows != [] {
      SumOfConstants(rows[..|rows| - 1]);
    }
  }

  // ---------------------------------------------------------------- keys

  predicate HasKey<T, K(==)>(rows: seq<T>, key: T -> K, k: K) {
    rows != [] && (key(rows[|rows| - 1]) == k || HasKey(rows[..|rows| - 1], key, k))
  }

  lemma {:induction false} HasKeyOf<T, K>(rows: seq<T>, key: T -> K, u: T)
    requires u in rows
    ensures HasKey(rows, key, key(u))
    decreases |rows|
  {
    if rows[|rows| - 1] != u {
      assert u in rows[..|rows| - 1];
      HasKeyOf(rows[..|rows| - 1], key, u);
    }
  }

  /** The keys of the rows, each once, in order of first appearance. */
  function FirstKeys<T, K(==)>(rows: seq<T>, key: T -> K): (keys: seq<K>)
    ensures forall i, j :: 0 <= i < j < |keys| ==> keys[i] != keys[j]
  {
    if rows == [] then []
    else
      var before := FirstKeys(rows[..|rows| - 1], key);
      var k := key(rows[|rows| - 1]);
      if k in before then before else before + [k]
  }

  lemma {:induction false} KeyKnown<T, K>(rows: seq<T>, key: T -> K, k: K)
    ensures k in FirstKeys(rows, key) <==> HasKey(rows, key, k)
    decreases |rows|
  {
    if rows != [] {
      KeyKnown(rows[..|rows| - 1], key, k);
    }
  }

  ghost function FirstRow<T, K>(rows: seq<T>, key: T -> K, k: K): (u: T)
    requires HasKey(rows, key, k)
    ensures u in rows && key(u) == k
  {
    if HasKey(rows[..|rows| - 1], key, k) then FirstRow(rows[..|rows| - 1], key, k) else rows[|rows| - 1]
  }

  lemma {:induction false} KeyHasRow<T, K>(rows: seq<T>, key: T -> K, k: K)
    ensures HasKey(rows, key, k) <==> exists i :: 0 <= i < |rows| && key(rows[i]) == k
    decreases |rows|
  {
    if rows != [] {
      var init := rows[..|rows| - 1];
      KeyHasRow(init, key, k);
      assert forall i :: 0 <= i < |init| ==> init[i] == rows[i];
      if i :| 0 <= i < |init| && key(init[i]) == k {
        assert key(rows[i]) == k;
      }
    }
  }

  /** No row before it has its key. */
  lemma {:induction false} FirstRowIsFirst<T, K>(rows: seq<T>, key: T -> K, k: K) returns (i: nat)
    requires HasKey(rows, key, k)
    ensures i < |rows| && rows[i] == FirstRow(rows, key, k) && forall j :: 0 <= j < i ==> key(rows[j]) != k
    decreases |rows|
  {
    var init := rows[..|rows| - 1];
    assert forall j :: 0 <= j < |init| ==> init[j] == rows[j];
    if HasKey(init, key, k) {
      i := FirstRowIsFirst(init, key, k);
    } else {
      KeyHasRow(init, key, k);
      i := |init|;
      forall j | 0 <= j < i
        ensures key(rows[j]) != k
      {
        assert key(init[j]) != k;
      }
    }
  }

  lemma {:induction false} NothingWithoutKey<T, K>(rows: seq<T>, key: T -> K, k: K, f: T -> int)
    requires !HasKey(rows, key, k)
    ensures SumOver(rows, At(key, k, f)) == 0
    decreases |rows|
  {
    if rows != [] {
      NothingWithoutKey(rows[..|rows| - 1], key, k, f);
    }
  }

  lemma {:induction false} CountIsPositive<T, K>(rows: seq<T>, key: T -> K, k: K)
    ensures 0 <= SumOver(rows, At(key, k, One()))
    ensures SumOver(rows, At(key, k, One())) > 0 <==> HasKey(rows, key, k)
    decreases |rows|
  {
    if rows != [] {
      CountIsPositive(rows[..|rows| - 1], key, k);
    }
  }

  // ---------------------------------------------------------------- groups against the whole

  /** The sum of `f` over the groups named by `keys`. */
  function GroupTotal<T, K(==)>(keys: seq<K>, rows: seq<T>, key: T -> K, f: T -> int): int {
    if keys == [] then 0
    else GroupTotal(keys[..|keys| - 1], rows, key, f) + SumOver(rows, At(key, keys[|keys| - 1], f))
  }

  lemma {:induction false} GroupTotalSnoc<T, K>(keys: seq<K>, rows: seq<T>, u: T, key: T -> K, f: T -> int)
    requires forall i, j :: 0 <= i < j < |keys| ==> keys[i] != keys[j]
    ensures GroupTotal(keys, rows + [u], key, f) == GroupTotal(keys, rows, key, f) + if key(u) in keys then f(u) else 0
    decreases |keys|
  {
    if keys != [] {
      var init, k := keys[..|keys| - 1], keys[|keys| - 1];
      GroupTotalSnoc(init, rows, u, key, f);
      SumSnoc(rows, u, At(key, k, f));
    }
  }

  lemma {:induction false} NoRowsNoTotal<T, K>(keys: seq<K>, key: T -> K, f: T -> int)
    ensures GroupTotal(keys, [], key, f) == 0
    decreases |keys|
  {
    if keys != [] {
      NoRowsNoTotal(keys[..|keys| - 1], key, f);
    }
  }

  /** Groups under distinct keys that cover the rows add up to the whole. */
  lemma {:induction false} GroupsAddUp<T, K>(keys: seq<K>, rows: seq<T>, key: T -> K, f: T -> int)
    requires forall i, j :: 0 <= i < j < |keys| ==> keys[i] != keys[j]
    requires forall k :: HasKey(rows, key, k) ==> k in keys
    ensures GroupTotal(keys, rows, key, f) == SumOver(rows, f)
    decreases |rows|
  {
    if rows == [] {
      NoRowsNoTotal(keys, key, f);
    } else {
      var init, last := rows[..|rows| - 1], rows[|rows| - 1];
      assert rows == init + [last];
      assert HasKey(rows, key, key(last)) && key(last) in keys;
      GroupsAddUp(keys, init, key, f);
      GroupTotalSnoc(keys, init, last, key, f);
    }
  }

  // ---------------------------------------------------------------- one pass over the rows

  /** A group: its first row, its size and its sum. */
  datatype Group<T> = Group(first: T, count: nat, amount: int)

  ghost function GroupFor<T, K>(rows: seq<T>, key: T -> K, f: T -> int, k: K): Group<T>
    requires HasKey(rows, key, k)
  {
    CountIsPositive(rows, key, k);
    Group(FirstRow(rows, key, k), SumOver(rows, At(key, k, One())), SumOver(rows, At(key, k, f)))
  }

  /** The groups of the rows add up to the whole. */
  lemma AllGroupsAddUp<T, K>(rows: seq<T>, key: T -> K, f: T -> int)
    ensures GroupTotal(FirstKeys(rows, key), rows, key, f) == SumOver(rows, f)
  {
    forall k | HasKey(rows, key, k)
      ensures k in FirstKeys(rows, key)
    {
      KeyKnown(rows, key, k);
    }
    GroupsAddUp(FirstKeys(rows, key), rows, key, f);
  }

  /** Keys in insertion order and a group under each, after the given rows. */
  ghost predicate Grouped<T, K>(rows: seq<T>, key: T -> K, f: T -> int, keys: seq<K>, groups: map<K, Group<T>>) {
    && keys == FirstKeys(rows, key)
    && groups.Keys == (set k | k in keys)
    && (forall k | k in keys :: HasKey(rows, key, k) && groups[k] == GroupFor(rows, key, f, k))
  }

  /** The group under `k` after one more row with that key. */
  function Bumped<T, K(==)>(groups: map<K, Group<T>>, k: K, u: T, amount: int): Group<T> {
    var g := if k in groups then groups[k] else Group(u, 0, 0);
    g.(count := g.count + 1, amount := g.amount + amount)
  }

  /** One more row opens its group or joins it, and leaves the others alone. */
  lemma GroupSnoc<T, K>(rows: seq<T>, key: T -> K, f: T -> int, u: T, k: K)
    requires HasKey(rows, key, k) || key(u) == k
    ensures HasKey(rows + [u], key, k)
    ensures var hit := key(u) == k;
      GroupFor(rows + [u], key, f, k) ==
        if !HasKey(rows, key, k) then Group(u, 1, f(u))
        else
          var g := GroupFor(rows, key, f, k);
          if hit then Group(g.first, g.count + 1, g.amount + f(u)) else g
  {
    var all := rows + [u];
    assert all[..|rows|] == rows;
    SumSnoc(rows, u, At(key, k, One()));
    SumSnoc(rows, u, At(key, k, f));
    if !HasKey(rows, key, k) {
      NothingWithoutKey(rows, key, k, One());
      NothingWithoutKey(rows, key, k, f);
    }
  }

  lemma KeysSnoc<T, K>(rows: seq<T>, key: T -> K, u: T)
    ensures var keys := FirstKeys(rows, key);
      FirstKeys(rows + [u], key) == if key(u) in keys then keys else keys + [key(u)]
  {
    assert (rows + [u])[..|rows|] == rows;
  }

  lemma SingleGroup<T, K>(key: T -> K, f: T -> int, u: T)
    ensures FirstKeys([u], key) == [key(u)] && HasKey([u], key, key(u))
    ensures GroupFor([u], key, f, key(u)) == Group(u, 1, f(u))
  {
    assert [u][..0] == [];
    assert [] + [u] == [u];
    GroupSnoc([], key, f, u, key(u));
  }

  /** Two rows under one key make one group, opened by the first. */
  lemma OneGroup<T, K>(key: T -> K, f: T -> int, u: T, v: T, k: K)
    requires key(u) == k && key(v) == k
    ensures FirstKeys([u, v], key) == [k] && HasKey([u, v], key, k)
    ensures GroupFor([u, v], key, f, k) == Group(u, 2, f(u) + f(v))
  {
    SingleGroup(key, f, u);
    KeysSnoc([u], key, v);
    GroupSnoc([u], key, f, v, k);
    assert [u] + [v] == [u, v];
  }

  lemma GroupedSnoc<T, K>(rows: seq<T>, key: T -> K, f: T -> int, keys: seq<K>, groups: map<K, Group<T>>, u: T)
    requires Grouped(rows, key, f, keys, groups)
    ensures var k := key(u);
      Grouped(rows + [u], key, f, if k in keys then keys else keys + [k], groups[k := Bumped(groups, k, u, f(u))])
  {
    var keys' := if key(u) in keys then keys else keys + [key(u)];
    KeysSnoc(rows, key, u);
    forall k | k in keys'
      ensures HasKey(rows + [u], key, k)
      ensures groups[key(u) := Bumped(groups, key(u), u, f(u))][k] == GroupFor(rows + [u], key, f, k)
    {
      KeyKnown(rows, key, k);
      GroupSnoc(rows, key, f, u, k);
    }
  }

  /** What one pass leaves: an insertion-ordered map from keys to groups. */
  datatype Pass<T, K> = Pass(keys: seq<K>, groups: map<K, Group<T>>)

  ghost function PassOver<T, K>(rows: seq<T>, key: T -> K, f: T -> int): Pass<T, K> {
    if rows == [] then Pass([], map[])
    else PassStep(PassOver(rows[..|rows| - 1], key, f), rows[|rows| - 1], key, f)
  }

  ghost function PassStep<T, K>(p: Pass<T, K>, u: T, key: T -> K, f: T -> int): Pass<T, K> {
    var k := key(u);
    Pass(if k in p.groups then p.keys else p.keys + [k], p.groups[k := Bumped(p.groups, k, u, f(u))])
  }

  lemma PassSnoc<T, K>(rows: seq<T>, key: T -> K, f: T -> int, u: T)
    ensures PassOver(rows + [u], key, f) == PassStep(PassOver(rows, key, f), u, key, f)
  {
    assert (rows + [u])[..|rows|] == rows;
  }

  /** The pass finds the keys in order of first appearance, and under each exactly its rows. */
  lemma {:induction false} PassGroups<T, K>(rows: seq<T>, key: T -> K, f: T -> int)
    ensures Grouped(rows, key, f, PassOver(rows, key, f).keys, PassOver(rows, key, f).groups)
    decreases |rows|
  {
    if rows != [] {
      var init, last := rows[..|rows| - 1], rows[|rows| - 1];
      PassGroups(init, key, f);
      GroupedSnoc(init, key, f, PassOver(init, key, f).keys, PassOver(init, key, f).groups, last);
      assert init + [last] == rows;
    }
  }
}
