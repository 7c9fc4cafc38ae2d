/** Canonical JSON: object keys sorted at every level, so that key order never changes a hash. */
module Canonical {
  import opened Hashing

  datatype Member = Member(key: string, value: Json)

  datatype Json =
    | Null
    | Bool(b: bool)
    | Number(literal: string)
    | Text(s: string)
    | Array(items: seq<Json>)
    | Object(members: seq<Member>)

  // ---------------------------------------------------------------- ordering and sorting

  predicate KeyLeq(a: string, b: string) {
    a == [] || (b != [] && (a[0] < b[0] || (a[0] == b[0] && KeyLeq(a[1..], b[1..]))))
  }

  /** Keys are in dictionary order: a beginning comes first, and otherwise the first difference decides. */
  lemma {:induction false} KeyLeqIsLexicographic(a: string, b: string)
    ensures KeyLeq(a, b) <==>
      a <= b || exists k :: 0 <= k < |a| && k < |b| && a[..k] == b[..k] && a[k] < b[k]
  {
    if a != [] && b != [] && a[0] == b[0] {
      KeyLeqIsLexicographic(a[1..], b[1..]);
      assert a == [a[0]] + a[1..] && b == [b[0]] + b[1..];
      if k :| 0 <= k < |a[1..]| && k < |b[1..]| && a[1..][..k] == b[1..][..k] && a[1..][k] < b[1..][k] {
        assert a[..k + 1] == [a[0]] + a[1..][..k] && b[..k + 1] == [b[0]] + b[1..][..k];
        assert a[k + 1] < b[k + 1];
      }
      if k :| 0 <= k < |a| && k < |b| && a[..k] == b[..k] && a[k] < b[k] {
        assert a[1..][..k - 1] == a[..k][1..] && b[1..][..k - 1] == b[..k][1..];
        assert a[1..][k - 1] < b[1..][k - 1];
      }
    } else if a != [] && b != [] && a[0] < b[0] {
      assert a[..0] == b[..0];
    }
  }

  lemma {:induction false} KeyLeqAntisymmetric(a: string, b: string)
    requires KeyLeq(a, b) && KeyLeq(b, a)
    ensures a == b
  {
    if a != [] {
      KeyLeqAntisymmetric(a[1..], b[1..]);
      assert a == [a[0]] + a[1..] && b == [b[0]] + b[1..];
    }
  }

  lemma {:induction false} KeyLeqTransitive(a: string, b: string, c: string)
    requires KeyLeq(a, b) && KeyLeq(b, c)
    ensures KeyLeq(a, c)
  {
    if a != [] && a[0] == b[0] == c[0] {
      KeyLeqTransitive(a[1..], b[1..], c[1..]);
    }
  }

  lemma {:induction false} KeyLeqTotal(a: string, b: string)
    ensures KeyLeq(a, b) || KeyLeq(b, a)
  {
    if a != [] && b != [] {
      KeyLeqTotal(a[1..], b[1..]);
    }
  }

  ghost predicate Sorted(ms: seq<Member>) {
    forall i, j :: 0 <= i < j < |ms| ==> KeyLeq(ms[i].key, ms[j].key)
  }

  ghost predicate DistinctKeys(ms: seq<Member>) {
    forall i, j :: 0 <= i < j < |ms| ==> ms[i].key != ms[j].key
  }

  function Insert(m: Member, ms: seq<Member>): (r: seq<Member>)
    requires Sorted(ms)
    ensures Sorted(r)
    ensures multiset(r) == multiset(ms) + multiset{m}
  {
    if ms == [] then [m]
    else
      KeyLeqTotal(m.key, ms[0].key);
      assert ms == [ms[0]] + ms[1..];
      if KeyLeq(m.key, ms[0].key) then
        InsertFirst(m, ms);
        [m] + ms
      else
        var rest := Insert(m, ms[1..]);
        InsertLater(m, ms, rest);
        [ms[0]] + rest
  }

  lemma InsertFirst(m: Member, ms: seq<Member>)
    requires Sorted(ms) && ms != [] && KeyLeq(m.key, ms[0].key)
    ensures Sorted([m] + ms)
  {
    forall j | 0 <= j < |ms|
      ensures KeyLeq(m.key, ms[j].key)
    {
      if j > 0 {
        KeyLeqTransitive(m.key, ms[0].key, ms[j].key);
      }
    }
  }

  lemma InsertLater(m: Member, ms: seq<Member>, rest: seq<Member>)
    requires Sorted(ms) && ms != [] && KeyLeq(ms[0].key, m.key)
    requires Sorted(rest) && multiset(rest) == multiset(ms[1..]) + multiset{m}
    ensures Sorted([ms[0]] + rest)
  {
    forall j | 0 <= j < |rest|
      ensures KeyLeq(ms[0].key, rest[j].key)
    {
      assert rest[j] in multiset(rest);
      assert rest[j] == m || rest[j] in ms[1..];
    }
  }

  function Sort(ms: seq<Member>): (r: seq<Member>)
    ensures Sorted(r)
    ensures multiset(r) == multiset(ms)
    ensures forall m :: m in r <==> m in ms
  {
    if ms == [] then []
    else
      var r := Insert(ms[0], Sort(ms[1..]));
      assert ms == [ms[0]] + ms[1..];
      assert forall m :: m in r <==> m in multiset(r);
      assert forall m :: m in ms <==> m in multiset(ms);
      r
  }

  // ---------------------------------------------------------------- the canonical form

  /** `canonicalize_value`: sort the members of an object, then canonicalize each value. */
  function Canon(v: Json): Json
    decreases v
  {
    match v
    case Object(members) =>
      var sorted := Sort(members);
      Object(seq(|sorted|, i requires 0 <= i < |sorted| =>
        assert sorted[i] in members; Member(sorted[i].key, Canon(sorted[i].value))))
    case Array(items) => Array(seq(|items|, i requires 0 <= i < |items| => Canon(items[i])))
    case _ => v
  }

  /** What `serde_json` guarantees of every value: the keys of an object are distinct. */
  ghost predicate WellFormed(v: Json)
    decreases v
  {
    match v
    case Object(members) => DistinctKeys(members) && forall i :: 0 <= i < |members| ==> WellFormed(members[i].value)
    case Array(items) => forall i :: 0 <= i < |items| ==> WellFormed(items[i])
    case _ => true
  }

  ghost predicate HasMatch(m: Member, ms: seq<Member>)
    decreases m, 0
  {
    exists j :: 0 <= j < |ms| && ms[j].key == m.key && Same(m.value, ms[j].value)
  }

  /** Equal up to the order of object keys, at every level. */
  ghost predicate Same(v: Json, w: Json)
    decreases v, 1
  {
    match (v, w)
    case (Object(ms), Object(ns)) =>
      && (forall i :: 0 <= i < |ms| ==> HasMatch(ms[i], ns))
      && (forall j :: 0 <= j < |ns| ==> exists i :: 0 <= i < |ms| && ms[i].key == ns[j].key)
    case (Array(xs), Array(ys)) => |xs| == |ys| && forall i :: 0 <= i < |xs| ==> Same(xs[i], ys[i])
    case _ => v == w && !v.Object? && !v.Array?
  }

  // ---------------------------------------------------------------- proofs

  lemma DistinctAfterSort(ms: seq<Member>)
    requires DistinctKeys(ms)
    ensures DistinctKeys(Sort(ms))
  {
    var r := Sort(ms);
    forall i, j | 0 <= i < j < |r|
      ensures r[i].key != r[j].key
    {
      if r[i].key == r[j].key {
        assert r[i] in ms && r[j] in ms;
        assert r[i] == r[j];
        TwiceIfRepeated(r, i, j);
        OnceIfDistinct(ms, r[i]);
        assert false;
      }
    }
  }

  lemma TwiceIfRepeated(ms: seq<Member>, i: nat, j: nat)
    requires i < j < |ms| && ms[i] == ms[j]
    ensures multiset(ms)[ms[i]] >= 2
  {
    assert ms == ms[..j] + ms[j..];
    assert ms[i] in ms[..j] && ms[j] in ms[j..];
  }

  lemma {:induction false} OnceIfDistinct(ms: seq<Member>, m: Member)
    requires DistinctKeys(ms)
    ensures multiset(ms)[m] <= 1
  {
    if ms != [] {
      OnceIfDistinct(ms[1..], m);
      assert ms == [ms[0]] + ms[1..];
      if ms[0] == m {
        assert m !in ms[1..];
      }
    }
  }

  /** Sorted lists with distinct keys and the same members are one list. */
  lemma {:induction false} SortedUnique(xs: seq<Member>, ys: seq<Member>)
    requires Sorted(xs) && DistinctKeys(xs) && Sorted(ys) && DistinctKeys(ys)
    requires forall m :: m in xs <==> m in ys
    ensures xs == ys
  {
    assert xs == [] <==> ys == [] by {
      if xs != [] {
        assert xs[0] in xs;
      }
      if ys != [] {
        assert ys[0] in ys;
      }
    }
    if xs != [] {
      assert xs[0] in ys && ys[0] in xs;
      var j :| 0 <= j < |ys| && ys[j] == xs[0];
      var i :| 0 <= i < |xs| && xs[i] == ys[0];
      if j > 0 && i > 0 {
        KeyLeqAntisymmetric(xs[0].key, ys[0].key);
        assert false;
      }
      assert xs[0] == ys[0];
      forall m
        ensures m in xs[1..] <==> m in ys[1..]
      {
        assert m in xs[1..] <==> m in xs && m != xs[0];
        assert m in ys[1..] <==> m in ys && m != ys[0];
      }
      SortedUnique(xs[1..], ys[1..]);
      assert xs == [xs[0]] + xs[1..] && ys == [ys[0]] + ys[1..];
    }
  }

  lemma CanonIsSorted(v: Json)
    requires v.Object? && DistinctKeys(v.members)
    ensures Sorted(Canon(v).members) && DistinctKeys(Canon(v).members)
  {
    var sorted, cs := Sort(v.members), Canon(v).members;
    DistinctAfterSort(v.members);
    assert forall k :: 0 <= k < |sorted| ==> cs[k].key == sorted[k].key;
  }

  lemma CanonHas(v: Json, i: nat)
    requires v.Object? && i < |v.members|
    ensures Member(v.members[i].key, Canon(v.members[i].value)) in Canon(v).members
  {
    var sorted := Sort(v.members);
    assert v.members[i] in sorted;
    var k :| 0 <= k < |sorted| && sorted[k] == v.members[i];
    assert Canon(v).members[k] == Member(sorted[k].key, Canon(sorted[k].value));
  }

  lemma CanonOrigin(v: Json, m: Member) returns (i: nat)
    requires v.Object? && m in Canon(v).members
    ensures i < |v.members| && m == Member(v.members[i].key, Canon(v.members[i].value))
  {
    var sorted, cs := Sort(v.members), Canon(v).members;
    var k :| 0 <= k < |cs| && cs[k] == m;
    assert cs[k] == Member(sorted[k].key, Canon(sorted[k].value)) && sorted[k] in v.members;
    i :| 0 <= i < |v.members| && v.members[i] == sorted[k];
  }

  /** Canonicalizing keeps every key and value at every depth, and distinct keys. */
  lemma {:induction false} CanonIsSame(v: Json)
    requires WellFormed(v)
    ensures Same(v, Canon(v)) && WellFormed(Canon(v))
    decreases v
  {
    match v
    case Object(ms) =>
      CanonIsSorted(v);
      var cs := Canon(v).members;
      forall i | 0 <= i < |ms|
        ensures HasMatch(ms[i], cs)
      {
        CanonIsSame(ms[i].value);
        CanonHas(v, i);
      }
      forall k | 0 <= k < |cs|
        ensures WellFormed(cs[k].value) && exists i :: 0 <= i < |ms| && ms[i].key == cs[k].key
      {
        var i := CanonOrigin(v, cs[k]);
        CanonIsSame(ms[i].value);
      }
    case Array(items) =>
      forall i | 0 <= i < |items|
        ensures Same(items[i], Canon(items[i])) && WellFormed(Canon(items[i]))
      {
        CanonIsSame(items[i]);
      }
    case _ =>
  }

  /** Two values have one canonical form exactly when they differ only in key order. */
  lemma {:induction false} SameIffOneCanonicalForm(v: Json, w: Json)
    requires WellFormed(v) && WellFormed(w)
    ensures Same(v, w) <==> Canon(v) == Canon(w)
    decreases v
  {
    match (v, w)
    case (Object(ms), Object(ns)) =>
      if Same(v, w) {
        SameObjects(v, w);
      } else if Canon(v) == Canon(w) {
        OneCanonicalObject(v, w);
      }
    case (Array(xs), Array(ys)) =>
      SameArrays(v, w);
    case _ =>
  }

  lemma {:induction false} SameArrays(v: Json, w: Json)
    requires v.Array? && w.Array? && WellFormed(v) && WellFormed(w)
    ensures Same(v, w) <==> Canon(v) == Canon(w)
    decreases v, 0
  {
    var xs, ys := v.items, w.items;
    var cs, ds := Canon(v).items, Canon(w).items;
    if |xs| == |ys| {
      forall i | 0 <= i < |xs|
        ensures Same(xs[i], ys[i]) <==> cs[i] == ds[i]
      {
        SameIffOneCanonicalForm(xs[i], ys[i]);
      }
      if Same(v, w) {
        assert cs == ds;
      }
    }
  }

  lemma {:induction false} SameObjects(v: Json, w: Json)
    requires v.Object? && w.Object? && WellFormed(v) && WellFormed(w) && Same(v, w)
    ensures Canon(v) == Canon(w)
    decreases v, 1
  {
    forall m
      ensures m in Canon(v).members <==> m in Canon(w).members
    {
      if m in Canon(v).members {
        CanonMemberForward(v, w, m);
      }
      if m in Canon(w).members {
        CanonMemberBack(v, w, m);
      }
    }
    CanonIsSorted(v);
    CanonIsSorted(w);
    SortedUnique(Canon(v).members, Canon(w).members);
  }

  lemma {:induction false} CanonMemberForward(v: Json, w: Json, m: Member)
    requires v.Object? && w.Object? && WellFormed(v) && WellFormed(w) && Same(v, w)
    requires m in Canon(v).members
    ensures m in Canon(w).members
    decreases v, 1, 0
  {
    var i := CanonOrigin(v, m);
    var j := MatchedCanon(v, w, i);
    CanonHas(w, j);
  }

  lemma {:induction false} CanonMemberBack(v: Json, w: Json, m: Member)
    requires v.Object? && w.Object? && WellFormed(v) && WellFormed(w) && Same(v, w)
    requires m in Canon(w).members
    ensures m in Canon(v).members
    decreases v, 1, 0
  {
    var j := CanonOrigin(w, m);
    var i :| 0 <= i < |v.members| && v.members[i].key == w.members[j].key;
    var j' := MatchedCanon(v, w, i);
    assert j' == j;
    CanonHas(v, i);
  }

  lemma {:induction false} MatchedCanon(v: Json, w: Json, i: nat) returns (j: nat)
    requires v.Object? && w.Object? && WellFormed(v) && WellFormed(w) && Same(v, w) && i < |v.members|
    ensures j < |w.members| && w.members[j].key == v.members[i].key
    ensures Canon(w.members[j].value) == Canon(v.members[i].value)
    decreases v, 0
  {
    var ms, ns := v.members, w.members;
    assert HasMatch(ms[i], ns);
    j :| 0 <= j < |ns| && ns[j].key == ms[i].key && Same(ms[i].value, ns[j].value);
    SameIffOneCanonicalForm(ms[i].value, ns[j].value);
  }

  lemma {:induction false} OneCanonicalObject(v: Json, w: Json)
    requires v.Object? && w.Object? && WellFormed(v) && WellFormed(w) && Canon(v) == Canon(w)
    ensures Same(v, w)
    decreases v, 0
  {
    var ms, ns := v.members, w.members;
    forall i | 0 <= i < |ms|
      ensures HasMatch(ms[i], ns)
    {
      CanonHas(v, i);
      var j := CanonOrigin(w, Member(ms[i].key, Canon(ms[i].value)));
      SameIffOneCanonicalForm(ms[i].value, ns[j].value);
    }
    forall j | 0 <= j < |ns|
      ensures exists i :: 0 <= i < |ms| && ms[i].key == ns[j].key
    {
      CanonHas(w, j);
      var i := CanonOrigin(v, Member(ns[j].key, Canon(ns[j].value)));
    }
  }

  lemma CanonIdempotent(v: Json)
    requires WellFormed(v)
    ensures Canon(Canon(v)) == Canon(v)
  {
    CanonIsSame(v);
    SameIffOneCanonicalForm(v, Canon(v));
  }

  /** `hash_claim`: the hash of the text of the canonical form; the printer is a parameter. */
  function HashClaim(H: Hash, render: Json -> seq<byte>, claim: Json): Digest {
    H(render(Canon(claim)))
  }

  /** Key order never changes a claim's hash, and nothing else leaves it unchanged without a printer or hash clash. */
  lemma HashClaimIgnoresOnlyKeyOrder(H: Hash, render: Json -> seq<byte>, v: Json, w: Json)
    requires WellFormed(v) && WellFormed(w)
    ensures Same(v, w) ==> HashClaim(H, render, v) == HashClaim(H, render, w)
    ensures HashClaim(H, render, v) == HashClaim(H, render, w) ==>
      || Same(v, w)
      || (Canon(v) != Canon(w) && render(Canon(v)) == render(Canon(w)))
      || Collide(H, render(Canon(v)), render(Canon(w)))
  {
    SameIffOneCanonicalForm(v, w);
  }
}
