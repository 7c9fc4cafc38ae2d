/** A chained hash binds the type, the contents and the length of its list. */
module ListBinding {
  import opened Hashing

  /**
   Unequal lists, or equal lists under unequal types, with one chained hash give up a
   collision.  Length is bound too: a chain ends in a 36-byte seed and grows by 64-byte steps.
   */
  function ListCollision(H: Hash, tag: Tag, t: Digest, xs: seq<Digest>, t': Digest, ys: seq<Digest>)
    : (clash: (seq<byte>, seq<byte>))
    requires HashList(H, tag, t, xs) == HashList(H, tag, t', ys)
    requires t != t' || xs != ys
    ensures Collide(H, clash.0, clash.1)
    decreases |xs|
  {
    var x, y := ListPreimage(H, tag, t, xs), ListPreimage(H, tag, t', ys);
    if xs == [] || ys == [] then
      assert x != y by {
        if xs == ys {
          SeedsDiffer(tag, t, t');
        }
      }
      (x, y)
    else if x != y then (x, y)
    else
      var m, n := |xs| - 1, |ys| - 1;
      JoinInjective(HashList(H, tag, t, xs[..m]), xs[m], HashList(H, tag, t', ys[..n]), ys[n]);
      assert xs == xs[..m] + [xs[m]] && ys == ys[..n] + [ys[n]];
      ListCollision(H, tag, t, xs[..m], t', ys[..n])
  }

  lemma SeedsDiffer(tag: Tag, t: Digest, t': Digest)
    requires t != t'
    ensures SeedPreimage(tag, t) != SeedPreimage(tag, t')
  {
    assert SeedPreimage(tag, t)[4..] == t && SeedPreimage(tag, t')[4..] == t';
  }
}
