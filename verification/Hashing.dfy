/**
 Byte strings, the hash and the preimages of every hashed object.

 BLAKE3 is not modelled.  Every definition takes the hash `H` as a parameter, so that each
 theorem holds of every function from byte strings to 32-byte digests.  Where a theorem
 needs `H` to be collision resistant it returns the two byte strings that collide.
 */
module Hashing {
  type byte = b: int | 0 <= b < 256

  type u64 = n: int | 0 <= n < 0x1_0000_0000_0000_0000

  type u32 = n: int | 0 <= n < 0x1_0000_0000

  type Digest = d: seq<byte> | |d| == 32 witness seq(32, _ => 0)

  type Hash = seq<byte> -> Digest

  /** A four-byte domain separator. */
  type Tag = d: seq<byte> | |d| == 4 witness [0, 0, 0, 0]

  const ZERO_DIGEST: Digest := [
    0, 0, 0, 0, 0, 0, 0, 0, 0, 0, 0, 0, 0, 0, 0, 0,
    0, 0, 0, 0, 0, 0, 0, 0, 0, 0, 0, 0, 0, 0, 0, 0
  ]

  // "SUBP" and "SUBF"
  const SUBSTANCE_PRODUCT: Tag := [0x53, 0x55, 0x42, 0x50]
  const SUBSTANCE_FORBIDDEN: Tag := [0x53, 0x55, 0x42, 0x46]

  predicate Collide(H: Hash, x: seq<byte>, y: seq<byte>) {
    x != y && H(x) == H(y)
  }

  // ---------------------------------------------------------------- integers as bytes

  /** The `n` low bytes of `v`, most significant first. */
  function BigEndian(v: nat, n: nat): (bytes: seq<byte>)
    ensures |bytes| == n
  {
    if n == 0 then [] else BigEndian(v / 256, n - 1) + [v % 256]
  }

  function FromBigEndian(bytes: seq<byte>): nat {
    if bytes == [] then 0 else FromBigEndian(bytes[..|bytes| - 1]) * 256 + bytes[|bytes| - 1]
  }

  function Pow256(n: nat): nat {
    if n == 0 then 1 else 256 * Pow256(n - 1)
  }

  lemma {:induction false} BigEndianRoundTrip(v: nat, n: nat)
    requires v < Pow256(n)
    ensures FromBigEndian(BigEndian(v, n)) == v
  {
    if n > 0 {
      BigEndianRoundTrip(v / 256, n - 1);
      assert BigEndian(v, n)[..n - 1] == BigEndian(v / 256, n - 1);
    }
  }

  /** The first byte weighs most. */
  lemma {:induction false} LeadingByte(b: byte, rest: seq<byte>)
    ensures FromBigEndian([b] + rest) == b * Pow256(|rest|) + FromBigEndian(rest)
    decreases |rest|
  {
    if rest == [] {
      assert [b] + rest == [b] && [b][..0] == [];
    } else {
      var (m, init) := (|rest| - 1, rest[..|rest| - 1]);
      LeadingByte(b, init);
      assert ([b] + rest)[..|[b] + rest| - 1] == [b] + init;
      assert (b * Pow256(m) + FromBigEndian(init)) * 256 == b * Pow256(m + 1) + FromBigEndian(init) * 256;
    }
  }

  lemma U64RoundTrip(v: u64)
    ensures FromBigEndian(BigEndian(v, 8)) == v
  {
    assert Pow256(8) == 0x1_0000_0000_0000_0000 by {
      assert Pow256(4) == 0x1_0000_0000;
    }
    BigEndianRoundTrip(v, 8);
  }

  lemma U64BytesInjective(v: u64, w: u64)
    requires BigEndian(v, 8) == BigEndian(w, 8)
    ensures v == w
  {
    U64RoundTrip(v);
    U64RoundTrip(w);
  }

  /** The last `m` bytes of a longer big-endian encoding are the `m`-byte encoding. */
  lemma {:induction false} BigEndianSuffix(v: nat, n: nat, m: nat)
    requires m <= n
    ensures BigEndian(v, n)[n - m..] == BigEndian(v, m)
  {
    if m > 0 {
      BigEndianSuffix(v / 256, n - 1, m - 1);
      assert BigEndian(v, n)[n - m..] == BigEndian(v / 256, n - 1)[n - m..] + [v % 256];
    }
  }

  // ---------------------------------------------------------------- preimages

  /** Two digests side by side. */
  function Join(l: Digest, r: Digest): (p: seq<byte>)
    ensures |p| == 64
  {
    var left: seq<byte> := l;
    left + r
  }

  function NumericPreimage(typeHash: Digest, value: u64, unitHash: Digest): (p: seq<byte>)
    ensures |p| == 72
  {
    typeHash + BigEndian(value, 8) + unitHash
  }

  function WindowPreimage(typeHash: Digest, validFrom: u64, validUntil: u64): (p: seq<byte>)
    ensures |p| == 48
  {
    typeHash + BigEndian(validFrom, 8) + BigEndian(validUntil, 8)
  }

  function SeedPreimage(tag: Tag, typeHash: Digest): (p: seq<byte>)
    ensures |p| == 36
  {
    tag + typeHash
  }

  /** The chained hash of a list: a 36-byte seed, then one 64-byte step for each item. */
  function HashList(H: Hash, tag: Tag, typeHash: Digest, items: seq<Digest>): Digest
    decreases |items|, 1
  {
    H(ListPreimage(H, tag, typeHash, items))
  }

  function ListPreimage(H: Hash, tag: Tag, typeHash: Digest, items: seq<Digest>): (p: seq<byte>)
    ensures |p| == if items == [] then 36 else 64
    decreases |items|, 0
  {
    if items == [] then SeedPreimage(tag, typeHash)
    else Join(HashList(H, tag, typeHash, items[..|items| - 1]), items[|items| - 1])
  }

  /** An empty list hashes its seed, tag before type; each further item is joined behind the chain so far. */
  lemma ListHashUnfolds(H: Hash, tag: Tag, typeHash: Digest, items: seq<Digest>, item: Digest)
    ensures var start: seq<byte> := tag; HashList(H, tag, typeHash, []) == H(start + typeHash)
    ensures var chain: seq<byte> := HashList(H, tag, typeHash, items);
      HashList(H, tag, typeHash, items + [item]) == H(chain + item)
  {
    assert (items + [item])[..|items|] == items;
  }

  /** Two digests are joined left then right, never sorted. */
  lemma JoinLayout(l: Digest, r: Digest)
    ensures Join(l, r)[..32] == l && Join(l, r)[32..] == r
  {
  }

  lemma NumericLayout(typeHash: Digest, value: u64, unitHash: Digest)
    ensures var p := NumericPreimage(typeHash, value, unitHash);
      p[..32] == typeHash && FromBigEndian(p[32..40]) == value && p[40..] == unitHash
  {
    U64RoundTrip(value);
    assert NumericPreimage(typeHash, value, unitHash)[32..40] == BigEndian(value, 8);
  }

  lemma WindowLayout(typeHash: Digest, validFrom: u64, validUntil: u64)
    ensures var p := WindowPreimage(typeHash, validFrom, validUntil);
      p[..32] == typeHash && FromBigEndian(p[32..40]) == validFrom && FromBigEndian(p[40..]) == validUntil
  {
    U64RoundTrip(validFrom);
    U64RoundTrip(validUntil);
    var p := WindowPreimage(typeHash, validFrom, validUntil);
    assert p[32..40] == BigEndian(validFrom, 8) && p[40..] == BigEndian(validUntil, 8);
  }

  /**
   The claims that become leaves, by the encoding their hash uses.  A claim type and a unit
   enter a preimage as the hash of their text.
   */
  datatype Leaf =
    | Numeric(claimType: seq<byte>, value: u64, unit: seq<byte>)
    | Window(claimType: seq<byte>, validFrom: u64, validUntil: u64)
    | Valued(claimType: seq<byte>, valueHash: Digest)
    | Substances(claimType: seq<byte>, items: seq<Digest>)
    | Document(text: seq<byte>)
  {
    function Preimage(H: Hash): seq<byte> {
      match this
      case Numeric(t, v, u) => NumericPreimage(H(t), v, H(u))
      case Window(t, f, u) => WindowPreimage(H(t), f, u)
      case Valued(t, v) => Join(H(t), v)
      case Substances(t, items) => ListPreimage(H, SUBSTANCE_PRODUCT, H(t), items)
      case Document(text) => text
    }

    function LeafHash(H: Hash): Digest {
      H(Preimage(H))
    }
  }

  function LeafHashes(H: Hash, leaves: seq<Leaf>): (hashes: seq<Digest>)
    ensures |hashes| == |leaves|
    ensures forall i :: 0 <= i < |leaves| ==> hashes[i] == leaves[i].LeafHash(H)
  {
    seq(|leaves|, i requires 0 <= i < |leaves| => leaves[i].LeafHash(H))
  }

  lemma NumericPreimageInjective(t: Digest, v: u64, u: Digest, t': Digest, v': u64, u': Digest)
    requires NumericPreimage(t, v, u) == NumericPreimage(t', v', u')
    ensures t == t' && v == v' && u == u'
  {
    var p, p' := NumericPreimage(t, v, u), NumericPreimage(t', v', u');
    assert t == p[..32] && t' == p'[..32];
    assert BigEndian(v, 8) == p[32..40] && BigEndian(v', 8) == p'[32..40];
    assert u == p[40..] && u' == p'[40..];
    U64BytesInjective(v, v');
  }

  lemma WindowPreimageInjective(t: Digest, f: u64, u: u64, t': Digest, f': u64, u': u64)
    requires WindowPreimage(t, f, u) == WindowPreimage(t', f', u')
    ensures t == t' && f == f' && u == u'
  {
    var p, p' := WindowPreimage(t, f, u), WindowPreimage(t', f', u');
    assert t == p[..32] && t' == p'[..32];
    assert BigEndian(f, 8) == p[32..40] && BigEndian(f', 8) == p'[32..40];
    assert BigEndian(u, 8) == p[40..] && BigEndian(u', 8) == p'[40..];
    U64BytesInjective(f, f');
    U64BytesInjective(u, u');
  }

  lemma JoinInjective(l: Digest, r: Digest, l': Digest, r': Digest)
    requires Join(l, r) == Join(l', r')
    ensures l == l' && r == r'
  {
    assert l == Join(l, r)[..32] && l' == Join(l', r')[..32];
    assert r == Join(l, r)[32..] && r' == Join(l', r')[32..];
  }

  /** The byte loop that fills a preimage buffer. */
  method CopyInto(data: array<byte>, at: nat, source: seq<byte>)
    requires at + |source| <= data.Length
    modifies data
    ensures data[..] == old(data[..at]) + source + old(data[at + |source|..])
  {
    for i := 0 to |source|
      invariant data[..] == old(data[..at]) + source[..i] + old(data[at + i..])
    {
      data[at + i] := source[i];
      assert data[..] == (old(data[..at]) + source[..i])[..at + i] + [source[i]] + old(data[at + i + 1..]);
      assert source[..i + 1] == source[..i] + [source[i]];
    }
  }
}
