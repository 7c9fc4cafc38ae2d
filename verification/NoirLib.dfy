/**
 The shared circuit library, circuits/noir/lib/src/lib.nr: fixed loops over fixed buffers,
 each proved equal to the hash of the preimage it assembles.
 */
module NoirLib {
  import opened Hashing
  import opened Merkle

  function Min(a: nat, b: nat): nat {
    if a < b then a else b
  }

  /** The circuit's path check: entries at `depth` and beyond are skipped. */
  predicate PathAccepts(H: Hash, leaf: Digest, path: seq<Digest>, sides: seq<byte>, root: Digest, depth: u32)
    requires |path| == |sides|
  {
    var m := Min(depth, |path|);
    Fold(H, leaf, path[..m], sides[..m]) == root
  }

  /** One loop fills both halves of the buffer. */
  method HashPair(H: Hash, left: Digest, right: Digest) returns (hash: Digest)
    ensures hash == H(Join(left, right))
    ensures var l: seq<byte> := left; hash == H(l + right)
  {
    var combined := new byte[64](_ => 0);
    for i := 0 to 32
      invariant combined[..i] == left[..i] && combined[32..32 + i] == right[..i]
    {
      combined[i] := left[i];
      combined[i + 32] := right[i];
      assert left[..i + 1] == left[..i] + [left[i]] && right[..i + 1] == right[..i] + [right[i]];
    }
    assert left[..32] == left && right[..32] == right;
    assert combined[..] == combined[..32] + combined[32..64];
    hash := H(combined[..]);
  }

  method BytesEqual(a: Digest, b: Digest) returns (equal: bool)
    ensures equal <==> a == b
  {
    equal := true;
    for i := 0 to 32
      invariant equal <==> a[..i] == b[..i]
    {
      assert a[..i + 1] == a[..i] + [a[i]] && b[..i + 1] == b[..i] + [b[i]];
      if a[i] != b[i] {
        equal := false;
      }
    }
    assert a[..32] == a && b[..32] == b;
  }

  method VerifyMerkleProof(H: Hash, leaf: Digest, path: seq<Digest>, indices: seq<byte>, root: Digest, depth: u32)
    returns (ok: bool)
    requires |path| == |indices|
    ensures ok <==> PathAccepts(H, leaf, path, indices, root, depth)
  {
    var current := leaf;
    for i := 0 to |path|
      invariant var m := Min(depth, i); current == Fold(H, leaf, path[..m], indices[..m])
    {
      if i < depth {
        assert path[..i + 1][..i] == path[..i] && indices[..i + 1][..i] == indices[..i];
        FoldSnoc(H, leaf, path[..i + 1], indices[..i + 1]);
        if indices[i] == 0 {
          current := HashPair(H, current, path[i]);
        } else {
          current := HashPair(H, path[i], current);
        }
      }
    }
    ok := BytesEqual(current, root);
  }

  /** The value goes through a 32-byte field encoding, whose last eight bytes are kept. */
  method HashClaimValue(H: Hash, claimType: Digest, value: u64, unit: Digest) returns (hash: Digest)
    ensures hash == H(NumericPreimage(claimType, value, unit))
    ensures hash == H(claimType + BigEndian(value, 8) + unit)
  {
    var data := new byte[72](_ => 0);
    CopyInto(data, 0, claimType);
    var valueBytes := BigEndian(value, 32);
    BigEndianSuffix(value, 32, 8);
    CopyInto(data, 32, valueBytes[24..]);
    CopyInto(data, 40, unit);
    assert data[..] == NumericPreimage(claimType, value, unit);
    hash := H(data[..]);
  }

  method HashCertWindow(H: Hash, claimType: Digest, validFrom: u64, validUntil: u64) returns (hash: Digest)
    ensures hash == H(WindowPreimage(claimType, validFrom, validUntil))
    ensures hash == H(claimType + BigEndian(validFrom, 8) + BigEndian(validUntil, 8))
  {
    var data := new byte[48](_ => 0);
    CopyInto(data, 0, claimType);
    var fromBytes, untilBytes := BigEndian(validFrom, 32), BigEndian(validUntil, 32);
    BigEndianSuffix(validFrom, 32, 8);
    BigEndianSuffix(validUntil, 32, 8);
    CopyInto(data, 32, fromBytes[24..]);
    CopyInto(data, 40, untilBytes[24..]);
    assert data[..] == WindowPreimage(claimType, validFrom, validUntil);
    hash := H(data[..]);
  }

  /** The chain over the first `count` entries of a list padded to a fixed size. */
  method HashSubstanceList(H: Hash, domain: Tag, claimType: Digest, substances: seq<Digest>, count: u32)
    returns (hash: Digest)
    ensures hash == HashList(H, domain, claimType, substances[..Min(count, |substances|)])
  {
    var seed := new byte[36](_ => 0);
    CopyInto(seed, 0, domain);
    CopyInto(seed, 4, claimType);
    assert seed[..] == SeedPreimage(domain, claimType);
    hash := H(seed[..]);

    for i := 0 to |substances|
      invariant hash == HashList(H, domain, claimType, substances[..Min(count, i)])
    {
      if i < count {
        assert substances[..i + 1][..i] == substances[..i];
        hash := HashPair(H, hash, substances[i]);
      }
    }
  }
}
