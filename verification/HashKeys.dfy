/** Storage keys of transactions and receipts: an eight-byte big-endian height followed by a hash. */
module HashKeys {
  import opened ByteStrings

  type Key = ByteString

  const PREFIX_LEN: nat := 8
  const HASH_LEN: nat := 32

  function PrefixOf(height: nat): Key {
    ToBytes(height, PREFIX_LEN)
  }

  function KeyOf(height: nat, hash: Key): Key {
    PrefixOf(height) + hash
  }

  function HeightOf(key: Key): nat
    requires |key| >= PREFIX_LEN
  {
    FromBytes(key[..PREFIX_LEN])
  }

  function HashOf(key: Key): (hash: Key)
    requires |key| >= PREFIX_LEN
    ensures |hash| == |key| - PREFIX_LEN
  {
    key[PREFIX_LEN..]
  }

  /** Byte-wise order, as the store keeps its keys. */
  predicate Less(a: Key, b: Key) {
    b != [] && (a == [] || a[0] < b[0] || (a[0] == b[0] && Less(a[1..], b[1..])))
  }

  // ---------------------------------------------------------------- round trips

  /** A key gives back the height and the hash it was made from. */
  lemma KeyRoundTrip(height: nat, hash: Key)
    requires height < Pow256(PREFIX_LEN)
    ensures HeightOf(KeyOf(height, hash)) == height && HashOf(KeyOf(height, hash)) == hash
  {
    FromToBytes(height, PREFIX_LEN);
    assert KeyOf(height, hash)[..PREFIX_LEN] == PrefixOf(height);
  }

  lemma KeyFromParts(key: Key)
    requires |key| >= PREFIX_LEN
    ensures KeyOf(HeightOf(key), HashOf(key)) == key && HeightOf(key) < Pow256(PREFIX_LEN)
  {
    ToFromBytes(key[..PREFIX_LEN]);
    assert key == key[..PREFIX_LEN] + key[PREFIX_LEN..];
  }

  // ---------------------------------------------------------------- order

  lemma {:induction false} LessTrans(a: Key, b: Key, c: Key)
    requires Less(a, b) && Less(b, c)
    ensures Less(a, c)
  {
    if a != [] && a[0] == b[0] && b[0] == c[0] {
      LessTrans(a[1..], b[1..], c[1..]);
    }
  }

  lemma {:induction false} LessIrreflexive(a: Key)
    ensures !Less(a, a)
  {
    if a != [] {
      LessIrreflexive(a[1..]);
    }
  }

  /** Comparing two keys compares their equally long beginnings first. */
  lemma {:induction false} LessSplit(a: Key, b: Key, x: Key, y: Key)
    requires |a| == |b|
    ensures Less(a + x, b + y) <==> Less(a, b) || (a == b && Less(x, y))
  {
    if a == [] {
      assert a + x == x && b + y == y;
    } else {
      assert (a + x)[1..] == a[1..] + x && (b + y)[1..] == b[1..] + y;
      assert a == b <==> a[0] == b[0] && a[1..] == b[1..];
      LessSplit(a[1..], b[1..], x, y);
    }
  }

  /** Equally long byte strings are ordered as the numbers they stand for. */
  lemma {:induction false} LessIsNumeric(a: Key, b: Key)
    requires |a| == |b|
    ensures Less(a, b) <==> FromBytes(a) < FromBytes(b)
    ensures a == b <==> FromBytes(a) == FromBytes(b)
  {
    ToFromBytes(a);
    ToFromBytes(b);
    if a != [] {
      var k := |a| - 1;
      assert a == a[..k] + [a[k]] && b == b[..k] + [b[k]];
      LessSplit(a[..k], b[..k], [a[k]], [b[k]]);
      LessIsNumeric(a[..k], b[..k]);
      assert Less([a[k]], [b[k]]) <==> a[k] < b[k];
    }
  }

  /** Keys are ordered by height first. */
  lemma HeightsAreOrdered(a: Key, b: Key)
    requires |a| >= PREFIX_LEN && |b| >= PREFIX_LEN && Less(a, b)
    ensures HeightOf(a) <= HeightOf(b)
  {
    assert a == a[..PREFIX_LEN] + a[PREFIX_LEN..] && b == b[..PREFIX_LEN] + b[PREFIX_LEN..];
    LessSplit(a[..PREFIX_LEN], b[..PREFIX_LEN], a[PREFIX_LEN..], b[PREFIX_LEN..]);
    LessIsNumeric(a[..PREFIX_LEN], b[..PREFIX_LEN]);
  }

  /** The keys before a height's prefix are exactly those of smaller heights. */
  lemma BeforePrefixIff(key: Key, height: nat)
    requires |key| >= PREFIX_LEN && height < Pow256(PREFIX_LEN)
    ensures Less(key, PrefixOf(height)) <==> HeightOf(key) < height
  {
    var p := PrefixOf(height);
    FromToBytes(height, PREFIX_LEN);
    assert key == key[..PREFIX_LEN] + key[PREFIX_LEN..] && p == p + [];
    LessSplit(key[..PREFIX_LEN], p, key[PREFIX_LEN..], []);
    LessIsNumeric(key[..PREFIX_LEN], p);
  }
}
