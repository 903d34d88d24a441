/** Reading many transactions or receipts of one height with a single early-exit scan over ordered keys. */
module PrefixScan {
  import opened ChainTypes
  import opened ByteStrings
  import opened HashKeys

  type HashBytes = h: Key | |h| == HASH_LEN witness seq(HASH_LEN, _ => 0)

  type FullKey = k: Key | |k| == PREFIX_LEN + HASH_LEN witness seq(PREFIX_LEN + HASH_LEN, _ => 0)

  datatype Row = Row(key: FullKey, value: Bytes)

  /** The store lists a column in key order. */
  ghost predicate Lists(rows: seq<Row>, column: map<Key, Bytes>) {
    && (forall i, j :: 0 <= i < j < |rows| ==> Less(rows[i].key, rows[j].key))
    && (forall i :: 0 <= i < |rows| ==> rows[i].key in column && column[rows[i].key] == rows[i].value)
    && (forall k :: k in column ==> exists i :: 0 <= i < |rows| && rows[i].key == k)
  }

  /** Where an iterator opened at a prefix starts. */
  function Seek(rows: seq<Row>, prefix: Key): (n: nat)
    ensures n <= |rows|
    ensures forall i :: 0 <= i < n ==> Less(rows[i].key, prefix)
    ensures n < |rows| ==> !Less(rows[n].key, prefix)
  {
    if rows == [] || !Less(rows[0].key, prefix) then 0
    else
      var n := Seek(rows[1..], prefix);
      assert forall i :: 0 < i < n + 1 ==> rows[i] == rows[1..][i - 1];
      n + 1
  }

  // ---------------------------------------------------------------- what a scan should find

  type Found = seq<(HashBytes, Bytes)>

  function HashesOf(found: Found): seq<HashBytes> {
    seq(|found|, i requires 0 <= i < |found| => found[i].0)
  }

  /** Every pair is a requested hash with its stored bytes, no hash twice. */
  ghost predicate Sound(found: Found, column: map<Key, Bytes>, height: nat, hashes: seq<HashBytes>) {
    && NoDup(HashesOf(found))
    && forall i :: 0 <= i < |found| ==>
         && found[i].0 in hashes && KeyOf(height, found[i].0) in column
         && column[KeyOf(height, found[i].0)] == found[i].1
  }

  /** No requested hash that is stored at the height is missing. */
  ghost predicate Covers(found: Found, column: map<Key, Bytes>, height: nat, hashes: seq<HashBytes>) {
    forall h :: h in hashes && KeyOf(height, h) in column ==> h in HashesOf(found)
  }

  function Taken(rows: seq<Row>, from: nat, upto: nat, hashes: seq<HashBytes>): Found
    requires from <= upto <= |rows|
  {
    if from == upto then []
    else
      var rest := Taken(rows, from, upto - 1, hashes);
      if HashOf(rows[upto - 1].key) in hashes then rest + [(HashOf(rows[upto - 1].key), rows[upto - 1].value)] else rest
  }

  ghost predicate AllAt(rows: seq<Row>, from: nat, upto: nat, height: nat)
    requires from <= upto <= |rows|
  {
    forall i :: from <= i < upto ==> HeightOf(rows[i].key) == height
  }

  lemma {:induction false} TakenIff(rows: seq<Row>, from: nat, upto: nat, hashes: seq<HashBytes>, h: HashBytes)
    requires from <= upto <= |rows|
    ensures h in HashesOf(Taken(rows, from, upto, hashes)) <==>
            h in hashes && exists i :: from <= i < upto && HashOf(rows[i].key) == h
    decreases upto
  {
    if from < upto {
      TakenIff(rows, from, upto - 1, hashes, h);
      var rest := Taken(rows, from, upto - 1, hashes);
      var all := Taken(rows, from, upto, hashes);
      if all != rest {
        assert HashesOf(all) == HashesOf(rest) + [HashOf(rows[upto - 1].key)];
      }
    }
  }

  /** Different rows of one height have different hashes. */
  lemma RowsDiffer(rows: seq<Row>, column: map<Key, Bytes>, i: nat, j: nat)
    requires Lists(rows, column) && i < j < |rows| && HeightOf(rows[i].key) == HeightOf(rows[j].key)
    ensures HashOf(rows[i].key) != HashOf(rows[j].key)
  {
    KeyFromParts(rows[i].key);
    KeyFromParts(rows[j].key);
    LessIrreflexive(rows[i].key);
  }

  lemma SoundAppend(found: Found, column: map<Key, Bytes>, height: nat, hashes: seq<HashBytes>, h: HashBytes)
    requires Sound(found, column, height, hashes) && h in hashes && h !in HashesOf(found) && KeyOf(height, h) in column
    ensures Sound(found + [(h, column[KeyOf(height, h)])], column, height, hashes)
  {
    hide KeyOf;
    var all := found + [(h, column[KeyOf(height, h)])];
    assert HashesOf(all) == HashesOf(found) + [h];
  }

  lemma NotTakenBefore(rows: seq<Row>, column: map<Key, Bytes>, from: nat, upto: nat, height: nat,
      hashes: seq<HashBytes>)
    requires Lists(rows, column) && from < upto <= |rows| && AllAt(rows, from, upto, height)
    ensures HashOf(rows[upto - 1].key) !in HashesOf(Taken(rows, from, upto - 1, hashes))
  {
    TakenIff(rows, from, upto - 1, hashes, HashOf(rows[upto - 1].key));
    forall i | from <= i < upto - 1
      ensures HashOf(rows[i].key) != HashOf(rows[upto - 1].key)
    {
      RowsDiffer(rows, column, i, upto - 1);
    }
    hide Lists;
  }

  lemma {:induction false} TakenIsSound(rows: seq<Row>, column: map<Key, Bytes>, from: nat, upto: nat, height: nat,
      hashes: seq<HashBytes>)
    requires Lists(rows, column) && from <= upto <= |rows| && AllAt(rows, from, upto, height)
    ensures Sound(Taken(rows, from, upto, hashes), column, height, hashes)
    decreases upto
  {
    hide KeyOf, HashOf, HashesOf;
    if from == upto {
      EmptySound(column, height, hashes);
    } else {
      hide Sound;
      TakenIsSound(rows, column, from, upto - 1, height, hashes);
      var rest, row := Taken(rows, from, upto - 1, hashes), rows[upto - 1];
      if HashOf(row.key) in hashes {
        KeyFromParts(row.key);
        NotTakenBefore(rows, column, from, upto, height, hashes);
        SoundAppend(rest, column, height, hashes, HashOf(row.key));
      }
    }
  }

  lemma EmptySound(column: map<Key, Bytes>, height: nat, hashes: seq<HashBytes>)
    ensures Sound([], column, height, hashes)
  {
  }

  /** Once the iterator shows another height, no row of the height is left. */
  lemma PassedHeight(rows: seq<Row>, column: map<Key, Bytes>, height: nat, at: nat, i: nat)
    requires Lists(rows, column) && height < Pow256(PREFIX_LEN)
    requires Seek(rows, PrefixOf(height)) <= at <= i < |rows| && HeightOf(rows[at].key) != height
    ensures HeightOf(rows[i].key) > height
  {
    hide Less, HeightOf, PrefixOf;
    StartsAtHeight(rows, column, height);
    HeightsRise(rows, column, Seek(rows, PrefixOf(height)), at);
    HeightsRise(rows, column, at, i);
  }

  lemma HeightsRise(rows: seq<Row>, column: map<Key, Bytes>, i: nat, j: nat)
    requires Lists(rows, column) && i <= j < |rows|
    ensures HeightOf(rows[i].key) <= HeightOf(rows[j].key)
  {
    hide Less, HeightOf;
    if i < j {
      HeightsAreOrdered(rows[i].key, rows[j].key);
    }
  }

  lemma StartsAtHeight(rows: seq<Row>, column: map<Key, Bytes>, height: nat)
    requires Lists(rows, column) && height < Pow256(PREFIX_LEN) && Seek(rows, PrefixOf(height)) < |rows|
    ensures HeightOf(rows[Seek(rows, PrefixOf(height))].key) >= height
  {
    hide Less, HeightOf, PrefixOf;
    BeforePrefixIff(rows[Seek(rows, PrefixOf(height))].key, height);
  }

  /** A scan that ran to the end of the height missed nothing. */
  lemma EndCovers(rows: seq<Row>, column: map<Key, Bytes>, upto: nat, height: nat, hashes: seq<HashBytes>)
    requires Lists(rows, column) && height < Pow256(PREFIX_LEN) && Seek(rows, PrefixOf(height)) <= upto <= |rows|
    requires upto < |rows| ==> HeightOf(rows[upto].key) != height
    ensures Covers(Taken(rows, Seek(rows, PrefixOf(height)), upto, hashes), column, height, hashes)
  {
    var start := Seek(rows, PrefixOf(height));
    forall h | h in hashes && KeyOf(height, h) in column
      ensures h in HashesOf(Taken(rows, start, upto, hashes))
    {
      KeyRoundTrip(height, h);
      var i :| 0 <= i < |rows| && rows[i].key == KeyOf(height, h);
      BeforePrefixIff(rows[i].key, height);
      if i >= upto {
        PassedHeight(rows, column, height, upto, i);
      }
      assert start <= i < upto;
      TakenIff(rows, start, upto, hashes, h);
    }
  }

  lemma SizeAtMost<T>(s: seq<T>)
    ensures |Elements(s)| <= |s|
  {
    if s != [] {
      SizeAtMost(s[..|s| - 1]);
      assert Elements(s) == Elements(s[..|s| - 1]) + {s[|s| - 1]};
    }
  }

  /** A scan that stopped because it had as many hits as requests missed nothing either. */
  lemma CountCovers(found: Found, column: map<Key, Bytes>, height: nat, hashes: seq<HashBytes>)
    requires Sound(found, column, height, hashes) && |found| == |hashes|
    ensures Covers(found, column, height, hashes)
  {
    var hit := HashesOf(found);
    NoDupSize(hit);
    SizeAtMost(hashes);
    assert Elements(hit) <= Elements(hashes);
    assert |Elements(hashes) - Elements(hit)| == |Elements(hashes)| - |Elements(hit)|;
    assert Elements(hashes) <= Elements(hit);
    forall h | h in hashes
      ensures h in hit
    {
      assert h in Elements(hashes);
    }
  }

  lemma TakenNone(rows: seq<Row>, from: nat, hashes: seq<HashBytes>)
    requires from <= |rows|
    ensures Taken(rows, from, from, hashes) == []
  {
  }

  lemma TakenStep(rows: seq<Row>, from: nat, upto: nat, hashes: seq<HashBytes>)
    requires from <= upto < |rows|
    ensures Taken(rows, from, upto + 1, hashes) ==
            if HashOf(rows[upto].key) in hashes
            then Taken(rows, from, upto, hashes) + [(HashOf(rows[upto].key), rows[upto].value)]
            else Taken(rows, from, upto, hashes)
  {
  }

  method ScanHeight(rows: seq<Row>, ghost column: map<Key, Bytes>, height: nat,
      hashes: seq<HashBytes>) returns (found: Found)
    requires Lists(rows, column) && height < Pow256(PREFIX_LEN)
    ensures Sound(found, column, height, hashes) && Covers(found, column, height, hashes)
  {
    hide Lists, Sound, Covers, PrefixOf, HeightOf, HashOf, Taken;
    var start := Seek(rows, PrefixOf(height));
    var i := start;
    found := [];
    var wanted := set h | h in hashes;
    var count := |hashes|;
    TakenNone(rows, start, hashes);
    while count > 0
      invariant start <= i <= |rows| && AllAt(rows, start, i, height)
      invariant found == Taken(rows, start, i, hashes) && 0 <= count == |hashes| - |found|
      decreases |rows| - i
    {
      if i == |rows| {
        break;
      }
      var row := rows[i];
      if HeightOf(row.key) != height {
        break;
      }
      TakenStep(rows, start, i, hashes);
      i := i + 1;
      if HashOf(row.key) in wanted {
        found := found + [(HashOf(row.key), row.value)];
        count := count - 1;
        TakenIsSound(rows, column, start, i, height, hashes);
        FewerFound(found, column, height, hashes);
      }
    }
    TakenIsSound(rows, column, start, i, height, hashes);
    if count == 0 {
      CountCovers(found, column, height, hashes);
    } else {
      EndCovers(rows, column, i, height, hashes);
    }
  }

  /** The countdown does not pass zero. */
  lemma FewerFound(found: Found, column: map<Key, Bytes>, height: nat, hashes: seq<HashBytes>)
    requires Sound(found, column, height, hashes)
    ensures |found| <= |hashes|
  {
    NoDupSize(HashesOf(found));
    SizeAtMost(hashes);
    assert Elements(HashesOf(found)) <= Elements(hashes);
    assert |Elements(hashes) - Elements(HashesOf(found))| == |Elements(hashes)| - |Elements(HashesOf(found))|;
  }

  // ---------------------------------------------------------------- decoding

  const BATCH_VALUE_DECODE_NUMBER: nat := 1000

  /** All values decoded in order, or nothing if one fails. */
  function DecodeAll<V>(found: Found, decode: Bytes -> Option<V>): Option<seq<(HashBytes, V)>> {
    if found == [] then Some([])
    else
      var front, last := DecodeAll(found[..|found| - 1], decode), decode(found[|found| - 1].1);
      if front.Some? && last.Some? then Some(front.value + [(found[|found| - 1].0, last.value)]) else None
  }

  lemma {:induction false} DecodeSplit<V>(a: Found, b: Found, decode: Bytes -> Option<V>)
    ensures DecodeAll(a + b, decode) ==
            (if DecodeAll(a, decode).Some? && DecodeAll(b, decode).Some?
             then Some(DecodeAll(a, decode).value + DecodeAll(b, decode).value) else None)
  {
    if b == [] {
      assert a + b == a;
      if DecodeAll(a, decode).Some? {
        assert DecodeAll(a, decode).value == DecodeAll(a, decode).value + [];
      }
    } else {
      assert (a + b)[..|a + b| - 1] == a + b[..|b| - 1] && (a + b)[|a + b| - 1] == b[|b| - 1];
      DecodeSplit(a, b[..|b| - 1], decode);
      if DecodeAll(a + b, decode).Some? {
        assert DecodeAll(a + b, decode).value == DecodeAll(a, decode).value + DecodeAll(b, decode).value;
      }
    }
  }

  /** Decoding in chunks, failing when any chunk fails, is decoding the whole. */
  method DecodeFound<V>(found: Found, decode: Bytes -> Option<V>) returns (r: Option<seq<(HashBytes, V)>>)
    ensures r == DecodeAll(found, decode)
  {
    if |found| <= BATCH_VALUE_DECODE_NUMBER {
      return DecodeAll(found, decode);
    }
    var out: seq<(HashBytes, V)> := [];
    var failed := false;
    var i := 0;
    while i < |found|
      invariant i <= |found|
      invariant DecodeAll(found[..i], decode) == if failed then None else Some(out)
    {
      var end := if i + BATCH_VALUE_DECODE_NUMBER < |found| then i + BATCH_VALUE_DECODE_NUMBER else |found|;
      var chunk := DecodeAll(found[i..end], decode);
      DecodeSplit(found[..i], found[i..end], decode);
      assert found[..i] + found[i..end] == found[..end];
      if chunk.None? {
        failed := true;
      } else if !failed {
        out := out + chunk.value;
      }
      i := end;
    }
    assert found[..|found|] == found;
    return if failed then None else Some(out);
  }

  lemma {:induction false} DecodedPairs<V>(found: Found, decode: Bytes -> Option<V>)
    ensures DecodeAll(found, decode).Some? <==> forall i :: 0 <= i < |found| ==> decode(found[i].1).Some?
    ensures DecodeAll(found, decode).Some? ==>
              var ds := DecodeAll(found, decode).value;
              && |ds| == |found|
              && forall i :: 0 <= i < |found| ==> ds[i].0 == found[i].0 && Some(ds[i].1) == decode(found[i].1)
  {
    if found != [] {
      DecodedPairs(found[..|found| - 1], decode);
    }
  }

  // ---------------------------------------------------------------- against point lookups

  /** A point lookup: `None` when the stored bytes do not decode. */
  function PointLookup<V>(column: map<Key, Bytes>, decode: Bytes -> Option<V>, height: nat,
      h: HashBytes): Option<Option<V>> {
    if KeyOf(height, h) !in column then Some(None)
    else
      var v := decode(column[KeyOf(height, h)]);
      if v.None? then None else Some(v)
  }

  /** What the scan should answer: an error if a lookup fails; otherwise each lookup at the first place of its
      hash and nothing at repetitions. */
  ghost predicate Answers<V>(r: Option<seq<Option<V>>>, column: map<Key, Bytes>, decode: Bytes -> Option<V>,
      height: nat, hashes: seq<HashBytes>) {
    && (r.Some? <==> forall i :: 0 <= i < |hashes| ==> PointLookup(column, decode, height, hashes[i]).Some?)
    && (r.Some? ==>
          && |r.value| == |hashes|
          && forall i :: 0 <= i < |hashes| ==>
               r.value[i] == if hashes[i] in hashes[..i] then None
                             else PointLookup(column, decode, height, hashes[i]).value)
  }

  ghost predicate Holds<V>(found: map<HashBytes, V>, column: map<Key, Bytes>, decode: Bytes -> Option<V>,
      height: nat, hashes: seq<HashBytes>) {
    forall h :: h in hashes ==>
      PointLookup(column, decode, height, h) == Some(if h in found then Some(found[h]) else None)
  }

  method ToMap<V>(pairs: seq<(HashBytes, V)>) returns (m: map<HashBytes, V>)
    requires forall i, j :: 0 <= i < j < |pairs| ==> pairs[i].0 != pairs[j].0
    ensures forall h :: h in m <==> exists i :: 0 <= i < |pairs| && pairs[i].0 == h
    ensures forall i :: 0 <= i < |pairs| ==> m[pairs[i].0] == pairs[i].1
  {
    m := map[];
    for n := 0 to |pairs|
      invariant forall h :: h in m <==> exists i :: 0 <= i < n && pairs[i].0 == h
      invariant forall i :: 0 <= i < n ==> m[pairs[i].0] == pairs[i].1
    {
      m := m[pairs[n].0 := pairs[n].1];
    }
  }

  /** Each hash takes its value out of the map. */
  method TakeOut<V>(found: map<HashBytes, V>, hashes: seq<HashBytes>) returns (out: seq<Option<V>>)
    ensures |out| == |hashes|
    ensures forall i :: 0 <= i < |hashes| ==>
              out[i] == if hashes[i] in hashes[..i] || hashes[i] !in found then None else Some(found[hashes[i]])
  {
    var m := found;
    out := [];
    for n := 0 to |hashes|
      invariant |out| == n
      invariant m == map h | h in found && h !in hashes[..n] :: found[h]
      invariant forall i :: 0 <= i < n ==>
                  out[i] == if hashes[i] in hashes[..i] || hashes[i] !in found then None else Some(found[hashes[i]])
    {
      out := out + [if hashes[n] in m then Some(m[hashes[n]]) else None];
      m := m - {hashes[n]};
      assert hashes[..n + 1] == hashes[..n] + [hashes[n]];
    }
  }

  lemma FailsTogether<V>(found: Found, column: map<Key, Bytes>, decode: Bytes -> Option<V>, height: nat,
      hashes: seq<HashBytes>)
    requires Sound(found, column, height, hashes) && Covers(found, column, height, hashes)
    ensures DecodeAll(found, decode).Some? <==>
            forall i :: 0 <= i < |hashes| ==> PointLookup(column, decode, height, hashes[i]).Some?
  {
    DecodedPairs(found, decode);
    if i :| 0 <= i < |found| && decode(found[i].1).None? {
      var j :| 0 <= j < |hashes| && hashes[j] == found[i].0;
      assert PointLookup(column, decode, height, hashes[j]).None?;
    } else {
      forall j | 0 <= j < |hashes|
        ensures PointLookup(column, decode, height, hashes[j]).Some?
      {
        if KeyOf(height, hashes[j]) in column {
          assert hashes[j] in HashesOf(found);
          var i :| 0 <= i < |found| && HashesOf(found)[i] == hashes[j];
          assert decode(found[i].1).Some?;
        }
      }
    }
  }

  method GetTransactions<V>(rows: seq<Row>, ghost column: map<Key, Bytes>, decode: Bytes -> Option<V>, height: nat,
      hashes: seq<HashBytes>)
    returns (r: Option<seq<Option<V>>>)
    requires Lists(rows, column) && height < Pow256(PREFIX_LEN)
    ensures Answers(r, column, decode, height, hashes)
  {
    var found := ScanHeight(rows, column, height, hashes);
    var decoded := DecodeFound(found, decode);
    FailsTogether(found, column, decode, height, hashes);
    if decoded.None? {
      return None;
    }
    DecodedPairs(found, decode);
    DecodedDiffer(found, decode);
    var m := ToMap(decoded.value);
    MapHolds(found, column, decode, height, hashes, decoded.value, m);
    var out := TakeOut(m, hashes);
    return Some(out);
  }

  lemma DecodedDiffer<V>(found: Found, decode: Bytes -> Option<V>)
    requires NoDup(HashesOf(found)) && DecodeAll(found, decode).Some?
    ensures var ds := DecodeAll(found, decode).value; forall i, j :: 0 <= i < j < |ds| ==> ds[i].0 != ds[j].0
  {
    DecodedPairs(found, decode);
    var ds := DecodeAll(found, decode).value;
    forall i, j | 0 <= i < j < |ds|
      ensures ds[i].0 != ds[j].0
    {
      assert HashesOf(found)[i] != HashesOf(found)[j];
    }
  }

  lemma MapHolds<V>(found: Found, column: map<Key, Bytes>, decode: Bytes -> Option<V>, height: nat,
      hashes: seq<HashBytes>, ds: seq<(HashBytes, V)>, m: map<HashBytes, V>)
    requires Sound(found, column, height, hashes) && Covers(found, column, height, hashes)
    requires |ds| == |found|
    requires forall i :: 0 <= i < |found| ==> ds[i].0 == found[i].0 && Some(ds[i].1) == decode(found[i].1)
    requires forall h :: h in m <==> exists i :: 0 <= i < |ds| && ds[i].0 == h
    requires forall i :: 0 <= i < |ds| ==> m[ds[i].0] == ds[i].1
    ensures Holds(m, column, decode, height, hashes)
  {
    forall h | h in hashes
      ensures PointLookup(column, decode, height, h) == Some(if h in m then Some(m[h]) else None)
    {
      if h in HashesOf(found) {
        var i :| 0 <= i < |found| && HashesOf(found)[i] == h;
        assert ds[i].0 == h;
      } else {
        forall i | 0 <= i < |ds|
          ensures ds[i].0 != h
        {
          assert HashesOf(found)[i] == ds[i].0;
        }
      }
    }
  }

  /** Receipts are read the same way, except that an empty request touches nothing. */
  method GetReceipts<V>(rows: seq<Row>, ghost column: map<Key, Bytes>, decode: Bytes -> Option<V>, height: nat,
      hashes: seq<HashBytes>)
    returns (r: Option<seq<Option<V>>>)
    requires Lists(rows, column) && height < Pow256(PREFIX_LEN)
    ensures Answers(r, column, decode, height, hashes)
  {
    if hashes == [] {
      return Some([]);
    }
    r := GetTransactions(rows, column, decode, height, hashes);
  }

  /** Without repetitions the answer is exactly the point lookups, position by position. */
  lemma ScanIsPointLookups<V>(r: Option<seq<Option<V>>>, column: map<Key, Bytes>, decode: Bytes -> Option<V>,
      height: nat, hashes: seq<HashBytes>)
    requires Answers(r, column, decode, height, hashes) && r.Some?
    ensures (forall i :: 0 <= i < |hashes| ==> Some(r.value[i]) == PointLookup(column, decode, height, hashes[i])) <==>
            (forall i :: 0 <= i < |hashes| && hashes[i] in hashes[..i] ==> KeyOf(height, hashes[i]) !in column)
  {
    forall i | 0 <= i < |hashes|
      ensures Some(r.value[i]) == PointLookup(column, decode, height, hashes[i]) <==>
              !(hashes[i] in hashes[..i] && KeyOf(height, hashes[i]) in column)
    {
      assert PointLookup(column, decode, height, hashes[i]).Some?;
    }
  }
}
