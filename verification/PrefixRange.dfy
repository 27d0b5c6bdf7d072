// The upper bound that turns "all keys with this prefix" into an etcd key range.
module PrefixRange {
  import opened Common

  // The order of etcd keys: lexicographic, byte by byte.
  predicate Less(a: Bytes, b: Bytes) {
    b != [] && (a == [] || a[0] < b[0] || (a[0] == b[0] && Less(a[1..], b[1..])))
  }

  predicate HasPrefix(key: Bytes, prefix: Bytes) {
    |prefix| <= |key| && key[..|prefix|] == prefix
  }

  // A single zero byte as range end stands for no upper bound.
  const NO_BOUND: Bytes := [0]

  predicate InRange(key: Bytes, from: Bytes, end: Bytes) {
    !Less(key, from) && (end == NO_BOUND || Less(key, end))
  }

  // Increment the last byte that is not 0xFF and cut off what follows.
  function RangeEnd(prefix: Bytes): Bytes {
    if prefix == [] then NO_BOUND
    else
      var n := |prefix| - 1;
      if prefix[n] != 0xFF then prefix[..n] + [prefix[n] + 1] else RangeEnd(prefix[..n])
  }

  method PrefixRangeEnd(prefix: Bytes) returns (end: Bytes)
    ensures end == RangeEnd(prefix)
  {
    end := prefix;
    var index := |end| - 1;
    assert prefix[..index + 1] == prefix;
    while index >= 0
      invariant -1 <= index < |prefix| && end == prefix
      invariant RangeEnd(prefix) == RangeEnd(prefix[..index + 1])
    {
      assert prefix[..index + 1][..index] == prefix[..index];
      if end[index] != 0xFF {
        end := end[index := end[index] + 1];
        end := end[..index + 1];
        return;
      }
      index := index - 1;
    }
    end := NO_BOUND;
  }

  // ----- facts of the order -----

  lemma {:induction false} PrefixIsNotGreater(a: Bytes, b: Bytes)
    ensures !Less(a + b, a)
  {
    if a != [] {
      assert (a + b)[1..] == a[1..] + b;
      PrefixIsNotGreater(a[1..], b);
    }
  }

  // What is not below a longer key is not below its prefix.
  lemma {:induction false} NotBelowPrefix(key: Bytes, a: Bytes, b: Bytes)
    requires !Less(key, a + b)
    ensures !Less(key, a)
  {
    if a != [] && key != [] && key[0] == a[0] {
      assert (a + b)[1..] == a[1..] + b;
      NotBelowPrefix(key[1..], a[1..], b);
    }
  }

  // Keys from q + [x] up to below q + [x + 1] are those that start with q + [x].
  lemma {:induction false} BetweenNeighbours(key: Bytes, q: Bytes, x: Byte)
    requires x < 255
    ensures HasPrefix(key, q + [x]) <==> !Less(key, q + [x]) && Less(key, q + [x + 1])
  {
    if q != [] && key != [] {
      var k, r := key[1..], q[1..];
      assert (q + [x])[1..] == r + [x] && (q + [x + 1])[1..] == r + [x + 1];
      BetweenNeighbours(k, r, x);
      if key[0] == q[0] {
        ConsPrefix(key, q + [x]);
      }
    } else if key != [] {
      assert [x][1..] == [];
      assert HasPrefix(key, [x]) <==> key[0] == x;
      assert q + [x] == [x] && q + [x + 1] == [x + 1];
    }
  }

  lemma ConsPrefix(key: Bytes, prefix: Bytes)
    requires key != [] && prefix != [] && key[0] == prefix[0]
    ensures HasPrefix(key, prefix) <==> HasPrefix(key[1..], prefix[1..])
  {
    assert prefix == [prefix[0]] + prefix[1..];
    if |prefix| <= |key| {
      assert key[..|prefix|] == [key[0]] + key[1..][..|prefix| - 1];
    }
  }

  // A key that starts with q and is not below q + [255] goes on with 255.
  lemma {:induction false} AfterFullByte(key: Bytes, q: Bytes)
    ensures HasPrefix(key, q + [255]) <==> HasPrefix(key, q) && !Less(key, q + [255])
  {
    if q != [] && key != [] {
      assert (q + [255])[1..] == q[1..] + [255];
      AfterFullByte(key[1..], q[1..]);
      if key[0] == q[0] {
        ConsPrefix(key, q + [255]);
        ConsPrefix(key, q);
      }
    } else if key != [] {
      assert q + [255] == [255] && [255][1..] == [];
      assert HasPrefix(key, [255]) <==> key[0] == 255;
    }
  }

  // ----- the main result -----

  lemma {:induction false} EndIsAMarkerOrABound(prefix: Bytes)
    ensures RangeEnd(prefix) == NO_BOUND <==> forall i :: 0 <= i < |prefix| ==> prefix[i] == 255
  {
    if prefix != [] && prefix[|prefix| - 1] == 255 {
      EndIsAMarkerOrABound(prefix[..|prefix| - 1]);
    }
  }

  // The range from the prefix to the computed end holds exactly the keys with the prefix; without an
  // upper bound when the prefix is empty or all 0xFF.
  lemma {:induction false} RangeIsExact(key: Bytes, prefix: Bytes)
    ensures HasPrefix(key, prefix) <==> InRange(key, prefix, RangeEnd(prefix))
  {
    if prefix != [] {
      var n := |prefix| - 1;
      var q, x := prefix[..n], prefix[n];
      assert prefix == q + [x];
      if x != 255 {
        BetweenNeighbours(key, q, x);
        assert (q + [x + 1])[n] != 0;
      } else {
        RangeIsExact(key, q);
        AfterFullByte(key, q);
        if !Less(key, prefix) {
          NotBelowPrefix(key, q, [255]);
        }
      }
    }
  }
}
