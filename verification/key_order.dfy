/** The order in which `Object.entries` and `Object.keys` list the keys of a
    plain object: keys that are array indices first, in increasing order of
    the index, then the other keys in the order they were created. */
module KeyOrder {
  import opened Text
  import opened Sequences
  import opened JsValues

  /** A key JavaScript treats as an array index: the canonical decimal form of
      an integer below 2^32 - 1. */
  predicate IsArrayIndex(k: string)
  {
    |k| > 0 && AllDigits(k) && (|k| == 1 || k[0] != '0') && DigitsValue(k) < 0xFFFF_FFFF
  }

  /** An entry whose key is an array index. */
  predicate IndexEntry<V>(x: (string, V))
  {
    IsArrayIndex(x.0)
  }

  /** An entry whose key is not an array index. */
  predicate NamedEntry<V>(x: (string, V))
  {
    !IsArrayIndex(x.0)
  }

  /** Entries with array-index keys, in increasing order of the index. */
  predicate IndexAscending<V>(s: Entries<V>)
  {
    && (forall i :: 0 <= i < |s| ==> IsArrayIndex(s[i].0))
    && (forall i, j :: 0 <= i < j < |s| ==> DigitsValue(s[i].0) <= DigitsValue(s[j].0))
  }

  /** Puts an entry with an array-index key at its place among ascending ones,
      after those with the same index. */
  function InsertIndex<V>(s: Entries<V>, x: (string, V)): (r: Entries<V>)
    requires IndexAscending(s) && IsArrayIndex(x.0)
    ensures IndexAscending(r)
    ensures multiset(r) == multiset(s) + multiset{x}
    decreases |s|
  {
    if |s| == 0 || DigitsValue(x.0) < DigitsValue(s[0].0) then
      [x] + s
    else
      var rest := InsertIndex(s[1..], x);
      InsertIndexBehind(s, x, rest);
      assert s == [s[0]] + s[1..];
      [s[0]] + rest
  }

  /** Keeping the first entry in front of the rest with `x` inserted keeps the
      order. */
  lemma InsertIndexBehind<V>(s: Entries<V>, x: (string, V), rest: Entries<V>)
    requires IndexAscending(s) && |s| > 0 && IsArrayIndex(x.0) && DigitsValue(s[0].0) <= DigitsValue(x.0)
    requires IndexAscending(rest) && multiset(rest) == multiset(s[1..]) + multiset{x}
    ensures IndexAscending([s[0]] + rest)
  {
    forall j | 0 <= j < |rest|
      ensures DigitsValue(s[0].0) <= DigitsValue(rest[j].0)
    {
      assert rest[j] in multiset(rest);
      if rest[j] != x {
        assert rest[j] in s[1..];
      }
    }
    var r := [s[0]] + rest;
    forall i, j | 0 <= i < j < |r|
      ensures DigitsValue(r[i].0) <= DigitsValue(r[j].0)
    {
      if i > 0 {
        assert r[i] == rest[i - 1] && r[j] == rest[j - 1];
      } else {
        assert r[j] == rest[j - 1];
      }
    }
  }

  /** Entries with array-index keys sorted by index; equal indices keep their
      order. */
  function SortIndex<V>(s: Entries<V>): (r: Entries<V>)
    requires forall i :: 0 <= i < |s| ==> IsArrayIndex(s[i].0)
    ensures IndexAscending(r) && multiset(r) == multiset(s)
    decreases |s|
  {
    if |s| == 0 then []
    else
      var n := |s| - 1;
      assert s == s[..n] + [s[n]];
      InsertIndex(SortIndex(s[..n]), s[n])
  }

  /** `Object.entries(o)`: the entries whose keys are array indices first, in
      increasing order of the index, then the others in the order they were
      created. It lists every entry once. */
  function Enumerated<V>(e: Entries<V>): (r: Entries<V>)
    ensures multiset(r) == multiset(e)
    ensures var k := |Filter(e, IndexEntry)|;
      && k <= |r| && IndexAscending(r[..k])
      && forall i :: k <= i < |r| ==> !IsArrayIndex(r[i].0)
  {
    var idx := Filter(e, IndexEntry);
    var named := Filter(e, NamedEntry);
    FilterSplit(e, IndexEntry, NamedEntry);
    var sorted := SortIndex(idx);
    assert |sorted| == |idx| by {
      assert |multiset(sorted)| == |multiset(idx)|;
    }
    assert (sorted + named)[..|idx|] == sorted;
    sorted + named
  }

  /** The entries whose keys are not array indices keep their creation order. */
  lemma EnumeratedKeepsNamedOrder<V>(e: Entries<V>)
    ensures Filter(Enumerated(e), NamedEntry) == Filter(e, NamedEntry)
  {
    var sorted := SortIndex(Filter(e, IndexEntry));
    FilterAppend(sorted, Filter(e, NamedEntry), NamedEntry);
    FilterNone(sorted, NamedEntry);
    FilterFilter(e, NamedEntry, NamedEntry, NamedEntry);
  }

  /** A named entry created before an index entry is listed after it. */
  lemma NamedThenIndex<V>(a: (string, V), b: (string, V))
    requires NamedEntry(a) && IndexEntry(b)
    ensures Enumerated([a, b]) == [b, a]
  {
    var e := [a, b];
    assert e[1..] == [b] && e[1..][1..] == [];
    assert Filter(e, IndexEntry) == [b];
    assert Filter(e, NamedEntry) == [a];
    assert [b][..0] == [];
  }

  /** A record built with `a` and then `1` lists `1` first. */
  lemma IndexKeyFirst()
    ensures Enumerated([("a", 0), ("1", 1)]) == [("1", 1), ("a", 0)]
  {
    assert IsArrayIndex("1") by {
      assert "1"[..0] == "";
      assert DigitsValue("1") == 1;
    }
    assert !IsDigit("a"[0]);
    NamedThenIndex(("a", 0), ("1", 1));
  }
}
