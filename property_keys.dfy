/** The order in which `Object.keys` lists an ordinary object's string keys:
    OrdinaryOwnPropertyKeys (section 10.1.11.1 of ECMA-262) lists the keys
    that are array indices first, in ascending numeric order, and then every
    other string key in the order the properties were created. */
module PropertyKeys {
  import opened JsValues
  import opened Seqs

  /** The largest array index, 2^32 - 2 (section 6.1.7 of ECMA-262). */
  const MaxArrayIndex: nat := 4294967294

  /** The number a string of decimal digits denotes. */
  function DecimalValue(s: string): nat
    decreases |s|
  {
    if s == [] then 0
    else
      var last := s[|s| - 1];
      DecimalValue(s[..|s| - 1]) * 10 + (if IsDigit(last) then last as int - 48 else 0)
  }

  /** `s` is the canonical decimal notation of an integer in 0 .. 2^32 - 2. */
  predicate IsArrayIndex(s: string) {
    |s| > 0 && AllDigits(s) && (s[0] == '0' ==> |s| == 1) && DecimalValue(s) <= MaxArrayIndex
  }

  predicate IsNamedKey(s: string) {
    !IsArrayIndex(s)
  }

  /** Inserts the index key `k` into keys sorted by numeric value, after every
      key whose value is not greater. */
  function InsertIndex(sorted: seq<string>, k: string): seq<string>
    decreases |sorted|
  {
    if sorted == [] then [k]
    else if DecimalValue(sorted[|sorted| - 1]) <= DecimalValue(k) then sorted + [k]
    else InsertIndex(sorted[..|sorted| - 1], k) + [sorted[|sorted| - 1]]
  }

  function SortIndices(ks: seq<string>): seq<string>
    decreases |ks|
  {
    if ks == [] then [] else InsertIndex(SortIndices(ks[..|ks| - 1]), ks[|ks| - 1])
  }

  ghost predicate Ascending(ks: seq<string>) {
    forall i, j :: 0 <= i < j < |ks| ==> DecimalValue(ks[i]) <= DecimalValue(ks[j])
  }

  /** `Object.keys` of an object whose properties were created in the order
      `created`. */
  function OwnKeys(created: seq<string>): seq<string> {
    SortIndices(Filter(created, IsArrayIndex)) + Filter(created, IsNamedKey)
  }

  /** The decimal notation of a natural number reads back as that number. */
  lemma {:induction false} DecimalValueOfNat(n: nat)
    ensures DecimalValue(NatToString(n)) == n
    decreases n
  {
    if n >= 10 {
      var s := NatToString(n);
      assert s[..|s| - 1] == NatToString(n / 10);
      DecimalValueOfNat(n / 10);
    }
  }

  /** Different numbers have different strings, so two records with
      different numeric keys never share a property. */
  lemma IntKeysDistinct(a: int, b: int)
    requires a != b
    ensures IntToString(a) != IntToString(b)
  {
    var x, y := IntToString(a), IntToString(b);
    if a < 0 && b < 0 {
      assert x == "-" + NatToString(-a) && y == "-" + NatToString(-b);
      NatStringsDistinct(-a, -b);
      assert x[1..] != y[1..];
    } else if a >= 0 && b >= 0 {
      assert x == NatToString(a) && y == NatToString(b);
      NatStringsDistinct(a, b);
    } else {
      assert (x[0] == '-') != (y[0] == '-');
    }
  }

  /** The digits of a natural number determine it. */
  lemma NatStringsDistinct(m: nat, n: nat)
    requires m != n
    ensures NatToString(m) != NatToString(n)
  {
    DecimalValueOfNat(m);
    DecimalValueOfNat(n);
  }

  /** A number's string is an array index exactly when the number lies in
      0 .. 2^32 - 2, and then it denotes that number: year and week keys
      are listed by `Object.keys` in ascending numeric order. */
  lemma IntKeyIsIndex(n: int)
    ensures IsArrayIndex(IntToString(n)) <==> 0 <= n <= MaxArrayIndex
    ensures 0 <= n ==> DecimalValue(IntToString(n)) == n
  {
    if n >= 0 {
      DecimalValueOfNat(n);
    } else {
      assert !IsDigit(IntToString(n)[0]);
    }
  }

  lemma InsertIndexSpec(sorted: seq<string>, k: string)
    ensures multiset(InsertIndex(sorted, k)) == multiset(sorted) + multiset{k}
    ensures Ascending(sorted) ==> Ascending(InsertIndex(sorted, k))
  {
    InsertIndexPermutes(sorted, k);
    if Ascending(sorted) {
      InsertIndexAscending(sorted, k);
    }
  }

  /** Inserting adds the key and loses none. */
  lemma {:induction false} InsertIndexPermutes(sorted: seq<string>, k: string)
    ensures multiset(InsertIndex(sorted, k)) == multiset(sorted) + multiset{k}
    decreases |sorted|
  {
    if sorted != [] {
      var init := sorted[..|sorted| - 1];
      assert sorted == init + [sorted[|sorted| - 1]];
      InsertIndexPermutes(init, k);
    }
  }

  /** Inserting into ascending keys keeps them ascending. */
  lemma {:induction false} InsertIndexAscending(sorted: seq<string>, k: string)
    requires Ascending(sorted)
    ensures Ascending(InsertIndex(sorted, k))
    decreases |sorted|
  {
    if sorted != [] {
      var init := sorted[..|sorted| - 1];
      var last := sorted[|sorted| - 1];
      assert sorted == init + [last];
      if DecimalValue(last) > DecimalValue(k) {
        InsertIndexAscending(init, k);
        InsertIndexPermutes(init, k);
        var r := InsertIndex(init, k);
        forall x | x in r ensures DecimalValue(x) <= DecimalValue(last) {
          assert x in multiset(r);
          if x != k {
            assert x in init;
          }
        }
        var r' := r + [last];
        assert InsertIndex(sorted, k) == r';
        forall i, j | 0 <= i < j < |r'| ensures DecimalValue(r'[i]) <= DecimalValue(r'[j]) {
          if j == |r| {
            assert r'[i] == r[i] && r[i] in r;
          } else {
            assert r'[i] == r[i] && r'[j] == r[j];
          }
        }
      }
    }
  }

  /** Sorting keeps every key and orders the keys by value. */
  lemma {:induction false} SortIndicesSpec(ks: seq<string>)
    ensures multiset(SortIndices(ks)) == multiset(ks)
    ensures Ascending(SortIndices(ks))
    decreases |ks|
  {
    if ks != [] {
      var init := ks[..|ks| - 1];
      assert ks == init + [ks[|ks| - 1]];
      SortIndicesSpec(init);
      InsertIndexSpec(SortIndices(init), ks[|ks| - 1]);
    }
  }

  /** Keys already in ascending order are left where they are. */
  lemma {:induction false} SortIndicesAscending(ks: seq<string>)
    requires Ascending(ks)
    ensures SortIndices(ks) == ks
    decreases |ks|
  {
    if ks != [] {
      var init := ks[..|ks| - 1];
      assert Ascending(init);
      SortIndicesAscending(init);
      assert ks == init + [ks[|ks| - 1]];
    }
  }

  /** Every key of the sorted prefix is an array index. */
  lemma SortedPrefixIndices(created: seq<string>)
    ensures forall x :: x in SortIndices(Filter(created, IsArrayIndex)) ==> IsArrayIndex(x)
  {
    var indices := Filter(created, IsArrayIndex);
    SortIndicesSpec(indices);
    forall x | x in SortIndices(indices) ensures IsArrayIndex(x) {
      assert x in multiset(indices);
    }
  }

  /** `Object.keys` lists every created key exactly as often as it was
      created. */
  lemma OwnKeysPermutes(created: seq<string>)
    ensures multiset(OwnKeys(created)) == multiset(created)
  {
    var indices := Filter(created, IsArrayIndex);
    SortIndicesSpec(indices);
    FilterPartition(created, IsArrayIndex, IsNamedKey);
  }

  /** `Object.keys` puts all array indices before all other keys, orders the
      indices by value and keeps the other keys in creation order. */
  lemma OwnKeysOrder(created: seq<string>)
    ensures var r := OwnKeys(created);
      forall i, j :: 0 <= i < j < |r| && IsArrayIndex(r[j]) ==>
        IsArrayIndex(r[i]) && DecimalValue(r[i]) <= DecimalValue(r[j])
    ensures Filter(OwnKeys(created), IsNamedKey) == Filter(created, IsNamedKey)
  {
    var named := Filter(created, IsNamedKey);
    var sorted := SortIndices(Filter(created, IsArrayIndex));
    var r := sorted + named;
    assert OwnKeys(created) == r;
    assert Ascending(sorted) by {
      SortIndicesSpec(Filter(created, IsArrayIndex));
    }
    assert forall x :: x in sorted ==> IsArrayIndex(x) by {
      SortedPrefixIndices(created);
    }
    forall i, j | 0 <= i < j < |r| && IsArrayIndex(r[j])
      ensures IsArrayIndex(r[i]) && DecimalValue(r[i]) <= DecimalValue(r[j])
    {
      assert r[j] !in named;
      assert j < |sorted|;
      assert r[i] == sorted[i] && r[j] == sorted[j];
      assert sorted[i] in sorted;
    }
    assert Filter(r, IsNamedKey) == named by {
      FilterAppend(sorted, named, IsNamedKey);
      FilterNone(sorted, IsNamedKey);
      FilterAll(named, IsNamedKey);
    }
  }

  /** Listing the keys of an object whose keys were created in `Object.keys`
      order gives that order back. */
  lemma OwnKeysIdempotent(created: seq<string>)
    ensures OwnKeys(OwnKeys(created)) == OwnKeys(created)
  {
    var indices := Filter(created, IsArrayIndex);
    var named := Filter(created, IsNamedKey);
    var sorted := SortIndices(indices);
    assert OwnKeys(created) == sorted + named;
    SortIndicesSpec(indices);
    SortedPrefixIndices(created);
    assert Filter(sorted + named, IsArrayIndex) == sorted by {
      FilterAppend(sorted, named, IsArrayIndex);
      FilterAll(sorted, IsArrayIndex);
      FilterNone(named, IsArrayIndex);
    }
    assert Filter(sorted + named, IsNamedKey) == named by {
      FilterAppend(sorted, named, IsNamedKey);
      FilterNone(sorted, IsNamedKey);
      FilterAll(named, IsNamedKey);
    }
    SortIndicesAscending(sorted);
  }

  /** A subsequence of keys in ascending order is in ascending order. */
  lemma {:induction false} FilterAscending(ks: seq<string>, keep: string -> bool)
    requires Ascending(ks)
    ensures Ascending(Filter(ks, keep))
    decreases |ks|
  {
    if ks != [] {
      var init := ks[..|ks| - 1];
      var last := ks[|ks| - 1];
      assert Ascending(init);
      FilterAscending(init, keep);
      var f := Filter(init, keep);
      forall x | x in f ensures DecimalValue(x) <= DecimalValue(last) {
        var i :| 0 <= i < |init| && init[i] == x;
        assert ks[i] == x;
      }
    }
  }

  /** Keys selected from an `Object.keys` listing, and stored in that order
      in a new object, are listed by `Object.keys` in the same order. */
  lemma OwnKeysOfSelection(created: seq<string>, keep: string -> bool)
    ensures OwnKeys(Filter(OwnKeys(created), keep)) == Filter(OwnKeys(created), keep)
  {
    var named := Filter(created, IsNamedKey);
    var sorted := SortIndices(Filter(created, IsArrayIndex));
    assert OwnKeys(created) == sorted + named;
    SortIndicesSpec(Filter(created, IsArrayIndex));
    SortedPrefixIndices(created);
    var fs := Filter(sorted, keep);
    var fn := Filter(named, keep);
    FilterAppend(sorted, named, keep);
    assert Filter(OwnKeys(created), keep) == fs + fn;
    assert Filter(fs + fn, IsArrayIndex) == fs by {
      FilterAppend(fs, fn, IsArrayIndex);
      FilterAll(fs, IsArrayIndex);
      FilterNone(fn, IsArrayIndex);
    }
    assert Filter(fs + fn, IsNamedKey) == fn by {
      FilterAppend(fs, fn, IsNamedKey);
      FilterNone(fs, IsNamedKey);
      FilterAll(fn, IsNamedKey);
    }
    FilterAscending(sorted, keep);
    SortIndicesAscending(fs);
  }
}
