/** Sequence helpers shared by the model: order-preserving filtering and
    duplicate-freedom, the two shapes JavaScript's `Array.prototype.filter`
    and an object's own key list take here. */
module Seqs {

  /** `s.filter(keep)`: the elements of `s` that satisfy `keep`, in order. */
  function Filter<T>(s: seq<T>, keep: T -> bool): (r: seq<T>)
    ensures |r| <= |s|
    ensures forall x :: x in r ==> x in s && keep(x)
    decreases |s|
  {
    if s == [] then []
    else Filter(s[..|s| - 1], keep) + (if keep(s[|s| - 1]) then [s[|s| - 1]] else [])
  }

  /** No element occurs twice. */
  ghost predicate Distinct<T>(s: seq<T>) {
    forall x :: x in s ==> multiset(s)[x] == 1
  }

  lemma {:induction false} FilterAppend<T>(s: seq<T>, t: seq<T>, keep: T -> bool)
    ensures Filter(s + t, keep) == Filter(s, keep) + Filter(t, keep)
    decreases |t|
  {
    if t == [] {
      assert s + t == s;
    } else {
      var u := t[..|t| - 1];
      var last := t[|t| - 1];
      assert (s + t)[..|s + t| - 1] == s + u;
      assert t[..|t| - 1] == u;
      FilterAppend(s, u, keep);
    }
  }

  /** Filtering keeps an element exactly when it is there and passes the test,
      and never raises how often an element occurs. */
  lemma {:induction false} FilterMultiset<T>(s: seq<T>, keep: T -> bool)
    ensures multiset(Filter(s, keep)) <= multiset(s)
    ensures forall x :: x in s && keep(x) ==> x in Filter(s, keep)
    decreases |s|
  {
    if s != [] {
      var init := s[..|s| - 1];
      FilterMultiset(init, keep);
      assert s == init + [s[|s| - 1]];
      forall x | x in s && keep(x) ensures x in Filter(s, keep) {
        if x != s[|s| - 1] {
          assert x in init;
        }
      }
    }
  }

  /** Filtering a duplicate-free sequence leaves it duplicate-free. */
  lemma FilterDistinct<T>(s: seq<T>, keep: T -> bool)
    requires Distinct(s)
    ensures Distinct(Filter(s, keep))
  {
    FilterMultiset(s, keep);
  }

  /** Every element of a sequence passes the test, so filtering changes nothing. */
  lemma {:induction false} FilterAll<T>(s: seq<T>, keep: T -> bool)
    requires forall x :: x in s ==> keep(x)
    ensures Filter(s, keep) == s
    decreases |s|
  {
    if s != [] {
      var init := s[..|s| - 1];
      assert s == init + [s[|s| - 1]];
      FilterAll(init, keep);
    }
  }

  /** In a duplicate-free sequence, a test that only `x` passes selects `[x]`
      when `x` is present and nothing otherwise. */
  lemma {:induction false} FilterSingle<T>(s: seq<T>, x: T, keep: T -> bool)
    requires Distinct(s)
    requires forall y :: keep(y) <==> y == x
    ensures Filter(s, keep) == if x in s then [x] else []
    decreases |s|
  {
    if s != [] {
      var init := s[..|s| - 1];
      var last := s[|s| - 1];
      assert s == init + [last];
      assert multiset(s) == multiset(init) + multiset{last};
      assert Distinct(init) by {
        forall y | y in init ensures multiset(init)[y] == 1 {
          assert multiset(init)[y] <= multiset(s)[y];
        }
      }
      FilterSingle(init, x, keep);
      if last == x {
        assert x !in init by {
          assert multiset(s)[x] == multiset(init)[x] + 1;
        }
      }
    }
  }

  /** Nothing passes the test, so filtering leaves nothing. */
  lemma {:induction false} FilterNone<T>(s: seq<T>, keep: T -> bool)
    requires forall x :: x in s ==> !keep(x)
    ensures Filter(s, keep) == []
    decreases |s|
  {
    if s != [] {
      var init := s[..|s| - 1];
      assert s == init + [s[|s| - 1]];
      FilterNone(init, keep);
    }
  }

  /** Two complementary tests split a sequence's elements between them. */
  lemma {:induction false} FilterPartition<T>(s: seq<T>, keep: T -> bool, drop: T -> bool)
    requires forall x :: drop(x) <==> !keep(x)
    ensures multiset(Filter(s, keep)) + multiset(Filter(s, drop)) == multiset(s)
    decreases |s|
  {
    if s != [] {
      var init := s[..|s| - 1];
      assert s == init + [s[|s| - 1]];
      FilterPartition(init, keep, drop);
    }
  }

  /** Index of the first element `keep` holds of, or `|s|` when there is
      none. */
  function FirstIndex<T>(s: seq<T>, keep: T -> bool): (i: nat)
    ensures i <= |s|
    ensures i < |s| ==> keep(s[i])
    ensures forall j :: 0 <= j < i && j < |s| ==> !keep(s[j])
    decreases |s|
  {
    if s == [] then 0
    else
      var first := FirstIndex(s[..|s| - 1], keep);
      if first < |s| - 1 || keep(s[|s| - 1]) then first
      else |s|
  }

  /** One more element leaves an earlier first index where it was. */
  lemma FirstIndexSnoc<T>(s: seq<T>, x: T, keep: T -> bool)
    ensures FirstIndex(s + [x], keep) ==
      if FirstIndex(s, keep) < |s| then FirstIndex(s, keep)
      else if keep(x) then |s|
      else |s| + 1
  {
    assert (s + [x])[..|s|] == s;
  }

  /** In a duplicate-free sequence an element does not occur before its own
      position, so it extends the prefix before it by a new element. */
  lemma DistinctNotBefore<T>(s: seq<T>, i: nat)
    requires Distinct(s) && i < |s|
    ensures s[i] !in s[..i] && s[..i + 1] == s[..i] + [s[i]]
  {
    assert s == s[..i] + [s[i]] + s[i + 1..];
    assert multiset(s)[s[i]] == multiset(s[..i])[s[i]] + 1 + multiset(s[i + 1..])[s[i]];
  }
}
