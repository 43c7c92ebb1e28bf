/**
  The sorted, de-duplicating list that ConfigList and RelativisticConfigList build on.
  A list holds its elements in a `seq`; `Unique` sorts them by a comparator and keeps one
  element of every run of equivalent ones (the first), which is what sort-then-unique does
  with a stable sort.
 */
module SortedLists {

  ghost predicate Irreflexive<T(!new)>(less: (T, T) -> bool) {
    forall x :: !less(x, x)
  }

  ghost predicate Transitive<T(!new)>(less: (T, T) -> bool) {
    forall x, y, z :: less(x, y) && less(y, z) ==> less(x, z)
  }

  /** Irreflexive and transitive: what sorting and de-duplicating need of a comparator. */
  ghost predicate StrictOrder<T(!new)>(less: (T, T) -> bool) {
    Irreflexive(less) && Transitive(less)
  }

  /** A strict order under which any two different values are comparable. */
  ghost predicate StrictTotalOrder<T(!new)>(less: (T, T) -> bool) {
    && StrictOrder(less)
    && (forall x, y :: x != y ==> less(x, y) || less(y, x))
  }

  predicate Equivalent<T>(less: (T, T) -> bool, x: T, y: T) {
    !less(x, y) && !less(y, x)
  }

  predicate StrictlySorted<T>(s: seq<T>, less: (T, T) -> bool) {
    forall i, j :: 0 <= i < j < |s| ==> less(s[i], s[j])
  }

  /** Inserts `x` at its place in a sorted list, unless an equivalent element is already there. */
  function InsertUnique<T>(s: seq<T>, x: T, less: (T, T) -> bool): seq<T>
  {
    if s == [] then [x]
    else if less(x, s[0]) then [x] + s
    else if less(s[0], x) then [s[0]] + InsertUnique(s[1..], x, less)
    else s
  }

  /** The list that sort followed by unique leaves behind. */
  function SortUnique<T>(s: seq<T>, less: (T, T) -> bool): seq<T>
    decreases |s|
  {
    if s == [] then [] else InsertUnique(SortUnique(s[..|s| - 1], less), s[|s| - 1], less)
  }

  lemma {:induction false} InsertUniqueMembers<T>(s: seq<T>, x: T, less: (T, T) -> bool)
    ensures forall y :: y in InsertUnique(s, x, less) ==> y in s || y == x
    ensures forall y :: y in s ==> y in InsertUnique(s, x, less)
    ensures (forall y :: !less(y, y)) ==> exists y :: y in InsertUnique(s, x, less) && Equivalent(less, x, y)
    ensures |InsertUnique(s, x, less)| <= |s| + 1
  {
    if s == [] {
      assert x in InsertUnique(s, x, less);
    } else if less(x, s[0]) {
      assert InsertUnique(s, x, less) == [x] + s;
      assert x in InsertUnique(s, x, less);
      if forall y :: !less(y, y) {
        assert Equivalent(less, x, x);
      }
    } else if less(s[0], x) {
      InsertUniqueMembers(s[1..], x, less);
      var t := InsertUnique(s[1..], x, less);
      var r := InsertUnique(s, x, less);
      assert r == [s[0]] + t;
      assert s == [s[0]] + s[1..];
      if forall y :: !less(y, y) {
        var w :| w in t && Equivalent(less, x, w);
        assert w in r;
      }
    } else {
      assert s[0] in InsertUnique(s, x, less);
    }
  }

  /** A head below every element of a sorted tail gives a sorted sequence. */
  lemma ConsSorted<T>(h: T, t: seq<T>, less: (T, T) -> bool)
    requires StrictlySorted(t, less)
    requires forall y :: y in t ==> less(h, y)
    ensures StrictlySorted([h] + t, less)
  {
    var r := [h] + t;
    forall i, j | 0 <= i < j < |r| ensures less(r[i], r[j]) {
      assert r[j] == t[j - 1];
      if i > 0 {
        assert r[i] == t[i - 1];
      } else {
        assert t[j - 1] in t;
      }
    }
  }

  lemma {:induction false} InsertUniqueSorted<T(!new)>(s: seq<T>, x: T, less: (T, T) -> bool)
    requires Transitive(less) && StrictlySorted(s, less)
    ensures StrictlySorted(InsertUnique(s, x, less), less)
  {
    if s == [] {
    } else if less(x, s[0]) {
      forall y | y in s ensures less(x, y) {
        var k :| 0 <= k < |s| && s[k] == y;
        if k > 0 {
          assert less(s[0], s[k]);
        }
      }
      ConsSorted(x, s, less);
    } else if less(s[0], x) {
      var tail := s[1..];
      assert StrictlySorted(tail, less) by {
        forall i, j | 0 <= i < j < |tail| ensures less(tail[i], tail[j]) {
          assert tail[i] == s[i + 1] && tail[j] == s[j + 1];
        }
      }
      InsertUniqueSorted(tail, x, less);
      InsertUniqueMembers(tail, x, less);
      forall y | y in InsertUnique(tail, x, less) ensures less(s[0], y) {
        if y != x {
          var k :| 0 <= k < |tail| && tail[k] == y;
          assert less(s[0], s[k + 1]);
        }
      }
      ConsSorted(s[0], InsertUnique(tail, x, less), less);
    }
  }

  lemma InsertUniqueCorrect<T(!new)>(s: seq<T>, x: T, less: (T, T) -> bool)
    requires StrictOrder(less) && StrictlySorted(s, less)
    ensures StrictlySorted(InsertUnique(s, x, less), less)
    ensures forall y :: y in InsertUnique(s, x, less) ==> y in s || y == x
    ensures forall y :: y in s ==> y in InsertUnique(s, x, less)
    ensures exists y :: y in InsertUnique(s, x, less) && Equivalent(less, x, y)
    ensures |InsertUnique(s, x, less)| <= |s| + 1
  {
    InsertUniqueSorted(s, x, less);
    InsertUniqueMembers(s, x, less);
  }

  lemma {:induction false} SortUniqueCorrect<T(!new)>(s: seq<T>, less: (T, T) -> bool)
    requires StrictOrder(less)
    ensures StrictlySorted(SortUnique(s, less), less)
    ensures forall y :: y in SortUnique(s, less) ==> y in s
    ensures forall x :: x in s ==> exists y :: y in SortUnique(s, less) && Equivalent(less, x, y)
    ensures |SortUnique(s, less)| <= |s|
    decreases |s|
  {
    if s != [] {
      var init, last := s[..|s| - 1], s[|s| - 1];
      assert s == init + [last];
      SortUniqueCorrect(init, less);
      var u := SortUnique(init, less);
      InsertUniqueCorrect(u, last, less);
      var r := SortUnique(s, less);
      assert r == InsertUnique(u, last, less);
      forall x | x in s ensures exists y :: y in r && Equivalent(less, x, y) {
        if x in init {
          var y :| y in u && Equivalent(less, x, y);
          assert y in r;
        }
      }
    }
  }

  lemma {:induction false} InsertUniqueAtEnd<T>(s: seq<T>, x: T, less: (T, T) -> bool)
    requires forall y :: y in s ==> less(y, x)
    requires forall y :: y in s ==> !less(x, y)
    ensures InsertUnique(s, x, less) == s + [x]
  {
    if s != [] {
      assert s[0] in s;
      assert forall y :: y in s[1..] ==> y in s;
      InsertUniqueAtEnd(s[1..], x, less);
      assert s == [s[0]] + s[1..];
    }
  }

  /** De-duplicating a list that is already sorted and unique changes nothing. */
  lemma {:induction false} SortUniqueIdempotent<T(!new)>(s: seq<T>, less: (T, T) -> bool)
    requires StrictOrder(less) && StrictlySorted(s, less)
    ensures SortUnique(s, less) == s
    decreases |s|
  {
    if s != [] {
      var init, last := s[..|s| - 1], s[|s| - 1];
      SortUniqueIdempotent(init, less);
      forall y | y in init ensures less(y, last) && !less(last, y) {
        var k :| 0 <= k < |init| && init[k] == y;
        assert less(s[k], s[|s| - 1]);
      }
      InsertUniqueAtEnd(init, last, less);
      assert s == init + [last];
    }
  }

  /** The elements that satisfy `p`, in their original order. */
  function Filter<T>(s: seq<T>, p: T -> bool): seq<T>
    decreases |s|
  {
    if s == [] then []
    else Filter(s[..|s| - 1], p) + (if p(s[|s| - 1]) then [s[|s| - 1]] else [])
  }

  lemma {:induction false} FilterMembership<T>(s: seq<T>, p: T -> bool)
    ensures forall x :: x in Filter(s, p) <==> x in s && p(x)
    ensures |Filter(s, p)| <= |s|
    decreases |s|
  {
    if s != [] {
      FilterMembership(s[..|s| - 1], p);
      assert s == s[..|s| - 1] + [s[|s| - 1]];
    }
  }

  lemma FilterElement<T>(s: seq<T>, p: T -> bool, i: nat)
    requires i < |Filter(s, p)|
    ensures exists k :: 0 <= k < |s| && s[k] == Filter(s, p)[i]
  {
    FilterMembership(s, p);
    var f := Filter(s, p);
    assert f[i] in f;
  }

  /** Filtering keeps the relative order of the survivors. */
  lemma {:induction false} FilterKeepsOrder<T>(s: seq<T>, p: T -> bool, less: (T, T) -> bool)
    requires StrictlySorted(s, less)
    ensures StrictlySorted(Filter(s, p), less)
    decreases |s|
  {
    if s != [] {
      var init, last := s[..|s| - 1], s[|s| - 1];
      FilterKeepsOrder(init, p, less);
      var f := Filter(init, p);
      forall i | 0 <= i < |f| ensures less(f[i], last) {
        FilterElement(init, p, i);
        var k :| 0 <= k < |init| && init[k] == f[i];
        assert less(s[k], s[|s| - 1]);
      }
      var r := Filter(s, p);
      assert r == f + (if p(last) then [last] else []);
    }
  }

  lemma {:induction false} FilterTwice<T>(s: seq<T>, p: T -> bool, q: T -> bool, pq: T -> bool)
    requires forall x :: pq(x) == (p(x) && q(x))
    ensures Filter(Filter(s, p), q) == Filter(s, pq)
    decreases |s|
  {
    if s != [] {
      var init, last := s[..|s| - 1], s[|s| - 1];
      FilterTwice(init, p, q, pq);
      var f := Filter(init, p);
      assert s[..|s| - 1] == init;
      assert Filter(s, p) == f + (if p(last) then [last] else []);
      assert Filter(s, pq) == Filter(init, pq) + (if pq(last) then [last] else []);
      if p(last) {
        var g := f + [last];
        assert Filter(s, p) == g;
        assert g[..|g| - 1] == f;
        assert Filter(g, q) == Filter(f, q) + (if q(last) then [last] else []);
        assert pq(last) == q(last);
      } else {
        assert Filter(s, p) == f;
        assert !pq(last);
      }
    }
  }

  /** `a` is `b` with some elements left out and the rest in their original order. */
  predicate Subsequence<T(==)>(a: seq<T>, b: seq<T>)
    decreases |b|
  {
    if b == [] then a == []
    else
      || (a != [] && a[|a| - 1] == b[|b| - 1] && Subsequence(a[..|a| - 1], b[..|b| - 1]))
      || Subsequence(a, b[..|b| - 1])
  }

  /** Filtering only leaves elements out: the survivors keep their order. */
  lemma {:induction false} FilterSubsequence<T>(s: seq<T>, p: T -> bool)
    ensures Subsequence(Filter(s, p), s)
    decreases |s|
  {
    if s != [] {
      var init, last := s[..|s| - 1], s[|s| - 1];
      FilterSubsequence(init, p);
      var f := Filter(init, p);
      if p(last) {
        var g := f + [last];
        assert Filter(s, p) == g;
        assert g[..|g| - 1] == f;
      } else {
        assert Filter(s, p) == f;
      }
    }
  }

  /** Two erasing passes keep exactly what passes both tests, in the original order. */
  lemma FilterFilterSpec<T>(s: seq<T>, p: T -> bool, q: T -> bool)
    ensures Subsequence(Filter(Filter(s, p), q), s)
    ensures forall x :: x in Filter(Filter(s, p), q) <==> x in s && p(x) && q(x)
  {
    var both := (x: T) => p(x) && q(x);
    FilterTwice(s, p, q, both);
    FilterSubsequence(s, both);
    FilterMembership(s, both);
  }

  /** Extending the examined prefix by one element extends the filtered prefix by at most that element. */
  lemma FilterPrefixStep<T>(s: seq<T>, k: nat, p: T -> bool)
    requires k < |s|
    ensures Filter(s[..k + 1], p) == Filter(s[..k], p) + (if p(s[k]) then [s[k]] else [])
  {
    assert s[..k + 1][..k] == s[..k];
  }

  /** The concatenation of a sequence of sequences, in order. */
  function Flatten<T>(ss: seq<seq<T>>): seq<T> {
    if ss == [] then [] else Flatten(ss[..|ss| - 1]) + ss[|ss| - 1]
  }

  lemma FlattenStep<T>(ss: seq<seq<T>>, k: nat)
    requires k < |ss|
    ensures Flatten(ss[..k + 1]) == Flatten(ss[..k]) + ss[k]
  {
    assert ss[..k + 1][..k] == ss[..k];
  }

  /** Every element of the concatenation comes from one of the parts. */
  lemma {:induction false} FlattenMembers<T>(ss: seq<seq<T>>, x: T)
    requires x in Flatten(ss)
    ensures exists i :: 0 <= i < |ss| && x in ss[i]
  {
    var init := ss[..|ss| - 1];
    if x !in ss[|ss| - 1] {
      FlattenMembers(init, x);
      var i :| 0 <= i < |init| && x in init[i];
      assert ss[i] == init[i];
    }
  }

  /** Every element of every part is in the concatenation. */
  lemma {:induction false} FlattenIncludes<T>(ss: seq<seq<T>>, i: nat, x: T)
    requires i < |ss| && x in ss[i]
    ensures x in Flatten(ss)
  {
    if i < |ss| - 1 {
      var init := ss[..|ss| - 1];
      assert init[i] == ss[i];
      FlattenIncludes(init, i, x);
    }
  }

  /** A list that grows by `added` at each step of a loop whose invariant is `start + done`. */
  lemma Extend<T>(start: seq<T>, before: seq<T>, after: seq<T>, done: seq<T>, added: seq<T>, total: seq<T>)
    requires before == start + done && after == before + added && total == done + added
    ensures after == start + total
  {
  }

  /** Walks the list with an iterator, erasing every element that fails `p` and stepping past the others. */
  method EraseUnless<T>(s: seq<T>, p: T -> bool) returns (r: seq<T>)
    ensures r == Filter(s, p)
  {
    r := s;
    var i := 0;
    ghost var k := 0;
    while i < |r|
      invariant k <= |s| && i <= |r|
      invariant r[..i] == Filter(s[..k], p) && r[i..] == s[k..]
      decreases |r| - i
    {
      FilterPrefixStep(s, k, p);
      assert r[i] == s[k];
      if p(r[i]) {
        i := i + 1;
      } else {
        r := r[..i] + r[i + 1..];
      }
      k := k + 1;
    }
    assert s[..k] == s;
  }

  /** A list whose elements are owned in order; `Unique` sorts and removes duplicates. */
  class SortedList<T> {
    var items: seq<T>

    constructor ()
      ensures items == []
    {
      items := [];
    }

    method Clear()
      modifies this
      ensures items == []
    {
      items := [];
    }

    /** Appends a copy of `x` at the end; the list is sorted again only by `Unique`. */
    method Add(x: T)
      modifies this
      ensures items == old(items) + [x]
    {
      items := items + [x];
    }

    method Append(xs: seq<T>)
      modifies this
      ensures items == old(items) + xs
    {
      items := items + xs;
    }

    method Erase(i: nat)
      requires i < |items|
      modifies this
      ensures items == old(items)[..i] + old(items)[i + 1..]
    {
      items := items[..i] + items[i + 1..];
    }

    method Replace(i: nat, x: T)
      requires i < |items|
      modifies this
      ensures items == old(items)[i := x]
    {
      items := items[i := x];
    }

    /** Erases, in one pass, every element that fails `p`. */
    method KeepOnly(p: T -> bool)
      modifies this
      ensures items == Filter(old(items), p)
    {
      items := EraseUnless(items, p);
    }

    /** Sorts by `less` and keeps the first of every run of equivalent elements. */
    method Unique(less: (T, T) -> bool)
      modifies this
      ensures items == SortUnique(old(items), less)
    {
      items := SortUnique(items, less);
    }
  }
}
