/** The descending sorts of the system: `categoryData.sort((a, b) => b.sales - a.sales)`,
    the admin page's sort of fetched orders by `createdAt`, and the store's
    `sort({createdAt: -1})`. All are stable sorts on one integer key, largest first. */
module Sorting {

  ghost predicate SortedDesc<T>(s: seq<T>, key: T -> int)
  {
    forall i, j :: 0 <= i < j < |s| ==> key(s[i]) >= key(s[j])
  }

  /** Places `x` after every element of `s`, counted from the right, whose key is
      at least `key(x)`: on a sorted `s`, after all elements with a key >= key(x). */
  function Insert<T>(x: T, s: seq<T>, key: T -> int): (r: seq<T>)
    ensures |r| == |s| + 1
  {
    if s == [] || key(s[|s| - 1]) >= key(x) then s + [x]
    else Insert(x, s[..|s| - 1], key) + [s[|s| - 1]]
  }

  /** Stable insertion sort, largest key first. */
  function SortDesc<T>(s: seq<T>, key: T -> int): (r: seq<T>)
    ensures |r| == |s|
  {
    if s == [] then [] else Insert(s[|s| - 1], SortDesc(s[..|s| - 1], key), key)
  }

  lemma {:induction false} InsertPermutes<T>(x: T, s: seq<T>, key: T -> int)
    ensures multiset(Insert(x, s, key)) == multiset(s) + multiset{x}
  {
    if s != [] && key(s[|s| - 1]) < key(x) {
      var init := s[..|s| - 1];
      InsertPermutes(x, init, key);
      assert s == init + [s[|s| - 1]];
    }
  }

  lemma {:induction false} InsertKeepsSorted<T>(x: T, s: seq<T>, key: T -> int)
    requires SortedDesc(s, key)
    ensures SortedDesc(Insert(x, s, key), key)
  {
    if s != [] && key(s[|s| - 1]) < key(x) {
      var init := s[..|s| - 1];
      var last := s[|s| - 1];
      InsertKeepsSorted(x, init, key);
      InsertPermutes(x, init, key);
      var r0 := Insert(x, init, key);
      forall i | 0 <= i < |r0| ensures key(r0[i]) >= key(last) {
        assert r0[i] in multiset(r0);
        assert r0[i] in multiset(init) || r0[i] == x;
        if r0[i] != x {
          var k :| 0 <= k < |init| && init[k] == r0[i];
          assert s[k] == init[k];
        }
      }
    }
  }

  /** The sort returns its input, reordered. */
  lemma {:induction false} SortDescPermutes<T>(s: seq<T>, key: T -> int)
    ensures multiset(SortDesc(s, key)) == multiset(s)
  {
    if s != [] {
      var init := s[..|s| - 1];
      SortDescPermutes(init, key);
      InsertPermutes(s[|s| - 1], SortDesc(init, key), key);
      assert s == init + [s[|s| - 1]];
    }
  }

  /** The sort neither loses nor invents elements. */
  lemma SortDescSameElements<T>(s: seq<T>, key: T -> int)
    ensures forall x :: x in SortDesc(s, key) <==> x in s
  {
    SortDescPermutes(s, key);
    forall x ensures x in SortDesc(s, key) <==> x in s {
      assert x in SortDesc(s, key) <==> x in multiset(SortDesc(s, key));
      assert x in s <==> x in multiset(s);
    }
  }

  /** The sort returns its elements largest key first. */
  lemma {:induction false} SortDescSorted<T>(s: seq<T>, key: T -> int)
    ensures SortedDesc(SortDesc(s, key), key)
  {
    if s != [] {
      SortDescSorted(s[..|s| - 1], key);
      InsertKeepsSorted(s[|s| - 1], SortDesc(s[..|s| - 1], key), key);
    }
  }

  /** `f` applied to every element. */
  function Apply<T>(s: seq<T>, f: T -> T): (r: seq<T>)
    ensures |r| == |s| && forall i :: 0 <= i < |s| ==> r[i] == f(s[i])
  {
    seq(|s|, i requires 0 <= i < |s| => f(s[i]))
  }

  lemma {:induction false} InsertApply<T>(x: T, s: seq<T>, key: T -> int, f: T -> T)
    requires forall y :: key(f(y)) == key(y)
    ensures Insert(f(x), Apply(s, f), key) == Apply(Insert(x, s, key), f)
  {
    if s != [] && key(s[|s| - 1]) < key(x) {
      var init := s[..|s| - 1];
      InsertApply(x, init, key, f);
      assert Apply(s, f)[..|s| - 1] == Apply(init, f);
      assert Apply(Insert(x, init, key) + [s[|s| - 1]], f) == Apply(Insert(x, init, key), f) + [f(s[|s| - 1])];
    } else {
      assert Apply(s + [x], f) == Apply(s, f) + [f(x)];
    }
  }

  /** Changing elements without changing their keys commutes with the sort. */
  lemma {:induction false} SortDescApply<T>(s: seq<T>, key: T -> int, f: T -> T)
    requires forall y :: key(f(y)) == key(y)
    ensures SortDesc(Apply(s, f), key) == Apply(SortDesc(s, key), f)
  {
    if s != [] {
      var init := s[..|s| - 1];
      SortDescApply(init, key, f);
      assert Apply(s, f)[..|s| - 1] == Apply(init, f);
      InsertApply(s[|s| - 1], SortDesc(init, key), key, f);
    }
  }

  /** One step of the inner loop: moving `x` past an element with a smaller key. */
  lemma InsertStep<T>(x: T, sorted: seq<T>, j: nat, key: T -> int)
    requires 0 < j <= |sorted| && key(sorted[j - 1]) < key(x)
    ensures Insert(x, sorted[..j], key) + sorted[j..] == Insert(x, sorted[..j - 1], key) + sorted[j - 1..]
  {
    assert sorted[..j][..j - 1] == sorted[..j - 1];
    assert [sorted[j - 1]] + sorted[j..] == sorted[j - 1..];
  }

  /** Where the inner loop stops, `x` belongs right after `sorted[..j]`. */
  lemma InsertStop<T>(x: T, sorted: seq<T>, j: nat, key: T -> int)
    requires j <= |sorted| && (j == 0 || key(sorted[j - 1]) >= key(x))
    ensures Insert(x, sorted[..j], key) == sorted[..j] + [x]
  {
  }

  /** Exchanging two neighbours in the middle of a sequence. */
  lemma SwapNeighbours<T>(s: seq<T>, pre: seq<T>, y: T, x: T, post: seq<T>)
    requires s == pre + [y] + [x] + post
    ensures s[|pre| := x][|pre| + 1 := y] == pre + [x] + [y] + post
  {
  }

  lemma SplitAt<T>(s: seq<T>, i: nat)
    requires i < |s|
    ensures s[i..] == [s[i]] + s[i + 1..]
  {
  }

  lemma SortDescSnoc<T>(s: seq<T>, i: nat, key: T -> int)
    requires i < |s|
    ensures SortDesc(s[..i + 1], key) == Insert(s[i], SortDesc(s[..i], key), key)
  {
    assert s[..i + 1][..i] == s[..i];
  }

  /** The first `n` elements of a sorted sequence are its `n` largest: nothing
      after them has a larger key than any of them. */
  lemma PrefixIsTop<T>(s: seq<T>, n: nat, key: T -> int)
    requires n <= |s| && SortedDesc(s, key)
    ensures SortedDesc(s[..n], key)
    ensures multiset(s[..n]) <= multiset(s)
    ensures forall x :: x in multiset(s) - multiset(s[..n]) ==> forall i :: 0 <= i < n ==> key(x) <= key(s[i])
  {
    assert s == s[..n] + s[n..];
    assert multiset(s) == multiset(s[..n]) + multiset(s[n..]);
    forall x | x in multiset(s) - multiset(s[..n])
      ensures forall i :: 0 <= i < n ==> key(x) <= key(s[i])
    {
      assert x in multiset(s[n..]);
      var m :| 0 <= m < |s[n..]| && s[n..][m] == x;
      assert s[n + m] == x;
    }
  }

  /** One step of the outer loop: the next element splits off the unsorted part
      and is inserted into the sorted prefix. */
  lemma PrefixStep<T>(orig: seq<T>, i: nat, key: T -> int)
    requires i < |orig|
    ensures |SortDesc(orig[..i], key)| == i
    ensures SortDesc(orig[..i], key) + orig[i..] == SortDesc(orig[..i], key) + [orig[i]] + orig[i + 1..]
    ensures SortDesc(orig[..i + 1], key) == Insert(orig[i], SortDesc(orig[..i], key), key)
  {
    SplitAt(orig, i);
    SortDescSnoc(orig, i, key);
  }

  /** What one swap of the inner loop does to the whole array contents. */
  lemma SinkStep<T>(s: seq<T>, sorted: seq<T>, x: T, rest: seq<T>, j: nat, key: T -> int)
    requires 0 < j <= |sorted|
    requires s == sorted[..j] + [x] + sorted[j..] + rest
    requires key(sorted[j - 1]) < key(x)
    ensures s[j - 1] == sorted[j - 1] && s[j] == x
    ensures s[j - 1 := x][j := sorted[j - 1]] == sorted[..j - 1] + [x] + sorted[j - 1..] + rest
    ensures Insert(x, sorted[..j], key) + sorted[j..] == Insert(x, sorted[..j - 1], key) + sorted[j - 1..]
  {
    assert sorted[..j] == sorted[..j - 1] + [sorted[j - 1]];
    assert sorted[j - 1..] == [sorted[j - 1]] + sorted[j..];
    SwapNeighbours(s, sorted[..j - 1], sorted[j - 1], x, sorted[j..] + rest);
    InsertStep(x, sorted, j, key);
  }

  /** The inner loop: sinks `x`, stored at `a[i]`, leftwards into the sorted prefix. */
  method Sink<T>(a: array<T>, i: nat, key: T -> int, ghost sorted: seq<T>, ghost x: T, ghost rest: seq<T>)
    requires i < a.Length && |sorted| == i
    requires a[..] == sorted + [x] + rest
    modifies a
    ensures a[..] == Insert(x, sorted, key) + rest
  {
    var j := i;
    assert sorted[..j] == sorted && sorted[j..] == [];
    while j > 0 && key(a[j - 1]) < key(a[j])
      invariant 0 <= j <= i
      invariant a[..] == sorted[..j] + [x] + sorted[j..] + rest
      invariant Insert(x, sorted, key) == Insert(x, sorted[..j], key) + sorted[j..]
    {
      ghost var s := a[..];
      SinkStep(s, sorted, x, rest, j, key);
      a[j - 1], a[j] := a[j], a[j - 1];
      assert a[..] == s[j - 1 := x][j := sorted[j - 1]];
      j := j - 1;
    }
    InsertStop(x, sorted, j, key);
  }

  /** A stable insertion sort in place on an array, with the swaps of the
      classic algorithm. */
  method SortInPlace<T>(a: array<T>, key: T -> int)
    modifies a
    ensures a[..] == SortDesc(old(a[..]), key)
  {
    ghost var orig := a[..];
    var i := 0;
    while i < a.Length
      invariant 0 <= i <= a.Length
      invariant a[..] == SortDesc(orig[..i], key) + orig[i..]
    {
      ghost var sorted := SortDesc(orig[..i], key);
      PrefixStep(orig, i, key);
      Sink(a, i, key, sorted, orig[i], orig[i + 1..]);
      i := i + 1;
    }
    assert orig[..a.Length] == orig;
  }
}
