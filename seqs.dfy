/** Sequence vocabulary shared by the generators: sums, distinctness,
    ordering, Python's `sorted` (a stable insertion sort by key), list
    comprehension filtering and clamped slicing. */
module Seqs {

  /** A value, or nothing where the scripts would raise. */
  datatype Option<T> = None | Some(value: T)

  function Min(a: int, b: int): (m: int)
    ensures m <= a && m <= b && (m == a || m == b)
  {
    if a <= b then a else b
  }

  /** Sum of a list of integers (Python's `sum`), folded from the right end
      so that appending one element unfolds in one step. */
  function Sum(s: seq<int>): int
  {
    if s == [] then 0 else Sum(s[..|s| - 1]) + s[|s| - 1]
  }

  lemma SumAppend(s: seq<int>, x: int)
    ensures Sum(s + [x]) == Sum(s) + x
  {
    assert (s + [x])[..|s|] == s;
  }

  lemma SumPrefixStep(s: seq<int>, i: nat)
    requires i < |s|
    ensures Sum(s[..i + 1]) == Sum(s[..i]) + s[i]
  {
    assert s[..i + 1] == s[..i] + [s[i]];
    SumAppend(s[..i], s[i]);
  }

  lemma SumOfShort(s: seq<int>)
    requires |s| <= 3
    ensures |s| == 1 ==> Sum(s) == s[0]
    ensures |s| == 2 ==> Sum(s) == s[0] + s[1]
    ensures |s| == 3 ==> Sum(s) == s[0] + s[1] + s[2]
  {
    if |s| > 0 {
      assert s[..|s| - 1][..0] == [];
      if |s| == 3 { assert s[..2][..1] == s[..1]; }
    }
  }

  /** Sum of `f` over a list, folded from the right end like `Sum`. */
  function SumBy<T>(s: seq<T>, f: T -> int): int
  {
    if s == [] then 0 else SumBy(s[..|s| - 1], f) + f(s[|s| - 1])
  }

  lemma {:induction false} SumByConcat<T>(a: seq<T>, b: seq<T>, f: T -> int)
    ensures SumBy(a + b, f) == SumBy(a, f) + SumBy(b, f)
  {
    if b == [] {
      assert a + b == a;
    } else {
      assert (a + b)[..|a + b| - 1] == a + b[..|b| - 1];
      SumByConcat(a, b[..|b| - 1], f);
    }
  }

  /** Reordering a list does not change its sum. */
  lemma {:induction false} SumByPermutation<T>(a: seq<T>, b: seq<T>, f: T -> int)
    requires multiset(a) == multiset(b)
    ensures SumBy(a, f) == SumBy(b, f)
    decreases |a|
  {
    if a == [] {
      assert |b| == |multiset(b)| == 0;
    } else {
      var x := a[|a| - 1];
      assert x in multiset(a);
      var i :| 0 <= i < |b| && b[i] == x;
      var b' := b[..i] + b[i + 1..];
      RemoveLast(a, b, i);
      SumByPermutation(a[..|a| - 1], b', f);
      SumByRemove(b, i, f);
    }
  }

  /** Taking the last element of `a` and an equal element out of `b` keeps the multisets equal. */
  lemma RemoveLast<T>(a: seq<T>, b: seq<T>, i: nat)
    requires multiset(a) == multiset(b) && a != [] && i < |b| && b[i] == a[|a| - 1]
    ensures multiset(a[..|a| - 1]) == multiset(b[..i] + b[i + 1..])
  {
    var j := |a| - 1;
    assert a[j + 1..] == [];
    assert a[..j] + a[j + 1..] == a[..j];
    MultisetOfRemoved(a, j);
    MultisetOfRemoved(b, i);
    MultisetCancel(multiset(a[..j]), multiset(b[..i] + b[i + 1..]), b[i]);
  }

  /** A list's elements are those left after removing position `i`, and the one removed. */
  lemma MultisetOfRemoved<T>(s: seq<T>, i: nat)
    requires i < |s|
    ensures multiset(s) == multiset(s[..i] + s[i + 1..]) + multiset{s[i]}
  {
    assert s == s[..i] + [s[i]] + s[i + 1..];
    assert multiset(s) == multiset(s[..i]) + multiset{s[i]} + multiset(s[i + 1..]);
  }

  lemma MultisetCancel<T>(p: multiset<T>, q: multiset<T>, x: T)
    requires p + multiset{x} == q + multiset{x}
    ensures p == q
  {
    forall y ensures p[y] == q[y] {
      assert (p + multiset{x})[y] == (q + multiset{x})[y];
    }
  }

  /** The sum over a list is the sum without element `i`, plus that element. */
  lemma SumByRemove<T>(b: seq<T>, i: nat, f: T -> int)
    requires i < |b|
    ensures SumBy(b, f) == SumBy(b[..i] + b[i + 1..], f) + f(b[i])
  {
    var front, mid, back := b[..i], [b[i]], b[i + 1..];
    assert b == front + (mid + back);
    SumByConcat(front, mid + back, f);
    SumByConcat(mid, back, f);
    SumByConcat(front, back, f);
    assert SumBy(mid, f) == f(b[i]) by { assert mid[..0] == []; }
  }

  /** No value occurs twice. */
  ghost predicate Distinct<T>(s: seq<T>)
  {
    forall x | x in s :: multiset(s)[x] == 1
  }

  predicate StrictlyIncreasing(s: seq<int>)
  {
    forall i, j :: 0 <= i < j < |s| ==> s[i] < s[j]
  }

  /** Ordered by `key`, ties allowed. */
  ghost predicate SortedBy<T>(s: seq<T>, key: T -> int)
  {
    forall i, j :: 0 <= i < j < |s| ==> key(s[i]) <= key(s[j])
  }

  /** Two positions of a duplicate-free sequence hold different values. */
  lemma DistinctAt<T>(s: seq<T>, i: int, j: int)
    requires Distinct(s) && 0 <= i < j < |s|
    ensures s[i] != s[j]
  {
    assert s == s[..j] + s[j..];
    assert s[i] in s[..j];
    assert s[j] in multiset(s[j..]);
    assert multiset(s)[s[j]] == multiset(s[..j])[s[j]] + multiset(s[j..])[s[j]];
    assert s[j] !in s[..j];
  }

  lemma StrictlyIncreasingIsDistinct(s: seq<int>)
    requires StrictlyIncreasing(s)
    ensures Distinct(s)
  {
    if s != [] {
      var t := s[..|s| - 1];
      var last := s[|s| - 1];
      assert s == t + [last];
      assert StrictlyIncreasing(t);
      StrictlyIncreasingIsDistinct(t);
      assert forall k :: 0 <= k < |t| ==> t[k] < last;
      assert last !in t;
      forall x | x in s ensures multiset(s)[x] == 1 {
        if x == last {
          assert multiset(t)[x] == 0;
        } else {
          assert x in t;
        }
      }
    }
  }

  /** A sorted duplicate-free list of integers is strictly increasing. */
  lemma SortedDistinctIsStrictlyIncreasing(s: seq<int>)
    requires SortedBy(s, x => x) && Distinct(s)
    ensures StrictlyIncreasing(s)
  {
    forall i, j | 0 <= i < j < |s| ensures s[i] < s[j] {
      DistinctAt(s, i, j);
      assert (x => x)(s[i]) <= (x => x)(s[j]);
    }
  }

  /** Distinctness depends only on the multiset of elements. */
  lemma DistinctOfPermutation<T>(s: seq<T>, t: seq<T>)
    requires multiset(s) == multiset(t) && Distinct(s)
    ensures Distinct(t)
  {
    forall x | x in t ensures multiset(t)[x] == 1 {
      assert x in multiset(t);
    }
  }

  /** A sub-multiset of a duplicate-free sequence is duplicate-free. */
  lemma DistinctOfSubMultiset<T>(s: seq<T>, t: seq<T>)
    requires multiset(t) <= multiset(s) && Distinct(s)
    ensures Distinct(t)
  {
    forall x | x in t ensures multiset(t)[x] == 1 {
      assert x in multiset(t);
      assert x in multiset(s);
    }
  }

  lemma DistinctConcat<T>(a: seq<T>, b: seq<T>)
    requires Distinct(a) && Distinct(b)
    requires forall x :: x in a ==> x !in b
    ensures Distinct(a + b)
  {
    assert multiset(a + b) == multiset(a) + multiset(b);
    forall x | x in a + b ensures multiset(a + b)[x] == 1 {
      if x in a {
        assert x !in multiset(b);
      } else {
        assert x !in multiset(a);
      }
    }
  }

  /** Insert `x` into a list after every leading element whose key is not
      larger; into a sorted list this is where a stable sort puts it. */
  function Insert<T>(x: T, s: seq<T>, key: T -> int): (r: seq<T>)
    ensures |r| == |s| + 1
    ensures multiset(r) == multiset(s) + multiset{x}
  {
    if s == [] then [x]
    else if key(x) < key(s[0]) then [x] + s
    else
      assert s == [s[0]] + s[1..];
      [s[0]] + Insert(x, s[1..], key)
  }

  /** Inserting into a sorted list keeps it sorted and puts either `x` or
      the old head first. */
  lemma {:induction false} InsertSorted<T>(x: T, s: seq<T>, key: T -> int)
    requires SortedBy(s, key)
    ensures SortedBy(Insert(x, s, key), key)
    ensures Insert(x, s, key)[0] == x || (s != [] && Insert(x, s, key)[0] == s[0])
  {
    if s == [] {
    } else if key(x) < key(s[0]) {
      ConsSorted(x, s, key);
    } else {
      SortedTail(s, key);
      InsertSorted(x, s[1..], key);
      var rest := Insert(x, s[1..], key);
      assert key(s[0]) <= key(rest[0]) by {
        if rest[0] != x { assert key(s[0]) <= key(s[1]); }
      }
      ConsSorted(s[0], rest, key);
    }
  }

  /** The tail of a sorted list is sorted, and the head is no larger than its successor. */
  lemma SortedTail<T>(s: seq<T>, key: T -> int)
    requires SortedBy(s, key) && s != []
    ensures SortedBy(s[1..], key) && (|s| > 1 ==> key(s[0]) <= key(s[1]))
  {
    forall i, j | 0 <= i < j < |s| - 1 ensures key(s[1..][i]) <= key(s[1..][j]) {
      assert key(s[i + 1]) <= key(s[j + 1]);
    }
  }

  /** Putting an element no larger than the head in front keeps a list sorted. */
  lemma ConsSorted<T>(h: T, rest: seq<T>, key: T -> int)
    requires SortedBy(rest, key) && (rest != [] ==> key(h) <= key(rest[0]))
    ensures SortedBy([h] + rest, key)
  {
    var r := [h] + rest;
    forall i, j | 0 <= i < j < |r| ensures key(r[i]) <= key(r[j]) {
      if i == 0 && j > 1 { assert key(rest[0]) <= key(rest[j - 1]); }
    }
  }

  /** Python's `sorted(s, key=key)`: a stable sort, modelled as insertion sort. */
  function SortBy<T>(s: seq<T>, key: T -> int): (r: seq<T>)
    ensures |r| == |s|
    ensures multiset(r) == multiset(s)
    ensures SortedBy(r, key)
  {
    if s == [] then []
    else
      assert s == s[..|s| - 1] + [s[|s| - 1]];
      InsertSorted(s[|s| - 1], SortBy(s[..|s| - 1], key), key);
      Insert(s[|s| - 1], SortBy(s[..|s| - 1], key), key)
  }

  /** `[d for d in s if d not in excluded]`: the comprehension keeps the
      order of `s`, so an ascending list stays ascending. */
  function Without(s: seq<int>, excluded: seq<int>): (r: seq<int>)
    ensures forall x :: x in r <==> x in s && x !in excluded
    ensures multiset(r) <= multiset(s)
    ensures |r| <= |s|
    ensures StrictlyIncreasing(s) ==> StrictlyIncreasing(r)
  {
    if s == [] then []
    else
      var init, last := s[..|s| - 1], s[|s| - 1];
      assert s == init + [last];
      var kept := Without(init, excluded);
      assert StrictlyIncreasing(s) ==> forall x :: x in kept ==> x < last by {
        if StrictlyIncreasing(s) {
          forall x | x in kept ensures x < last {
            var k :| 0 <= k < |init| && init[k] == x;
            assert s[k] == x;
          }
        }
      }
      if last in excluded then kept
      else
        assert StrictlyIncreasing(s) ==> StrictlyIncreasing(kept + [last]) by {
          if StrictlyIncreasing(s) { AppendAbove(kept, last); }
        }
        kept + [last]
  }

  /** Appending an element above all others keeps a list ascending. */
  lemma AppendAbove(s: seq<int>, x: int)
    requires StrictlyIncreasing(s) && forall y :: y in s ==> y < x
    ensures StrictlyIncreasing(s + [x])
  {
    forall i, j | 0 <= i < j < |s| + 1 ensures (s + [x])[i] < (s + [x])[j] {
      assert (s + [x])[i] == s[i];
      if j == |s| { assert s[i] in s; } else { assert (s + [x])[j] == s[j]; }
    }
  }

  /** Python's `s[a:b]` for non-negative bounds: both ends are clamped to the length. */
  function Slice<T>(s: seq<T>, a: nat, b: nat): (r: seq<T>)
    requires a <= b
    ensures |r| == Min(b, |s|) - Min(a, |s|)
    ensures forall k :: 0 <= k < |r| ==> r[k] == s[Min(a, |s|) + k]
  {
    s[Min(a, |s|)..Min(b, |s|)]
  }

  /** Python's `s[a:]` for a non-negative start: empty once `a` passes the end. */
  function Drop<T>(s: seq<T>, a: nat): (r: seq<T>)
    ensures |r| == |s| - Min(a, |s|)
    ensures forall k :: 0 <= k < |r| ==> r[k] == s[Min(a, |s|) + k]
  {
    s[Min(a, |s|)..]
  }
}
