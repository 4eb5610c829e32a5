/** The array operations the client leans on, as functions over sequences:
    `filter`, `find`/`findIndex`, and the stable `sort` with a numeric
    comparator `(a, b) => key(a) - key(b)`. */
module Collections {
  import opened Common

  /** `s.filter(p)` */
  function Filter<T(!new)>(s: seq<T>, p: T -> bool): (r: seq<T>)
    ensures |r| <= |s|
    ensures forall i :: 0 <= i < |r| ==> p(r[i])
  {
    if s == [] then []
    else (if p(s[0]) then [s[0]] else []) + Filter(s[1..], p)
  }

  /** The filtered copy holds exactly the selected elements, each at most as
      often as the source does. */
  lemma {:induction false} FilterMembers<T(!new)>(s: seq<T>, p: T -> bool)
    ensures forall x :: x in Filter(s, p) <==> x in s && p(x)
    ensures multiset(Filter(s, p)) <= multiset(s)
  {
    if s != [] {
      FilterMembers(s[1..], p);
      assert s == [s[0]] + s[1..];
    }
  }

  lemma {:induction false} FilterConcat<T(!new)>(a: seq<T>, b: seq<T>, p: T -> bool)
    ensures Filter(a + b, p) == Filter(a, p) + Filter(b, p)
  {
    if a == [] {
      assert a + b == b;
    } else {
      assert (a + b)[1..] == a[1..] + b;
      FilterConcat(a[1..], b, p);
    }
  }

  /** Filtering with a predicate every element meets changes nothing. */
  lemma {:induction false} FilterKeepsAll<T(!new)>(s: seq<T>, p: T -> bool)
    requires forall i :: 0 <= i < |s| ==> p(s[i])
    ensures Filter(s, p) == s
  {
    if s != [] {
      FilterKeepsAll(s[1..], p);
    }
  }

  /** Filtering with a predicate no element meets leaves nothing. */
  lemma {:induction false} FilterDropsAll<T(!new)>(s: seq<T>, p: T -> bool)
    requires forall i :: 0 <= i < |s| ==> !p(s[i])
    ensures Filter(s, p) == []
  {
    if s != [] {
      FilterDropsAll(s[1..], p);
    }
  }

  /** Two predicates that agree on every element select the same elements. */
  lemma {:induction false} FilterSame<T(!new)>(s: seq<T>, p: T -> bool, q: T -> bool)
    requires forall i :: 0 <= i < |s| ==> p(s[i]) == q(s[i])
    ensures Filter(s, p) == Filter(s, q)
  {
    if s != [] {
      FilterSame(s[1..], p, q);
    }
  }

  /** `s.filter(p).length`, counted without building the copy. */
  function Count<T>(s: seq<T>, p: T -> bool): nat {
    if s == [] then 0 else (if p(s[0]) then 1 else 0) + Count(s[1..], p)
  }

  /** Counting the selected elements gives the length of the filtered copy. */
  lemma {:induction false} CountIsFilterLength<T(!new)>(s: seq<T>, p: T -> bool)
    ensures Count(s, p) == |Filter(s, p)|
  {
    if s != [] {
      CountIsFilterLength(s[1..], p);
    }
  }

  /** `s.findIndex(p)`, with -1 as `None`. */
  function FirstIndex<T(!new)>(s: seq<T>, p: T -> bool): (r: Option<nat>)
    ensures r.Some? ==> r.value < |s| && p(s[r.value])
    ensures r.Some? ==> forall j :: 0 <= j < r.value ==> !p(s[j])
    ensures r.None? <==> forall j :: 0 <= j < |s| ==> !p(s[j])
  {
    if s == [] then None
    else if p(s[0]) then Some(0)
    else match FirstIndex(s[1..], p)
      case None => None
      case Some(i) => Some(i + 1)
  }

  /** `s.find(p)` */
  function Find<T(!new)>(s: seq<T>, p: T -> bool): (r: Option<T>)
    ensures r.Some? ==> r.value in s && p(r.value)
    ensures r.None? <==> forall j :: 0 <= j < |s| ==> !p(s[j])
    ensures r.Some? ==> exists i :: 0 <= i < |s| && r.value == s[i] && p(s[i]) &&
                          forall j :: 0 <= j < i ==> !p(s[j])
  {
    match FirstIndex(s, p)
    case None => None
    case Some(i) => Some(s[i])
  }

  /** `s.map(f)` */
  function Map<T, U>(s: seq<T>, f: T -> U): (r: seq<U>)
    ensures |r| == |s|
    ensures forall i :: 0 <= i < |s| ==> r[i] == f(s[i])
  {
    if s == [] then [] else [f(s[0])] + Map(s[1..], f)
  }

  /** Ascending by `key`. */
  ghost predicate SortedBy<T>(s: seq<T>, key: T -> int) {
    forall i, j :: 0 <= i < j < |s| ==> key(s[i]) <= key(s[j])
  }

  /** Places `x` before the first element whose key is not smaller, so that `x`
      precedes the elements of `s` that share its key (stability). */
  function Insert<T(!new)>(x: T, s: seq<T>, key: T -> int): (r: seq<T>)
    ensures multiset(r) == multiset(s) + multiset{x}
    ensures |r| == |s| + 1
    ensures r[0] == x || (s != [] && r[0] == s[0])
  {
    if s == [] then [x]
    else if key(x) <= key(s[0]) then [x] + s
    else
      assert s == [s[0]] + s[1..];
      [s[0]] + Insert(x, s[1..], key)
  }

  lemma {:induction false} InsertSorted<T(!new)>(x: T, s: seq<T>, key: T -> int)
    requires SortedBy(s, key)
    ensures SortedBy(Insert(x, s, key), key)
  {
    if s != [] && key(x) > key(s[0]) {
      var rest := Insert(x, s[1..], key);
      InsertSorted(x, s[1..], key);
      assert key(s[0]) <= key(rest[0]);
      assert Insert(x, s, key) == [s[0]] + rest;
    }
  }

  /** `[...s].sort((a, b) => key(a) - key(b))`: a stable sort of a copy. */
  function SortBy<T(!new)>(s: seq<T>, key: T -> int): (r: seq<T>)
    ensures multiset(r) == multiset(s)
    ensures |r| == |s|
    ensures SortedBy(r, key)
  {
    if s == [] then []
    else
      assert s == [s[0]] + s[1..];
      InsertSorted(s[0], SortBy(s[1..], key), key);
      Insert(s[0], SortBy(s[1..], key), key)
  }

  /** The elements whose key is `k`. */
  function KeyIs<T>(key: T -> int, k: int): T -> bool {
    (x: T) => key(x) == k
  }

  /** `Filter` on a sequence with a given head. */
  lemma FilterCons<T(!new)>(h: T, s: seq<T>, p: T -> bool)
    ensures p(h) ==> Filter([h] + s, p) == [h] + Filter(s, p)
    ensures !p(h) ==> Filter([h] + s, p) == Filter(s, p)
  {
    assert ([h] + s)[0] == h && ([h] + s)[1..] == s;
  }

  /** Inserting `x` puts it ahead of every element with the same key and leaves
      the relative order of the others as it was. */
  lemma {:induction false} InsertKeepsTies<T(!new)>(x: T, s: seq<T>, key: T -> int, k: int)
    ensures key(x) == k ==> Filter(Insert(x, s, key), KeyIs(key, k)) == [x] + Filter(s, KeyIs(key, k))
    ensures key(x) != k ==> Filter(Insert(x, s, key), KeyIs(key, k)) == Filter(s, KeyIs(key, k))
  {
    var p := KeyIs(key, k);
    if s == [] {
      FilterCons(x, [], p);
      assert [x] + [] == [x];
    } else if key(x) <= key(s[0]) {
      FilterCons(x, s, p);
    } else {
      InsertKeepsTies(x, s[1..], key, k);
      var rest := Insert(x, s[1..], key);
      assert Insert(x, s, key) == [s[0]] + rest;
      FilterCons(s[0], rest, p);
      FilterCons(s[0], s[1..], p);
      assert [s[0]] + s[1..] == s;
      if key(x) == k {
        assert !p(s[0]);
      } else if p(s[0]) {
        assert Filter([s[0]] + rest, p) == [s[0]] + Filter(s[1..], p);
      }
    }
  }

  /** The sort is stable: the elements sharing any one key appear in the sorted
      copy in the order they have in the source. */
  lemma {:induction false} SortByStable<T(!new)>(s: seq<T>, key: T -> int, k: int)
    ensures Filter(SortBy(s, key), KeyIs(key, k)) == Filter(s, KeyIs(key, k))
  {
    if s != [] {
      SortByStable(s[1..], key, k);
      InsertKeepsTies(s[0], SortBy(s[1..], key), key, k);
    }
  }

  /** Sorting a filtered copy yields exactly the selected elements, each as
      often as it occurs in the source, in key order. */
  lemma SortedSelection<T(!new)>(s: seq<T>, p: T -> bool, key: T -> int)
    ensures multiset(SortBy(Filter(s, p), key)) == multiset(Filter(s, p))
    ensures forall x :: x in SortBy(Filter(s, p), key) <==> x in s && p(x)
    ensures SortedBy(SortBy(Filter(s, p), key), key)
  {
    FilterMembers(s, p);
    var f := Filter(s, p);
    var r := SortBy(f, key);
    forall x ensures x in r <==> x in f {
      assert x in r <==> x in multiset(r);
      assert x in f <==> x in multiset(f);
    }
  }

  /** In a sorted copy, the first element meeting `p` has the least key among
      all elements of the source that meet `p`. */
  lemma FirstSelectedIsLeast<T(!new)>(sorted: seq<T>, s: seq<T>, p: T -> bool, key: T -> int, i: nat)
    requires multiset(sorted) == multiset(s) && SortedBy(sorted, key)
    requires i < |sorted| && p(sorted[i])
    requires forall j :: 0 <= j < i ==> !p(sorted[j])
    ensures sorted[i] in s
    ensures forall t :: t in s && p(t) ==> key(sorted[i]) <= key(t)
  {
    assert sorted[i] in multiset(sorted);
    forall t | t in s && p(t) ensures key(sorted[i]) <= key(t) {
      assert t in multiset(s);
      assert t in multiset(sorted);
      var j :| 0 <= j < |sorted| && sorted[j] == t;
      assert i <= j;
    }
  }

  /** Two sequences with the same multiset have the same members. */
  lemma SameMembers<T>(a: seq<T>, b: seq<T>)
    requires multiset(a) == multiset(b)
    ensures forall x :: x in a <==> x in b
  {
    forall x ensures x in a <==> x in b {
      assert x in a <==> x in multiset(a);
      assert x in b <==> x in multiset(b);
    }
  }

  /** Keys 0, 1, ..., n-1 in that order: the shape every reorder and seed produces. */
  ghost predicate DenselyOrdered<T>(s: seq<T>, key: T -> int) {
    forall i :: 0 <= i < |s| ==> key(s[i]) == i
  }

  /** Appending one element keeps a dense selection dense when, if selected, its
      key is the size of the selection so far. */
  lemma {:induction false} AppendKeepsDense<T(!new)>(a: seq<T>, x: T, p: T -> bool, key: T -> int)
    requires DenselyOrdered(Filter(a, p), key)
    requires p(x) ==> key(x) == |Filter(a, p)|
    ensures DenselyOrdered(Filter(a + [x], p), key)
  {
    FilterConcat(a, [x], p);
    assert [x][1..] == [];
  }

  /** Appending elements none of which is selected leaves the selection as it was. */
  lemma AppendUnselected<T(!new)>(a: seq<T>, block: seq<T>, p: T -> bool)
    requires forall i :: 0 <= i < |block| ==> !p(block[i])
    ensures Filter(a + block, p) == Filter(a, p)
  {
    FilterConcat(a, block, p);
    FilterDropsAll(block, p);
  }

  /** Appending a block numbered 0..n-1 that alone is selected gives a dense selection. */
  lemma AppendFreshBlock<T(!new)>(a: seq<T>, block: seq<T>, p: T -> bool, key: T -> int)
    requires forall i :: 0 <= i < |a| ==> !p(a[i])
    requires forall i :: 0 <= i < |block| ==> p(block[i]) && key(block[i]) == i
    ensures DenselyOrdered(Filter(a + block, p), key)
  {
    FilterConcat(a, block, p);
    FilterDropsAll(a, p);
    FilterKeepsAll(block, p);
  }
}
