/** `Array.prototype.sort` with a numeric comparator `(a, b) => key(a) - key(b)`.
    Since ECMAScript 2019 (ECMA-262 10th edition, section 22.1.3.27) the sort
    is stable: elements whose comparator result is 0 keep their original
    relative order. A descending sort `(a, b) => key(b) - key(a)` is the
    ascending sort on the negated key.

    `SortBy` is an insertion sort. Its contract says the result is a
    reordering of the input, ordered by key; `SortByStable` adds that for every
    key value the elements carrying it appear in the same order as in the
    input. */
module StableSort {
  import opened Seqs

  /** Each key is at most the next one. Stated on neighbours, recursively,
      so that it unfolds one step at a time; `SortedPairwise` gives the
      all-pairs form. */
  ghost predicate SortedBy<T>(s: seq<T>, key: T -> int)
    decreases |s|
  {
    |s| < 2 || (key(s[0]) <= key(s[1]) && SortedBy(s[1..], key))
  }

  lemma {:induction false} SortedPairwise<T>(s: seq<T>, key: T -> int)
    requires SortedBy(s, key)
    ensures forall i, j :: 0 <= i < j < |s| ==> key(s[i]) <= key(s[j])
    decreases |s|
  {
    if |s| >= 2 {
      SortedPairwise(s[1..], key);
      forall i, j | 0 <= i < j < |s|
        ensures key(s[i]) <= key(s[j])
      {
        if i > 0 {
          assert s[i] == s[1..][i - 1] && s[j] == s[1..][j - 1];
        } else if j > 1 {
          assert s[1] == s[1..][0] && s[j] == s[1..][j - 1];
        }
      }
    }
  }

  ghost predicate StrictlySortedBy<T>(s: seq<T>, key: T -> int) {
    forall i, j :: 0 <= i < j < |s| ==> key(s[i]) < key(s[j])
  }

  lemma FilterKeyCons<T>(x: T, s: seq<T>, key: T -> int, k: int)
    ensures FilterKey([x] + s, key, k) == (if key(x) == k then [x] else []) + FilterKey(s, key, k)
  {
    FilterKeyAppend([x], s, key, k);
    assert Init([x]) == [] && Last([x]) == x;
  }

  /** `FilterKeyCons` read from the head of `s` itself. */
  lemma FilterKeyHead<T>(s: seq<T>, key: T -> int, k: int)
    requires s != []
    ensures FilterKey(s, key, k) == (if key(s[0]) == k then [s[0]] else []) + FilterKey(s[1..], key, k)
  {
    FilterKeyCons(s[0], s[1..], key, k);
    assert [s[0]] + s[1..] == s;
  }

  lemma MultisetHead<T>(s: seq<T>)
    requires s != []
    ensures multiset(s) == multiset{s[0]} + multiset(s[1..])
  {
    assert [s[0]] + s[1..] == s;
  }

  /** Puts `x` in front of the first element whose key is not smaller. */
  function Insert<T>(x: T, s: seq<T>, key: T -> int): (r: seq<T>)
    requires SortedBy(s, key)
    ensures |r| == |s| + 1
    ensures SortedBy(r, key)
    ensures multiset(r) == multiset(s) + multiset{x}
  {
    if s == [] || key(x) <= key(s[0]) then [x] + s
    else
      MultisetHead(s);
      [s[0]] + Insert(x, s[1..], key)
  }

  /** Inserting `x` adds it in front of the elements that share its key. */
  lemma {:induction false} InsertRuns<T>(x: T, s: seq<T>, key: T -> int, k: int)
    requires SortedBy(s, key)
    ensures FilterKey(Insert(x, s, key), key, k) == (if key(x) == k then [x] else []) + FilterKey(s, key, k)
    decreases |s|
  {
    if s == [] || key(x) <= key(s[0]) {
      FilterKeyCons(x, s, key, k);
    } else {
      var rest := Insert(x, s[1..], key);
      InsertRuns(x, s[1..], key, k);
      FilterKeyCons(s[0], rest, key, k);
      FilterKeyHead(s, key, k);
      RunsSwap(x, s[0], key, k, FilterKey(s[1..], key, k));
    }
  }

  /** Elements with different keys never both land in one run. */
  lemma RunsSwap<T>(x: T, y: T, key: T -> int, k: int, f: seq<T>)
    requires key(x) != key(y)
    ensures (if key(y) == k then [y] else []) + ((if key(x) == k then [x] else []) + f)
         == (if key(x) == k then [x] else []) + ((if key(y) == k then [y] else []) + f)
  {
  }

  /** The stable sort of `s` by ascending `key`: ordered, and a permutation. */
  function SortBy<T>(s: seq<T>, key: T -> int): (r: seq<T>)
    ensures |r| == |s|
    ensures SortedBy(r, key)
    ensures multiset(r) == multiset(s)
  {
    if s == [] then []
    else
      assert s == [s[0]] + s[1..];
      Insert(s[0], SortBy(s[1..], key), key)
  }

  /** Stability: for every key, the elements carrying it come out in the order
      they went in. With `SortBy`'s own contract this determines the result. */
  lemma {:induction false} SortByStable<T>(s: seq<T>, key: T -> int, k: int)
    ensures FilterKey(SortBy(s, key), key, k) == FilterKey(s, key, k)
  {
    if s != [] {
      var r1 := SortBy(s[1..], key);
      SortByStable(s[1..], key, k);
      InsertRuns(s[0], r1, key, k);
      FilterKeyHead(s, key, k);
    }
  }

  /** A sort moves nothing in or out, so any sum over the elements survives it. */
  lemma {:induction false} SortKeepsSum<T>(s: seq<T>, key: T -> int, f: T -> int)
    ensures SumOf(SortBy(s, key), f) == SumOf(s, f)
  {
    if s != [] {
      SortKeepsSum(s[1..], key, f);
      InsertSum(s[0], SortBy(s[1..], key), key, f);
      SumOfHead(s, f);
    }
  }

  lemma SumOfHead<T>(s: seq<T>, f: T -> int)
    requires s != []
    ensures SumOf(s, f) == f(s[0]) + SumOf(s[1..], f)
  {
    SumOfAppend([s[0]], s[1..], f);
    assert Init([s[0]]) == [];
    assert [s[0]] + s[1..] == s;
  }

  lemma {:induction false} InsertSum<T>(x: T, s: seq<T>, key: T -> int, f: T -> int)
    requires SortedBy(s, key)
    ensures SumOf(Insert(x, s, key), f) == f(x) + SumOf(s, f)
    decreases |s|
  {
    if s == [] || key(x) <= key(s[0]) {
      SumOfHead([x] + s, f);
      assert ([x] + s)[1..] == s;
    } else {
      var rest := Insert(x, s[1..], key);
      InsertSum(x, s[1..], key, f);
      SumOfHead(s, f);
      SumOfHead([s[0]] + rest, f);
      assert ([s[0]] + rest)[1..] == rest;
    }
  }

  /** Keys that are already strictly increasing leave nothing for the sort to
      decide: every permutation of such a sequence sorts back to it. */
  lemma SortOfStrict<T>(s: seq<T>, t: seq<T>, key: T -> int)
    requires multiset(s) == multiset(t)
    requires StrictlySortedBy(t, key)
    ensures SortBy(s, key) == t
  {
    SortedPermutationUnique(SortBy(s, key), t, key);
  }

  /** When all keys differ there is only one ordered arrangement of a given
      collection of elements. */
  lemma {:induction false} SortedPermutationUnique<T>(r: seq<T>, t: seq<T>, key: T -> int)
    requires SortedBy(r, key) && StrictlySortedBy(t, key)
    requires multiset(r) == multiset(t)
    ensures r == t
    decreases |r|
  {
    assert |r| == |multiset(r)| == |t|;
    if r != [] {
      SmallestFirst(r, t, key);
      TailsPermutation(r, t);
      assert StrictlySortedBy(t[1..], key);
      SortedPermutationUnique(r[1..], t[1..], key);
      assert [r[0]] + r[1..] == r && [t[0]] + t[1..] == t;
    }
  }

  /** Both orderings start with the element of least key. */
  lemma SmallestFirst<T>(r: seq<T>, t: seq<T>, key: T -> int)
    requires SortedBy(r, key) && StrictlySortedBy(t, key)
    requires multiset(r) == multiset(t) && r != [] && t != []
    ensures r[0] == t[0]
  {
    assert r[0] in multiset(t) && t[0] in multiset(r);
    var i :| 0 <= i < |t| && t[i] == r[0];
    var m :| 0 <= m < |r| && r[m] == t[0];
    SortedPairwise(r, key);
    assert key(r[0]) <= key(t[0]);
  }

  lemma TailsPermutation<T>(r: seq<T>, t: seq<T>)
    requires multiset(r) == multiset(t) && r != [] && t != [] && r[0] == t[0]
    ensures multiset(r[1..]) == multiset(t[1..])
  {
    MultisetHead(r);
    MultisetHead(t);
    assert multiset(r[1..]) == multiset(r) - multiset{r[0]};
    assert multiset(t[1..]) == multiset(t) - multiset{t[0]};
  }
}
