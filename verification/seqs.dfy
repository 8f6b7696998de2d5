/** Sequence vocabulary shared by the whole model: an Option type for the
    source's `undefined`/`null`, first-appearance de-duplication (the iteration
    order of a JavaScript `Set` or `Map`), per-key filtering and sums. Sequences
    are taken apart at their LAST element throughout, because every reduction
    in the source is a left-to-right `forEach`/`reduce`. */
module Seqs {

  /** A JavaScript value that may be `undefined` (or `null`). */
  datatype Option<+T> = None | Some(value: T) {
    /** `x ?? d`, and `x || d` where the value can never be falsy. */
    function GetOr(default: T): T {
      if Some? then value else default
    }
  }

  function Last<T>(s: seq<T>): T
    requires |s| > 0
  {
    s[|s| - 1]
  }

  function Init<T>(s: seq<T>): seq<T>
    requires |s| > 0
  {
    s[..|s| - 1]
  }

  function Min(a: int, b: int): int {
    if a <= b then a else b
  }

  /** No element occurs twice. */
  ghost predicate NoDup<T>(s: seq<T>) {
    forall i, j :: 0 <= i < j < |s| ==> s[i] != s[j]
  }

  /** Position of the first occurrence of `x`, `|s|` when there is none
      (JavaScript's `findIndex`, with -1 replaced by `|s|`). */
  function IndexOf<T(==)>(s: seq<T>, x: T): (i: nat)
    ensures i <= |s|
    ensures i < |s| ==> s[i] == x
    ensures forall j :: 0 <= j < i ==> s[j] != x
    ensures i == |s| <==> x !in s
  {
    if s == [] then 0
    else if s[0] == x then 0
    else 1 + IndexOf(s[1..], x)
  }

  lemma IndexOfAppend<T>(s: seq<T>, y: T, x: T)
    requires x in s
    ensures IndexOf(s + [y], x) == IndexOf(s, x)
  {
    var i := IndexOf(s, x);
    var t := s + [y];
    assert t[i] == x;
    assert forall j :: 0 <= j < i ==> t[j] == s[j];
    IndexOfUnique(t, x, i);
  }

  /** The first occurrence is determined by its two defining facts. */
  lemma IndexOfUnique<T>(s: seq<T>, x: T, i: nat)
    requires i < |s| && s[i] == x
    requires forall j :: 0 <= j < i ==> s[j] != x
    ensures IndexOf(s, x) == i
  {
    var k := IndexOf(s, x);
    assert k <= i;
  }

  /** The distinct elements of `s` in order of first appearance: what
      `Array.from(new Set(s))` yields, and the key order of a `Map` filled by
      a left-to-right pass over `s`. The last ensures pins the order down. */
  function Dedup<T(==,!new)>(s: seq<T>): (r: seq<T>)
    ensures NoDup(r)
    ensures forall x :: x in r <==> x in s
    ensures |r| <= |s|
    ensures forall i, j :: 0 <= i < j < |r| ==> IndexOf(s, r[i]) < IndexOf(s, r[j])
  {
    if s == [] then []
    else
      var p := Init(s);
      var d := Dedup(p);
      assert s == p + [Last(s)];
      DedupOrderExtends(p, Last(s), d);
      if Last(s) in d then d else d + [Last(s)]
  }

  lemma DedupOrderExtends<T>(p: seq<T>, y: T, d: seq<T>)
    requires forall x :: x in d ==> x in p
    ensures forall i :: 0 <= i < |d| ==> IndexOf(p + [y], d[i]) == IndexOf(p, d[i])
    ensures y !in p ==> IndexOf(p + [y], y) == |p|
  {
    forall i | 0 <= i < |d|
      ensures IndexOf(p + [y], d[i]) == IndexOf(p, d[i])
    {
      IndexOfAppend(p, y, d[i]);
    }
    if y !in p {
      var t := p + [y];
      assert t[|p|] == y;
      IndexOfUnique(t, y, |p|);
    }
  }

  /** The elements whose key is `k`, in their original order (the source's
      `filter(i => i.field === k)`). */
  function FilterKey<T, K(==)>(s: seq<T>, key: T -> K, k: K): (r: seq<T>)
    ensures |r| <= |s|
  {
    if s == [] then []
    else FilterKey(Init(s), key, k) + (if key(Last(s)) == k then [Last(s)] else [])
  }

  /** `FilterKey` keeps exactly the elements with key `k`. */
  lemma {:induction false} FilterKeyMembers<T, K>(s: seq<T>, key: T -> K, k: K)
    ensures forall i :: 0 <= i < |FilterKey(s, key, k)| ==> FilterKey(s, key, k)[i] in s && key(FilterKey(s, key, k)[i]) == k
    ensures forall i :: 0 <= i < |s| && key(s[i]) == k ==> s[i] in FilterKey(s, key, k)
  {
    if s != [] {
      FilterKeyMembers(Init(s), key, k);
      var p := Init(s);
      assert s == p + [Last(s)];
      forall i | 0 <= i < |s| && key(s[i]) == k
        ensures s[i] in FilterKey(s, key, k)
      {
        if i < |p| {
          assert p[i] == s[i];
        }
      }
    }
  }

  /** One kept element: it comes from `s` and has key `k`. */
  lemma FilterKeyElem<T, K>(s: seq<T>, key: T -> K, k: K, j: nat)
    requires j < |FilterKey(s, key, k)|
    ensures FilterKey(s, key, k)[j] in s && key(FilterKey(s, key, k)[j]) == k
  {
    FilterKeyMembers(s, key, k);
  }

  lemma FilterKeyAppend<T, K>(a: seq<T>, b: seq<T>, key: T -> K, k: K)
    ensures FilterKey(a + b, key, k) == FilterKey(a, key, k) + FilterKey(b, key, k)
    decreases |b|
  {
    if b == [] {
      assert a + b == a;
    } else {
      assert Init(a + b) == a + Init(b);
      FilterKeyAppend(a, Init(b), key, k);
    }
  }

  /** The keys of `s`, element by element (the source's `s.map(x => x.field)`). */
  function MapKey<T, K>(s: seq<T>, key: T -> K): (r: seq<K>)
    ensures |r| == |s|
    ensures forall i :: 0 <= i < |s| ==> r[i] == key(s[i])
  {
    seq(|s|, i requires 0 <= i < |s| => key(s[i]))
  }

  lemma MapKeyInit<T, K>(s: seq<T>, key: T -> K)
    requires |s| > 0
    ensures MapKey(Init(s), key) == Init(MapKey(s, key))
    ensures MapKey(s, key) == MapKey(Init(s), key) + [key(Last(s))]
  {
  }

  /** The sum of `f` over `s`, in integers. */
  function SumOf<T>(s: seq<T>, f: T -> int): int {
    if s == [] then 0 else SumOf(Init(s), f) + f(Last(s))
  }

  /** The sum of `f` over `s`, in exact (real) numbers. */
  function SumReal<T>(s: seq<T>, f: T -> real): real {
    if s == [] then 0.0 else SumReal(Init(s), f) + f(Last(s))
  }

  /** The weight that makes a sum count its elements. */
  function One<T>(x: T): int { 1 }

  lemma {:induction false} SumOfOne<T>(s: seq<T>)
    ensures SumOf(s, One) == |s|
  {
    if s != [] {
      SumOfOne(Init(s));
    }
  }

  lemma SumOfAppend<T>(a: seq<T>, b: seq<T>, f: T -> int)
    ensures SumOf(a + b, f) == SumOf(a, f) + SumOf(b, f)
    decreases |b|
  {
    if b == [] {
      assert a + b == a;
    } else {
      assert Init(a + b) == a + Init(b);
      SumOfAppend(a, Init(b), f);
    }
  }

  lemma SumRealAppend<T>(a: seq<T>, b: seq<T>, f: T -> real)
    ensures SumReal(a + b, f) == SumReal(a, f) + SumReal(b, f)
    decreases |b|
  {
    if b == [] {
      assert a + b == a;
    } else {
      assert Init(a + b) == a + Init(b);
      SumRealAppend(a, Init(b), f);
    }
  }

  /** Replacing one element changes an integer sum by exactly the difference. */
  lemma SumOfUpdate<T>(s: seq<T>, i: nat, x: T, f: T -> int)
    requires i < |s|
    ensures SumOf(s[i := x], f) == SumOf(s, f) - f(s[i]) + f(x)
  {
    assert s == s[..i] + [s[i]] + s[i + 1..];
    assert s[i := x] == s[..i] + [x] + s[i + 1..];
    SumOfAppend(s[..i] + [s[i]], s[i + 1..], f);
    SumOfAppend(s[..i] + [x], s[i + 1..], f);
    SumOfAppend(s[..i], [s[i]], f);
    SumOfAppend(s[..i], [x], f);
  }

  lemma SumRealUpdate<T>(s: seq<T>, i: nat, x: T, f: T -> real)
    requires i < |s|
    ensures SumReal(s[i := x], f) == SumReal(s, f) - f(s[i]) + f(x)
  {
    assert s == s[..i] + [s[i]] + s[i + 1..];
    assert s[i := x] == s[..i] + [x] + s[i + 1..];
    SumRealAppend(s[..i] + [s[i]], s[i + 1..], f);
    SumRealAppend(s[..i] + [x], s[i + 1..], f);
    SumRealAppend(s[..i], [s[i]], f);
    SumRealAppend(s[..i], [x], f);
  }

  /** `a` is `b` with some elements left out: the order-keeping half of
      "exactly the matching elements, in order". */
  ghost predicate IsSubseq<T>(a: seq<T>, b: seq<T>)
    decreases |b|
  {
    if b == [] then a == []
    else IsSubseq(a, Init(b)) || (a != [] && Last(a) == Last(b) && IsSubseq(Init(a), Init(b)))
  }

  lemma {:induction false} FilterKeySubseq<T, K>(s: seq<T>, key: T -> K, k: K)
    ensures IsSubseq(FilterKey(s, key, k), s)
  {
    if s != [] {
      FilterKeySubseq(Init(s), key, k);
      var f := FilterKey(s, key, k);
      if key(Last(s)) == k {
        assert Init(f) == FilterKey(Init(s), key, k) && Last(f) == Last(s);
      } else {
        assert f == FilterKey(Init(s), key, k);
      }
    }
  }

  /** The counting half: every element of `s` with key `k` is kept as often as
      it occurs, and nothing else is kept. */
  lemma {:induction false} FilterKeyCount<T, K>(s: seq<T>, key: T -> K, k: K, x: T)
    ensures multiset(FilterKey(s, key, k))[x] == if key(x) == k then multiset(s)[x] else 0
  {
    if s != [] {
      FilterKeyCount(Init(s), key, k, x);
      assert s == Init(s) + [Last(s)];
    }
  }

  /** Counting the elements with key `k` by summing an indicator. */
  lemma {:induction false} SumIndicator<T, K>(s: seq<T>, key: T -> K, k: K, w: T -> int)
    requires forall x :: w(x) == if key(x) == k then 1 else 0
    ensures SumOf(s, w) == |FilterKey(s, key, k)|
  {
    if s != [] {
      SumIndicator(Init(s), key, k, w);
    }
  }

  /** Summing over the elements with key `k` is summing over all of them
      with the others weighted 0. */
  lemma {:induction false} SumRealRestrict<T, K>(s: seq<T>, key: T -> K, k: K, w: T -> real, v: T -> real)
    requires forall x :: v(x) == if key(x) == k then w(x) else 0.0
    ensures SumReal(FilterKey(s, key, k), w) == SumReal(s, v)
  {
    if s != [] {
      SumRealRestrict(Init(s), key, k, w, v);
      SumRealAppend(FilterKey(Init(s), key, k), if key(Last(s)) == k then [Last(s)] else [], w);
    }
  }

  /** The number of elements with key `k`, as a multiset count of keys. */
  lemma {:induction false} FilterKeyLength<T, K>(s: seq<T>, key: T -> K, k: K)
    ensures |FilterKey(s, key, k)| == multiset(MapKey(s, key))[k]
  {
    if s != [] {
      FilterKeyLength(Init(s), key, k);
      MapKeyInit(s, key);
    }
  }

  /** A duplicate-free sequence has as many elements as its set. */
  lemma {:induction false} NoDupCard<T>(r: seq<T>)
    requires NoDup(r)
    ensures |set x | x in r| == |r|
  {
    if r != [] {
      var p := Init(r);
      assert NoDup(p);
      NoDupCard(p);
      assert r == p + [Last(r)];
      assert (set x | x in r) == (set x | x in p) + {Last(r)};
      assert Last(r) !in p;
    }
  }

  /** `new Set(s).size`: the number of distinct elements. */
  lemma DedupCard<T(!new)>(s: seq<T>)
    ensures |Dedup(s)| == |set x | x in s|
  {
    NoDupCard(Dedup(s));
    assert (set x | x in Dedup(s)) == (set x | x in s);
  }

  /** `s` without its element at `j`: `s.splice(j, 1)` on a copy. */
  function RemoveAt<T>(s: seq<T>, j: nat): (r: seq<T>)
    requires j < |s|
    ensures |r| == |s| - 1
    ensures forall i :: 0 <= i < |r| ==> r[i] == if i < j then s[i] else s[i + 1]
  {
    s[..j] + s[j + 1..]
  }

  /** `s` with `x` placed at `j`: `s.splice(j, 0, x)` on a copy. */
  function InsertAt<T>(s: seq<T>, j: nat, x: T): (r: seq<T>)
    requires j <= |s|
    ensures |r| == |s| + 1 && r[j] == x
    ensures forall i :: 0 <= i < |r| && i != j ==> r[i] == if i < j then s[i] else s[i - 1]
  {
    s[..j] + [x] + s[j..]
  }

  /** `InsertAt` undoes `RemoveAt`, and the other way round. */
  lemma RemoveInsertInverse<T>(s: seq<T>, j: nat, x: T)
    requires j <= |s|
    ensures RemoveAt(InsertAt(s, j, x), j) == s
  {
  }

  lemma InsertRemoveInverse<T>(s: seq<T>, j: nat)
    requires j < |s|
    ensures InsertAt(RemoveAt(s, j), j, s[j]) == s
  {
  }

  lemma RemoveAtMultiset<T>(s: seq<T>, j: nat)
    requires j < |s|
    ensures multiset(RemoveAt(s, j)) == multiset(s) - multiset{s[j]}
  {
    assert s == s[..j] + [s[j]] + s[j + 1..];
  }

  lemma InsertAtMultiset<T>(s: seq<T>, j: nat, x: T)
    requires j <= |s|
    ensures multiset(InsertAt(s, j, x)) == multiset(s) + multiset{x}
  {
    assert s == s[..j] + s[j..];
  }

  lemma MultisetInit<T>(s: seq<T>)
    requires s != []
    ensures multiset(Init(s)) == multiset(s) - multiset{Last(s)}
  {
    assert s == Init(s) + [Last(s)];
  }

  lemma MapKeyRemoveAt<T, K>(t: seq<T>, j: nat, f: T -> K)
    requires j < |t|
    ensures MapKey(RemoveAt(t, j), f) == RemoveAt(MapKey(t, f), j)
  {
  }

  /** Applying a function to the elements of two permutations of each other
      gives permutations of each other. */
  lemma {:induction false} MapKeyPermutation<T, K>(s: seq<T>, t: seq<T>, f: T -> K)
    requires multiset(s) == multiset(t)
    ensures multiset(MapKey(s, f)) == multiset(MapKey(t, f))
    decreases |s|
  {
    if s != [] {
      var x := Last(s);
      assert x in multiset(t);
      var j :| 0 <= j < |t| && t[j] == x;
      RemoveAtMultiset(t, j);
      MultisetInit(s);
      MapKeyPermutation(Init(s), RemoveAt(t, j), f);
      MapKeyInit(s, f);
      MapKeyRemoveAt(t, j, f);
      RemoveAtMultiset(MapKey(t, f), j);
      var m := multiset(MapKey(t, f));
      assert f(x) in m by {
        assert MapKey(t, f)[j] == f(x);
      }
      assert m == (m - multiset{f(x)}) + multiset{f(x)};
    }
  }

  /** A sum over the images of `s` is a sum over `s`. */
  lemma {:induction false} SumOfMapKey<T, K>(s: seq<T>, f: T -> K, m: K -> int, w: T -> int)
    requires forall x :: m(f(x)) == w(x)
    ensures SumOf(MapKey(s, f), m) == SumOf(s, w)
  {
    if s != [] {
      SumOfMapKey(Init(s), f, m, w);
      MapKeyInit(s, f);
    }
  }

  lemma {:induction false} SumRealMapKey<T, K>(s: seq<T>, f: T -> K, m: K -> real, w: T -> real)
    requires forall x :: m(f(x)) == w(x)
    ensures SumReal(MapKey(s, f), m) == SumReal(s, w)
  {
    if s != [] {
      SumRealMapKey(Init(s), f, m, w);
      MapKeyInit(s, f);
    }
  }

  /** `n > 0 ? total / n : 0`: the share of `total` each of `n` parts gets. */
  function Average(total: real, n: nat): (a: real)
    ensures n > 0 ==> a * n as real == total
    ensures n == 0 ==> a == 0.0
  {
    if n > 0 then DivMul(total, n as real); total / n as real else 0.0
  }

  lemma DivMul(t: real, v: real)
    requires v != 0.0
    ensures (t / v) * v == t
  {
  }

  /** In a sequence without repeats every element occurs exactly once. */
  lemma {:induction false} NoDupCount<T>(s: seq<T>, x: T)
    requires NoDup(s)
    ensures multiset(s)[x] == if x in s then 1 else 0
  {
    if s != [] {
      assert NoDup(Init(s));
      NoDupCount(Init(s), x);
      assert s == Init(s) + [Last(s)];
      if x == Last(s) {
        assert x !in Init(s);
      }
    }
  }

  /** An element at two positions occurs at least twice. */
  lemma DupCount<T>(s: seq<T>, i: nat, j: nat)
    requires i < j < |s| && s[i] == s[j]
    ensures multiset(s)[s[i]] >= 2
  {
    assert s == s[..j] + [s[j]] + s[j + 1..];
    assert s[i] in s[..j];
  }

  /** A reordering of a sequence without repeats has none either. */
  lemma PermutationNoDup<T>(a: seq<T>, b: seq<T>)
    requires multiset(a) == multiset(b) && NoDup(b)
    ensures NoDup(a)
  {
    forall i, j | 0 <= i < j < |a|
      ensures a[i] != a[j]
    {
      if a[i] == a[j] {
        DupCount(a, i, j);
        NoDupCount(b, a[i]);
      }
    }
  }

  /** Distinct images mean distinct elements. */
  lemma NoDupMapKey<T, K>(s: seq<T>, f: T -> K)
    requires NoDup(MapKey(s, f))
    ensures NoDup(s)
  {
    forall i, j | 0 <= i < j < |s|
      ensures s[i] != s[j]
    {
      assert MapKey(s, f)[i] != MapKey(s, f)[j];
    }
  }

  /** Sums are monotone in the summand. */
  lemma {:induction false} SumOfMonotone<T>(s: seq<T>, a: T -> int, b: T -> int)
    requires forall i :: 0 <= i < |s| ==> a(s[i]) <= b(s[i])
    ensures SumOf(s, a) <= SumOf(s, b)
  {
    if s != [] {
      SumOfMonotone(Init(s), a, b);
    }
  }

  /** Two sequences without repeats that have the same members are
      reorderings of each other. */
  lemma NoDupSameMembers<T>(a: seq<T>, b: seq<T>)
    requires NoDup(a) && NoDup(b)
    requires forall x :: x in a <==> x in b
    ensures multiset(a) == multiset(b)
  {
    forall x
      ensures multiset(a)[x] == multiset(b)[x]
    {
      NoDupCount(a, x);
      NoDupCount(b, x);
    }
  }

  /** `Dedup` is the push-if-absent loop. */
  lemma DedupSnoc<T(!new)>(s: seq<T>, y: T)
    ensures Dedup(s + [y]) == if y in Dedup(s) then Dedup(s) else Dedup(s) + [y]
  {
    assert Init(s + [y]) == s && Last(s + [y]) == y;
  }
}
