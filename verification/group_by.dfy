/** The group-by pattern the source uses four times: a `Map` filled by one
    left-to-right `forEach`, where the first element with a new key creates the
    key's record (`if (!map.has(key)) map.set(key, init(x))`) and every element,
    the first included, then updates the record of its key
    (`const rec = map.get(key)!; ...`). `Array.from(map.values())` is the
    result, in key-insertion order.

    `GroupBy` models that loop; its contract characterises the result without
    the loop: the keys are the distinct keys in first-appearance order, and each
    key's record is the fold of the update over exactly the elements with that
    key, started from the record built from the first of them. */
module Grouping {
  import opened Seqs

  /** One `Map` entry: a key and the record accumulated for it. */
  datatype Entry<K, A> = Entry(key: K, acc: A)

  function Keys<K, A>(g: seq<Entry<K, A>>): (ks: seq<K>)
    ensures |ks| == |g|
    ensures forall i :: 0 <= i < |g| ==> ks[i] == g[i].key
  {
    seq(|g|, i requires 0 <= i < |g| => g[i].key)
  }

  /** `Array.from(map.values())`. */
  function Accs<K, A>(g: seq<Entry<K, A>>): (as_: seq<A>)
    ensures |as_| == |g|
    ensures forall i :: 0 <= i < |g| ==> as_[i] == g[i].acc
  {
    seq(|g|, i requires 0 <= i < |g| => g[i].acc)
  }

  /** A left-to-right fold: `s.reduce(step, a)`. */
  function FoldL<T, A>(step: (A, T) -> A, a: A, s: seq<T>): A {
    if s == [] then a else step(FoldL(step, a, Init(s)), Last(s))
  }

  /** An invariant of every update step holds of every fold. */
  lemma {:induction false} FoldInvariant<T, A>(step: (A, T) -> A, a: A, s: seq<T>, inv: A -> bool)
    requires inv(a)
    requires forall b, x :: inv(b) ==> inv(step(b, x))
    ensures inv(FoldL(step, a, s))
  {
    if s != [] {
      FoldInvariant(step, a, Init(s), inv);
    }
  }

  lemma FilterKeyAbsent<T(!new), K>(s: seq<T>, key: T -> K, k: K)
    requires k !in MapKey(s, key)
    ensures FilterKey(s, key, k) == []
  {
    FilterKeyMembers(s, key, k);
  }

  lemma FilterKeyPresent<T(!new), K>(s: seq<T>, key: T -> K, k: K)
    requires k in MapKey(s, key)
    ensures |FilterKey(s, key, k)| > 0
  {
    var i :| 0 <= i < |s| && MapKey(s, key)[i] == k;
    FilterKeyMembers(s, key, k);
    assert s[i] in FilterKey(s, key, k);
  }

  /** The record the source ends up holding for key `k`, stated without the
      loop: built from the first element with key `k`, then updated by every
      element with key `k` in order. */
  function Group<T(!new), K(==), A>(s: seq<T>, key: T -> K, init: T -> A, step: (A, T) -> A, k: K): A
    requires k in MapKey(s, key)
  {
    FilterKeyPresent(s, key, k);
    var f := FilterKey(s, key, k);
    FoldL(step, init(f[0]), f)
  }

  /** One iteration of the source's `forEach`. */
  function Upsert<T, K(==), A>(g: seq<Entry<K, A>>, x: T, key: T -> K, init: T -> A, step: (A, T) -> A): seq<Entry<K, A>> {
    var i := IndexOf(Keys(g), key(x));
    if i == |g| then g + [Entry(key(x), step(init(x), x))]
    else g[i := Entry(key(x), step(g[i].acc, x))]
  }

  /** Every entry of `g` is the grouped record of its key in `s`. */
  ghost predicate Characterised<T(!new), K(!new), A>(s: seq<T>, key: T -> K, init: T -> A, step: (A, T) -> A, g: seq<Entry<K, A>>) {
    && Keys(g) == Dedup(MapKey(s, key))
    && forall i :: 0 <= i < |g| ==> g[i].key in MapKey(s, key) && g[i].acc == Group(s, key, init, step, g[i].key)
  }

  /** The map after the whole `forEach`, in key-insertion order. */
  function GroupBy<T(!new), K(==,!new), A>(s: seq<T>, key: T -> K, init: T -> A, step: (A, T) -> A): (g: seq<Entry<K, A>>)
    ensures Characterised(s, key, init, step, g)
  {
    if s == [] then []
    else
      var g0 := GroupBy(Init(s), key, init, step);
      assert s == Init(s) + [Last(s)];
      UpsertKeeps(Init(s), Last(s), key, init, step, g0);
      Upsert(g0, Last(s), key, init, step)
  }

  /** One more iteration keeps the characterisation. */
  lemma UpsertKeeps<T(!new), K(!new), A>(p: seq<T>, x: T, key: T -> K, init: T -> A, step: (A, T) -> A, g: seq<Entry<K, A>>)
    requires Characterised(p, key, init, step, g)
    ensures Characterised(p + [x], key, init, step, Upsert(g, x, key, init, step))
  {
    var s := p + [x];
    var g' := Upsert(g, x, key, init, step);
    UpsertKeys(p, x, key, init, step, g);
    forall j | 0 <= j < |g'|
      ensures g'[j].key in MapKey(s, key) && g'[j].acc == Group(s, key, init, step, g'[j].key)
    {
      UpsertEntry(p, x, key, init, step, g, j);
    }
  }

  lemma UpsertKeys<T(!new), K(!new), A>(p: seq<T>, x: T, key: T -> K, init: T -> A, step: (A, T) -> A, g: seq<Entry<K, A>>)
    requires Keys(g) == Dedup(MapKey(p, key))
    ensures Keys(Upsert(g, x, key, init, step)) == Dedup(MapKey(p + [x], key))
  {
    MapKeySnoc(p, x, key);
    DedupSnoc(MapKey(p, key), key(x));
    KeysUpsert(g, x, key, init, step);
  }

  lemma MapKeySnoc<T, K>(p: seq<T>, x: T, key: T -> K)
    ensures MapKey(p + [x], key) == MapKey(p, key) + [key(x)]
  {
  }

  /** The source's `set` adds a key only when it is new. */
  lemma KeysUpsert<T, K, A>(g: seq<Entry<K, A>>, x: T, key: T -> K, init: T -> A, step: (A, T) -> A)
    ensures Keys(Upsert(g, x, key, init, step)) == if key(x) in Keys(g) then Keys(g) else Keys(g) + [key(x)]
  {
    var i := IndexOf(Keys(g), key(x));
    var g' := Upsert(g, x, key, init, step);
    if i == |g| {
      assert Keys(g') == Keys(g) + [key(x)];
    } else {
      assert Keys(g') == Keys(g);
    }
  }

  lemma FilterKeySnoc<T(!new), K>(p: seq<T>, x: T, key: T -> K, k: K)
    ensures FilterKey(p + [x], key, k) == FilterKey(p, key, k) + (if key(x) == k then [x] else [])
  {
    assert Init(p + [x]) == p && Last(p + [x]) == x;
  }

  /** Entry `j` after one more iteration: the hit key grows by `x`, a new key
      starts at `x`, every other key is untouched. */
  lemma UpsertEntry<T(!new), K(!new), A>(p: seq<T>, x: T, key: T -> K, init: T -> A, step: (A, T) -> A, g: seq<Entry<K, A>>, j: nat)
    requires Characterised(p, key, init, step, g)
    requires j < |Upsert(g, x, key, init, step)|
    ensures var e := Upsert(g, x, key, init, step)[j];
      e.key in MapKey(p + [x], key) && e.acc == Group(p + [x], key, init, step, e.key)
  {
    MapKeyInit(p + [x], key);
    assert Init(p + [x]) == p && Last(p + [x]) == x;
    var i := IndexOf(Keys(g), key(x));
    if j < |g| && g[j].key != key(x) {
      UpsertOther(p, x, key, init, step, g, j);
    } else if i == |g| {
      UpsertNew(p, x, key, init, step, g, j);
    } else {
      UpsertHit(p, x, key, init, step, g, j);
    }
  }

  lemma UpsertOther<T(!new), K(!new), A>(p: seq<T>, x: T, key: T -> K, init: T -> A, step: (A, T) -> A, g: seq<Entry<K, A>>, j: nat)
    requires Characterised(p, key, init, step, g)
    requires j < |g| && g[j].key != key(x)
    ensures var e := Upsert(g, x, key, init, step)[j];
      e.key in MapKey(p + [x], key) && e.acc == Group(p + [x], key, init, step, e.key)
  {
    var kj := g[j].key;
    var i := IndexOf(Keys(g), key(x));
    assert i < |g| ==> Keys(g)[i] == key(x);
    assert Upsert(g, x, key, init, step)[j] == g[j];
    MapKeyInit(p + [x], key);
    assert kj in MapKey(p, key);
    assert kj in MapKey(p + [x], key);
    FilterKeySnoc(p, x, key, kj);
    assert FilterKey(p + [x], key, kj) == FilterKey(p, key, kj);
    assert Group(p + [x], key, init, step, kj) == Group(p, key, init, step, kj);
  }

  lemma UpsertNew<T(!new), K(!new), A>(p: seq<T>, x: T, key: T -> K, init: T -> A, step: (A, T) -> A, g: seq<Entry<K, A>>, j: nat)
    requires Characterised(p, key, init, step, g)
    requires IndexOf(Keys(g), key(x)) == |g|
    requires j < |Upsert(g, x, key, init, step)|
    requires j < |g| ==> g[j].key == key(x)
    ensures var e := Upsert(g, x, key, init, step)[j];
      e.key in MapKey(p + [x], key) && e.acc == Group(p + [x], key, init, step, e.key)
  {
    var k := key(x);
    assert j == |g|;
    MapKeyInit(p + [x], key);
    FilterKeyAbsent(p, key, k);
    FilterKeySnoc(p, x, key, k);
    var f := FilterKey(p + [x], key, k);
    assert f == [x];
    assert Init(f) == [] && Last(f) == x;
    assert FoldL(step, init(x), f) == step(FoldL(step, init(x), []), x);
    assert Group(p + [x], key, init, step, k) == FoldL(step, init(f[0]), f);
  }

  lemma UpsertHit<T(!new), K(!new), A>(p: seq<T>, x: T, key: T -> K, init: T -> A, step: (A, T) -> A, g: seq<Entry<K, A>>, j: nat)
    requires Characterised(p, key, init, step, g)
    requires IndexOf(Keys(g), key(x)) < |g|
    requires j < |g| && g[j].key == key(x)
    ensures var e := Upsert(g, x, key, init, step)[j];
      e.key in MapKey(p + [x], key) && e.acc == Group(p + [x], key, init, step, e.key)
  {
    var k := key(x);
    var i := IndexOf(Keys(g), k);
    assert j == i by {
      assert Keys(g)[j] == g[j].key;
      assert NoDup(Keys(g));
    }
    assert k in MapKey(p + [x], key) by {
      MapKeyInit(p + [x], key);
    }
    var f0 := FilterKey(p, key, k);
    var f := FilterKey(p + [x], key, k);
    assert f == f0 + [x] && f0 != [] by {
      FilterKeyPresent(p, key, k);
      FilterKeySnoc(p, x, key, k);
    }
    assert f[0] == f0[0];
    assert Init(f) == f0 && Last(f) == x;
  }

  /** One iteration raises the sum of an additive quantity by the element's amount. */
  lemma UpsertSum<T(!new), K, A(!new)>(g: seq<Entry<K, A>>, x: T, key: T -> K, init: T -> A, step: (A, T) -> A, m: A -> int, w: T -> int)
    requires forall y :: m(init(y)) == 0
    requires forall a, y {:trigger step(a, y)} :: m(step(a, y)) == m(a) + w(y)
    ensures SumOf(Accs(Upsert(g, x, key, init, step)), m) == SumOf(Accs(g), m) + w(x)
  {
    var i := IndexOf(Keys(g), key(x));
    if i == |g| {
      var y := step(init(x), x);
      assert Accs(Upsert(g, x, key, init, step)) == Accs(g) + [y];
      SumOfAppend(Accs(g), [y], m);
      assert Init([y]) == [];
    } else {
      assert Accs(Upsert(g, x, key, init, step)) == Accs(g)[i := step(g[i].acc, x)];
      SumOfUpdate(Accs(g), i, step(g[i].acc, x), m);
    }
  }

  lemma UpsertSumReal<T(!new), K, A(!new)>(g: seq<Entry<K, A>>, x: T, key: T -> K, init: T -> A, step: (A, T) -> A, m: A -> real, w: T -> real)
    requires forall y :: m(init(y)) == 0.0
    requires forall a, y {:trigger step(a, y)} :: m(step(a, y)) == m(a) + w(y)
    ensures SumReal(Accs(Upsert(g, x, key, init, step)), m) == SumReal(Accs(g), m) + w(x)
  {
    var i := IndexOf(Keys(g), key(x));
    if i == |g| {
      var y := step(init(x), x);
      assert Accs(Upsert(g, x, key, init, step)) == Accs(g) + [y];
      SumRealAppend(Accs(g), [y], m);
      assert Init([y]) == [];
    } else {
      assert Accs(Upsert(g, x, key, init, step)) == Accs(g)[i := step(g[i].acc, x)];
      SumRealUpdate(Accs(g), i, step(g[i].acc, x), m);
    }
  }

  /** A quantity that each update raises by a per-element amount, starting
      from zero, sums over all records to its total over the input. This is the
      partition property: every element lands in exactly one record. */
  lemma {:induction false} GroupSum<T(!new), K(!new), A(!new)>(s: seq<T>, key: T -> K, init: T -> A, step: (A, T) -> A, m: A -> int, w: T -> int)
    requires forall y :: m(init(y)) == 0
    requires forall a, y {:trigger step(a, y)} :: m(step(a, y)) == m(a) + w(y)
    ensures SumOf(Accs(GroupBy(s, key, init, step)), m) == SumOf(s, w)
  {
    if s != [] {
      GroupSum(Init(s), key, init, step, m, w);
      UpsertSum(GroupBy(Init(s), key, init, step), Last(s), key, init, step, m, w);
    }
  }

  /** `GroupSum` for exact (real) quantities such as watch time. */
  lemma {:induction false} GroupSumReal<T(!new), K(!new), A(!new)>(s: seq<T>, key: T -> K, init: T -> A, step: (A, T) -> A, m: A -> real, w: T -> real)
    requires forall y :: m(init(y)) == 0.0
    requires forall a, y {:trigger step(a, y)} :: m(step(a, y)) == m(a) + w(y)
    ensures SumReal(Accs(GroupBy(s, key, init, step)), m) == SumReal(s, w)
  {
    if s != [] {
      GroupSumReal(Init(s), key, init, step, m, w);
      UpsertSumReal(GroupBy(Init(s), key, init, step), Last(s), key, init, step, m, w);
    }
  }
}
