/**
 * The list built-ins the pages and scripts rely on: `Array.prototype.filter`,
 * `Array.from(new Set(xs))`, a JavaScript object used as an ordered counter,
 * and the stable `Array.prototype.sort`.
 */
module Collections {

  /** `a` can be obtained from `b` by deleting elements; order is kept. */
  ghost predicate IsSubsequence<T(!new)>(a: seq<T>, b: seq<T>)
    decreases |b|
  {
    a == [] || (b != [] && ((a[0] == b[0] && IsSubsequence(a[1..], b[1..])) || IsSubsequence(a, b[1..])))
  }

  /** `xs.filter(p)`: the elements satisfying `p`, in their original order, with their multiplicities. */
  function Filter<T(==,!new)>(xs: seq<T>, p: T -> bool): (r: seq<T>)
    ensures |r| <= |xs|
    ensures forall x :: x in r <==> x in xs && p(x)
  {
    if xs == [] then []
    else
      var rest := Filter(xs[1..], p);
      assert xs == [xs[0]] + xs[1..];
      if p(xs[0]) then [xs[0]] + rest else rest
  }

  /** The filtered list keeps every element satisfying `p` with its multiplicity, and drops the others. */
  lemma {:induction false} FilterCounts<T(!new)>(xs: seq<T>, p: T -> bool)
    ensures forall x :: multiset(Filter(xs, p))[x] == if p(x) then multiset(xs)[x] else 0
  {
    if xs != [] {
      FilterCounts(xs[1..], p);
      assert xs == [xs[0]] + xs[1..];
      assert multiset(xs) == multiset{xs[0]} + multiset(xs[1..]);
    }
  }

  /** Filtering reorders nothing. */
  lemma {:induction false} FilterSubsequence<T(!new)>(xs: seq<T>, p: T -> bool)
    ensures IsSubsequence(Filter(xs, p), xs)
  {
    if xs != [] {
      FilterSubsequence(xs[1..], p);
    }
  }

  /** Filtering with a predicate that holds of no element gives the empty list. */
  lemma {:induction false} FilterNone<T(!new)>(xs: seq<T>, p: T -> bool)
    requires forall x :: x in xs ==> !p(x)
    ensures Filter(xs, p) == []
  {
    if xs != [] {
      FilterNone(xs[1..], p);
    }
  }

  /** Filtering with a predicate that holds of every element keeps the list. */
  lemma {:induction false} FilterAll<T(!new)>(xs: seq<T>, p: T -> bool)
    requires forall x :: x in xs ==> p(x)
    ensures Filter(xs, p) == xs
  {
    if xs != [] {
      FilterAll(xs[1..], p);
    }
  }

  /** Filtering distributes over concatenation. */
  lemma {:induction false} FilterAppend<T(!new)>(xs: seq<T>, ys: seq<T>, p: T -> bool)
    ensures Filter(xs + ys, p) == Filter(xs, p) + Filter(ys, p)
  {
    if xs == [] {
      assert xs + ys == ys;
    } else {
      assert (xs + ys)[1..] == xs[1..] + ys;
      FilterAppend(xs[1..], ys, p);
    }
  }

  /** Filtering a list with one more element in front. */
  lemma FilterCons<T(!new)>(x: T, xs: seq<T>, p: T -> bool)
    ensures Filter([x] + xs, p) == if p(x) then [x] + Filter(xs, p) else Filter(xs, p)
  {
    assert ([x] + xs)[1..] == xs;
  }

  /** Filtering a list extended by one element. */
  lemma FilterSnoc<T(!new)>(xs: seq<T>, x: T, p: T -> bool)
    ensures Filter(xs + [x], p) == if p(x) then Filter(xs, p) + [x] else Filter(xs, p)
  {
    FilterAppend(xs, [x], p);
    assert [x][1..] == [];
  }

  /** `xs.map(f)`. */
  function Map<A, B>(xs: seq<A>, f: A -> B): (ys: seq<B>)
    ensures |ys| == |xs|
    ensures forall i :: 0 <= i < |xs| ==> ys[i] == f(xs[i])
  {
    seq(|xs|, i requires 0 <= i < |xs| => f(xs[i]))
  }

  /** Mapping the first `i + 1` elements: the first `i` mapped, then element `i`. */
  lemma MapSnoc<A, B>(xs: seq<A>, f: A -> B, i: nat)
    requires i < |xs|
    ensures Map(xs[..i + 1], f) == Map(xs[..i], f) + [f(xs[i])]
  {
    var a := Map(xs[..i + 1], f);
    var b := Map(xs[..i], f) + [f(xs[i])];
    forall j | 0 <= j < |a|
      ensures a[j] == b[j]
    {
      assert xs[..i + 1][j] == xs[j];
      if j < i {
        assert xs[..i][j] == xs[j];
      }
    }
  }

  /** Two predicates that agree on the elements of `xs` filter it alike. */
  lemma {:induction false} FilterCongruent<T(!new)>(xs: seq<T>, p: T -> bool, q: T -> bool)
    requires forall x :: x in xs ==> p(x) == q(x)
    ensures Filter(xs, p) == Filter(xs, q)
  {
    if xs != [] {
      FilterCongruent(xs[1..], p, q);
    }
  }

  /** Filtering twice is filtering once by the conjunction. */
  lemma {:induction false} FilterFilter<T(!new)>(xs: seq<T>, p: T -> bool, q: T -> bool, both: T -> bool)
    requires forall x :: x in xs ==> both(x) == (p(x) && q(x))
    ensures Filter(Filter(xs, p), q) == Filter(xs, both)
  {
    if xs != [] {
      FilterFilter(xs[1..], p, q, both);
    }
  }

  /** Index of the first occurrence of `x` in `xs`. */
  function FirstIndex<T(==,!new)>(xs: seq<T>, x: T): (k: nat)
    requires x in xs
    ensures k < |xs| && xs[k] == x && x !in xs[..k]
  {
    if xs[0] == x then 0
    else
      assert x in xs[1..];
      var k := 1 + FirstIndex(xs[1..], x);
      assert xs[..k] == [xs[0]] + xs[1..][..k - 1];
      k
  }

  /** A first occurrence in a prefix is a first occurrence in the whole list. */
  lemma FirstIndexPrefix<T(!new)>(xs: seq<T>, n: nat, x: T)
    requires n <= |xs| && x in xs[..n]
    ensures x in xs && FirstIndex(xs, x) == FirstIndex(xs[..n], x)
  {
    var k := FirstIndex(xs[..n], x);
    assert xs[..n][..k] == xs[..k];
    assert xs[k] == x;
  }

  /** `Array.from(new Set(xs))`: each element once, in first-occurrence order. */
  function Distinct<T(==,!new)>(xs: seq<T>): (r: seq<T>)
    ensures forall x :: x in r <==> x in xs
    ensures forall i, j :: 0 <= i < j < |r| ==> r[i] != r[j]
    ensures |r| <= |xs|
  {
    if xs == [] then []
    else
      var init := xs[..|xs| - 1];
      var d := Distinct(init);
      assert xs == init + [xs[|xs| - 1]];
      if xs[|xs| - 1] in d then d else d + [xs[|xs| - 1]]
  }

  /** The elements of `Distinct(xs)` appear in the order of their first occurrences in `xs`. */
  lemma {:induction false} DistinctOrder<T(!new)>(xs: seq<T>, i: nat, j: nat)
    requires i < j < |Distinct(xs)|
    ensures Distinct(xs)[i] in xs && Distinct(xs)[j] in xs
    ensures FirstIndex(xs, Distinct(xs)[i]) < FirstIndex(xs, Distinct(xs)[j])
  {
    var n := |xs| - 1;
    var init := xs[..n];
    var d := Distinct(init);
    var r := Distinct(xs);
    assert r[i] in xs && r[j] in xs;
    if j < |d| {
      DistinctOrder(init, i, j);
      FirstIndexPrefix(xs, n, r[i]);
      FirstIndexPrefix(xs, n, r[j]);
    } else {
      // r[j] is the last element of xs, seen for the first time at position n.
      assert r[j] == xs[n] && xs[n] !in init;
      assert xs[..n] == init;
      assert FirstIndex(xs, r[j]) == n;
      assert r[i] in init;
      FirstIndexPrefix(xs, n, r[i]);
    }
  }

  /** `DistinctOrder` for the distinct elements listed behind a head element. */
  lemma ConsDistinctOrder<T(!new)>(h: T, xs: seq<T>, i: nat, j: nat)
    requires 1 <= i < j < 1 + |Distinct(xs)|
    ensures var cs := [h] + Distinct(xs);
      cs[i] in xs && cs[j] in xs && FirstIndex(xs, cs[i]) < FirstIndex(xs, cs[j])
  {
    var d := Distinct(xs);
    var cs := [h] + d;
    assert cs[i] == d[i - 1] && cs[j] == d[j - 1];
    DistinctOrderOf(xs, cs[i], cs[j], i - 1, j - 1);
  }

  /** `DistinctOrder` for two named elements. */
  lemma DistinctOrderOf<T(!new)>(xs: seq<T>, a: T, b: T, i: nat, j: nat)
    requires i < j < |Distinct(xs)| && Distinct(xs)[i] == a && Distinct(xs)[j] == b
    ensures a in xs && b in xs && FirstIndex(xs, a) < FirstIndex(xs, b)
  {
    DistinctOrder(xs, i, j);
  }

  /** The entry of the tally that counts `s`, an element of `xs`. */
  lemma TallyEntry<T(!new)>(xs: seq<T>, s: T) returns (l: nat)
    requires s in xs
    ensures l < |Tally(xs)| && l < |Distinct(xs)|
    ensures Tally(xs)[l].0 == s && Distinct(xs)[l] == s && Tally(xs)[l].1 == multiset(xs)[s]
  {
    TallyCounts(xs);
    var d := Distinct(xs);
    assert s in d;
    l :| 0 <= l < |d| && d[l] == s;
    assert Keys(Tally(xs))[l] == s;
  }

  /**
   * A JavaScript object used as a counter: keys in insertion order, each with
   * its count.
   */
  type Counter<T> = seq<(T, nat)>

  /** Position of key `x` in a list of key/value entries, or `|c|` when absent. */
  function KeyIndex<K(==), V>(c: seq<(K, V)>, x: K): (k: nat)
    ensures k <= |c|
    ensures k < |c| ==> c[k].0 == x
    ensures forall j :: 0 <= j < k ==> c[j].0 != x
  {
    if c == [] then 0 else if c[0].0 == x then 0 else 1 + KeyIndex(c[1..], x)
  }

  /**
   * `counts[x] = (counts[x] || 0) + 1`: an existing key keeps its position
   * and is incremented, a new key is appended with count 1.
   */
  function Bump<T(==)>(c: Counter<T>, x: T): (r: Counter<T>)
    ensures KeyIndex(c, x) < |c| ==> r == c[KeyIndex(c, x) := (x, c[KeyIndex(c, x)].1 + 1)]
    ensures KeyIndex(c, x) == |c| ==> r == c + [(x, 1)]
  {
    var k := KeyIndex(c, x);
    if k < |c| then c[k := (x, c[k].1 + 1)] else c + [(x, 1)]
  }

  /** The key sequence of a list of key/value entries. */
  function Keys<K, V>(c: seq<(K, V)>): (ks: seq<K>)
    ensures |ks| == |c|
    ensures forall i :: 0 <= i < |c| ==> ks[i] == c[i].0
  {
    seq(|c|, i requires 0 <= i < |c| => c[i].0)
  }

  /** The keys of two entry lists, one after the other. */
  lemma KeysAppend<K, V>(a: seq<(K, V)>, b: seq<(K, V)>)
    ensures Keys(a + b) == Keys(a) + Keys(b)
  {
  }

  /** The counter that counting the elements of `xs` in order builds from an empty object. */
  function Tally<T(==)>(xs: seq<T>): Counter<T>
  {
    if xs == [] then [] else Bump(Tally(xs[..|xs| - 1]), xs[|xs| - 1])
  }

  /** Counting one more element of `xs` bumps that element's entry. */
  lemma TallySnoc<T>(xs: seq<T>, i: nat)
    requires i < |xs|
    ensures Tally(xs[..i + 1]) == Bump(Tally(xs[..i]), xs[i])
  {
    assert xs[..i + 1][..i] == xs[..i];
  }

  /** Counting one more element of `ys` after all of `xs`. */
  lemma TallyAppendSnoc<T>(xs: seq<T>, ys: seq<T>, k: nat)
    requires k < |ys|
    ensures Tally(xs + ys[..k + 1]) == Bump(Tally(xs + ys[..k]), ys[k])
  {
    var zs := xs + ys[..k + 1];
    assert zs[..|zs| - 1] == xs + ys[..k];
  }

  /**
   * The counter's keys are the distinct elements in first-occurrence order,
   * and each key's count is its number of occurrences in `xs`.
   */
  lemma {:induction false} TallyCounts<T(!new)>(xs: seq<T>)
    ensures Keys(Tally(xs)) == Distinct(xs)
    ensures forall i :: 0 <= i < |Tally(xs)| ==> Tally(xs)[i].1 == multiset(xs)[Tally(xs)[i].0]
  {
    if xs != [] {
      var init, x := xs[..|xs| - 1], xs[|xs| - 1];
      assert xs == init + [x];
      TallyCounts(init);
      if x in Distinct(init) {
        TallyKnown(init, x);
      } else {
        TallyNew(init, x);
      }
    }
  }

  /** The step of `TallyCounts` for an element already counted. */
  lemma TallyKnown<T(!new)>(init: seq<T>, x: T)
    requires Keys(Tally(init)) == Distinct(init)
    requires forall i :: 0 <= i < |Tally(init)| ==> Tally(init)[i].1 == multiset(init)[Tally(init)[i].0]
    requires x in Distinct(init)
    ensures Keys(Tally(init + [x])) == Distinct(init + [x])
    ensures forall i :: 0 <= i < |Tally(init + [x])| ==> Tally(init + [x])[i].1 == multiset(init + [x])[Tally(init + [x])[i].0]
  {
    var xs := init + [x];
    assert xs[..|xs| - 1] == init;
    assert multiset(xs) == multiset(init) + multiset{x};
    var t := Tally(init);
    var d := Distinct(init);
    var k := KeyIndex(t, x);
    var m :| 0 <= m < |d| && d[m] == x;
    assert t[m].0 == x;
    assert k == m;
    assert Keys(Tally(xs)) == Keys(t);
    forall i | 0 <= i < |t| && i != k
      ensures t[i].0 != x
    {
      assert d[i] != x;
    }
  }

  /** The step of `TallyCounts` for an element not counted yet. */
  lemma TallyNew<T(!new)>(init: seq<T>, x: T)
    requires Keys(Tally(init)) == Distinct(init)
    requires forall i :: 0 <= i < |Tally(init)| ==> Tally(init)[i].1 == multiset(init)[Tally(init)[i].0]
    requires x !in Distinct(init)
    ensures Keys(Tally(init + [x])) == Distinct(init + [x])
    ensures forall i :: 0 <= i < |Tally(init + [x])| ==> Tally(init + [x])[i].1 == multiset(init + [x])[Tally(init + [x])[i].0]
  {
    var xs, t := init + [x], Tally(init);
    TallyNewShape(init, x);
    KeysSnoc(t, (x, 1));
    assert multiset(xs) == multiset(init) + multiset{x};
    assert x !in init;
    var r := t + [(x, 1)];
    forall i | 0 <= i < |r|
      ensures r[i].1 == multiset(xs)[r[i].0]
    {
      if i < |t| {
        assert r[i] == t[i];
      }
    }
  }

  /** A new element gets a fresh entry with count one at the end of the counter. */
  lemma TallyNewShape<T(!new)>(init: seq<T>, x: T)
    requires Keys(Tally(init)) == Distinct(init)
    requires x !in Distinct(init)
    ensures Tally(init + [x]) == Tally(init) + [(x, 1)]
    ensures Distinct(init + [x]) == Distinct(init) + [x]
  {
    var xs, t, d := init + [x], Tally(init), Distinct(init);
    assert xs[..|xs| - 1] == init;
    forall j | 0 <= j < |t|
      ensures t[j].0 != x
    {
      assert t[j].0 == d[j];
    }
    assert KeyIndex(t, x) == |t|;
  }

  /** The keys of a counter with one more entry. */
  lemma KeysSnoc<K, V>(c: seq<(K, V)>, e: (K, V))
    ensures Keys(c + [e]) == Keys(c) + [e.0]
  {
    var kr := Keys(c + [e]);
    forall i | 0 <= i < |kr|
      ensures kr[i] == (Keys(c) + [e.0])[i]
    {
      if i < |c| {
        assert (c + [e])[i] == c[i];
      }
    }
  }

  /** `xs` is ordered by non-increasing `key`. */
  ghost predicate SortedDesc<T>(xs: seq<T>, key: T -> int)
  {
    forall i, j :: 0 <= i < j < |xs| ==> key(xs[i]) >= key(xs[j])
  }

  /** The elements of `xs` whose key is `c`, in order. */
  function WithKey<T(==,!new)>(xs: seq<T>, key: T -> int, c: int): seq<T>
  {
    Filter(xs, KeyIs(key, c))
  }

  function KeyIs<T>(key: T -> int, c: int): T -> bool
  {
    (y: T) => key(y) == c
  }

  /** Inserts `x` in front of the first element whose key is not larger. */
  function InsertDesc<T(==,!new)>(x: T, s: seq<T>, key: T -> int): (r: seq<T>)
    ensures multiset(r) == multiset(s) + multiset{x}
  {
    if s == [] || key(x) >= key(s[0]) then
      [x] + s
    else
      assert s == [s[0]] + s[1..];
      [s[0]] + InsertDesc(x, s[1..], key)
  }

  /** Inserting into a list sorted by non-increasing key keeps it sorted. */
  lemma {:induction false} InsertDescSorted<T(!new)>(x: T, s: seq<T>, key: T -> int)
    requires SortedDesc(s, key)
    ensures SortedDesc(InsertDesc(x, s, key), key)
  {
    if s == [] {
      SortedCons(x, s, key);
    } else if key(x) >= key(s[0]) {
      SortedHead(s, key);
      assert s == [s[0]] + s[1..];
      SortedCons(x, s, key);
    } else {
      var tail := InsertDesc(x, s[1..], key);
      assert SortedDesc(s[1..], key);
      InsertDescSorted(x, s[1..], key);
      SortedHead(s, key);
      forall y | y in tail
        ensures key(s[0]) >= key(y)
      {
        assert y in multiset(tail);
        assert y in multiset(s[1..]) || y == x;
      }
      SortedCons(s[0], tail, key);
    }
  }

  /**
   * `[...xs].sort((a, b) => key(b) - key(a))`: JavaScript's sort is stable, so
   * this is the stable sort by non-increasing key (an insertion sort here).
   */
  function SortDesc<T(==,!new)>(xs: seq<T>, key: T -> int): (r: seq<T>)
    ensures multiset(r) == multiset(xs)
    ensures |r| == |xs|
    ensures SortedDesc(r, key)
  {
    if xs == [] then []
    else
      assert xs == [xs[0]] + xs[1..];
      var rest := SortDesc(xs[1..], key);
      InsertDescSorted(xs[0], rest, key);
      InsertDesc(xs[0], rest, key)
  }

  /** Inserting `x` places it before every element with the same key. */
  lemma {:induction false} InsertDescWithKey<T(!new)>(x: T, s: seq<T>, key: T -> int, c: int)
    ensures WithKey(InsertDesc(x, s, key), key, c) == if key(x) == c then [x] + WithKey(s, key, c) else WithKey(s, key, c)
  {
    if s == [] || key(x) >= key(s[0]) {
      FilterCons(x, s, KeyIs(key, c));
    } else {
      InsertDescWithKey(x, s[1..], key, c);
      InsertBehindHead(x, s, key, c);
    }
  }

  /** The step of `InsertDescWithKey` where `x` goes behind the head of `s`. */
  lemma InsertBehindHead<T(!new)>(x: T, s: seq<T>, key: T -> int, c: int)
    requires s != [] && key(x) < key(s[0])
    requires WithKey(InsertDesc(x, s[1..], key), key, c)
      == if key(x) == c then [x] + WithKey(s[1..], key, c) else WithKey(s[1..], key, c)
    ensures WithKey(InsertDesc(x, s, key), key, c) == if key(x) == c then [x] + WithKey(s, key, c) else WithKey(s, key, c)
  {
    var p := KeyIs(key, c);
    var t := InsertDesc(x, s[1..], key);
    assert InsertDesc(x, s, key) == [s[0]] + t;
    FilterCons(s[0], t, p);
    assert s == [s[0]] + s[1..];
    FilterCons(s[0], s[1..], p);
  }

  /** Stability: the elements sharing any one key keep their relative order. */
  lemma {:induction false} SortDescStable<T(!new)>(xs: seq<T>, key: T -> int, c: int)
    ensures WithKey(SortDesc(xs, key), key, c) == WithKey(xs, key, c)
  {
    if xs != [] {
      SortDescStable(xs[1..], key, c);
      InsertDescWithKey(xs[0], SortDesc(xs[1..], key), key, c);
    }
  }

  /** Putting an element whose key bounds every key of a sorted list in front keeps it sorted. */
  lemma SortedCons<T>(x: T, rest: seq<T>, key: T -> int)
    requires SortedDesc(rest, key)
    requires forall y :: y in rest ==> key(x) >= key(y)
    ensures SortedDesc([x] + rest, key)
  {
    var r := [x] + rest;
    forall i, j | 0 <= i < j < |r|
      ensures key(r[i]) >= key(r[j])
    {
      assert r[j] == rest[j - 1];
      if i > 0 {
        assert r[i] == rest[i - 1];
      }
    }
  }

  /** The head of a sorted list has the largest key. */
  lemma SortedHead<T>(xs: seq<T>, key: T -> int)
    requires SortedDesc(xs, key) && xs != []
    ensures forall y :: y in xs[1..] ==> key(xs[0]) >= key(y)
  {
    forall y | y in xs[1..]
      ensures key(xs[0]) >= key(y)
    {
      var k :| 0 <= k < |xs[1..]| && xs[1..][k] == y;
      assert xs[k + 1] == y;
    }
  }

  /** A filtered list sorted by non-increasing key stays sorted. */
  lemma {:induction false} FilterSorted<T(!new)>(xs: seq<T>, p: T -> bool, key: T -> int)
    requires SortedDesc(xs, key)
    ensures SortedDesc(Filter(xs, p), key)
  {
    if xs != [] {
      var rest := Filter(xs[1..], p);
      assert SortedDesc(xs[1..], key);
      FilterSorted(xs[1..], p, key);
      if p(xs[0]) {
        SortedHead(xs, key);
        SortedCons(xs[0], rest, key);
      }
    }
  }

  /** `xs.filter(p)` and `xs.filter(x => !p(x))` split `xs` between them. */
  lemma FilterPartition<T(!new)>(xs: seq<T>, p: T -> bool, notP: T -> bool)
    requires forall x :: notP(x) == !p(x)
    ensures multiset(Filter(xs, p)) + multiset(Filter(xs, notP)) == multiset(xs)
    ensures forall x :: x in Filter(xs, p) ==> x !in Filter(xs, notP)
  {
    FilterCounts(xs, p);
    FilterCounts(xs, notP);
    assert forall x :: (multiset(Filter(xs, p)) + multiset(Filter(xs, notP)))[x] == multiset(xs)[x];
  }

  /** `xs.slice(0, n)` for a non-negative `n`. */
  function Take<T>(xs: seq<T>, n: nat): (r: seq<T>)
    ensures |r| <= n && |r| <= |xs|
    ensures r == xs[..|r|]
    ensures |xs| >= n ==> |r| == n
  {
    if |xs| <= n then xs else xs[..n]
  }
}
