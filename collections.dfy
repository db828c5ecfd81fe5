/** The JavaScript array methods the application relies on (filter, find,
    reduce, slice and the stable Array.prototype.sort with a comparator),
    written as functions over sequences, with the facts the views use. */
module Collections {

  datatype Option<+T> = None | Some(value: T)

  /** Array.prototype.filter: the elements satisfying p, in their order. */
  function Filter<T>(s: seq<T>, p: T -> bool): (r: seq<T>)
    ensures |r| <= |s|
    ensures forall i :: 0 <= i < |r| ==> r[i] in s && p(r[i])
    ensures forall i :: 0 <= i < |s| && p(s[i]) ==> s[i] in r
  {
    if s == [] then []
    else Filter(s[..|s| - 1], p) + (if p(s[|s| - 1]) then [s[|s| - 1]] else [])
  }

  lemma FilterSnoc<T>(s: seq<T>, x: T, p: T -> bool)
    ensures Filter(s + [x], p) == Filter(s, p) + (if p(x) then [x] else [])
  {
    assert (s + [x])[..|s|] == s;
  }

  lemma {:induction false} FilterConcat<T>(a: seq<T>, b: seq<T>, p: T -> bool)
    ensures Filter(a + b, p) == Filter(a, p) + Filter(b, p)
  {
    if b == [] {
      assert a + b == a;
    } else {
      var b' := b[..|b| - 1];
      var x := b[|b| - 1];
      assert b == b' + [x];
      assert a + b == (a + b') + [x];
      FilterConcat(a, b', p);
      FilterSnoc(a + b', x, p);
      FilterSnoc(b', x, p);
    }
  }

  /** Filtering keeps every element whose test holds, as often as it occurs. */
  lemma {:induction false} FilterMultiplicity<T>(s: seq<T>, p: T -> bool, x: T)
    ensures multiset(Filter(s, p))[x] == if p(x) then multiset(s)[x] else 0
  {
    if s != [] {
      var s' := s[..|s| - 1];
      assert s == s' + [s[|s| - 1]];
      FilterMultiplicity(s', p, x);
    }
  }

  /** A filter whose test holds everywhere returns its input unchanged. */
  lemma {:induction false} FilterAll<T>(s: seq<T>, p: T -> bool)
    requires forall x :: x in s ==> p(x)
    ensures Filter(s, p) == s
  {
    if s != [] {
      var s' := s[..|s| - 1];
      assert s == s' + [s[|s| - 1]];
      FilterAll(s', p);
    }
  }

  /** Filtering twice by the same test is filtering once. */
  lemma FilterIdempotent<T>(s: seq<T>, p: T -> bool)
    ensures Filter(Filter(s, p), p) == Filter(s, p)
  {
    FilterAll(Filter(s, p), p);
  }

  /** r occurs in s with the same relative order (greedy embedding). */
  predicate IsSubsequence<T(==)>(r: seq<T>, s: seq<T>)
    decreases |s|
  {
    if r == [] then true
    else if s == [] then false
    else if r[|r| - 1] == s[|s| - 1] then IsSubsequence(r[..|r| - 1], s[..|s| - 1])
    else IsSubsequence(r, s[..|s| - 1])
  }

  lemma {:induction false} SubsequenceDropLast<T>(r: seq<T>, s: seq<T>)
    requires r != [] && IsSubsequence(r, s)
    ensures IsSubsequence(r[..|r| - 1], s)
    decreases |s|, 0
  {
    if s != [] {
      var s' := s[..|s| - 1];
      assert s == s' + [s[|s| - 1]];
      if r[|r| - 1] != s[|s| - 1] {
        SubsequenceDropLast(r, s');
      }
      SubsequenceWiden(r[..|r| - 1], s', s[|s| - 1]);
    }
  }

  /** Appending to the longer sequence keeps a subsequence a subsequence. */
  lemma {:induction false} SubsequenceWiden<T>(r: seq<T>, s: seq<T>, x: T)
    requires IsSubsequence(r, s)
    ensures IsSubsequence(r, s + [x])
    decreases |s|, 1
  {
    var t := s + [x];
    assert t[..|t| - 1] == s;
    if r != [] && r[|r| - 1] == x {
      SubsequenceDropLast(r, s);
    }
  }

  /** Filtering keeps the survivors in their original relative order. */
  lemma {:induction false} FilterIsSubsequence<T>(s: seq<T>, p: T -> bool)
    ensures IsSubsequence(Filter(s, p), s)
  {
    if s != [] {
      var s' := s[..|s| - 1];
      var x := s[|s| - 1];
      assert s == s' + [x];
      FilterIsSubsequence(s', p);
      if p(x) {
        var r := Filter(s, p);
        assert r[..|r| - 1] == Filter(s', p);
      } else {
        assert Filter(s, p) == Filter(s', p);
        SubsequenceWiden(Filter(s', p), s', x);
      }
    }
  }

  /** Array.prototype.find: the first element satisfying p, if any. */
  function Find<T>(s: seq<T>, p: T -> bool): (r: Option<T>)
    ensures r.None? <==> forall i :: 0 <= i < |s| ==> !p(s[i])
    ensures r.Some? ==> exists i :: 0 <= i < |s| && s[i] == r.value && p(s[i]) &&
                                    forall j :: 0 <= j < i ==> !p(s[j])
  {
    if s == [] then None
    else if p(s[0]) then Some(s[0])
    else
      var r := Find(s[1..], p);
      assert r.Some? ==> exists i :: 0 <= i < |s[1..]| && s[1..][i] == r.value && p(s[1..][i]) &&
                                     forall j :: 0 <= j < i ==> !p(s[1..][j]);
      assert forall i :: 0 <= i < |s[1..]| ==> s[1..][i] == s[i + 1];
      r
  }

  /** Appending an element changes find only when nothing earlier matched. */
  lemma {:induction false} FindSnoc<T>(s: seq<T>, x: T, p: T -> bool)
    ensures Find(s + [x], p) == if Find(s, p).Some? then Find(s, p) else if p(x) then Some(x) else None
  {
    if s != [] && !p(s[0]) {
      assert (s + [x])[1..] == s[1..] + [x];
      FindSnoc(s[1..], x, p);
    }
  }

  /** Filtering first by a test that every match passes does not change
      what find returns. */
  lemma {:induction false} FindFilter<T>(s: seq<T>, q: T -> bool, p: T -> bool)
    requires forall x :: p(x) ==> q(x)
    ensures Find(Filter(s, q), p) == Find(s, p)
  {
    if s != [] {
      var s', x := s[..|s| - 1], s[|s| - 1];
      assert s == s' + [x];
      FindFilter(s', q, p);
      FindSnoc(s', x, p);
      if q(x) {
        FindSnoc(Filter(s', q), x, p);
      } else {
        assert Filter(s, q) == Filter(s', q);
      }
    }
  }

  /** Array.prototype.some. */
  predicate Exists<T>(s: seq<T>, p: T -> bool)
  {
    exists i :: 0 <= i < |s| && p(s[i])
  }

  /** reduce((acc, x) => acc + w(x), 0). */
  function Sum<T>(s: seq<T>, w: T -> int): int
  {
    if s == [] then 0 else Sum(s[..|s| - 1], w) + w(s[|s| - 1])
  }

  lemma {:induction false} SumConcat<T>(a: seq<T>, b: seq<T>, w: T -> int)
    ensures Sum(a + b, w) == Sum(a, w) + Sum(b, w)
  {
    if b == [] {
      assert a + b == a;
    } else {
      var b' := b[..|b| - 1];
      assert b == b' + [b[|b| - 1]];
      assert (a + b)[..|a + b| - 1] == a + b';
      SumConcat(a, b', w);
    }
  }

  /** The total of a reduce does not depend on the order of the elements. */
  lemma {:induction false} SumPermutation<T>(a: seq<T>, b: seq<T>, w: T -> int)
    requires multiset(a) == multiset(b)
    ensures Sum(a, w) == Sum(b, w)
    decreases |a|
  {
    if a == [] {
      assert |b| == |multiset(b)| == 0;
    } else {
      var a' := a[..|a| - 1];
      var x := a[|a| - 1];
      assert a == a' + [x];
      assert x in multiset(b);
      var k :| 0 <= k < |b| && b[k] == x;
      var b' := b[..k] + b[k + 1..];
      RemoveAt(a', b, k);
      SumPermutation(a', b', w);
      SumRemoveAt(b, k, w);
      assert Sum(a, w) == Sum(a', w) + w(x) by {
        SumConcat(a', [x], w);
        SumSingleton(x, w);
      }
    }
  }

  /** Taking the same element out of two equal multisets keeps them equal. */
  lemma RemoveAt<T>(a': seq<T>, b: seq<T>, k: int)
    requires 0 <= k < |b| && multiset(a' + [b[k]]) == multiset(b)
    ensures multiset(a') == multiset(b[..k] + b[k + 1..])
  {
    var p, q := b[..k], b[k + 1..];
    assert b == p + [b[k]] + q;
    assert multiset(b) == multiset(p) + multiset{b[k]} + multiset(q);
    assert multiset(p + q) == multiset(p) + multiset(q);
    assert multiset(a' + [b[k]]) == multiset(a') + multiset{b[k]};
    assert multiset(a') == multiset(b) - multiset{b[k]};
    assert multiset(p + q) == multiset(b) - multiset{b[k]};
  }

  /** The total without element k is the total less that element's weight. */
  lemma SumRemoveAt<T>(b: seq<T>, k: int, w: T -> int)
    requires 0 <= k < |b|
    ensures Sum(b, w) == Sum(b[..k] + b[k + 1..], w) + w(b[k])
  {
    SplitAt(b, k);
    SumSplit(b[..k], b[k], b[k + 1..], w);
  }

  lemma SplitAt<T>(b: seq<T>, k: int)
    requires 0 <= k < |b|
    ensures b == b[..k] + [b[k]] + b[k + 1..]
  {
  }

  lemma SumSplit<T>(p: seq<T>, y: T, q: seq<T>, w: T -> int)
    ensures Sum(p + [y] + q, w) == Sum(p + q, w) + w(y)
  {
    assert Sum(p + [y] + q, w) == Sum(p + [y], w) + Sum(q, w) by { SumConcat(p + [y], q, w); }
    assert Sum(p + [y], w) == Sum(p, w) + w(y) by {
      SumConcat(p, [y], w);
      SumSingleton(y, w);
    }
    SumConcat(p, q, w);
  }

  /** A reduce adding 1 per element counts the elements. */
  function One<T>(x: T): int { 1 }

  lemma {:induction false} SumOneIsLength<T>(s: seq<T>)
    ensures Sum(s, One) == |s|
  {
    if s != [] {
      SumOneIsLength(s[..|s| - 1]);
    }
  }

  /** Array.prototype.slice(0, n). */
  function Take<T>(s: seq<T>, n: nat): (r: seq<T>)
    ensures |r| == if n <= |s| then n else |s|
    ensures forall i :: 0 <= i < |r| ==> r[i] == s[i]
  {
    if n <= |s| then s[..n] else s
  }

  // ---------------------------------------------------------------------
  // Array.prototype.sort with a comparator. `leq(a, b)` stands for
  // `compare(a, b) <= 0`. The sort is stable (ECMAScript 2019 and later),
  // modelled as insertion sort: each later element goes after every
  // earlier element it does not strictly precede.

  ghost predicate TotalPreorder<T(!new)>(leq: (T, T) -> bool)
  {
    && (forall x, y :: leq(x, y) || leq(y, x))
    && (forall x, y, z :: leq(x, y) && leq(y, z) ==> leq(x, z))
  }

  ghost predicate SortedBy<T>(s: seq<T>, leq: (T, T) -> bool)
  {
    forall i, j :: 0 <= i < j < |s| ==> leq(s[i], s[j])
  }

  function Insert<T>(x: T, s: seq<T>, leq: (T, T) -> bool): (r: seq<T>)
    ensures multiset(r) == multiset(s) + multiset{x}
    ensures |r| == |s| + 1
  {
    if s == [] then [x]
    else if leq(s[0], x) then
      assert s == [s[0]] + s[1..];
      [s[0]] + Insert(x, s[1..], leq)
    else [x] + s
  }

  function Sort<T>(s: seq<T>, leq: (T, T) -> bool): (r: seq<T>)
    ensures multiset(r) == multiset(s)
    ensures |r| == |s|
  {
    if s == [] then []
    else
      assert s == s[..|s| - 1] + [s[|s| - 1]];
      Insert(s[|s| - 1], Sort(s[..|s| - 1], leq), leq)
  }

  lemma {:induction false} InsertSorted<T(!new)>(x: T, s: seq<T>, leq: (T, T) -> bool)
    requires TotalPreorder(leq) && SortedBy(s, leq)
    ensures SortedBy(Insert(x, s, leq), leq)
  {
    if s != [] && leq(s[0], x) {
      InsertSorted(x, s[1..], leq);
      var r := Insert(x, s, leq);
      var t := Insert(x, s[1..], leq);
      assert r == [s[0]] + t;
      forall j | 0 < j < |r| ensures leq(r[0], r[j]) {
        assert r[j] == t[j - 1];
        assert r[j] in multiset(t);
        assert r[j] in multiset(s[1..]) || r[j] == x;
        if r[j] != x {
          var k :| 0 <= k < |s[1..]| && s[1..][k] == r[j];
          assert s[k + 1] == r[j];
        }
      }
    }
  }

  /** The sort's output is ordered by its comparator. */
  lemma {:induction false} SortSorted<T(!new)>(s: seq<T>, leq: (T, T) -> bool)
    requires TotalPreorder(leq)
    ensures SortedBy(Sort(s, leq), leq)
  {
    if s != [] {
      SortSorted(s[..|s| - 1], leq);
      InsertSorted(s[|s| - 1], Sort(s[..|s| - 1], leq), leq);
    }
  }

  lemma SortMembers<T>(s: seq<T>, leq: (T, T) -> bool, x: T)
    ensures x in Sort(s, leq) <==> x in s
  {
    assert x in multiset(Sort(s, leq)) <==> x in multiset(s);
  }

  /** When the sort output is cut to its first n entries (slice(0, n) after
      sort), every element left out is ranked no earlier than every element
      kept. */
  lemma TopCut<T(!new)>(s: seq<T>, leq: (T, T) -> bool, n: nat, x: T)
    requires TotalPreorder(leq) && x in s
    ensures var top := Take(Sort(s, leq), n);
            x in top || forall t :: t in top ==> leq(t, x)
  {
    var sorted := Sort(s, leq);
    SortSorted(s, leq);
    SortMembers(s, leq, x);
    var k :| 0 <= k < |sorted| && sorted[k] == x;
    var top := Take(sorted, n);
    if k < |top| {
      assert top[k] == x;
    } else {
      forall t | t in top ensures leq(t, x) {
        var i :| 0 <= i < |top| && top[i] == t;
        assert sorted[i] == t;
      }
    }
  }

  // ---------------------------------------------------------------------
  // Grouping by a key, in first-occurrence order of the keys (the order in
  // which a forEach loop first writes each key of a plain object).

  function KeysOf<T, K(==)>(s: seq<T>, key: T -> K): (r: seq<K>)
    ensures forall i :: 0 <= i < |s| ==> key(s[i]) in r
    ensures forall j :: 0 <= j < |r| ==> exists i :: 0 <= i < |s| && key(s[i]) == r[j]
    ensures forall i, j :: 0 <= i < j < |r| ==> r[i] != r[j]
  {
    if s == [] then []
    else
      var s' := s[..|s| - 1];
      var ks := KeysOf(s', key);
      assert forall i :: 0 <= i < |s'| ==> s'[i] == s[i];
      if key(s[|s| - 1]) in ks then ks else ks + [key(s[|s| - 1])]
  }

  /** The elements of s with key k, in order. */
  function Group<T, K(==)>(s: seq<T>, key: T -> K, k: K): seq<T>
  {
    Filter(s, (x: T) => key(x) == k)
  }

  lemma GroupSnoc<T, K>(s: seq<T>, x: T, key: T -> K, k: K)
    ensures Group(s + [x], key, k) == Group(s, key, k) + (if key(x) == k then [x] else [])
  {
    FilterSnoc(s, x, (y: T) => key(y) == k);
  }

  /** Sum over the keys ks of the w-total of each group. */
  function GroupTotals<T, K(==)>(s: seq<T>, key: T -> K, w: T -> int, ks: seq<K>): int
  {
    if ks == [] then 0
    else GroupTotals(s, key, w, ks[..|ks| - 1]) + Sum(Group(s, key, ks[|ks| - 1]), w)
  }

  lemma {:induction false} GroupTotalsSnoc<T, K>(s: seq<T>, x: T, key: T -> K, w: T -> int, ks: seq<K>)
    requires forall i, j :: 0 <= i < j < |ks| ==> ks[i] != ks[j]
    ensures GroupTotals(s + [x], key, w, ks) ==
            GroupTotals(s, key, w, ks) + (if key(x) in ks then w(x) else 0)
  {
    if ks != [] {
      var ks' := ks[..|ks| - 1];
      var k := ks[|ks| - 1];
      assert ks == ks' + [k];
      GroupTotalsSnoc(s, x, key, w, ks');
      GroupSnoc(s, x, key, k);
      SumConcat(Group(s, key, k), if key(x) == k then [x] else [], w);
      assert Sum([x], w) == w(x) by { assert [x][..0] == []; }
      assert key(x) in ks <==> key(x) in ks' || key(x) == k;
      assert key(x) == k ==> key(x) !in ks';
    }
  }

  /** A key that does not occur has an empty group. */
  lemma GroupOfAbsentKey<T, K>(s: seq<T>, key: T -> K, k: K)
    requires k !in KeysOf(s, key)
    ensures Group(s, key, k) == []
  {
  }

  lemma KeysOfSnoc<T, K>(s: seq<T>, x: T, key: T -> K)
    ensures KeysOf(s + [x], key) ==
            if key(x) in KeysOf(s, key) then KeysOf(s, key) else KeysOf(s, key) + [key(x)]
  {
    assert (s + [x])[..|s|] == s;
  }

  lemma GroupTotalsSnocKey<T, K>(s: seq<T>, key: T -> K, w: T -> int, ks: seq<K>, k: K)
    ensures GroupTotals(s, key, w, ks + [k]) == GroupTotals(s, key, w, ks) + Sum(Group(s, key, k), w)
  {
    assert (ks + [k])[..|ks|] == ks;
  }

  lemma SumSingleton<T>(x: T, w: T -> int)
    ensures Sum([x], w) == w(x)
  {
    assert [x][..0] == [];
  }

  lemma GroupTotalsOfKeysSnoc<T, K>(s: seq<T>, x: T, key: T -> K, w: T -> int)
    requires GroupTotals(s, key, w, KeysOf(s, key)) == Sum(s, w)
    ensures GroupTotals(s + [x], key, w, KeysOf(s + [x], key)) == Sum(s + [x], w)
  {
    var ks := KeysOf(s, key);
    assert Sum(s + [x], w) == Sum(s, w) + w(x) by {
      SumConcat(s, [x], w);
      SumSingleton(x, w);
    }
    assert GroupTotals(s + [x], key, w, ks) == Sum(s, w) + (if key(x) in ks then w(x) else 0) by {
      GroupTotalsSnoc(s, x, key, w, ks);
    }
    KeysOfSnoc(s, x, key);
    if key(x) !in ks {
      NewKeyTotal(s, x, key, w);
    }
  }

  /** A new key adds a group holding just the new element. */
  lemma NewKeyTotal<T, K>(s: seq<T>, x: T, key: T -> K, w: T -> int)
    requires key(x) !in KeysOf(s, key)
    ensures GroupTotals(s + [x], key, w, KeysOf(s, key) + [key(x)]) ==
            GroupTotals(s + [x], key, w, KeysOf(s, key)) + w(x)
  {
    assert Group(s + [x], key, key(x)) == [x] by {
      GroupSnoc(s, x, key, key(x));
      GroupOfAbsentKey(s, key, key(x));
    }
    GroupTotalsSnocKey(s + [x], key, w, KeysOf(s, key), key(x));
    SumSingleton(x, w);
  }

  /** Splitting a sequence into groups by key loses and duplicates nothing:
      the group totals add up to the total of the whole sequence. */
  lemma {:induction false} GroupTotalsOfKeys<T, K>(s: seq<T>, key: T -> K, w: T -> int)
    ensures GroupTotals(s, key, w, KeysOf(s, key)) == Sum(s, w)
  {
    if s != [] {
      var s' := s[..|s| - 1];
      assert s == s' + [s[|s| - 1]];
      GroupTotalsOfKeys(s', key, w);
      GroupTotalsOfKeysSnoc(s', s[|s| - 1], key, w);
    }
  }
  // ---------------------------------------------------------------------
  // Facts about orders and repetitions used by several views.

  predicate Distinct<T(==)>(s: seq<T>)
  {
    forall i, j :: 0 <= i < j < |s| ==> s[i] != s[j]
  }

  lemma {:induction false} DistinctMultiplicity<T>(s: seq<T>, x: T)
    requires Distinct(s)
    ensures multiset(s)[x] <= 1
  {
    if s != [] {
      var s' := s[..|s| - 1];
      assert s == s' + [s[|s| - 1]];
      assert Distinct(s');
      DistinctMultiplicity(s', x);
      if x == s[|s| - 1] {
        assert x !in s';
      }
    }
  }

  lemma RepeatMultiplicity<T>(s: seq<T>, i: int, j: int)
    requires 0 <= i < j < |s| && s[i] == s[j]
    ensures multiset(s)[s[i]] >= 2
  {
    assert s == s[..j] + [s[j]] + s[j + 1..];
    assert s[..j][i] == s[i];
    assert s[i] in multiset(s[..j]);
  }

  /** A reordering of a repetition-free sequence has no repetitions. */
  lemma PermutationDistinct<T>(a: seq<T>, b: seq<T>)
    requires multiset(a) == multiset(b) && Distinct(a)
    ensures Distinct(b)
  {
    forall i, j | 0 <= i < j < |b| ensures b[i] != b[j] {
      if b[i] == b[j] {
        RepeatMultiplicity(b, i, j);
        DistinctMultiplicity(a, b[i]);
      }
    }
  }

  /** A prefix of a sorted sequence is sorted. */
  lemma SortedTake<T>(s: seq<T>, leq: (T, T) -> bool, n: nat)
    requires SortedBy(s, leq)
    ensures SortedBy(Take(s, n), leq)
  {
  }

  /** A prefix holds no element more often than the whole sequence. */
  lemma TakeSubMultiset<T>(s: seq<T>, n: nat)
    ensures multiset(Take(s, n)) <= multiset(s)
  {
    if n <= |s| {
      assert s == s[..n] + s[n..];
      assert multiset(s) == multiset(s[..n]) + multiset(s[n..]);
    }
  }

  /** Filtering by two tests that agree on every element gives one result. */
  lemma {:induction false} FilterCongruent<T>(s: seq<T>, p: T -> bool, q: T -> bool)
    requires forall i :: 0 <= i < |s| ==> p(s[i]) == q(s[i])
    ensures Filter(s, p) == Filter(s, q)
  {
    if s != [] {
      var s' := s[..|s| - 1];
      assert forall i :: 0 <= i < |s'| ==> s'[i] == s[i];
      FilterCongruent(s', p, q);
    }
  }

  /** The first element of a sorted sequence precedes every element. */
  lemma SortedHead<T>(s: seq<T>, leq: (T, T) -> bool, x: T)
    requires SortedBy(s, leq) && s != [] && x in s && (forall y :: leq(y, y))
    ensures leq(s[0], x)
  {
    var k :| 0 <= k < |s| && s[k] == x;
  }

  /** Growing a prefix by one element. */
  lemma PrefixSnoc<T>(s: seq<T>, i: int)
    requires 0 <= i < |s|
    ensures s[..i + 1] == s[..i] + [s[i]]
  {
  }
}
