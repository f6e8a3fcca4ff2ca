/** Sequence operations behind the Python list idioms the program uses:
    `list(dict.fromkeys(xs))`, list comprehensions with a filter, `xs[:n]`,
    `list.remove` and the `range(0, len(xs), n)` slicing into batches. */
module Seqs {

  predicate Distinct<T(==)>(s: seq<T>) {
    forall i, j :: 0 <= i < j < |s| ==> s[i] != s[j]
  }

  /** Index of the first occurrence of `x` in `s`. */
  function FirstIndex<T(==)>(s: seq<T>, x: T): (k: nat)
    requires x in s
    ensures k < |s| && s[k] == x
    ensures forall j :: 0 <= j < k ==> s[j] != x
  {
    if s[0] == x then 0 else 1 + FirstIndex(s[1..], x)
  }

  /** `list(dict.fromkeys(s))`: every element once, at the place it first
      appears. */
  function Unique<T(==)>(s: seq<T>): (r: seq<T>)
    ensures Distinct(r)
    ensures forall i :: 0 <= i < |r| ==> r[i] in s
    ensures forall i :: 0 <= i < |s| ==> s[i] in r
    ensures |r| <= |s|
    ensures |r| == 0 <==> |s| == 0
    decreases |s|
  {
    if |s| == 0 then []
    else
      var u := Unique(s[..|s| - 1]);
      var x := s[|s| - 1];
      assert s == s[..|s| - 1] + [x];
      if x in u then u else u + [x]
  }

  /** A non-empty sequence is its front followed by its last element. */
  lemma SplitLast<T>(s: seq<T>)
    requires |s| > 0
    ensures s == s[..|s| - 1] + [s[|s| - 1]]
  {
  }

  lemma FirstIndexSnoc<T>(s: seq<T>, x: T, y: T)
    requires y in s
    ensures FirstIndex(s + [x], y) == FirstIndex(s, y)
  {
    var k := FirstIndex(s, y);
    var k' := FirstIndex(s + [x], y);
    assert (s + [x])[k] == y;
    assert s[k'] == y || k' == |s|;
  }

  /** The elements of `Unique(s)` are ordered by their first appearance in `s`. */
  lemma {:induction false} UniqueKeepsFirstSeenOrder<T>(s: seq<T>)
    ensures forall i, j :: 0 <= i < j < |Unique(s)| ==>
      FirstIndex(s, Unique(s)[i]) < FirstIndex(s, Unique(s)[j])
    decreases |s|
  {
    if |s| > 0 {
      var p := s[..|s| - 1];
      var x := s[|s| - 1];
      assert s == p + [x];
      UniqueKeepsFirstSeenOrder(p);
      var u := Unique(p);
      var r := Unique(s);
      forall i, j | 0 <= i < j < |r|
        ensures FirstIndex(s, r[i]) < FirstIndex(s, r[j])
      {
        assert r[i] in u;
        FirstIndexSnoc(p, x, r[i]);
        if j < |u| {
          FirstIndexSnoc(p, x, r[j]);
        } else {
          assert r[j] == x && x !in p;
          assert FirstIndex(s, x) == |p|;
        }
      }
    }
  }

  /** A duplicate-free sequence has as many elements as its set. */
  lemma {:induction false} DistinctCardinality<T>(s: seq<T>)
    requires Distinct(s)
    ensures |set x | x in s| == |s|
    decreases |s|
  {
    if |s| > 0 {
      var t := s[1..];
      DistinctCardinality(t);
      assert s[0] !in t;
      assert (set x | x in s) == (set x | x in t) + {s[0]};
    }
  }

  /** `len(dict.fromkeys(s))` is the number of distinct elements of `s`. */
  lemma UniqueCountsDistinct<T>(s: seq<T>)
    ensures |Unique(s)| == |set x | x in s|
  {
    DistinctCardinality(Unique(s));
    assert (set x | x in Unique(s)) == (set x | x in s);
  }

  /** `a` occurs in `b` in order, possibly with gaps. */
  predicate IsSubseq<T(==)>(a: seq<T>, b: seq<T>)
    decreases |b|
  {
    if |a| == 0 then true
    else if |b| == 0 then false
    else if a[0] == b[0] then IsSubseq(a[1..], b[1..])
    else IsSubseq(a, b[1..])
  }

  function Map<T, U>(f: T -> U, s: seq<T>): (r: seq<U>)
    ensures |r| == |s|
    ensures forall i :: 0 <= i < |s| ==> r[i] == f(s[i])
  {
    seq(|s|, i requires 0 <= i < |s| => f(s[i]))
  }

  lemma ConcatAssoc<T>(a: seq<T>, b: seq<T>, c: seq<T>)
    ensures a + (b + c) == (a + b) + c
  {
  }

  lemma MapCons<T, U>(f: T -> U, x: T, s: seq<T>)
    ensures Map(f, [x] + s) == [f(x)] + Map(f, s)
  {
  }

  /** `[x for x in s if p(x)]`. */
  function Filter<T(==)>(p: T -> bool, s: seq<T>): (r: seq<T>)
    ensures |r| <= |s|
    ensures forall i :: 0 <= i < |r| ==> p(r[i])
    ensures forall i :: 0 <= i < |r| ==> r[i] in s
    ensures forall i :: 0 <= i < |s| ==> (s[i] in r <==> p(s[i]))
    ensures IsSubseq(r, s)
    decreases |s|
  {
    if |s| == 0 then []
    else if p(s[0]) then
      var r := [s[0]] + Filter(p, s[1..]);
      assert r[1..] == Filter(p, s[1..]);
      r
    else Filter(p, s[1..])
  }

  /** Filtering keeps every passing element as often as it occurs and drops
      every other one: the result is the sub-multiset of the passing
      elements. */
  lemma {:induction false} FilterMultiset<T(!new)>(p: T -> bool, s: seq<T>)
    ensures forall x :: multiset(Filter(p, s))[x] == if p(x) then multiset(s)[x] else 0
    decreases |s|
  {
    if |s| > 0 {
      FilterMultiset(p, s[1..]);
      assert s == [s[0]] + s[1..];
      FilterCons(p, s[0], s[1..]);
    }
  }

  /** A property every element has, every kept element has. */
  lemma FilterKeepsProperty<T>(p: T -> bool, q: T -> bool, s: seq<T>)
    requires forall i :: 0 <= i < |s| ==> q(s[i])
    ensures forall i :: 0 <= i < |Filter(p, s)| ==> q(Filter(p, s)[i])
  {
    var r := Filter(p, s);
    forall i | 0 <= i < |r| ensures q(r[i]) {
      var k :| 0 <= k < |s| && s[k] == r[i];
    }
  }

  /** Filtering a list with a head: the head is kept exactly when it passes. */
  lemma FilterCons<T>(p: T -> bool, x: T, s: seq<T>)
    ensures Filter(p, [x] + s) == if p(x) then [x] + Filter(p, s) else Filter(p, s)
  {
    assert ([x] + s)[1..] == s;
  }

  /** Two filters in a row on a list with a head: the head survives
      exactly when it passes both. */
  lemma FilterTwiceCons<T>(p: T -> bool, q: T -> bool, x: T, s: seq<T>)
    ensures Filter(q, Filter(p, [x] + s)) ==
      (if p(x) && q(x) then [x] else []) + Filter(q, Filter(p, s))
  {
    FilterCons(p, x, s);
    if p(x) {
      FilterCons(q, x, Filter(p, s));
    }
  }

  /** Filtering twice is filtering once. */
  lemma {:induction false} FilterIdempotent<T>(p: T -> bool, s: seq<T>)
    ensures Filter(p, Filter(p, s)) == Filter(p, s)
    decreases |s|
  {
    if |s| > 0 {
      FilterIdempotent(p, s[1..]);
      if p(s[0]) {
        var r := Filter(p, s);
        assert r[0] == s[0] && r[1..] == Filter(p, s[1..]);
      }
    }
  }

  /** Filtering leaves a sequence unchanged exactly when every element
      passes. */
  lemma {:induction false} FilterKeepsAll<T>(p: T -> bool, s: seq<T>)
    ensures Filter(p, s) == s <==> forall i :: 0 <= i < |s| ==> p(s[i])
    decreases |s|
  {
    if |s| > 0 {
      FilterKeepsAll(p, s[1..]);
      if !p(s[0]) {
        assert |Filter(p, s)| <= |s[1..]|;
      }
    }
  }

  /** Filtering a concatenation filters each side. */
  lemma {:induction false} FilterAppend<T>(p: T -> bool, a: seq<T>, b: seq<T>)
    ensures Filter(p, a + b) == Filter(p, a) + Filter(p, b)
    decreases |a|
  {
    if |a| == 0 {
      assert a + b == b;
    } else {
      var x, t := a[0], a[1..];
      FilterAppend(p, t, b);
      assert a == [x] + t;
      ConcatAssoc([x], t, b);
      FilterCons(p, x, t + b);
      FilterCons(p, x, t);
      if p(x) {
        ConcatAssoc([x], Filter(p, t), Filter(p, b));
      }
    }
  }

  /** Nothing passes: the filter is empty. */
  lemma {:induction false} FilterNone<T>(p: T -> bool, s: seq<T>)
    requires forall i :: 0 <= i < |s| ==> !p(s[i])
    ensures Filter(p, s) == []
    decreases |s|
  {
    if |s| > 0 {
      FilterNone(p, s[1..]);
    }
  }

  /** A coarser filter first changes nothing for a finer one. */
  lemma {:induction false} FilterOfFilter<T>(p: T -> bool, q: T -> bool, s: seq<T>)
    requires forall x :: p(x) ==> q(x)
    ensures Filter(p, Filter(q, s)) == Filter(p, s)
    decreases |s|
  {
    if |s| > 0 {
      var x, t := s[0], s[1..];
      FilterOfFilter(p, q, t);
      assert s == [x] + t;
      FilterTwiceCons(q, p, x, t);
      FilterCons(p, x, t);
    }
  }


  /** Python's `s[:stop]`, where a negative `stop` counts from the end. */
  function SliceTo<T>(s: seq<T>, stop: int): (r: seq<T>)
    ensures stop >= 0 ==> |r| == if stop < |s| then stop else |s|
    ensures stop < 0 ==> |r| == if -stop < |s| then |s| + stop else 0
    ensures r == s[..|r|]
  {
    if stop >= 0 then (if stop < |s| then s[..stop] else s)
    else if -stop < |s| then s[..|s| + stop] else []
  }

  /** `list.remove(x)`: drops the first occurrence of `x` only. */
  function RemoveFirst<T(==)>(s: seq<T>, x: T): (r: seq<T>)
    requires x in s
    ensures |r| == |s| - 1
    ensures r == s[..FirstIndex(s, x)] + s[FirstIndex(s, x) + 1..]
  {
    if s[0] == x then s[1..] else [s[0]] + RemoveFirst(s[1..], x)
  }

  function Count<T(==)>(s: seq<T>, x: T): nat
    decreases |s|
  {
    if |s| == 0 then 0 else (if s[0] == x then 1 else 0) + Count(s[1..], x)
  }

  lemma {:induction false} CountAppend<T>(a: seq<T>, b: seq<T>, x: T)
    ensures Count(a + b, x) == Count(a, x) + Count(b, x)
    decreases |a|
  {
    if |a| == 0 {
      assert a + b == b;
    } else {
      assert (a + b)[0] == a[0];
      assert (a + b)[1..] == a[1..] + b;
      CountAppend(a[1..], b, x);
    }
  }

  /** `list.remove(x)` removes exactly one occurrence. */
  lemma RemoveFirstCount<T>(s: seq<T>, x: T)
    requires x in s
    ensures Count(RemoveFirst(s, x), x) == Count(s, x) - 1
  {
    var k := FirstIndex(s, x);
    assert s == s[..k] + [x] + s[k + 1..];
    CountAppend(s[..k] + [x], s[k + 1..], x);
    CountAppend(s[..k], [x], x);
    CountAppend(s[..k], s[k + 1..], x);
  }

  lemma {:induction false} CountPrefix<T>(s: seq<T>, n: nat, x: T)
    requires n <= |s|
    ensures Count(s[..n], x) <= Count(s, x)
  {
    assert s == s[..n] + s[n..];
    CountAppend(s[..n], s[n..], x);
  }

  lemma CountAbsent<T>(s: seq<T>, x: T)
    ensures Count(s, x) == 0 <==> x !in s
  {
  }

  lemma {:induction false} SubseqSelf<T>(s: seq<T>)
    ensures IsSubseq(s, s)
    decreases |s|
  {
    if |s| > 0 {
      SubseqSelf(s[1..]);
    }
  }

  /** Dropping elements from the second sequence keeps what is left of the
      first a subsequence. */
  /** Dropping the head of a subsequence keeps it a subsequence. */
  lemma {:induction false} SubseqTail<T>(a: seq<T>, b: seq<T>)
    requires |a| > 0 && IsSubseq(a, b)
    ensures IsSubseq(a[1..], b)
    decreases |b|, 0
  {
    if a[0] == b[0] {
      SubseqCons(a[1..], b[1..], b[0]);
    } else {
      SubseqTail(a, b[1..]);
      SubseqCons(a[1..], b[1..], b[0]);
    }
    assert [b[0]] + b[1..] == b;
  }

  /** Putting an element in front of the larger sequence keeps a
      subsequence one. */
  lemma {:induction false} SubseqCons<T>(a: seq<T>, b: seq<T>, x: T)
    requires IsSubseq(a, b)
    ensures IsSubseq(a, [x] + b)
    decreases |b|, 1
  {
    assert ([x] + b)[1..] == b;
    if |a| > 0 && a[0] == x {
      SubseqTail(a, b);
    }
  }

  lemma {:induction false} SubseqTrans<T>(a: seq<T>, b: seq<T>, c: seq<T>)
    requires IsSubseq(a, b) && IsSubseq(b, c)
    ensures IsSubseq(a, c)
    decreases |c|
  {
    if |a| > 0 {
      if b[0] == c[0] {
        if a[0] == b[0] {
          SubseqTrans(a[1..], b[1..], c[1..]);
        } else {
          SubseqTrans(a, b[1..], c[1..]);
        }
      } else {
        SubseqTrans(a, b, c[1..]);
        if a[0] == c[0] {
          SubseqTail(a, c[1..]);
        }
      }
    }
  }

  lemma {:induction false} PrefixIsSubseq<T>(s: seq<T>, n: nat)
    requires n <= |s|
    ensures IsSubseq(s[..n], s)
    decreases |s|
  {
    if n > 0 {
      assert s[..n][1..] == s[1..][..n - 1];
      PrefixIsSubseq(s[1..], n - 1);
    }
  }

  /** `list.remove(x)` keeps the order of what remains. */
  lemma {:induction false} RemoveFirstIsSubseq<T>(s: seq<T>, x: T)
    requires x in s
    ensures IsSubseq(RemoveFirst(s, x), s)
    decreases |s|
  {
    if s[0] == x {
      SubseqSelf(s);
      SubseqTail(s, s);
    } else {
      var r := RemoveFirst(s, x);
      assert r[1..] == RemoveFirst(s[1..], x);
      RemoveFirstIsSubseq(s[1..], x);
    }
  }

  function Flatten<T>(ss: seq<seq<T>>): seq<T>
    decreases |ss|
  {
    if |ss| == 0 then [] else ss[0] + Flatten(ss[1..])
  }

  /** `[s[i:i + n] for i in range(0, len(s), n)]`. */
  function Batches<T>(s: seq<T>, n: nat): (bs: seq<seq<T>>)
    requires n > 0
    ensures forall k :: 0 <= k < |bs| ==> 0 < |bs[k]| <= n
    decreases |s|
  {
    if |s| == 0 then []
    else if |s| <= n then [s]
    else [s[..n]] + Batches(s[n..], n)
  }

  /** The batches cover `s` exactly once, in order, and every batch but
      the last is full. */
  lemma {:induction false} BatchesPartition<T>(s: seq<T>, n: nat)
    requires n > 0
    ensures Flatten(Batches(s, n)) == s
    ensures forall k :: 0 <= k < |Batches(s, n)| - 1 ==> |Batches(s, n)[k]| == n
    decreases |s|
  {
    if |s| > n {
      BatchesPartition(s[n..], n);
      assert s == s[..n] + s[n..];
    }
  }

  lemma MulSucc(j: nat, n: nat)
    ensures (j + 1) * n == j * n + n
  {
  }

  /** There are ceil(|s| / n) batches: the last one starts below |s| and
      together they reach |s|. */
  lemma {:induction false} BatchesCount<T>(s: seq<T>, n: nat)
    requires n > 0
    ensures |Batches(s, n)| == 0 <==> |s| == 0
    ensures |Batches(s, n)| > 0 ==> (|Batches(s, n)| - 1) * n < |s| <= |Batches(s, n)| * n
    decreases |s|
  {
    if |s| > n {
      var t := s[n..];
      BatchesCount(t, n);
      var m := |Batches(t, n)|;
      MulSucc(m, n);
      MulSucc(m - 1, n);
    }
  }

  /** The end of batch `k`: `min(k*n + n, |s|)`. */
  function BatchEnd(k: nat, n: nat, len: nat): nat {
    if k * n + n < len then k * n + n else len
  }

  /** Batch `k` is the slice `s[k*n : k*n + n]`, as the `range` loop takes it. */
  lemma {:induction false} BatchesAreRangeSlices<T>(s: seq<T>, n: nat)
    requires n > 0
    ensures forall k: nat :: k < |Batches(s, n)| ==>
      k * n < BatchEnd(k, n, |s|) <= |s| && Batches(s, n)[k] == s[k * n .. BatchEnd(k, n, |s|)]
    decreases |s|
  {
    var bs := Batches(s, n);
    if |s| > n {
      var t := s[n..];
      BatchesAreRangeSlices(t, n);
      var bt := Batches(t, n);
      assert bs == [s[..n]] + bt;
      forall k: nat | k < |bs|
        ensures k * n < BatchEnd(k, n, |s|) <= |s| && bs[k] == s[k * n .. BatchEnd(k, n, |s|)]
      {
        if k > 0 {
          var j: nat := k - 1;
          assert bs[k] == bt[j];
          var e := BatchEnd(j, n, |t|);
          assert j * n < e <= |t| && bt[j] == t[j * n .. e];
          MulSucc(j, n);
          assert k * n == j * n + n;
          assert BatchEnd(k, n, |s|) == e + n;
          ShiftSlice(s, n, j * n, e);
        }
      }
    }
  }

  /** A slice of a suffix is a slice of the whole, shifted. */
  lemma ShiftSlice<T>(s: seq<T>, n: nat, a: nat, b: nat)
    requires n <= |s| && a <= b <= |s| - n
    ensures s[n..][a..b] == s[n + a .. n + b]
  {
  }
}
