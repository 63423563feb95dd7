/** Sequence operations behind `Array.prototype.filter`, `reduce`, `new Set(...)`
    and the stable `Array.prototype.sort`, with the facts the rest of the model
    relies on: filtering keeps order, de-duplication keeps first occurrences, and
    sorting permutes its input into comparator order. */
module Seqs {

  // ---------------------------------------------------------------- filter

  /** `s.filter(p)`. */
  function Filter<T>(s: seq<T>, p: T -> bool): (r: seq<T>)
    ensures |r| <= |s|
    ensures forall x :: x in r ==> x in s && p(x)
    ensures forall i :: 0 <= i < |s| && p(s[i]) ==> s[i] in r
  {
    if |s| == 0 then [] else (if p(s[0]) then [s[0]] else []) + Filter(s[1..], p)
  }

  /** `s.map(f)`. */
  function Map<T, U>(s: seq<T>, f: T -> U): (r: seq<U>)
    ensures |r| == |s|
    ensures forall i :: 0 <= i < |s| ==> r[i] == f(s[i])
  {
    if |s| == 0 then [] else [f(s[0])] + Map(s[1..], f)
  }

  /** `a` is obtained from `b` by deleting elements: order is kept. */
  ghost predicate IsSubseq<T>(a: seq<T>, b: seq<T>)
    decreases |b|
  {
    |a| == 0 || (|b| > 0 && ((a[0] == b[0] && IsSubseq(a[1..], b[1..])) || IsSubseq(a, b[1..])))
  }

  lemma {:induction false} FilterIsSubseq<T>(s: seq<T>, p: T -> bool)
    ensures IsSubseq(Filter(s, p), s)
    decreases |s|
  {
    if |s| > 0 {
      FilterIsSubseq(s[1..], p);
      var r := Filter(s, p);
      if p(s[0]) {
        assert r == [s[0]] + Filter(s[1..], p);
        assert r[1..] == Filter(s[1..], p);
      } else {
        assert r == Filter(s[1..], p);
      }
    }
  }

  lemma FilterAll<T>(s: seq<T>, p: T -> bool)
    requires forall i :: 0 <= i < |s| ==> p(s[i])
    ensures Filter(s, p) == s
  {
    if |s| > 0 {
      FilterAll(s[1..], p);
      assert s == [s[0]] + s[1..];
    }
  }

  lemma {:induction false} FilterNoDuplicates<T>(s: seq<T>, p: T -> bool)
    requires NoDuplicates(s)
    ensures NoDuplicates(Filter(s, p))
    decreases |s|
  {
    if |s| > 0 {
      FilterNoDuplicates(s[1..], p);
      var rest := Filter(s[1..], p);
      assert forall i :: 1 <= i < |s| ==> s[0] != s[i];
      assert s[0] !in rest;
    }
  }

  lemma FilterAppend<T>(a: seq<T>, b: seq<T>, p: T -> bool)
    ensures Filter(a + b, p) == Filter(a, p) + Filter(b, p)
  {
    if |a| > 0 {
      assert (a + b)[1..] == a[1..] + b;
      FilterAppend(a[1..], b, p);
    } else {
      assert a + b == b;
    }
  }

  /** When `p` holds of an element exactly when one of `q` and `r` does, and never
      both, filtering by `q` and by `r` splits the elements that pass `p`. */
  lemma {:induction false} FilterSplit<T>(s: seq<T>, p: T -> bool, q: T -> bool, r: T -> bool)
    requires forall i :: 0 <= i < |s| ==> (p(s[i]) <==> q(s[i]) || r(s[i]))
    requires forall i :: 0 <= i < |s| ==> !(q(s[i]) && r(s[i]))
    ensures |Filter(s, q)| + |Filter(s, r)| == |Filter(s, p)|
  {
    if |s| > 0 {
      assert forall i :: 1 <= i < |s| ==> s[1..][i - 1] == s[i];
      FilterSplit(s[1..], p, q, r);
    }
  }

  /** Moving an element from the end of one part to the front of the next. */
  lemma Regroup<T>(a: seq<T>, x: T, b: seq<T>)
    ensures (a + [x]) + b == a + ([x] + b)
  {
  }

  /** `f` of every element that passes `p`, collected in order, as a loop that
      appends to a result would. */
  function Collect<T, U>(s: seq<T>, p: T -> bool, f: T -> U): seq<U>
  {
    if |s| == 0 then []
    else Collect(s[..|s| - 1], p, f) + (if p(s[|s| - 1]) then [f(s[|s| - 1])] else [])
  }

  /** One more element of `s` collects one more value, when it passes. */
  lemma CollectStep<T, U>(s: seq<T>, i: int, p: T -> bool, f: T -> U)
    requires 0 <= i < |s|
    ensures Collect(s[..i + 1], p, f) == Collect(s[..i], p, f) + (if p(s[i]) then [f(s[i])] else [])
  {
    assert s[..i + 1][..i] == s[..i];
  }

  /** What is collected is `f` of an element that passes `p`, and every such
      value is collected. */
  lemma {:induction false} CollectMembers<T, U>(s: seq<T>, p: T -> bool, f: T -> U, y: U)
    ensures y in Collect(s, p, f) <==> exists i :: 0 <= i < |s| && p(s[i]) && f(s[i]) == y
    decreases |s|
  {
    if |s| > 0 {
      var init := s[..|s| - 1];
      CollectMembers(init, p, f, y);
      if y in Collect(init, p, f) {
        var i :| 0 <= i < |init| && p(init[i]) && f(init[i]) == y;
        assert s[i] == init[i];
      }
      if exists i :: 0 <= i < |s| && p(s[i]) && f(s[i]) == y {
        var i :| 0 <= i < |s| && p(s[i]) && f(s[i]) == y;
        if i < |init| {
          assert init[i] == s[i];
        }
      }
    }
  }

  // ---------------------------------------------------------------- sums

  /** `s.reduce((sum, x) => sum + f(x), 0)`. */
  function Sum<T>(s: seq<T>, f: T -> real): real
  {
    if |s| == 0 then 0.0 else Sum(s[..|s| - 1], f) + f(s[|s| - 1])
  }

  lemma SumAppend<T>(a: seq<T>, b: seq<T>, f: T -> real)
    ensures Sum(a + b, f) == Sum(a, f) + Sum(b, f)
    decreases |b|
  {
    if |b| > 0 {
      assert (a + b)[..|a + b| - 1] == a + b[..|b| - 1];
      SumAppend(a, b[..|b| - 1], f);
    } else {
      assert a + b == a;
    }
  }

  lemma SumNonNegative<T>(s: seq<T>, f: T -> real)
    requires forall i :: 0 <= i < |s| ==> f(s[i]) >= 0.0
    ensures Sum(s, f) >= 0.0
  {
    if |s| > 0 {
      SumNonNegative(s[..|s| - 1], f);
    }
  }

  /** Taking the element at `j` out of a sequence takes one copy of it out of
      the multiset. */
  lemma MultisetRemoveAt<T>(b: seq<T>, j: int)
    requires 0 <= j < |b|
    ensures multiset(b[..j] + b[j + 1..]) == multiset(b) - multiset{b[j]}
  {
    assert b == b[..j] + [b[j]] + b[j + 1..];
    assert multiset(b) == multiset(b[..j]) + multiset([b[j]]) + multiset(b[j + 1..]);
  }

  /** Taking the element at `j` out of a sequence takes its term out of the sum. */
  lemma SumRemoveAt<T>(b: seq<T>, j: int, f: T -> real)
    requires 0 <= j < |b|
    ensures Sum(b, f) == Sum(b[..j] + b[j + 1..], f) + f(b[j])
  {
    assert b == b[..j] + [b[j]] + b[j + 1..];
    SumAppend(b[..j] + [b[j]], b[j + 1..], f);
    SumAppend(b[..j], [b[j]], f);
    SumAppend(b[..j], b[j + 1..], f);
    assert Sum([b[j]], f) == f(b[j]) by {
      assert [b[j]][..0] == [];
    }
  }

  /** A sum does not depend on the order of its terms. */
  lemma {:induction false} SumPermutation<T>(a: seq<T>, b: seq<T>, f: T -> real)
    requires multiset(a) == multiset(b)
    ensures Sum(a, f) == Sum(b, f)
    decreases |a|
  {
    if |a| > 0 {
      var x, init := a[|a| - 1], a[..|a| - 1];
      assert x in multiset(b) by {
        assert a == init + [x];
      }
      var j :| 0 <= j < |b| && b[j] == x;
      var rest := b[..j] + b[j + 1..];
      assert multiset(rest) == multiset(init) by {
        MultisetRemoveAt(b, j);
        MultisetRemoveAt(a, |a| - 1);
        assert a[..|a| - 1] + a[|a|..] == init;
      }
      SumPermutation(init, rest, f);
      SumRemoveAt(b, j, f);
    }
  }

  // ---------------------------------------------------------------- distinct

  predicate NoDuplicates<T(==)>(s: seq<T>)
  {
    forall i, j :: 0 <= i < j < |s| ==> s[i] != s[j]
  }

  /** `Array.from(new Set(s))`: the first occurrence of every value, in order. */
  function Distinct<T(==,!new)>(s: seq<T>): (r: seq<T>)
    ensures NoDuplicates(r)
    ensures forall x :: x in r <==> x in s
    ensures |r| <= |s|
  {
    if |s| == 0 then []
    else
      var d := Distinct(s[..|s| - 1]);
      assert forall x :: x in s <==> x in s[..|s| - 1] || x == s[|s| - 1] by {
        assert s == s[..|s| - 1] + [s[|s| - 1]];
      }
      if s[|s| - 1] in d then d else d + [s[|s| - 1]]
  }

  /** Duplicates are dropped after their first occurrence, so the first element
      stays first. */
  lemma {:induction false} DistinctHead<T(!new)>(s: seq<T>)
    requires |s| > 0
    ensures |Distinct(s)| > 0 && Distinct(s)[0] == s[0]
  {
    if |s| > 1 {
      var p := s[..|s| - 1];
      DistinctHead(p);
      assert p[0] == s[0];
    }
  }

  /** Adding a value to a `Set` adds it at the end, unless it is already there. */
  lemma DistinctSnoc<T(!new)>(s: seq<T>, x: T)
    ensures Distinct(s + [x]) == if x in Distinct(s) then Distinct(s) else Distinct(s) + [x]
  {
    assert (s + [x])[..|s|] == s;
  }

  /** Collecting into a `Set` one more element of `s`. */
  lemma DistinctCollectStep<T, U(!new)>(s: seq<T>, i: int, p: T -> bool, f: T -> U)
    requires 0 <= i < |s|
    ensures var d := Distinct(Collect(s[..i], p, f));
      Distinct(Collect(s[..i + 1], p, f))
        == if p(s[i]) && f(s[i]) !in d then d + [f(s[i])] else d
  {
    CollectStep(s, i, p, f);
    var c := Collect(s[..i], p, f);
    if p(s[i]) {
      DistinctSnoc(c, f(s[i]));
    } else {
      assert c + [] == c;
    }
  }

  // ---------------------------------------------------------------- stable sort

  /** Insert `x` after every element it does not compare below. */
  function Insert<T>(x: T, s: seq<T>, cmp: (T, T) -> int): (r: seq<T>)
    ensures |r| == |s| + 1
    ensures multiset(r) == multiset(s) + multiset{x}
  {
    if |s| == 0 then [x]
    else if cmp(x, s[0]) < 0 then [x] + s
    else
      assert s == [s[0]] + s[1..];
      [s[0]] + Insert(x, s[1..], cmp)
  }

  /** A stable sort under `cmp` (negative: first argument goes first), as
      `Array.prototype.sort` is. */
  function Sort<T>(s: seq<T>, cmp: (T, T) -> int): (r: seq<T>)
    ensures |r| == |s|
    ensures multiset(r) == multiset(s)
  {
    if |s| == 0 then []
    else
      assert s == s[..|s| - 1] + [s[|s| - 1]];
      Insert(s[|s| - 1], Sort(s[..|s| - 1], cmp), cmp)
  }

  /** Every neighbouring pair is in comparator order. */
  ghost predicate AdjacentSorted<T>(s: seq<T>, cmp: (T, T) -> int)
  {
    forall i :: 0 <= i < |s| - 1 ==> cmp(s[i], s[i + 1]) <= 0
  }

  /** On the elements of `s`, `cmp(a, b) > 0` implies `cmp(b, a) < 0`. */
  ghost predicate Antisymmetric<T>(s: seq<T>, cmp: (T, T) -> int)
  {
    forall a, b :: a in s && b in s && cmp(a, b) > 0 ==> cmp(b, a) < 0
  }

  lemma {:induction false} InsertAdjacent<T>(x: T, s: seq<T>, cmp: (T, T) -> int, all: seq<T>)
    requires x in all && forall y :: y in s ==> y in all
    requires Antisymmetric(all, cmp)
    requires AdjacentSorted(s, cmp)
    ensures AdjacentSorted(Insert(x, s, cmp), cmp)
    decreases |s|
  {
    if |s| > 0 && cmp(x, s[0]) >= 0 {
      var t := Insert(x, s[1..], cmp);
      InsertAdjacent(x, s[1..], cmp, all);
      var r := [s[0]] + t;
      assert Insert(x, s, cmp) == r;
      forall i | 0 <= i < |r| - 1 ensures cmp(r[i], r[i + 1]) <= 0 {
        if i == 0 {
          if |s| > 1 && cmp(x, s[1]) >= 0 {
            assert t[0] == s[1];
          } else {
            assert t[0] == x;
            assert s[0] in all;
          }
        } else {
          assert r[i] == t[i - 1] && r[i + 1] == t[i];
        }
      }
    }
  }

  /** With an antisymmetric comparator, the sorted output is in comparator order. */
  lemma {:induction false} SortAdjacent<T>(s: seq<T>, cmp: (T, T) -> int)
    requires Antisymmetric(s, cmp)
    ensures AdjacentSorted(Sort(s, cmp), cmp)
    decreases |s|
  {
    if |s| > 0 {
      var init := s[..|s| - 1];
      assert forall y :: y in init ==> y in s;
      assert Antisymmetric(init, cmp);
      SortAdjacent(init, cmp);
      var sorted := Sort(init, cmp);
      assert forall y :: y in sorted ==> y in init by {
        forall y | y in sorted ensures y in init {
          assert y in multiset(sorted);
        }
      }
      InsertAdjacent(s[|s| - 1], sorted, cmp, s);
    }
  }

  /** `s` is ordered by the real-valued `rank`. */
  ghost predicate RankSorted<T>(s: seq<T>, rank: T -> real)
  {
    forall i, j :: 0 <= i < j < |s| ==> rank(s[i]) <= rank(s[j])
  }

  /** On the elements of `s`, the comparator orders strictly by `rank`. */
  ghost predicate RespectsRank<T>(s: seq<T>, cmp: (T, T) -> int, rank: T -> real)
  {
    forall a, b :: a in s && b in s ==>
      (rank(a) < rank(b) ==> cmp(a, b) < 0) && (rank(a) > rank(b) ==> cmp(a, b) > 0)
  }

  lemma {:induction false} InsertRank<T>(x: T, s: seq<T>, cmp: (T, T) -> int, rank: T -> real, all: seq<T>)
    requires x in all && forall y :: y in s ==> y in all
    requires RespectsRank(all, cmp, rank)
    requires RankSorted(s, rank)
    ensures RankSorted(Insert(x, s, cmp), rank)
    decreases |s|
  {
    var r := Insert(x, s, cmp);
    if |s| == 0 {
    } else if cmp(x, s[0]) < 0 {
      assert s[0] in all;
      assert rank(x) <= rank(s[0]);
      assert r == [x] + s;
      forall i, j | 0 <= i < j < |r| ensures rank(r[i]) <= rank(r[j]) {
        if i > 0 {
          assert r[i] == s[i - 1] && r[j] == s[j - 1];
        } else {
          assert r[j] == s[j - 1];
        }
      }
    } else {
      var h, t := s[0], Insert(x, s[1..], cmp);
      assert h in all;
      assert rank(h) <= rank(x);
      assert r == [h] + t;
      assert RankSorted(t, rank) by {
        InsertRank(x, s[1..], cmp, rank, all);
      }
      assert forall y :: y in t ==> rank(h) <= rank(y) by {
        forall y | y in t ensures rank(h) <= rank(y) {
          InsertMember(x, s[1..], cmp, y);
          if y != x {
            var k :| 0 <= k < |s[1..]| && s[1..][k] == y;
            assert s[k + 1] == y;
          }
        }
      }
      ConsRankSorted(h, t, rank);
    }
  }

  /** An element of an insertion is the inserted one or an element of the sequence. */
  lemma InsertMember<T>(x: T, s: seq<T>, cmp: (T, T) -> int, y: T)
    requires y in Insert(x, s, cmp)
    ensures y == x || y in s
  {
    assert y in multiset(Insert(x, s, cmp));
  }

  /** Putting an element no greater than all the others in front keeps the order. */
  lemma ConsRankSorted<T>(h: T, t: seq<T>, rank: T -> real)
    requires RankSorted(t, rank)
    requires forall y :: y in t ==> rank(h) <= rank(y)
    ensures RankSorted([h] + t, rank)
  {
    var r := [h] + t;
    forall i, j | 0 <= i < j < |r| ensures rank(r[i]) <= rank(r[j]) {
      assert r[j] == t[j - 1];
      if i > 0 {
        assert r[i] == t[i - 1];
      }
    }
  }

  /** A comparator that orders by `rank` leaves the sorted output ordered by `rank`. */
  lemma {:induction false} SortRank<T>(s: seq<T>, cmp: (T, T) -> int, rank: T -> real)
    requires RespectsRank(s, cmp, rank)
    ensures RankSorted(Sort(s, cmp), rank)
    decreases |s|
  {
    if |s| > 0 {
      var init := s[..|s| - 1];
      assert forall y :: y in init ==> y in s;
      assert RespectsRank(init, cmp, rank);
      SortRank(init, cmp, rank);
      var sorted := Sort(init, cmp);
      assert forall y :: y in sorted ==> y in init by {
        forall y | y in sorted ensures y in init {
          assert y in multiset(sorted);
        }
      }
      InsertRank(s[|s| - 1], sorted, cmp, rank, s);
    }
  }

  // ---------------------------------------------------------------- keys

  /** No two elements of `s` share a key under `f`. */
  ghost predicate UniqueBy<T, K>(s: seq<T>, f: T -> K)
  {
    forall i, j :: 0 <= i < j < |s| ==> f(s[i]) != f(s[j])
  }

  /** Filtering keeps keys apart. */
  lemma {:induction false} FilterUniqueBy<T, K>(s: seq<T>, p: T -> bool, f: T -> K)
    requires UniqueBy(s, f)
    ensures UniqueBy(Filter(s, p), f)
    decreases |s|
  {
    if |s| > 0 {
      var rest := Filter(s[1..], p);
      assert UniqueBy(s[1..], f) by {
        forall i, j | 0 <= i < j < |s[1..]| ensures f(s[1..][i]) != f(s[1..][j]) {
          assert s[1..][i] == s[i + 1] && s[1..][j] == s[j + 1];
        }
      }
      FilterUniqueBy(s[1..], p, f);
      if p(s[0]) {
        var r := [s[0]] + rest;
        forall y | y in rest ensures f(s[0]) != f(y) {
          var m :| 0 <= m < |s[1..]| && s[1..][m] == y;
          assert s[m + 1] == y;
        }
        forall i, j | 0 <= i < j < |r| ensures f(r[i]) != f(r[j]) {
          assert r[j] == rest[j - 1];
          if i > 0 {
            assert r[i] == rest[i - 1];
          }
        }
      }
    }
  }

  /** Reordering keeps keys apart. */
  lemma {:induction false} UniqueByPermutation<T, K>(a: seq<T>, b: seq<T>, f: T -> K)
    requires multiset(a) == multiset(b)
    requires UniqueBy(b, f)
    ensures UniqueBy(a, f)
    decreases |a|
  {
    if |a| > 0 {
      var x, init := a[|a| - 1], a[..|a| - 1];
      assert a == init + [x];
      assert x in multiset(b);
      var j :| 0 <= j < |b| && b[j] == x;
      var rest := b[..j] + b[j + 1..];
      assert multiset(rest) == multiset(init) by {
        MultisetRemoveAt(b, j);
        MultisetRemoveAt(a, |a| - 1);
        assert a[..|a| - 1] + a[|a|..] == init;
      }
      UniqueByRemoveAt(b, j, f);
      UniqueByPermutation(init, rest, f);
      forall y | y in init ensures f(y) != f(x) {
        assert y in multiset(rest);
      }
      UniqueBySnoc(init, x, f);
    }
  }

  /** Taking one element out keeps the others' keys apart, and none of them
      shares its key. */
  lemma UniqueByRemoveAt<T, K>(b: seq<T>, j: int, f: T -> K)
    requires 0 <= j < |b| && UniqueBy(b, f)
    ensures UniqueBy(b[..j] + b[j + 1..], f)
    ensures forall y :: y in b[..j] + b[j + 1..] ==> f(y) != f(b[j])
  {
    var rest := b[..j] + b[j + 1..];
    assert forall i :: 0 <= i < |rest| ==> rest[i] == b[if i < j then i else i + 1];
    forall i, k | 0 <= i < k < |rest| ensures f(rest[i]) != f(rest[k]) {
      assert rest[i] == b[if i < j then i else i + 1];
      assert rest[k] == b[if k < j then k else k + 1];
    }
  }

  /** Appending an element whose key is new keeps keys apart. */
  lemma UniqueBySnoc<T, K>(s: seq<T>, x: T, f: T -> K)
    requires UniqueBy(s, f)
    requires forall y :: y in s ==> f(y) != f(x)
    ensures UniqueBy(s + [x], f)
  {
    var a := s + [x];
    forall i, k | 0 <= i < k < |a| ensures f(a[i]) != f(a[k]) {
      assert a[i] == s[i];
      if k < |s| {
        assert a[k] == s[k];
      }
    }
  }

  /** Filtering keeps a ranked order. */
  lemma {:induction false} FilterRankSorted<T>(s: seq<T>, p: T -> bool, rank: T -> real)
    requires RankSorted(s, rank)
    ensures RankSorted(Filter(s, p), rank)
    decreases |s|
  {
    if |s| > 0 {
      var rest := Filter(s[1..], p);
      assert RankSorted(s[1..], rank) by {
        forall i, j | 0 <= i < j < |s[1..]| ensures rank(s[1..][i]) <= rank(s[1..][j]) {
          assert s[1..][i] == s[i + 1] && s[1..][j] == s[j + 1];
        }
      }
      FilterRankSorted(s[1..], p, rank);
      if p(s[0]) {
        forall y | y in rest ensures rank(s[0]) <= rank(y) {
          var m :| 0 <= m < |s[1..]| && s[1..][m] == y;
          assert s[m + 1] == y;
        }
        ConsRankSorted(s[0], rest, rank);
      }
    }
  }

  /** `after` is `before` followed by one element per tag, each related to its tag. */
  ghost predicate GrowsBy<A, B>(before: seq<B>, after: seq<B>, tags: seq<A>, rel: (A, B) -> bool)
  {
    |after| == |before| + |tags| && after[..|before|] == before
    && var added := after[|before|..];
       forall k :: 0 <= k < |tags| ==> rel(tags[k], added[k])
  }

  /** Growing by `t1`, then by `t2`, is growing by `t1 + t2`. */
  lemma GrowsByChain<A, B>(a: seq<B>, b: seq<B>, c: seq<B>, t1: seq<A>, t2: seq<A>,
                           rel: (A, B) -> bool)
    requires GrowsBy(a, b, t1, rel) && GrowsBy(b, c, t2, rel)
    ensures GrowsBy(a, c, t1 + t2, rel)
  {
    assert c[..|b|] == b;
    assert c[..|a|] == b[..|a|];
    forall k | 0 <= k < |t1| + |t2|
      ensures rel((t1 + t2)[k], c[|a|..][k])
    {
      if k < |t1| {
        assert rel(t1[k], b[|a|..][k]);
        assert c[|a|..][k] == b[|a|..][k];
      } else {
        var m := k - |t1|;
        assert rel(t2[m], c[|b|..][m]);
        assert c[|a|..][k] == c[|b|..][m];
      }
    }
  }
}
