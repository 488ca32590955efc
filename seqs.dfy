/** Sequence operations the application relies on: the JavaScript array methods
    `filter`, `find` and a comparator-driven stable `sort`, together with the
    subsequence relation and the facts about them that the rest of the model uses. */
module Seqs {

  /** A value or nothing; `None` plays the part of JavaScript's `null` / `undefined`. */
  datatype Option<+T> = None | Some(value: T)

  /** `a` can be obtained from `b` by deleting elements: `a` occurs in `b` in order. */
  predicate Subseq<T(==)>(a: seq<T>, b: seq<T>)
    decreases |b|
  {
    if a == [] then true
    else if b == [] then false
    else (a[0] == b[0] && Subseq(a[1..], b[1..])) || Subseq(a, b[1..])
  }

  /** Every element of a subsequence is an element of the sequence it came from. */
  lemma {:induction false} SubseqMembers<T>(a: seq<T>, b: seq<T>)
    requires Subseq(a, b)
    ensures forall x :: x in a ==> x in b
    ensures |a| <= |b|
    decreases |b|
  {
    if a != [] {
      if a[0] == b[0] && Subseq(a[1..], b[1..]) {
        SubseqMembers(a[1..], b[1..]);
        assert forall x :: x in a ==> x == a[0] || x in a[1..];
      } else {
        SubseqMembers(a, b[1..]);
      }
    }
  }

  lemma {:induction false} SubseqTrans<T>(a: seq<T>, b: seq<T>, c: seq<T>)
    requires Subseq(a, b) && Subseq(b, c)
    ensures Subseq(a, c)
    decreases |c|
  {
    if a != [] {
      assert b != [] && c != [];
      if b[0] == c[0] && Subseq(b[1..], c[1..]) {
        if a[0] == b[0] && Subseq(a[1..], b[1..]) {
          SubseqTrans(a[1..], b[1..], c[1..]);
        } else {
          SubseqTrans(a, b[1..], c[1..]);
        }
      } else {
        SubseqTrans(a, b, c[1..]);
      }
    }
  }

  /** `s.filter(p)`: the elements of `s` that satisfy `p`, in their original order,
      each with its original number of occurrences. */
  function Filter<T(!new)>(p: T -> bool, s: seq<T>): (r: seq<T>)
    ensures forall x {:trigger x in r} :: x in r <==> x in s && p(x)
    ensures |r| <= |s|
  {
    if s == [] then []
    else
      var rest := Filter(p, s[1..]);
      assert s == [s[0]] + s[1..];
      if p(s[0]) then [s[0]] + rest else rest
  }

  /** What a filter keeps occurs in the input in the same order. */
  lemma {:induction false} FilterSubseq<T(!new)>(p: T -> bool, s: seq<T>)
    ensures Subseq(Filter(p, s), s)
  {
    if s != [] {
      FilterSubseq(p, s[1..]);
      var rest := Filter(p, s[1..]);
      if p(s[0]) {
        assert ([s[0]] + rest)[1..] == rest;
      }
    }
  }

  /** Filtering keeps every occurrence of a selected element and none of the others. */
  lemma {:induction false} FilterMultiset<T(!new)>(p: T -> bool, s: seq<T>)
    ensures forall x :: multiset(Filter(p, s))[x] == if p(x) then multiset(s)[x] else 0
  {
    if s != [] {
      FilterMultiset(p, s[1..]);
      assert s == [s[0]] + s[1..];
    }
  }

  /** A filter that keeps nothing yields the empty sequence. */
  lemma {:induction false} FilterNone<T(!new)>(p: T -> bool, s: seq<T>)
    requires forall i :: 0 <= i < |s| ==> !p(s[i])
    ensures Filter(p, s) == []
  {
    if s != [] {
      assert !p(s[0]);
      FilterNone(p, s[1..]);
    }
  }

  /** Filtering distributes over concatenation. */
  lemma {:induction false} FilterAppend<T(!new)>(p: T -> bool, a: seq<T>, b: seq<T>)
    ensures Filter(p, a + b) == Filter(p, a) + Filter(p, b)
  {
    if a == [] {
      assert a + b == b;
    } else {
      var t := a[1..];
      FilterAppend(p, t, b);
      assert (a + b)[0] == a[0] && (a + b)[1..] == t + b;
      if p(a[0]) {
        assert Filter(p, a + b) == [a[0]] + (Filter(p, t) + Filter(p, b));
        assert [a[0]] + (Filter(p, t) + Filter(p, b)) == ([a[0]] + Filter(p, t)) + Filter(p, b);
      } else {
        assert Filter(p, a + b) == Filter(p, t + b);
        assert Filter(p, a) == Filter(p, t);
      }
    }
  }

  /** A filter that keeps exactly the first `k` elements returns that prefix. */
  lemma {:induction false} FilterKeepsPrefix<T(!new)>(p: T -> bool, s: seq<T>, k: nat)
    requires k <= |s|
    requires forall i :: 0 <= i < k ==> p(s[i])
    requires forall i :: k <= i < |s| ==> !p(s[i])
    ensures Filter(p, s) == s[..k]
  {
    FilterPrefix(p, s, k);
    FilterAll(p, s[..k]);
  }

  /** A filter that keeps everything is the identity. */
  lemma {:induction false} FilterAll<T(!new)>(p: T -> bool, s: seq<T>)
    requires forall i :: 0 <= i < |s| ==> p(s[i])
    ensures Filter(p, s) == s
  {
    if s != [] {
      assert p(s[0]);
      FilterAll(p, s[1..]);
      assert s == [s[0]] + s[1..];
    }
  }

  /** When nothing past position `k` is kept, filtering the prefix up to `k` suffices. */
  lemma FilterPrefix<T(!new)>(p: T -> bool, s: seq<T>, k: nat)
    requires k <= |s|
    requires forall i :: k <= i < |s| ==> !p(s[i])
    ensures Filter(p, s) == Filter(p, s[..k])
  {
    assert s == s[..k] + s[k..];
    FilterAppend(p, s[..k], s[k..]);
    FilterNone(p, s[k..]);
  }

  /** Filtering depends only on the predicate's values on the elements. */
  lemma {:induction false} FilterExt<T(!new)>(p: T -> bool, q: T -> bool, s: seq<T>)
    requires forall x :: x in s ==> p(x) == q(x)
    ensures Filter(p, s) == Filter(q, s)
  {
    if s != [] {
      assert forall x :: x in s[1..] ==> x in s;
      FilterExt(p, q, s[1..]);
    }
  }

  /** Filtering with a stronger predicate keeps a subsequence of what the weaker keeps. */
  lemma {:induction false} FilterAntitone<T(!new)>(p: T -> bool, q: T -> bool, s: seq<T>)
    requires forall x :: x in s && q(x) ==> p(x)
    ensures Subseq(Filter(q, s), Filter(p, s))
  {
    if s != [] {
      assert forall x :: x in s[1..] ==> x in s;
      FilterAntitone(p, q, s[1..]);
      var a, b := Filter(q, s[1..]), Filter(p, s[1..]);
      if q(s[0]) {
        assert ([s[0]] + a)[1..] == a && ([s[0]] + b)[1..] == b;
      } else if p(s[0]) {
        assert ([s[0]] + b)[1..] == b;
      }
    }
  }

  /** Two filters applied one after the other keep a subsequence of the input. */
  lemma {:induction false} FilterFilterSubseq<T(!new)>(p: T -> bool, q: T -> bool, s: seq<T>)
    ensures Subseq(Filter(q, Filter(p, s)), s)
  {
    FilterSubseq(p, s);
    FilterSubseq(q, Filter(p, s));
    SubseqTrans(Filter(q, Filter(p, s)), Filter(p, s), s);
  }

  /** `s.find(p)`: the first element of `s` that satisfies `p`, or `None`. */
  function Find<T>(p: T -> bool, s: seq<T>): (r: Option<T>)
    ensures r.None? <==> forall x :: x in s ==> !p(x)
    ensures r.Some? ==> exists i :: 0 <= i < |s| && s[i] == r.value && p(s[i]) && forall j :: 0 <= j < i ==> !p(s[j])
  {
    if s == [] then None
    else if p(s[0]) then Some(s[0])
    else
      var r := Find(p, s[1..]);
      assert s == [s[0]] + s[1..];
      assert r.Some? ==> exists i :: 1 <= i < |s| && s[i] == r.value && p(s[i]) && forall j :: 0 <= j < i ==> !p(s[j]) by {
        if r.Some? {
          var k :| 0 <= k < |s[1..]| && s[1..][k] == r.value && p(s[1..][k]) && forall j :: 0 <= j < k ==> !p(s[1..][j]);
          assert forall j :: 1 <= j < k + 1 ==> s[j] == s[1..][j - 1];
        }
      }
      r
  }

  /** `s` is in nondecreasing order of `key`. */
  predicate SortedBy<T>(key: T -> int, s: seq<T>)
  {
    forall i, j :: 0 <= i < j < |s| ==> key(s[i]) <= key(s[j])
  }

  /** Each element is at most its successor: the pairwise form of `SortedBy`. */
  predicate AdjacentSortedBy<T>(key: T -> int, s: seq<T>)
  {
    forall i :: 0 < i < |s| ==> key(s[i - 1]) <= key(s[i])
  }

  lemma {:induction false} AdjacentSorted<T>(key: T -> int, s: seq<T>)
    requires AdjacentSortedBy(key, s)
    ensures SortedBy(key, s)
  {
    if s != [] {
      AdjacentSorted(key, s[1..]);
      assert forall j :: 0 < j < |s| ==> key(s[0]) <= key(s[j]) by {
        forall j | 0 < j < |s| ensures key(s[0]) <= key(s[j]) {
          if j > 1 {
            assert key(s[1..][0]) <= key(s[1..][j - 1]);
          }
        }
      }
    }
  }

  /** A subsequence of a sorted sequence is sorted. */
  lemma {:induction false} SubseqSorted<T>(key: T -> int, a: seq<T>, b: seq<T>)
    requires Subseq(a, b) && SortedBy(key, b)
    ensures SortedBy(key, a)
    decreases |b|
  {
    if a != [] {
      assert SortedBy(key, b[1..]) by {
        forall i, j | 0 <= i < j < |b[1..]| ensures key(b[1..][i]) <= key(b[1..][j]) {
          assert b[1..][i] == b[i + 1] && b[1..][j] == b[j + 1];
        }
      }
      if a[0] == b[0] && Subseq(a[1..], b[1..]) {
        SubseqSorted(key, a[1..], b[1..]);
        SubseqMembers(a[1..], b[1..]);
        forall i, j | 0 <= i < j < |a| ensures key(a[i]) <= key(a[j]) {
          if i > 0 {
            assert a[i] == a[1..][i - 1] && a[j] == a[1..][j - 1];
          } else {
            assert a[j] in a[1..];
            var m :| 0 <= m < |b[1..]| && b[1..][m] == a[j];
            assert b[m + 1] == a[j];
          }
        }
      } else {
        SubseqSorted(key, a, b[1..]);
      }
    }
  }

  /** Places `x` before the first element whose key is not smaller than its own. */
  function InsertBy<T>(key: T -> int, x: T, s: seq<T>): (r: seq<T>)
    ensures multiset(r) == multiset{x} + multiset(s)
  {
    if s == [] || key(x) <= key(s[0]) then
      [x] + s
    else
      assert s == [s[0]] + s[1..];
      [s[0]] + InsertBy(key, x, s[1..])
  }

  /** Putting in front an element no larger than any other keeps a sequence sorted. */
  lemma {:induction false} SortedCons<T>(key: T -> int, y: T, t: seq<T>)
    requires SortedBy(key, t)
    requires forall z :: z in t ==> key(y) <= key(z)
    ensures SortedBy(key, [y] + t)
  {
    forall i, j | 0 <= i < j < |[y] + t| ensures key(([y] + t)[i]) <= key(([y] + t)[j]) {
      assert ([y] + t)[j] == t[j - 1];
      if i > 0 {
        assert ([y] + t)[i] == t[i - 1];
      }
    }
  }

  lemma {:induction false} InsertBySorted<T>(key: T -> int, x: T, s: seq<T>)
    requires SortedBy(key, s)
    ensures SortedBy(key, InsertBy(key, x, s))
  {
    if s == [] || key(x) <= key(s[0]) {
      SortedCons(key, x, s);
    } else {
      var rest := InsertBy(key, x, s[1..]);
      assert SortedBy(key, s[1..]) by {
        forall i, j | 0 <= i < j < |s[1..]| ensures key(s[1..][i]) <= key(s[1..][j]) {
          assert s[1..][i] == s[i + 1] && s[1..][j] == s[j + 1];
        }
      }
      InsertBySorted(key, x, s[1..]);
      forall z | z in rest ensures key(s[0]) <= key(z) {
        assert z in multiset(rest);
        if z != x {
          assert z in s[1..];
          var m :| 0 <= m < |s[1..]| && s[1..][m] == z;
          assert s[m + 1] == z;
        }
      }
      SortedCons(key, s[0], rest);
    }
  }

  /** `s.slice().sort((a, b) => key(a) - key(b))` for a stable sort: an insertion sort. */
  function SortBy<T>(key: T -> int, s: seq<T>): (r: seq<T>)
    ensures multiset(r) == multiset(s)
    ensures SortedBy(key, r)
  {
    if s == [] then []
    else
      assert s == [s[0]] + s[1..];
      InsertBySorted(key, s[0], SortBy(key, s[1..]));
      InsertBy(key, s[0], SortBy(key, s[1..]))
  }

  /** Filtering a sequence with a given first element. */
  lemma {:induction false} FilterCons<T(!new)>(p: T -> bool, x: T, t: seq<T>)
    ensures Filter(p, [x] + t) == (if p(x) then [x] else []) + Filter(p, t)
  {
    assert ([x] + t)[0] == x && ([x] + t)[1..] == t;
  }

  /** Two elements that are not both kept may trade places without changing the filter. */
  lemma {:induction false} FilterSwapCons<T(!new)>(p: T -> bool, y: T, x: T, rest: seq<T>, tail: seq<T>)
    requires !(p(y) && p(x))
    requires Filter(p, rest) == (if p(x) then [x] else []) + tail
    ensures Filter(p, [y] + rest) == (if p(x) then [x] else []) + ((if p(y) then [y] else []) + tail)
  {
    FilterCons(p, y, rest);
    if p(x) {
      assert Filter(p, [y] + rest) == [] + ([x] + tail);
    } else {
      assert Filter(p, [y] + rest) == (if p(y) then [y] else []) + ([] + tail);
    }
  }

  /** Keeping only the elements of one key `d` after inserting `x`. */
  lemma {:induction false} InsertByStable<T(!new)>(key: T -> int, d: int, p: T -> bool, x: T, s: seq<T>)
    requires forall y :: p(y) == (key(y) == d)
    ensures Filter(p, InsertBy(key, x, s)) == (if p(x) then [x] else []) + Filter(p, s)
  {
    if s == [] || key(x) <= key(s[0]) {
      FilterCons(p, x, s);
    } else {
      var rest := InsertBy(key, x, s[1..]);
      assert InsertBy(key, x, s) == [s[0]] + rest;
      InsertByStable(key, d, p, x, s[1..]);
      assert !(p(s[0]) && p(x));
      FilterSwapCons(p, s[0], x, rest, Filter(p, s[1..]));
      assert Filter(p, s) == (if p(s[0]) then [s[0]] else []) + Filter(p, s[1..]);
    }
  }

  /** The sort is stable: for each key `d` (selected by `p`), the elements with that
      key appear in the sorted sequence in the same order as in the input. */
  lemma {:induction false} SortByStable<T(!new)>(key: T -> int, d: int, p: T -> bool, s: seq<T>)
    requires forall y :: p(y) == (key(y) == d)
    ensures Filter(p, SortBy(key, s)) == Filter(p, s)
  {
    if s != [] {
      SortByStable(key, d, p, s[1..]);
      InsertByStable(key, d, p, s[0], SortBy(key, s[1..]));
      FilterCons(p, s[0], s[1..]);
      assert s == [s[0]] + s[1..];
    }
  }
}
