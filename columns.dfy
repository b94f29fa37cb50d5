/** Column operations the script takes from pandas, stated on sequences: list
    lookup, boolean-mask filtering, dropping missing cells, sum, min, max,
    `value_counts` and `mode`. */
module Columns {
  import opened Wrappers

  /** `list.index(x)`: the position of the first occurrence, or nothing when `x`
      is absent (Python raises ValueError there). */
  function IndexOf<T(==)>(s: seq<T>, x: T): (r: Option<nat>)
    ensures r.Some? <==> x in s
    ensures r.Some? ==> r.value < |s| && s[r.value] == x && x !in s[..r.value]
  {
    if s == [] then None
    else if s[0] == x then Some(0)
    else match IndexOf(s[1..], x)
      case None => None
      case Some(i) => Some(i + 1)
  }

  /** No value occurs twice. */
  predicate Distinct<T(==)>(s: seq<T>)
  {
    forall j, k :: 0 <= j < k < |s| ==> s[j] != s[k]
  }

  /** In a sequence without repeats, `index` finds each element at its position. */
  lemma IndexOfDistinct<T>(s: seq<T>, k: nat)
    requires Distinct(s) && k < |s|
    ensures IndexOf(s, s[k]) == Some(k)
  {
    var i := IndexOf(s, s[k]).value;
    assert s[i] == s[k];
  }

  /** `df[mask]`: the elements that satisfy `p`, in their original order. */
  function Where<T(==)>(s: seq<T>, p: T -> bool): (r: seq<T>)
    ensures |r| <= |s|
    ensures forall x :: x in r ==> x in s && p(x)
  {
    if s == [] then []
    else (if p(s[0]) then [s[0]] else []) + Where(s[1..], p)
  }

  /** `r` is obtained from `s` by deleting elements, keeping the order. */
  predicate IsSubsequence<T(==)>(r: seq<T>, s: seq<T>)
    decreases |s|
  {
    if r == [] then true
    else if s == [] then false
    else (r[0] == s[0] && IsSubsequence(r[1..], s[1..])) || IsSubsequence(r, s[1..])
  }

  lemma {:induction false} WhereIsSubsequence<T>(s: seq<T>, p: T -> bool)
    ensures IsSubsequence(Where(s, p), s)
  {
    if s != [] {
      WhereIsSubsequence(s[1..], p);
      var r := Where(s, p);
      if p(s[0]) {
        assert r[0] == s[0] && r[1..] == Where(s[1..], p);
      } else {
        assert r == Where(s[1..], p);
      }
    }
  }

  /** Filtering keeps every occurrence of a matching element and no occurrence of
      any other element. */
  lemma {:induction false} WhereCounts<T>(s: seq<T>, p: T -> bool)
    ensures forall x :: multiset(Where(s, p))[x] == if p(x) then multiset(s)[x] else 0
  {
    if s != [] {
      WhereCounts(s[1..], p);
      assert s == [s[0]] + s[1..];
      assert multiset(s) == multiset([s[0]]) + multiset(s[1..]);
      var head := if p(s[0]) then [s[0]] else [];
      assert Where(s, p) == head + Where(s[1..], p);
      assert multiset(Where(s, p)) == multiset(head) + multiset(Where(s[1..], p));
    }
  }

  /** A mask that every element passes keeps the whole sequence. */
  lemma {:induction false} WhereAll<T>(s: seq<T>, p: T -> bool)
    requires forall x :: x in s ==> p(x)
    ensures Where(s, p) == s
  {
    if s != [] {
      WhereAll(s[1..], p);
      assert s == [s[0]] + s[1..];
    }
  }

  /** Two masks that agree everywhere select the same elements. */
  lemma {:induction false} WhereSame<T>(s: seq<T>, p: T -> bool, q: T -> bool)
    requires forall x :: p(x) == q(x)
    ensures Where(s, p) == Where(s, q)
  {
    if s != [] {
      WhereSame(s[1..], p, q);
    }
  }

  /** Filtering by `p` and then by `q` is filtering once by their conjunction. */
  lemma {:induction false} WhereThenWhere<T>(s: seq<T>, p: T -> bool, q: T -> bool, pq: T -> bool)
    requires forall x :: pq(x) == (p(x) && q(x))
    ensures Where(Where(s, p), q) == Where(s, pq)
  {
    if s != [] {
      WhereThenWhere(s[1..], p, q, pq);
      var head := if p(s[0]) then [s[0]] else [];
      assert Where(s, p) == head + Where(s[1..], p);
      WhereAppend(head, Where(s[1..], p), q);
    }
  }

  lemma {:induction false} WhereAppend<T>(a: seq<T>, b: seq<T>, p: T -> bool)
    ensures Where(a + b, p) == Where(a, p) + Where(b, p)
  {
    if a != [] {
      WhereAppend(a[1..], b, p);
      assert (a + b)[1..] == a[1..] + b;
    } else {
      assert a + b == b;
    }
  }

  /** `dropna()`: the values of the cells that are present, in order. */
  function Present<T>(s: seq<Option<T>>): (r: seq<T>)
    ensures |r| <= |s|
  {
    if s == [] then []
    else (if s[0].Some? then [s[0].value] else []) + Present(s[1..])
  }

  /** A value is among the present cells exactly when some cell holds it. */
  lemma {:induction false} PresentMembers<T>(s: seq<Option<T>>, x: T)
    ensures x in Present(s) <==> Some(x) in s
  {
    if s != [] {
      PresentMembers(s[1..], x);
      assert s == [s[0]] + s[1..];
    }
  }

  lemma {:induction false} PresentAppend<T>(a: seq<Option<T>>, b: seq<Option<T>>)
    ensures Present(a + b) == Present(a) + Present(b)
  {
    if a != [] {
      PresentAppend(a[1..], b);
      assert (a + b)[1..] == a[1..] + b;
    } else {
      assert a + b == b;
    }
  }

  /** `sum()` of an integer column. */
  function Sum(s: seq<int>): int
  {
    if s == [] then 0 else s[0] + Sum(s[1..])
  }

  lemma {:induction false} SumAppend(a: seq<int>, b: seq<int>)
    ensures Sum(a + b) == Sum(a) + Sum(b)
  {
    if a != [] {
      SumAppend(a[1..], b);
      assert (a + b)[1..] == a[1..] + b;
    } else {
      assert a + b == b;
    }
  }

  /** A sum of `n` values each at least `lo` and at most `hi` lies in `[n*lo, n*hi]`. */
  lemma {:induction false} SumBounds(s: seq<int>, lo: int, hi: int)
    requires forall x :: x in s ==> lo <= x <= hi
    ensures |s| * lo <= Sum(s) <= |s| * hi
  {
    if s != [] {
      assert s[0] in s;
      assert forall x :: x in s[1..] ==> x in s;
      SumBounds(s[1..], lo, hi);
      assert |s| * lo == |s[1..]| * lo + lo;
      assert |s| * hi == |s[1..]| * hi + hi;
    }
  }

  /** `min()` of a non-empty column. */
  function Min(s: seq<int>): (r: int)
    requires |s| > 0
    ensures r in s
    ensures forall x :: x in s ==> r <= x
  {
    if |s| == 1 then s[0]
    else
      var m := Min(s[1..]);
      assert forall x :: x in s ==> x == s[0] || x in s[1..];
      if s[0] <= m then s[0] else m
  }

  /** `max()` of a non-empty column. */
  function Max(s: seq<int>): (r: int)
    requires |s| > 0
    ensures r in s
    ensures forall x :: x in s ==> x <= r
  {
    if |s| == 1 then s[0]
    else
      var m := Max(s[1..]);
      assert forall x :: x in s ==> x == s[0] || x in s[1..];
      if s[0] >= m then s[0] else m
  }

  /** `value_counts()`: each distinct value of the column with its number of
      occurrences. */
  function ValueCounts<T(==,!new)>(s: seq<T>): (m: map<T, nat>)
    ensures forall x :: x in m <==> x in s
    ensures forall x :: x in m ==> m[x] == multiset(s)[x] && m[x] > 0
  {
    map x | x in s :: multiset(s)[x]
  }

  /** `le` is a total preorder: any two values compare, and comparison chains. */
  ghost predicate TotalOrder<T(!new)>(le: (T, T) -> bool)
  {
    (forall a, b :: le(a, b) || le(b, a)) &&
    (forall a, b, c :: le(a, b) && le(b, c) ==> le(a, c))
  }

  /** Values compared both ways are equal. */
  ghost predicate Antisymmetric<T(!new)>(le: (T, T) -> bool)
  {
    forall a, b :: le(a, b) && le(b, a) ==> a == b
  }

  /** `a` beats `b` as a mode of `s`: it occurs more often, or as often and is no
      larger. */
  predicate Beats<T(==)>(s: seq<T>, le: (T, T) -> bool, a: T, b: T)
  {
    multiset(s)[a] > multiset(s)[b] || (multiset(s)[a] == multiset(s)[b] && le(a, b))
  }

  /** The best candidate in `c` for the mode of `s`. */
  function ModeAmong<T(==)>(s: seq<T>, c: seq<T>, le: (T, T) -> bool): (r: T)
    requires |c| > 0
    ensures r in c
    ensures forall x :: x in c ==> multiset(s)[x] <= multiset(s)[r]
  {
    if |c| == 1 then c[0]
    else
      var b := ModeAmong(s, c[1..], le);
      assert forall x :: x in c ==> x == c[0] || x in c[1..];
      if Beats(s, le, c[0], b) then c[0] else b
  }

  /** `x` is a most frequent value of `s`. */
  ghost predicate IsMode<T(!new)>(s: seq<T>, x: T)
  {
    x in s && forall y :: multiset(s)[y] <= multiset(s)[x]
  }

  /** `x` is no larger than any value of `s` that occurs as often. */
  ghost predicate WinsTies<T(!new)>(s: seq<T>, x: T, le: (T, T) -> bool)
  {
    forall y :: y in s && multiset(s)[y] == multiset(s)[x] ==> le(x, y)
  }

  /** `mode()[0]`: pandas lists the most frequent values in ascending order and
      the script takes the first. */
  function Mode<T(==,!new)>(s: seq<T>, le: (T, T) -> bool): (r: T)
    requires |s| > 0
    ensures IsMode(s, r)
  {
    ModeAmong(s, s, le)
  }

  /** Among the values tied for the highest count, the mode is the least. */
  lemma {:induction false} ModeAmongIsLeast<T(!new)>(s: seq<T>, c: seq<T>, le: (T, T) -> bool)
    requires |c| > 0
    requires TotalOrder(le)
    ensures forall x :: x in c && multiset(s)[x] == multiset(s)[ModeAmong(s, c, le)] ==> le(ModeAmong(s, c, le), x)
  {
    if |c| > 1 {
      ModeAmongIsLeast(s, c[1..], le);
      var b := ModeAmong(s, c[1..], le);
      assert forall x :: x in c ==> x == c[0] || x in c[1..];
      if !Beats(s, le, c[0], b) {
        assert le(b, c[0]) || le(c[0], b);
      }
    } else {
      assert le(c[0], c[0]);
    }
  }

  lemma ModeIsLeast<T(!new)>(s: seq<T>, le: (T, T) -> bool)
    requires |s| > 0
    requires TotalOrder(le)
    ensures WinsTies(s, Mode(s, le), le)
  {
    ModeAmongIsLeast(s, s, le);
  }

  /** Under an order that is also antisymmetric, the mode is the only most
      frequent value that is no larger than the others tied with it. */
  lemma ModeUnique<T(!new)>(s: seq<T>, le: (T, T) -> bool, x: T)
    requires |s| > 0
    requires TotalOrder(le) && Antisymmetric(le)
    requires IsMode(s, x) && WinsTies(s, x, le)
    ensures x == Mode(s, le)
  {
    var m := Mode(s, le);
    ModeIsLeast(s, le);
    assert le(x, m) && le(m, x);
  }

  /** The mode's count is the largest count `value_counts` reports. */
  lemma ModeTopsValueCounts<T(!new)>(s: seq<T>, le: (T, T) -> bool)
    requires |s| > 0
    ensures Mode(s, le) in ValueCounts(s)
    ensures forall x :: x in ValueCounts(s) ==> ValueCounts(s)[x] <= ValueCounts(s)[Mode(s, le)]
  {
  }
}
