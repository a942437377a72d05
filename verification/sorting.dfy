/** The stable descending sort the plugins rely on: Python's
    `sorted(xs, key=…, reverse=True)` and `list.sort(key=…, reverse=True)`, and
    JavaScript's `Array.prototype.sort` with a comparator that puts larger keys
    first (stable since ES2019). Elements are compared through `geq`, "at least
    as large as", derived from the script's key. */
module Sorting {

  /** Every two elements compare, and the comparison is transitive. */
  ghost predicate TotalPreorder<T(!new)>(geq: (T, T) -> bool) {
    && (forall a, b :: geq(a, b) || geq(b, a))
    && (forall a, b, c :: geq(a, b) && geq(b, c) ==> geq(a, c))
  }

  /** Largest first. */
  ghost predicate SortedBy<T>(s: seq<T>, geq: (T, T) -> bool) {
    forall i, j :: 0 <= i < j < |s| ==> geq(s[i], s[j])
  }

  /** `a` and `b` have equal keys. */
  predicate Tied<T>(a: T, b: T, geq: (T, T) -> bool) {
    geq(a, b) && geq(b, a)
  }

  /** The elements of `s` whose key equals that of `k`, in order. */
  function TiedWith<T>(s: seq<T>, k: T, geq: (T, T) -> bool): (r: seq<T>)
    ensures |r| <= |s|
  {
    if |s| == 0 then []
    else (if Tied(s[0], k, geq) then [s[0]] else []) + TiedWith(s[1..], k, geq)
  }

  /** Puts `x` in front of the first element it is at least as large as. */
  function Insert<T>(x: T, s: seq<T>, geq: (T, T) -> bool): (r: seq<T>)
    ensures multiset(r) == multiset(s) + multiset{x}
    ensures |r| == |s| + 1
  {
    if |s| == 0 then [x]
    else if geq(x, s[0]) then [x] + s
    else
      assert s == [s[0]] + s[1..];
      [s[0]] + Insert(x, s[1..], geq)
  }

  /** Stable sort, largest first. */
  function SortDescending<T>(s: seq<T>, geq: (T, T) -> bool): (r: seq<T>)
    ensures multiset(r) == multiset(s)
    ensures |r| == |s|
  {
    if |s| == 0 then []
    else
      assert s == [s[0]] + s[1..];
      Insert(s[0], SortDescending(s[1..], geq), geq)
  }

  lemma {:induction false} InsertSorted<T(!new)>(x: T, s: seq<T>, geq: (T, T) -> bool)
    requires TotalPreorder(geq) && SortedBy(s, geq)
    ensures SortedBy(Insert(x, s, geq), geq)
  {
    if |s| == 0 {
    } else if geq(x, s[0]) {
      var r := [x] + s;
      forall i, j | 0 <= i < j < |r| ensures geq(r[i], r[j]) {
        if i == 0 {
          assert geq(x, s[0]) && (j == 1 || geq(s[0], s[j - 1]));
        }
      }
    } else {
      assert geq(s[0], x);
      var t := s[1..];
      assert SortedBy(t, geq);
      InsertSorted(x, t, geq);
      var it := Insert(x, t, geq);
      var r := [s[0]] + it;
      assert forall e :: e in multiset(it) ==> e == x || e in multiset(t);
      forall i, j | 0 <= i < j < |r| ensures geq(r[i], r[j]) {
        if i == 0 {
          var e := it[j - 1];
          assert e in multiset(it);
          if e != x {
            assert e in t;
            var k :| 0 <= k < |t| && t[k] == e;
            assert geq(s[0], s[k + 1]);
          }
        }
      }
    }
  }

  /** The sort really orders its result. */
  lemma {:induction false} SortDescendingSorted<T(!new)>(s: seq<T>, geq: (T, T) -> bool)
    requires TotalPreorder(geq)
    ensures SortedBy(SortDescending(s, geq), geq)
  {
    if |s| > 0 {
      SortDescendingSorted(s[1..], geq);
      InsertSorted(s[0], SortDescending(s[1..], geq), geq);
    }
  }

  lemma {:induction false} TiedWithAppend<T>(a: seq<T>, b: seq<T>, k: T, geq: (T, T) -> bool)
    ensures TiedWith(a + b, k, geq) == TiedWith(a, k, geq) + TiedWith(b, k, geq)
  {
    if |a| == 0 {
      assert a + b == b;
    } else {
      assert (a + b)[0] == a[0];
      assert (a + b)[1..] == a[1..] + b;
      TiedWithAppend(a[1..], b, k, geq);
    }
  }

  /** Inserting `x` places it ahead of every element tied with it. */
  lemma {:induction false} InsertTiedWith<T(!new)>(x: T, s: seq<T>, k: T, geq: (T, T) -> bool)
    requires TotalPreorder(geq)
    ensures TiedWith(Insert(x, s, geq), k, geq)
         == (if Tied(x, k, geq) then [x] else []) + TiedWith(s, k, geq)
  {
    if |s| == 0 {
    } else if geq(x, s[0]) {
      TiedWithAppend([x], s, k, geq);
    } else {
      InsertTiedWith(x, s[1..], k, geq);
      TiedWithAppend([s[0]], Insert(x, s[1..], geq), k, geq);
      assert [s[0]] + Insert(x, s[1..], geq) == Insert(x, s, geq);
      if Tied(x, k, geq) {
        assert !Tied(s[0], k, geq);
      }
    }
  }

  /** Stability: among elements with equal keys the input order is kept. */
  lemma {:induction false} SortDescendingStable<T(!new)>(s: seq<T>, k: T, geq: (T, T) -> bool)
    requires TotalPreorder(geq)
    ensures TiedWith(SortDescending(s, geq), k, geq) == TiedWith(s, k, geq)
  {
    if |s| > 0 {
      SortDescendingStable(s[1..], k, geq);
      InsertTiedWith(s[0], SortDescending(s[1..], geq), k, geq);
    }
  }

  /** The sort only compares elements of its input, so two comparisons that
      agree there give the same order. */
  lemma {:induction false} SortAgree<T>(s: seq<T>, g1: (T, T) -> bool, g2: (T, T) -> bool)
    requires forall a, b :: a in s && b in s ==> g1(a, b) == g2(a, b)
    ensures SortDescending(s, g1) == SortDescending(s, g2)
  {
    if |s| > 0 {
      SortAgree(s[1..], g1, g2);
      var t := SortDescending(s[1..], g1);
      assert forall y :: y in t ==> y in s by {
        forall y | y in t ensures y in s {
          assert y in multiset(t);
        }
      }
      InsertAgree(s[0], t, g1, g2, s);
    }
  }

  lemma {:induction false} InsertAgree<T>(x: T, t: seq<T>, g1: (T, T) -> bool, g2: (T, T) -> bool, s: seq<T>)
    requires x in s && forall y :: y in t ==> y in s
    requires forall a, b :: a in s && b in s ==> g1(a, b) == g2(a, b)
    ensures Insert(x, t, g1) == Insert(x, t, g2)
  {
    if |t| > 0 {
      assert t[0] in s;
      InsertAgree(x, t[1..], g1, g2, s);
    }
  }
}
