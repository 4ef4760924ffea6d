/**
 * The `ORDER BY` clause of the store's queries: a set of result rows laid out as a
 * sequence that respects a total preorder, and the orders the queries use.
 */
module Ordering {

  /**
   * A pair and a triple of rows to which the laws below apply. They only name the instances
   * of totality and transitivity, so that the solver uses a law when a proof asks for it
   * (through `Total` and `Transitive`) instead of chaining it without end.
   */
  ghost predicate Pair<T>(a: T, b: T)
  {
    true
  }

  ghost predicate Chain<T>(a: T, b: T, c: T)
  {
    true
  }

  /** `before` is total and transitive: ties are allowed, as in SQL ordering. */
  ghost predicate TotalPreorder<T(!new)>(before: (T, T) -> bool)
  {
    && (forall a, b {:trigger Pair(a, b)} :: before(a, b) || before(b, a))
    && (forall a, b, c {:trigger Chain(a, b, c)} :: before(a, b) && before(b, c) ==> before(a, c))
  }

  ghost predicate SortedBy<T>(s: seq<T>, before: (T, T) -> bool)
  {
    forall i, j :: 0 <= i < j < |s| ==> before(s[i], s[j])
  }

  lemma Total<T(!new)>(before: (T, T) -> bool, a: T, b: T)
    requires TotalPreorder(before)
    ensures before(a, b) || before(b, a)
  {
    assert Pair(a, b);
  }

  lemma Transitive<T(!new)>(before: (T, T) -> bool, a: T, b: T, c: T)
    requires TotalPreorder(before)
    requires before(a, b) && before(b, c)
    ensures before(a, c)
  {
    assert Chain(a, b, c);
  }

  /** `x` is a row of `s` that may come before every row of `s`. */
  ghost predicate IsFirst<T>(x: T, s: set<T>, before: (T, T) -> bool)
  {
    x in s && forall y :: y in s ==> before(x, y)
  }

  /** Every non-empty set has an element that may come first. */
  lemma {:induction false} FirstExists<T(!new)>(s: set<T>, before: (T, T) -> bool)
    requires s != {}
    requires TotalPreorder(before)
    ensures exists x :: IsFirst(x, s, before)
    decreases s
  {
    var y :| y in s;
    var rest := s - {y};
    if rest == {} {
      Total(before, y, y);
      forall z | z in s ensures before(y, z) {
        assert z in rest || z == y;
      }
      assert IsFirst(y, s, before);
    } else {
      FirstExists(rest, before);
      var x :| IsFirst(x, rest, before);
      Total(before, x, y);
      if before(y, x) {
        forall z | z in s ensures before(y, z) {
          if z == y {
            Total(before, y, y);
          } else {
            assert z in rest;
            Transitive(before, y, x, z);
          }
        }
        assert IsFirst(y, s, before);
      } else {
        forall z | z in s ensures before(x, z) {
          if z != y {
            assert z in rest;
          }
        }
        assert IsFirst(x, s, before);
      }
    }
  }

  /** What `Ordered` promises of `r` for the set `s`. */
  ghost predicate LaysOut<T(!new)>(r: seq<T>, s: set<T>, before: (T, T) -> bool)
  {
    && (forall x :: x in r <==> x in s)
    && |r| == |s|
    && (forall i, j :: 0 <= i < j < |r| ==> r[i] != r[j])
    && SortedBy(r, before)
  }

  /** A first row followed by a lay-out of the other rows is a lay-out of all of them. */
  lemma LaysOutCons<T(!new)>(x: T, s: set<T>, rest: seq<T>, before: (T, T) -> bool)
    requires IsFirst(x, s, before)
    requires LaysOut(rest, s - {x}, before)
    ensures LaysOut([x] + rest, s, before)
  {
    var r := [x] + rest;
    assert forall j :: 0 <= j < |rest| ==> rest[j] in s - {x};
    forall y ensures y in r <==> y in s {
      if y in s && y != x {
        assert y in s - {x};
      }
    }
    forall i, j | 0 <= i < j < |r| ensures before(r[i], r[j]) {
      assert r[j] == rest[j - 1];
      if i > 0 {
        assert r[i] == rest[i - 1];
      }
    }
  }

  /**
   * The rows of `s` in an order that `before` allows: every row exactly once, and every
   * row placed no later than the rows it may precede.
   */
  ghost function Ordered<T(!new)>(s: set<T>, before: (T, T) -> bool): (r: seq<T>)
    requires TotalPreorder(before)
    ensures forall x :: x in r <==> x in s
    ensures |r| == |s|
    ensures forall i, j :: 0 <= i < j < |r| ==> r[i] != r[j]
    ensures SortedBy(r, before)
    decreases s
  {
    if s == {} then []
    else
      FirstExists(s, before);
      var x :| IsFirst(x, s, before);
      var rest := Ordered(s - {x}, before);
      LaysOutCons(x, s, rest, before);
      [x] + rest
  }

  /** Lexicographic order on strings, by character code. */
  predicate StrLe(a: string, b: string)
  {
    |a| == 0 || (|b| > 0 && (a[0] < b[0] || (a[0] == b[0] && StrLe(a[1..], b[1..]))))
  }

  lemma {:induction false} StrLeTotal(a: string, b: string)
    ensures StrLe(a, b) || StrLe(b, a)
  {
    if |a| > 0 && |b| > 0 && a[0] == b[0] {
      StrLeTotal(a[1..], b[1..]);
    }
  }

  lemma {:induction false} StrLeTransitive(a: string, b: string, c: string)
    requires StrLe(a, b) && StrLe(b, c)
    ensures StrLe(a, c)
  {
    if |a| > 0 && a[0] == b[0] && b[0] == c[0] {
      StrLeTransitive(a[1..], b[1..], c[1..]);
    }
  }

  lemma {:induction false} StrLeAntisymmetric(a: string, b: string)
    requires StrLe(a, b) && StrLe(b, a)
    ensures a == b
  {
    if |a| > 0 {
      StrLeAntisymmetric(a[1..], b[1..]);
      assert a == [a[0]] + a[1..];
      assert b == [b[0]] + b[1..];
    }
  }

  /** `ORDER BY first, second` on a pair of string columns. */
  predicate PairLe(a1: string, a2: string, b1: string, b2: string)
  {
    (a1 != b1 && StrLe(a1, b1)) || (a1 == b1 && StrLe(a2, b2))
  }

  lemma PairLeTotal(a1: string, a2: string, b1: string, b2: string)
    ensures PairLe(a1, a2, b1, b2) || PairLe(b1, b2, a1, a2)
  {
    StrLeTotal(a1, b1);
    StrLeTotal(a2, b2);
  }

  lemma PairLeTransitive(a1: string, a2: string, b1: string, b2: string, c1: string, c2: string)
    requires PairLe(a1, a2, b1, b2) && PairLe(b1, b2, c1, c2)
    ensures PairLe(a1, a2, c1, c2)
  {
    if a1 == b1 && b1 == c1 {
      StrLeTransitive(a2, b2, c2);
    } else if a1 != b1 && b1 != c1 {
      StrLeTransitive(a1, b1, c1);
      if a1 == c1 {
        StrLeAntisymmetric(a1, b1);
      }
    }
  }
}
