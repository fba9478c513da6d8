/** Byte order on strings, and the sorted list of a set of names.  */
module Ordering {

  /** Strictly before in byte order.  */
  predicate Before(a: string, b: string) {
    b != [] && (a == [] || a[0] < b[0] || (a[0] == b[0] && Before(a[1..], b[1..])))
  }

  lemma {:induction false} BeforeTotal(a: string, b: string)
    ensures Before(a, b) || Before(b, a) || a == b
  {
    if a != [] && b != [] && a[0] == b[0] {
      BeforeTotal(a[1..], b[1..]);
      assert a == [a[0]] + a[1..] && b == [b[0]] + b[1..];
    }
  }

  lemma {:induction false} BeforeIrreflexive(a: string)
    ensures !Before(a, a)
  {
    if a != [] {
      BeforeIrreflexive(a[1..]);
    }
  }

  lemma {:induction false} BeforeTransitive(a: string, b: string, c: string)
    requires Before(a, b) && Before(b, c)
    ensures Before(a, c)
  {
    if a != [] && a[0] == b[0] && b[0] == c[0] {
      BeforeTransitive(a[1..], b[1..], c[1..]);
    }
  }

  /** They agree up to `i`, and there the one ends or has the smaller character.  */
  predicate PartsAt(a: string, b: string, i: nat) {
    i <= |a| && i < |b| && a[..i] == b[..i] && (i == |a| || a[i] < b[i])
  }

  /** Byte order is decided where the strings first part.  */
  lemma {:induction false} BeforeIsFirstDifference(a: string, b: string)
    ensures Before(a, b) <==> exists i: nat :: PartsAt(a, b, i)
  {
    if a != [] && b != [] && a[0] == b[0] {
      BeforeIsFirstDifference(a[1..], b[1..]);
      if i: nat :| PartsAt(a[1..], b[1..], i) {
        assert a[..i + 1] == [a[0]] + a[1..][..i] && b[..i + 1] == [b[0]] + b[1..][..i];
        assert PartsAt(a, b, i + 1);
      }
      if i: nat :| PartsAt(a, b, i) {
        assert i > 0 ==> a[1..][..i - 1] == a[..i][1..] && b[1..][..i - 1] == b[..i][1..];
        assert i > 0 ==> PartsAt(a[1..], b[1..], i - 1);
      }
    } else if Before(a, b) {
      assert PartsAt(a, b, 0);
    } else {
      forall i: nat ensures !PartsAt(a, b, i) {
        assert 0 < i <= |a| && i <= |b| ==> a[..i][0] == a[0] && b[..i][0] == b[0];
      }
    }
  }

  predicate Ascending(names: seq<string>) {
    forall i, j :: 0 <= i < j < |names| ==> Before(names[i], names[j])
  }

  /** Names in byte order are distinct.  */
  lemma AscendingDistinct(names: seq<string>)
    requires Ascending(names)
    ensures forall i, j :: 0 <= i < j < |names| ==> names[i] != names[j]
  {
    forall i, j | 0 <= i < j < |names| ensures names[i] != names[j] {
      BeforeIrreflexive(names[i]);
    }
  }

  /** `less` is a strict total order.  */
  ghost predicate Orders<T(!new)>(less: (T, T) -> bool) {
    && (forall a :: !less(a, a))
    && (forall a, b :: less(a, b) || less(b, a) || a == b)
    && (forall a, b, c :: less(a, b) && less(b, c) ==> less(a, c))
  }

  lemma BeforeOrders()
    ensures Orders(Before)
  {
    forall a: string ensures !Before(a, a) { BeforeIrreflexive(a); }
    forall a: string, b: string ensures Before(a, b) || Before(b, a) || a == b { BeforeTotal(a, b); }
    forall a: string, b: string, c: string | Before(a, b) && Before(b, c) ensures Before(a, c) {
      BeforeTransitive(a, b, c);
    }
  }

  predicate InOrder<T>(less: (T, T) -> bool, s: seq<T>) {
    forall i, j :: 0 <= i < j < |s| ==> less(s[i], s[j])
  }

  /** Inserting a new element where it belongs keeps the order.  */
  method Insert<T(!new, ==)>(less: (T, T) -> bool, s: seq<T>, x: T) returns (r: seq<T>)
    requires Orders(less) && InOrder(less, s) && x !in s
    ensures InOrder(less, r) && |r| == |s| + 1
    ensures forall y :: y in r <==> y in s || y == x
  {
    var at := 0;
    while at < |s| && less(s[at], x)
      invariant 0 <= at <= |s| && forall i :: 0 <= i < at ==> less(s[i], x)
    {
      at := at + 1;
    }
    r := s[..at] + [x] + s[at..];
    assert forall j :: at < j < |s| ==> less(s[at], s[j]);
    assert at < |s| ==> s[at] in s && less(x, s[at]);
  }

  /** A set of names as a sorted list.  */
  method Sorted(names: set<string>) returns (r: seq<string>)
    ensures Ascending(r) && |r| == |names|
    ensures forall x :: x in r <==> x in names
  {
    r := [];
    BeforeOrders();
    var left := names;
    while left != {}
      invariant Ascending(r) && |r| + |left| == |names|
      invariant forall x :: x in names <==> x in r || x in left
      invariant forall x :: x in r ==> x !in left
      decreases |left|
    {
      var name :| name in left;
      assert InOrder(Before, r);
      r := Insert(Before, r, name);
      left := left - {name};
    }
  }
}
