/** Least elements and sorted enumerations of finite sets under a strict linear order. */
module Ordering {
  import opened Common

  ghost predicate StrictLinear<T(!new)>(less: (T, T) -> bool) {
    && (forall x :: !less(x, x))
    && (forall x, y :: less(x, y) || x == y || less(y, x))
    && (forall x, y, z :: less(x, y) && less(y, z) ==> less(x, z))
  }

  ghost predicate IsLeast<T>(m: T, s: set<T>, less: (T, T) -> bool) {
    m in s && forall x :: x in s && x != m ==> less(m, x)
  }

  lemma LeastExists<T(!new)>(s: set<T>, less: (T, T) -> bool)
    requires StrictLinear(less) && s != {}
    ensures exists m :: IsLeast(m, s, less)
  {
    var x :| x in s;
    var rest := s - {x};
    if rest == {} {
      assert s == {x};
      assert IsLeast(x, s, less);
    } else {
      LeastExists(rest, less);
      var m :| IsLeast(m, rest, less);
      assert IsLeast(if less(m, x) then m else x, s, less);
    }
  }

  /** The element that `ORDER BY … LIMIT 1` returns. */
  function Least<T(!new)>(s: set<T>, less: (T, T) -> bool): (m: T)
    requires StrictLinear(less) && s != {}
    ensures m in s
    ensures forall x :: x in s && x != m ==> less(m, x)
  {
    LeastExists(s, less);
    assert forall a, b :: IsLeast(a, s, less) && IsLeast(b, s, less) ==> a == b;
    var m :| m in s && forall x :: x in s && x != m ==> less(m, x);
    m
  }

  ghost predicate Ascending<T>(xs: seq<T>, less: (T, T) -> bool) {
    forall i, j :: 0 <= i < j < |xs| ==> less(xs[i], xs[j])
  }

  /** The set listed in ascending order. */
  function Enumerate<T(!new)>(s: set<T>, less: (T, T) -> bool): (xs: seq<T>)
    requires StrictLinear(less)
    ensures Ascending(xs, less)
    ensures forall x :: x in xs <==> x in s
    decreases |s|
  {
    if s == {} then []
    else
      var m := Least(s, less);
      var rest := Enumerate(s - {m}, less);
      assert forall x :: x in rest ==> less(m, x);
      [m] + rest
  }

  lemma AscendingIsDistinct<T(!new)>(xs: seq<T>, less: (T, T) -> bool)
    requires StrictLinear(less) && Ascending(xs, less)
    ensures forall i, j :: 0 <= i < j < |xs| ==> xs[i] != xs[j]
  {
  }

  lemma TextOrderIsLinear()
    ensures StrictLinear(TextLess)
  {
    forall x, y ensures !TextLess(x, x) && (TextLess(x, y) || x == y || TextLess(y, x)) {
      TextTrichotomy(x, y);
    }
    forall x, y, z | TextLess(x, y) && TextLess(y, z) ensures TextLess(x, z) {
      TextTransitive(x, y, z);
    }
  }
}
