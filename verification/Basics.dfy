/** Definitions that several modules share. */
module Basics {
  datatype Option<+T> = None | Some(value: T)

  /** The numbers below `n`. */
  ghost function Below(n: nat): (s: set<nat>)
    ensures |s| == n && forall i: nat :: i in s <==> i < n
  {
    if n == 0 then {} else Below(n - 1) + {n - 1}
  }

  lemma {:induction false} SubsetSize<T>(a: set<T>, b: set<T>)
    requires a <= b
    ensures |a| <= |b|
  {
    if a != {} {
      var x :| x in a;
      SubsetSize(a - {x}, b - {x});
    }
  }

  /** A part as large as the whole. */
  lemma {:induction false} SubsetAll<T>(a: set<T>, b: set<T>)
    requires a <= b && |a| >= |b|
    ensures a == b
  {
    if a != {} {
      var x :| x in a;
      SubsetAll(a - {x}, b - {x});
    }
  }

  lemma ModIs(n: nat, q: nat, r: nat, m: nat)
    requires n == q * m + r && r < m
    ensures n % m == r
  {
    var k := n / m - q;
    assert k * m == n / m * m - q * m == r - n % m;
    assert k > 0 ==> k * m >= m;
    assert k < 0 ==> k * m + m <= 0;
  }
}
