/** Sequences as sets, and sets of ids listed in ascending order. */
module Counting {

  ghost function SetOf<T>(list: seq<T>): set<T> {
    set x | x in list
  }

  ghost predicate Ascending(list: seq<int>) {
    forall i, j :: 0 <= i < j < |list| ==> list[i] < list[j]
  }

  /** The members of s that lie in [0, bound), in strictly ascending order. */
  ghost function Below(s: set<int>, bound: nat): (list: seq<int>)
    ensures forall i :: 0 <= i < |list| ==> list[i] < bound
    ensures Ascending(list)
    ensures forall x :: x in list <==> x in s && 0 <= x < bound
  {
    if bound == 0 then []
    else Below(s, bound - 1) + if bound - 1 in s then [bound - 1] else []
  }

  lemma {:induction false} LeastExists(s: set<int>)
    requires exists y :: y in s
    ensures exists m :: m in s && forall x :: x in s ==> m <= x
    decreases |s|
  {
    var y :| y in s;
    var rest := s - {y};
    assert s == rest + {y};
    if forall x :: x !in rest {
    } else {
      LeastExists(rest);
      var m :| m in rest && forall x :: x in rest ==> m <= x;
      var least := if y < m then y else m;
      assert least in s;
    }
  }

  /** A set in strictly ascending order. */
  ghost function InOrder(s: set<int>): (list: seq<int>)
    ensures Ascending(list)
    ensures forall x :: x in list <==> x in s
    decreases |s|
  {
    if forall x :: x !in s then []
    else
      LeastExists(s);
      var m :| m in s && forall x :: x in s ==> m <= x;
      [m] + InOrder(s - {m})
  }

  /** An ascending list is determined by its members. */
  lemma {:induction false} AscendingIsUnique(a: seq<int>, b: seq<int>)
    requires Ascending(a) && Ascending(b)
    requires forall x :: x in a <==> x in b
    ensures a == b
  {
    assert |a| > 0 ==> a[0] in a;
    assert |b| > 0 ==> b[0] in b;
    if a == [] || b == [] {
    } else {
      assert a[0] in b && b[0] in a;
      assert a[0] == b[0];
      forall x
        ensures x in a[1..] <==> x in b[1..]
      {
        if x in a[1..] {
          assert x in a && x != a[0];
        }
        if x in b[1..] {
          assert x in b && x != b[0];
        }
      }
      AscendingIsUnique(a[1..], b[1..]);
      assert a == [a[0]] + a[1..] && b == [b[0]] + b[1..];
    }
  }
}
