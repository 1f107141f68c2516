/** Sets of integers in ascending order, the order in which std::set and std::map are walked. */
module Ordering {
  import opened Transactions

  lemma {:induction false} LeastExists(s: set<int>)
    requires s != {}
    ensures exists m :: m in s && forall x :: x in s ==> m <= x
  {
    var y := Pick(s);
    if forall x :: x in s ==> y <= x {
    } else {
      var x :| x in s && x < y;
      var rest := s - {y};
      assert x in rest;
      LeastExists(rest);
      var m :| m in rest && forall z :: z in rest ==> m <= z;
      assert forall z :: z in s ==> z in rest || z == y;
      assert m in s && forall z :: z in s ==> m <= z;
    }
  }

  function Least(s: set<int>): (m: int)
    requires s != {}
    ensures m in s && forall x :: x in s ==> m <= x
  {
    LeastExists(s);
    var m :| m in s && forall x :: x in s ==> m <= x;
    m
  }

  function Ascending(s: set<int>): seq<int> {
    if s == {} then [] else var m := Least(s); [m] + Ascending(s - {m})
  }

  ghost predicate StrictlyAscending(q: seq<int>) {
    forall i, j :: 0 <= i < j < |q| ==> q[i] < q[j]
  }

  lemma {:induction false} AscendingHas(s: set<int>, x: int)
    ensures x in Ascending(s) <==> x in s
  {
    if s != {} {
      var m := Least(s);
      AscendingHas(s - {m}, x);
    }
  }

  lemma {:induction false} AscendingSize(s: set<int>)
    ensures |Ascending(s)| == |s|
  {
    if s != {} {
      AscendingSize(s - {Least(s)});
    }
  }

  lemma {:induction false} AscendingOrder(s: set<int>, i: nat, j: nat)
    requires i < j < |Ascending(s)|
    ensures Ascending(s)[i] < Ascending(s)[j]
  {
    var m := Least(s);
    var q := Ascending(s - {m});
    if i == 0 {
      assert q[j - 1] in q;
      AscendingHas(s - {m}, q[j - 1]);
    } else {
      AscendingOrder(s - {m}, i - 1, j - 1);
    }
  }

  /** Ascending lists exactly the members, each once, in order. */
  lemma AscendingLists(s: set<int>)
    ensures |Ascending(s)| == |s| && StrictlyAscending(Ascending(s))
    ensures forall x :: x in Ascending(s) <==> x in s
  {
    AscendingSize(s);
    var q := Ascending(s);
    forall i, j | 0 <= i < j < |q| ensures q[i] < q[j] { AscendingOrder(s, i, j); }
    forall x ensures x in q <==> x in s { AscendingHas(s, x); }
  }

  function Members(q: seq<int>): set<int> {
    set n | n in q
  }
}
