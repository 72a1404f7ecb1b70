/** `sorted(...)` over a finite set of integers. */
module SortedSets {

  function Least(s: set<int>): (m: int)
    requires s != {}
    ensures m in s && forall x :: x in s ==> m <= x
  {
    LeastExists(s);
    var m :| m in s && forall x :: x in s ==> m <= x;
    m
  }

  lemma NoMember<T>(s: set<T>)
    requires forall x :: x !in s
    ensures s == {}
  {
    assert s == {};
  }

  lemma Member(s: set<int>) returns (a: int)
    requires s != {}
    ensures a in s
  {
    if forall x :: x !in s {
      NoMember(s);
    }
    a :| a in s;
  }

  lemma {:induction false} LeastExists(s: set<int>)
    requires s != {}
    ensures exists m :: m in s && forall x :: x in s ==> m <= x
  {
    var a := Member(s);
    var rest := s - {a};
    if rest == {} {
      forall x | x in s ensures a <= x {
        assert x in rest || x == a;
      }
    } else {
      LeastExists(rest);
      var m: int :| m in rest && forall x :: x in rest ==> m <= x;
      var least := if a < m then a else m;
      forall x | x in s ensures least <= x {
        if x != a { assert x in rest; }
      }
    }
  }

  /** `sorted(s)` */
  function Ascending(s: set<int>): (r: seq<int>)
    ensures forall x :: x in r <==> x in s
    ensures forall i, j :: 0 <= i < j < |r| ==> r[i] < r[j]
  {
    if s == {} then [] else
    var m := Least(s);
    var rest := Ascending(s - {m});
    assert forall i :: 0 <= i < |rest| ==> rest[i] in rest;
    [m] + rest
  }
}
