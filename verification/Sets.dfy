/** The least element of a finite set of numbers. */
module Sets {

  lemma Member<T>(s: set<T>) returns (x: T)
    requires s != {}
    ensures x in s
  {
    x :| x in s;
  }

  predicate IsLeast(s: set<int>, least: int) {
    least in s && forall x :: x in s ==> least <= x
  }

  lemma {:induction false} LeastExists(s: set<int>)
    requires s != {}
    ensures exists least :: IsLeast(s, least)
  {
    var x := Member(s);
    if s - {x} == {} {
      assert IsLeast(s, x) by { forall y | y in s ensures x <= y { assert y !in s - {x}; } }
    } else {
      LeastExists(s - {x});
      var rest :| IsLeast(s - {x}, rest);
      var least := if x < rest then x else rest;
      assert IsLeast(s, least) by {
        forall y | y in s ensures least <= y { assert y == x || y in s - {x}; }
      }
    }
  }

  function Least(s: set<int>): (least: int)
    requires s != {}
    ensures IsLeast(s, least)
  {
    LeastExists(s);
    var least :| IsLeast(s, least);
    least
  }
}
