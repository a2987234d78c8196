/** Finite sets of case numbers, listed in ascending order. */
module AscendingNumbers {

  lemma {:induction false} LeastOf(s: set<nat>) returns (least: nat)
    requires s != {}
    ensures least in s && forall x | x in s :: least <= x
    decreases |s|
  {
    var first :| first in s;
    var rest := s - {first};
    if rest == {} {
      least := first;
    } else {
      var other := LeastOf(rest);
      least := if other < first then other else first;
    }
    forall x | x in s ensures least <= x {
      assert x == first || x in rest;
      assert x in rest ==> rest != {};
    }
  }

  lemma LeastExists(s: set<nat>)
    requires s != {}
    ensures exists m: nat :: m in s && forall x | x in s :: m <= x
  {
    var m := LeastOf(s);
  }

  function Least(s: set<nat>): (m: nat)
    requires s != {}
    ensures m in s && forall x | x in s :: m <= x
  {
    LeastExists(s);
    var m :| m in s && forall x | x in s :: m <= x;
    m
  }

  /** Case numbers in ascending order. */
  function Ascending(s: set<nat>): (ns: seq<nat>)
    ensures |ns| == |s|
    ensures forall i | 0 <= i < |ns| :: ns[i] in s
    ensures forall i, j | 0 <= i < j < |ns| :: ns[i] < ns[j]
  {
    if s == {} then []
    else
      var m := Least(s);
      var rest := Ascending(s - {m});
      [m] + rest
  }

  lemma {:induction false} AscendingCovers(s: set<nat>, n: nat)
    requires n in s
    ensures n in Ascending(s)
  {
    var m := Least(s);
    assert Ascending(s) == [m] + Ascending(s - {m});
    if n == m {
    } else {
      AscendingCovers(s - {m}, n);
    }
  }
}
