/** Finite sets and sequences of integers, used for process ids and row ids. */
module IntSets {

  lemma Member(pids: set<int>) returns (p: int)
    requires pids != {}
    ensures p in pids
  {
    assert (forall q :: q !in pids) ==> pids == {};
    p :| p in pids;
  }

  lemma UpperBound(pids: set<int>) returns (bound: int)
    ensures forall p :: p in pids ==> p < bound
  {
    if pids == {} {
      bound := 0;
    } else {
      var p := Member(pids);
      var rest := UpperBound(pids - {p});
      assert pids == pids - {p} + {p};
      bound := if p < rest then rest else p + 1;
    }
  }

  lemma Minimum(pids: set<int>) returns (least: int)
    requires pids != {}
    ensures least in pids && forall p :: p in pids ==> least <= p
  {
    var p := Member(pids);
    if pids == {p} {
      least := p;
    } else {
      var rest := Minimum(pids - {p});
      assert pids == pids - {p} + {p};
      least := if p < rest then p else rest;
    }
  }

  lemma SubsetSize(a: set<int>, b: set<int>)
    requires a <= b
    ensures |a| <= |b|
    ensures a != b ==> |a| < |b|
  {
    assert |b| == |a| + |b - a| by {
      assert b == a + (b - a);
    }
    assert b - a == {} ==> a == b;
  }

  lemma {:induction false} IndexOf(s: seq<int>, x: int) returns (k: nat)
    requires x in s
    ensures k < |s| && s[k] == x
  {
    if s[|s| - 1] == x {
      k := |s| - 1;
    } else {
      assert s == s[..|s| - 1] + [s[|s| - 1]];
      k := IndexOf(s[..|s| - 1], x);
    }
  }
}
