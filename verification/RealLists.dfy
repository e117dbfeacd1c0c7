/** sorted(set(...)) over exact reals. */
module RealLists {

  ghost predicate Increasing(s: seq<real>) {
    forall i, j :: 0 <= i < j < |s| ==> s[i] < s[j]
  }

  /** Puts x at its place unless it is already there. */
  function Insert(s: seq<real>, x: real): (r: seq<real>)
    requires Increasing(s)
    ensures Increasing(r)
    ensures forall y :: y in r <==> y == x || y in s
  {
    if s == [] then [x]
    else if x < s[0] then [x] + s
    else if x == s[0] then s
    else
      var rest := Insert(s[1..], x);
      assert forall i :: 0 <= i < |rest| ==> rest[i] in rest;
      assert forall i :: 0 <= i < |s[1..]| ==> s[1..][i] > s[0];
      [s[0]] + rest
  }

  function SortedUnique(xs: seq<real>): (r: seq<real>)
    ensures Increasing(r)
    ensures forall y :: y in r <==> y in xs
  {
    if xs == [] then []
    else Insert(SortedUnique(xs[..|xs| - 1]), xs[|xs| - 1])
  }

  /** A value strictly between two neighbours of an increasing list is not listed. */
  lemma BetweenNeighbours(s: seq<real>, i: nat, x: real)
    requires Increasing(s) && i + 1 < |s| && s[i] < x < s[i + 1]
    ensures x !in s
  {
    forall k | 0 <= k < |s| ensures s[k] != x {
      if k <= i {
        assert s[k] <= s[i];
      } else {
        assert s[i + 1] <= s[k];
      }
    }
  }

  /** Every value between the first and the last entry is an entry or lies between two neighbours. */
  lemma FindInterval(s: seq<real>, x: real) returns (i: nat)
    requires Increasing(s) && |s| >= 2 && s[0] <= x <= s[|s| - 1]
    ensures i + 1 < |s| && s[i] <= x <= s[i + 1]
  {
    i := 0;
    while s[i + 1] < x
      decreases |s| - i
      invariant i + 1 < |s| && s[i] <= x
    {
      i := i + 1;
    }
  }
}
