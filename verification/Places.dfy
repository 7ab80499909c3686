/** Places of a list, given as rising sequences of positions or as sets of them. */
module Places {
  ghost predicate Rising(at: seq<nat>) {
    forall k, n :: 0 <= k < n < |at| ==> at[k] < at[n]
  }

  // The same places in a list with one more element in front.
  function Shifted(at: seq<nat>): (r: seq<nat>)
    ensures |r| == |at| && forall k :: 0 <= k < |at| ==> r[k] == at[k] + 1
  {
    seq(|at|, k requires 0 <= k < |at| => at[k] + 1)
  }

  lemma ShiftedHas(at: seq<nat>, i: nat)
    ensures i + 1 in Shifted(at) <==> i in at
    ensures 0 !in Shifted(at)
  {
    if i in at {
      var k :| 0 <= k < |at| && at[k] == i;
      assert Shifted(at)[k] == i + 1;
    }
  }

  // The places of a list where something holds.
  function Where<T>(xs: seq<T>, holds: T -> bool): set<nat> {
    set k: nat | k < |xs| && holds(xs[k])
  }

  lemma WhereMore<T>(xs: seq<T>, holds: T -> bool)
    requires xs != []
    ensures |Where(xs, holds)| == |Where(xs[..|xs| - 1], holds)| + if holds(xs[|xs| - 1]) then 1 else 0
  {
    var n := |xs| - 1;
    if holds(xs[n]) {
      assert Where(xs, holds) == Where(xs[..n], holds) + {n};
    } else {
      assert Where(xs, holds) == Where(xs[..n], holds);
    }
  }

  // The numbers below `n` of which something holds.
  function Below(n: nat, holds: nat -> bool): set<nat> {
    set k: nat | k < n && holds(k)
  }

  lemma BelowMore(n: nat, holds: nat -> bool)
    ensures |Below(n + 1, holds)| == |Below(n, holds)| + if holds(n) then 1 else 0
    ensures |Below(0, holds)| == 0
  {
    if holds(n) {
      assert Below(n + 1, holds) == Below(n, holds) + {n};
    } else {
      assert Below(n + 1, holds) == Below(n, holds);
    }
    assert Below(0, holds) == {};
  }
}
