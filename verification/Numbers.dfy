/** Increasing lists of row numbers. */
module Numbers {

  ghost predicate Ascending(ns: seq<nat>) {
    forall i, j :: 0 <= i < j < |ns| ==> ns[i] < ns[j]
  }

  lemma AscendingConcat(a: seq<nat>, b: seq<nat>)
    requires Ascending(a) && Ascending(b) && forall m, n :: m in a && n in b ==> m < n
    ensures Ascending(a + b)
  {
    forall i, j | 0 <= i < j < |a + b|
      ensures (a + b)[i] < (a + b)[j]
    {
      if i < |a| <= j {
        assert (a + b)[i] in a && (a + b)[j] in b;
      }
    }
  }

  lemma {:induction false} LeastExists(some: set<nat>) returns (least: nat)
    requires some != {}
    ensures least in some && forall n :: n in some ==> least <= n
    decreases |some|
  {
    var x :| x in some;
    least := x;
    var rest := some - {x};
    assert forall n :: n in some ==> n == x || n in rest;
    if rest == {} {
    } else {
      var y := LeastExists(rest);
      least := if y < x then y else x;
    }
  }

  /** The lowest `limit` of `some`, ascending. */
  ghost predicate IsLowest(some: set<nat>, limit: nat, page: seq<nat>) {
    && Ascending(page) && |page| <= limit
    && (forall n :: n in page ==> n in some)
    && (forall n :: n in some && n !in page ==> |page| == limit && forall m :: m in page ==> m < n)
  }

  /** An `ORDER BY … LIMIT` query over the numbers of the selected rows. */
  method SelectLowest(some: set<nat>, limit: nat) returns (page: seq<nat>)
    ensures IsLowest(some, limit, page)
  {
    var rest := some;
    page := [];
    while rest != {} && |page| < limit
      invariant Ascending(page) && |page| <= limit && rest <= some
      invariant forall n :: n in some <==> n in rest || n in page
      invariant forall m, n :: m in page && n in rest ==> m < n
      decreases rest
    {
      ghost var _ := LeastExists(rest);
      var n :| n in rest && forall m :: m in rest ==> n <= m;
      AscendingConcat(page, [n]);
      page := page + [n];
      rest := rest - {n};
    }
  }
}
