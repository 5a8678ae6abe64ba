/**
  The `**kwargs` patch of the update operations: a list of column assignments
  applied in order with `setattr`. Whatever the entity, the value a column ends
  with is the one its last assignment gives, or the stored one when the patch
  does not name it. A Python call names each keyword at most once (a repeated
  keyword does not compile), so a real patch names distinct columns and its
  "last" assignment to a column is its only one; the lemmas below also cover the
  general sequence.
*/
module Patch {

  /** The last assignment in `kwargs` to column `c`, or `current` when there is none. */
  function LastFor<F, K(==)>(kwargs: seq<F>, column: F -> K, c: K, current: F): F
    decreases |kwargs|
  {
    if kwargs == [] then current
    else if column(kwargs[|kwargs| - 1]) == c then kwargs[|kwargs| - 1]
    else LastFor(kwargs[..|kwargs| - 1], column, c, current)
  }

  /** A column the patch never names keeps its stored value. */
  lemma {:induction false} UnnamedColumnKept<F, K>(kwargs: seq<F>, column: F -> K, c: K, current: F)
    requires forall i :: 0 <= i < |kwargs| ==> column(kwargs[i]) != c
    ensures LastFor(kwargs, column, c, current) == current
    decreases |kwargs|
  {
    if kwargs != [] {
      var n := |kwargs| - 1;
      assert column(kwargs[n]) != c;
      UnnamedColumnKept(kwargs[..n], column, c, current);
    }
  }

  /**
    A column the patch names ends with its last assignment in the patch: later ones
    win. With distinct keywords, as in any Python call, that is its only one.
  */
  lemma {:induction false} NamedColumnTakesLast<F, K>(kwargs: seq<F>, column: F -> K, c: K, current: F)
    requires exists i :: 0 <= i < |kwargs| && column(kwargs[i]) == c
    ensures exists i :: && 0 <= i < |kwargs|
                        && kwargs[i] == LastFor(kwargs, column, c, current)
                        && column(kwargs[i]) == c
                        && forall j :: i < j < |kwargs| ==> column(kwargs[j]) != c
    decreases |kwargs|
  {
    var n := |kwargs| - 1;
    if column(kwargs[n]) != c {
      var k :| 0 <= k < |kwargs| && column(kwargs[k]) == c;
      assert k < n;
      assert kwargs[..n][k] == kwargs[k];
      NamedColumnTakesLast(kwargs[..n], column, c, current);
      var i :| && 0 <= i < n
               && kwargs[..n][i] == LastFor(kwargs[..n], column, c, current)
               && column(kwargs[..n][i]) == c
               && forall j :: i < j < n ==> column(kwargs[..n][j]) != c;
      assert kwargs[i] == LastFor(kwargs, column, c, current);
      assert forall j :: i < j < |kwargs| ==> column(kwargs[j]) != c by {
        forall j | i < j < |kwargs|
          ensures column(kwargs[j]) != c
        {
          if j < n {
            assert kwargs[..n][j] == kwargs[j];
          }
        }
      }
    }
  }

  /** With distinct keywords, as in any Python call, each named column takes exactly the value the call gives it. */
  lemma DistinctColumnsTakeTheirValue<F, K>(kwargs: seq<F>, column: F -> K, k: int, current: F)
    requires forall i, j :: 0 <= i < j < |kwargs| ==> column(kwargs[i]) != column(kwargs[j])
    requires 0 <= k < |kwargs|
    ensures LastFor(kwargs, column, column(kwargs[k]), current) == kwargs[k]
  {
    NamedColumnTakesLast(kwargs, column, column(kwargs[k]), current);
  }
}
