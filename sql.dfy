/** The small piece of SQL and C# value semantics the handlers rely on:
    nullable values, `SUM` over a set of rows and the `??` / `ISNULL` coalescing. */
module Sql {

  /** A nullable value: `None` is SQL `NULL` / C# `null`. */
  datatype Option<+T> = None | Some(value: T)

  /** `v ?? fallback` in C#, `ISNULL(v, fallback)` in T-SQL. */
  function Coalesce<T>(v: Option<T>, fallback: T): T
  {
    match v
    case Some(x) => x
    case None => fallback
  }

  /** The exact arithmetic sum of a sequence of decimal values. */
  function Sum(xs: seq<real>): real
  {
    if xs == [] then 0.0 else xs[0] + Sum(xs[1..])
  }

  /** SQL `SUM` over the rows of a query: `NULL` when there are no rows,
      otherwise the exact sum of the (non-null) terms. */
  function SqlSum(xs: seq<real>): (r: Option<real>)
    ensures r.None? <==> xs == []
    ensures r.Some? ==> r.value == Sum(xs)
  {
    if xs == [] then None else Some(Sum(xs))
  }

  /** Summing is compatible with splitting the rows in two. */
  lemma {:induction false} SumAppend(xs: seq<real>, ys: seq<real>)
    ensures Sum(xs + ys) == Sum(xs) + Sum(ys)
  {
    if xs == [] {
      assert xs + ys == ys;
    } else {
      assert (xs + ys)[1..] == xs[1..] + ys;
      SumAppend(xs[1..], ys);
    }
  }

  /** Splitting the rows of a `SUM` in two and coalescing each part to 0 adds up to the
      coalesced `SUM` of all of them: an empty part adds nothing, though its `SUM` is `NULL`. */
  lemma SqlSumSplits(xs: seq<real>, ys: seq<real>)
    ensures Coalesce(SqlSum(xs + ys), 0.0) == Coalesce(SqlSum(xs), 0.0) + Coalesce(SqlSum(ys), 0.0)
  {
    SumAppend(xs, ys);
    if xs == [] {
      assert xs + ys == ys;
    } else if ys == [] {
      assert xs + ys == xs;
    }
  }
}
