/** What every service model shares: failure-compatible wrappers and the units of the clock. */
module Wrappers {
  const SECOND: int := 1_000_000
  const MINUTE: int := 60_000_000
  const DAY: int := 86_400_000_000

  function Max(a: int, b: int): int { if a > b then a else b }

  function Min(a: int, b: int): int { if a < b then a else b }

  datatype Option<+T> = None | Some(value: T)

  /** `Err` stands for an exception that leaves a service; `Ok` for a normal return. */
  datatype Result<+T, +E> = Ok(value: T) | Err(error: E) {
    predicate IsFailure() { Err? }

    function PropagateFailure<U>(): Result<U, E>
      requires Err?
    {
      Err(error)
    }

    function Extract(): T
      requires Ok?
    {
      value
    }
  }

  /** Position of the first element that satisfies `p`: a lookup by a unique column. */
  function First<T>(xs: seq<T>, p: T -> bool): (r: Option<nat>)
    ensures r.Some? ==> r.value < |xs| && p(xs[r.value])
    ensures r.None? ==> forall i :: 0 <= i < |xs| ==> !p(xs[i])
  {
    if xs == [] then None
    else if p(xs[0]) then Some(0)
    else
      var rest := First(xs[1..], p);
      assert forall i :: 0 < i < |xs| ==> xs[i] == xs[1..][i - 1];
      if rest.Some? then Some(rest.value + 1) else None
  }

  /** Some element of a collection whose order is not fixed: rows of a query, members of a set. */
  method AnyOf<T>(xs: set<T>) returns (x: T)
    requires xs != {}
    ensures x in xs
  {
    x :| x in xs;
  }
}
