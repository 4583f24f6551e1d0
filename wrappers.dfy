/** Optional values: a JavaScript field that may be `null` or `undefined` is `None`. */
module Wrappers {

  datatype Option<+T> = None | Some(value: T)

  /** The `??` operator: the value when present, the fallback otherwise. */
  function OrElse<T>(o: Option<T>, fallback: T): T
  {
    match o
    case Some(v) => v
    case None => fallback
  }

  /** A chain `a ?? b ?? c ...`: the first present value, `None` when all are absent. */
  function Coalesce<T>(xs: seq<Option<T>>): (r: Option<T>)
    ensures r.None? <==> forall i :: 0 <= i < |xs| ==> xs[i].None?
    ensures r.Some? ==> exists i :: 0 <= i < |xs| && xs[i] == r && forall j :: 0 <= j < i ==> xs[j].None?
  {
    if xs == [] then None
    else if xs[0].Some? then xs[0]
    else
      Coalesce(xs[1..])
  }

  /** One step of the chain: a present head wins, an absent one defers to the rest. */
  lemma CoalesceCons<T>(x: Option<T>, rest: seq<Option<T>>)
    ensures Coalesce([x] + rest) == if x.Some? then x else Coalesce(rest)
  {
    assert ([x] + rest)[1..] == rest;
  }
}
