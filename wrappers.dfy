/** Option and Result, the two sum types every puzzle solution returns through. */
module Wrappers {
  datatype Option<T> = None | Some(value: T)

  datatype Result<T, E> = Ok(value: T) | Err(error: E)

  /** `collect::<Result<Vec<_>, _>>()`: every value when all are `Ok`,
    * otherwise the first error. */
  function Collect<T, E>(rs: seq<Result<T, E>>): (r: Result<seq<T>, E>)
    ensures r.Ok? <==> forall i :: 0 <= i < |rs| ==> rs[i].Ok?
    ensures r.Ok? ==> |r.value| == |rs| && forall i :: 0 <= i < |rs| ==> rs[i] == Ok(r.value[i])
  {
    if rs == [] then Ok([])
    else
      match rs[0]
      case Err(e) => Err(e)
      case Ok(v) =>
        match Collect(rs[1..])
        case Err(e) => Err(e)
        case Ok(vs) => Ok([v] + vs)
  }

  /** The error `Collect` reports is that of the first `Err`. */
  lemma {:induction false} CollectError<T, E>(rs: seq<Result<T, E>>)
    requires Collect(rs).Err?
    ensures exists i :: (0 <= i < |rs| && rs[i] == Err(Collect(rs).error) && forall j :: 0 <= j < i ==> rs[j].Ok?)
  {
    if rs[0].Ok? {
      CollectError(rs[1..]);
      var i :| 0 <= i < |rs| - 1 && rs[1..][i] == Err(Collect(rs[1..]).error) && forall j :: 0 <= j < i ==> rs[1..][j].Ok?;
      assert rs[i + 1] == Err(Collect(rs).error);
      assert forall j :: 1 <= j < i + 1 ==> rs[j] == rs[1..][j - 1];
    } else {
      assert rs[0] == Err(Collect(rs).error);
    }
  }
}
