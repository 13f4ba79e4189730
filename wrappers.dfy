/** Optional values and results with an error side, as used across the model. */
module Wrappers {

  datatype Option<+T> = None | Some(value: T) {
    function GetOr(default: T): T {
      match this
      case Some(v) => v
      case None => default
    }
  }

  datatype Result<+T, +E> = Ok(value: T) | Err(error: E)

  /** The values of a sequence of results in order, or the first error among them. */
  function AllOk<T, E>(rs: seq<Result<T, E>>): (r: Result<seq<T>, E>)
    ensures r.Ok? <==> forall k :: 0 <= k < |rs| ==> rs[k].Ok?
    ensures r.Ok? ==> |r.value| == |rs| && forall k :: 0 <= k < |rs| ==> rs[k] == Ok(r.value[k])
    ensures r.Err? ==> exists k :: 0 <= k < |rs| && rs[k] == Err(r.error) && forall i :: 0 <= i < k ==> rs[i].Ok?
  {
    if rs == [] then Ok([])
    else
      var init := rs[..|rs| - 1];
      assert forall k :: 0 <= k < |init| ==> init[k] == rs[k];
      match AllOk(init)
      case Err(e) => Err(e)
      case Ok(vs) =>
        match rs[|rs| - 1]
        case Err(e) => Err(e)
        case Ok(v) => Ok(vs + [v])
  }

  /** When every result before position k is a value, the error at k is the one AllOk reports. */
  lemma AllOkFirstError<T, E>(rs: seq<Result<T, E>>, k: nat)
    requires k < |rs| && rs[k].Err? && forall i :: 0 <= i < k ==> rs[i].Ok?
    ensures AllOk(rs) == Err(rs[k].error)
  {
  }

  /** f applied to each element in turn; the first error, in order, ends the walk. */
  function MapAll<A, T, E>(f: A -> Result<T, E>, xs: seq<A>): (r: Result<seq<T>, E>)
    ensures r.Ok? ==> |r.value| == |xs| && forall j :: 0 <= j < |xs| ==> f(xs[j]) == Ok(r.value[j])
    ensures r.Err? ==> exists j :: 0 <= j < |xs| && f(xs[j]) == Err(r.error)
                                   && forall i :: 0 <= i < j ==> f(xs[i]).Ok?
  {
    if xs == [] then Ok([])
    else match f(xs[0])
      case Err(e) => Err(e)
      case Ok(x) =>
        match MapAll(f, xs[1..])
        case Err(e) =>
          assert forall i :: 1 <= i < |xs| ==> xs[i] == xs[1..][i - 1];
          Err(e)
        case Ok(ys) =>
          assert forall j :: 1 <= j < |xs| ==> xs[j] == xs[1..][j - 1];
          Ok([x] + ys)
  }

  /** Evaluates f(0), ..., f(n - 1) in order, stopping at the first error;
      rs lists what the calls give. */
  method CollectResults<T, E>(n: nat, f: nat --> Result<T, E>, ghost rs: seq<Result<T, E>>)
    returns (r: Result<seq<T>, E>)
    requires |rs| == n
    requires forall k :: 0 <= k < n ==> f.requires(k) && f(k) == rs[k]
    ensures r == AllOk(rs)
  {
    var values: seq<T> := [];
    var i := 0;
    while i < n
      invariant 0 <= i <= n
      invariant AllOk(rs[..i]) == Ok(values)
    {
      var res := f(i);
      if res.Err? {
        assert forall j :: 0 <= j < i ==> rs[..i][j] == rs[j];
        AllOkFirstError(rs, i);
        return Err(res.error);
      }
      values := values + [res.value];
      assert rs[..i + 1][..i] == rs[..i];
      i := i + 1;
    }
    assert rs[..i] == rs;
    return Ok(values);
  }
}
