/** Option and Result, the failure-carrying values used across the model. */
module Wrappers {
  import opened Sequences

  /** An optional value: `None` stands for the source's `null`. */
  datatype Option<+T> = None | Some(value: T) {

    /** The value of `Some`, or `default` for `None` (C#'s `??`). */
    function GetOr(default: T): T {
      match this
      case Some(v) => v
      case None => default
    }
  }

  /** A computation that either succeeds with a value or fails with an error. */
  datatype Result<+T, +E> = Success(value: T) | Failure(error: E)

  /**
   * A run of computations taken in order: the first failure's error, else
   * every value, in order.
   */
  function Collect<T, E>(rs: seq<Result<T, E>>): (r: Result<seq<T>, E>)
    ensures r.Success? ==> |r.value| == |rs|
  {
    if rs == [] then Success([])
    else
      var init := Collect(rs[..|rs| - 1]);
      var last := rs[|rs| - 1];
      if init.Failure? then init
      else if last.Failure? then Failure(last.error)
      else Success(init.value + [last.value])
  }

  predicate AllSucceed<T, E>(rs: seq<Result<T, E>>) {
    forall k :: 0 <= k < |rs| ==> rs[k].Success?
  }

  /** A run succeeds exactly when each of its computations does. */
  lemma {:induction false} CollectSucceedsIff<T, E>(rs: seq<Result<T, E>>)
    ensures Collect(rs).Success? <==> AllSucceed(rs)
  {
    if rs != [] {
      var init := rs[..|rs| - 1];
      CollectSucceedsIff(init);
      assert forall k :: 0 <= k < |init| ==> init[k] == rs[k];
    }
  }

  /** Value `k` of a successful run is the value of computation `k`. */
  lemma {:induction false} CollectAt<T, E>(rs: seq<Result<T, E>>, k: nat)
    requires Collect(rs).Success? && k < |rs|
    ensures rs[k] == Success(Collect(rs).value[k])
  {
    var init := rs[..|rs| - 1];
    if k < |init| {
      CollectAt(init, k);
      assert init[k] == rs[k];
    }
  }

  /** One more computation: the run fails as before, or with it, or gains its value. */
  lemma CollectSnoc<T, E>(rs: seq<Result<T, E>>, x: Result<T, E>)
    ensures Collect(rs).Failure? ==> Collect(rs + [x]) == Collect(rs)
    ensures Collect(rs).Success? && x.Failure? ==> Collect(rs + [x]) == Failure(x.error)
    ensures Collect(rs).Success? && x.Success? ==> Collect(rs + [x]) == Success(Collect(rs).value + [x.value])
  {
    InitOfSnoc(rs, x);
  }

  /** Once a run has failed, later computations change nothing. */
  lemma {:induction false} CollectFailurePersists<T, E>(rs: seq<Result<T, E>>, rest: seq<Result<T, E>>)
    requires Collect(rs).Failure?
    ensures Collect(rs + rest) == Collect(rs)
    decreases |rest|
  {
    if rest == [] {
      AppendEmpty(rs);
    } else {
      InitOfAppend(rs, rest);
      CollectFailurePersists(rs, rest[..|rest| - 1]);
    }
  }

  /** Where some computation fails, there is a first one. */
  lemma {:induction false} FirstFailure<T, E>(rs: seq<Result<T, E>>) returns (k: nat)
    requires !AllSucceed(rs)
    ensures k < |rs| && rs[k].Failure? && AllSucceed(rs[..k])
  {
    var init := rs[..|rs| - 1];
    if !AllSucceed(init) {
      k := FirstFailure(init);
      TakeTake(rs, |rs| - 1, k);
    } else {
      k := |rs| - 1;
    }
  }

  /** A run whose first failing computation is `k` fails with the error of `k`. */
  lemma CollectFailsAt<T, E>(rs: seq<Result<T, E>>, k: nat)
    requires k < |rs| && rs[k].Failure? && AllSucceed(rs[..k])
    ensures Collect(rs) == Failure(rs[k].error)
  {
    CollectSucceedsIff(rs[..k]);
    CollectSnoc(rs[..k], rs[k]);
    TakeSnoc(rs, k);
    CollectFailurePersists(rs[..k + 1], rs[k + 1..]);
    SplitAt(rs, k + 1);
  }
}
