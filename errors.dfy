/** Outcomes shared by the whole model: an optional value, the Python
    exceptions the STAR reader can raise, and a failure-compatible result. */
module Errors {

  datatype Option<T> = None | Some(value: T)

  /** The exceptions raised by the reader classes, by Python class name. */
  datatype PyError =
    | KeyError(key: string)          // a dict lookup of a missing column name
    | FilamentKeyError(number: int)  // a dict lookup of a missing filament number
    | IndexError                     // a list or tuple index out of range
    | ValueError                     // int()/float() of a malformed token, or a raised ValueError
    | TypeError                      // a tuple assigned to, len() of an int, int < str, ...
    | NameError                      // a local variable read before its first assignment

  datatype Result<T> = Ok(value: T) | Err(error: PyError) {
    predicate IsFailure() { Err? }

    function PropagateFailure<U>(): Result<U>
      requires Err?
    {
      Err(error)
    }

    function Extract(): T
      requires Ok?
    {
      value
    }
  }

  /** The values of a run of steps taken one after another, each of which may
      raise; the first step that raised decides the error, as an exception
      ends a Python loop. */
  function Collect<T>(rs: seq<Result<T>>): (r: Result<seq<T>>)
    ensures r.Ok? <==> forall k :: 0 <= k < |rs| ==> rs[k].Ok?
    ensures r.Ok? ==> |r.value| == |rs| && forall k :: 0 <= k < |rs| ==> rs[k] == Ok(r.value[k])
    decreases |rs|
  {
    if rs == [] then Ok([])
    else
      var n := |rs| - 1;
      assert forall k :: 0 <= k < n ==> rs[..n][k] == rs[k];
      var prev :- Collect(rs[..n]);
      var last :- rs[n];
      Ok(prev + [last])
  }

  /** The blocks of values of a run of steps, one after another; the first
      step that raised decides the error. */
  function Gather<T>(rs: seq<Result<seq<T>>>): (r: Result<seq<T>>)
    ensures r.Ok? <==> forall k :: 0 <= k < |rs| ==> rs[k].Ok?
    decreases |rs|
  {
    if rs == [] then Ok([])
    else
      var n := |rs| - 1;
      assert forall k :: 0 <= k < n ==> rs[..n][k] == rs[k];
      var prev :- Gather(rs[..n]);
      var last :- rs[n];
      Ok(prev + last)
  }

  /** The last block comes last. */
  lemma GatherLast<T>(rs: seq<Result<seq<T>>>)
    requires rs != [] && Gather(rs).Ok?
    ensures Gather(rs[..|rs| - 1]).Ok? && rs[|rs| - 1].Ok?
    ensures Gather(rs).value == Gather(rs[..|rs| - 1]).value + rs[|rs| - 1].value
  {
  }

  /** All steps but the last, then the last one's value. */
  lemma CollectLast<T>(rs: seq<Result<T>>)
    requires rs != [] && Collect(rs).Ok?
    ensures Collect(rs[..|rs| - 1]).Ok? && rs[|rs| - 1].Ok?
    ensures Collect(rs).value == Collect(rs[..|rs| - 1]).value + [rs[|rs| - 1].value]
  {
  }

  /** One more step: its error, or its value added at the end. */
  lemma CollectStep<T>(rs: seq<Result<T>>, k: nat)
    requires k < |rs| && Collect(rs[..k]).Ok?
    ensures Collect(rs[..k + 1]) == match rs[k] case Err(e) => Err(e) case Ok(v) => Ok(Collect(rs[..k]).value + [v])
  {
    assert rs[..k + 1][..k] == rs[..k];
  }

  /** Once a prefix of the steps has raised, the later steps do not matter. */
  lemma {:induction false} CollectFailed<T>(rs: seq<Result<T>>, k: nat)
    requires k <= |rs| && Collect(rs[..k]).Err?
    ensures Collect(rs) == Collect(rs[..k])
    decreases |rs|
  {
    if k < |rs| {
      var n := |rs| - 1;
      assert rs[..n][..k] == rs[..k];
      CollectFailed(rs[..n], k);
    } else {
      assert rs[..k] == rs;
    }
  }

  /** One more step: its error, or its block added at the end. */
  lemma GatherStep<T>(rs: seq<Result<seq<T>>>, k: nat)
    requires k < |rs| && Gather(rs[..k]).Ok?
    ensures Gather(rs[..k + 1]) == match rs[k] case Err(e) => Err(e) case Ok(v) => Ok(Gather(rs[..k]).value + v)
  {
    assert rs[..k + 1][..k] == rs[..k];
  }

  /** Once a prefix of the steps has raised, the later steps do not matter. */
  lemma {:induction false} GatherFailed<T>(rs: seq<Result<seq<T>>>, k: nat)
    requires k <= |rs| && Gather(rs[..k]).Err?
    ensures Gather(rs) == Gather(rs[..k])
    decreases |rs|
  {
    if k < |rs| {
      var n := |rs| - 1;
      assert rs[..n][..k] == rs[..k];
      GatherFailed(rs[..n], k);
    } else {
      assert rs[..k] == rs;
    }
  }

  /** Two runs of steps that raise at the same places with the same errors
      end alike. */
  lemma {:induction false} CollectAlike<A, B>(rs: seq<Result<A>>, ss: seq<Result<B>>)
    requires |rs| == |ss|
    requires forall k :: 0 <= k < |rs| ==> (rs[k].Ok? <==> ss[k].Ok?) && (rs[k].Err? ==> rs[k].error == ss[k].error)
    ensures Collect(rs).Ok? <==> Collect(ss).Ok?
    ensures Collect(rs).Err? ==> Collect(rs).error == Collect(ss).error
    decreases |rs|
  {
    if rs != [] {
      var n := |rs| - 1;
      assert forall k :: 0 <= k < n ==> rs[..n][k] == rs[k] && ss[..n][k] == ss[k];
      CollectAlike(rs[..n], ss[..n]);
    }
  }
}
