/** Datatypes shared by every module. */
module Prelude {

  type Byte = b: int | 0 <= b < 256

  datatype Option<+T> = None | Some(value: T)

  datatype Result<+T, +E> = Ok(value: T) | Err(error: E) {
    predicate IsFailure() {
      Err?
    }

    function PropagateFailure<U>(): Result<U, E>
      requires Err?
    {
      Err(error)
    }

    function Extract(): T
      requires Ok?
    {
      value
    }
  }

  /** All values, or the first error. */
  function Collect<T, E>(results: seq<Result<T, E>>): Result<seq<T>, E> {
    if results == [] then Ok([])
    else
      var value :- results[0];
      var rest :- Collect(results[1..]);
      Ok([value] + rest)
  }

  lemma {:induction false} CollectFails<T, E>(results: seq<Result<T, E>>, i: nat)
    requires i < |results| && results[i].Err? && forall k :: 0 <= k < i ==> results[k].Ok?
    ensures Collect(results) == Err(results[i].error)
    decreases i
  {
    if i > 0 {
      CollectFails(results[1..], i - 1);
    }
  }

  lemma {:induction false} CollectSucceeds<T, E>(results: seq<Result<T, E>>, values: seq<T>)
    requires |values| == |results|
    ensures Collect(results) == Ok(values) <==> forall k :: 0 <= k < |results| ==> results[k] == Ok(values[k])
    decreases |results|
  {
    if results != [] {
      CollectSucceeds(results[1..], values[1..]);
      assert values == [values[0]] + values[1..];
    }
  }

  lemma {:induction false} CollectedCount<T, E>(results: seq<Result<T, E>>)
    requires Collect(results).Ok?
    ensures |Collect(results).value| == |results|
    decreases |results|
  {
    if results != [] {
      CollectedCount(results[1..]);
    }
  }

  lemma Regroup<T>(a: seq<T>, b: seq<T>, c: seq<T>)
    ensures a + b + c == a + (b + c)
  {
  }

  lemma TakeMore<T>(s: seq<T>, i: nat, n: nat)
    requires i + n <= |s|
    ensures s[..i] + s[i..][..n] == s[..i + n]
  {
  }
}
