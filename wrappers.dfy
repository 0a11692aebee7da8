/** Option and Result types shared by the whole model. */
module Wrappers {

  datatype Option<+T> = None | Some(value: T)

  /** The status codes the converter returns on failure
      (common::kSqlError, common::kPlanError, common::kTypeError). */
  datatype Code = SqlError | PlanError | TypeError

  /** A base::Status together with the node it produced: `Ok` is an OK status,
      `Err` a failing one. `:-` plays the role of CHECK_STATUS. */
  datatype Result<+T> = Ok(value: T) | Err(code: Code) {

    predicate IsFailure() {
      Err?
    }

    function PropagateFailure<U>(): Result<U>
      requires Err?
    {
      Err(code)
    }

    function Extract(): T
      requires Ok?
    {
      value
    }
  }

  /** A list already built, followed by the outcome of converting the rest:
      the loops of the converter keep their partial result in this form. */
  function Prepend<T>(prefix: seq<T>, rest: Result<seq<T>>): (r: Result<seq<T>>)
    ensures prefix == [] ==> r == rest
    ensures rest == Ok([]) ==> r == Ok(prefix)
    ensures r.Ok? <==> rest.Ok?
  {
    match rest
    case Ok(tail) =>
      assert prefix == [] ==> prefix + tail == tail;
      assert tail == [] ==> prefix + tail == prefix;
      Ok(prefix + tail)
    case Err(code) => Err(code)
  }

  /** Moving one converted element from the rest of a list onto its prefix. */
  lemma PrependAppend<T>(prefix: seq<T>, x: T, rest: Result<seq<T>>)
    ensures Prepend(prefix, Prepend([x], rest)) == Prepend(prefix + [x], rest)
  {
    PrependConcat(prefix, [x], rest);
  }

  /** Moving several converted elements from the rest of a list onto its prefix. */
  lemma PrependConcat<T>(prefix: seq<T>, middle: seq<T>, rest: Result<seq<T>>)
    ensures Prepend(prefix, Prepend(middle, rest)) == Prepend(prefix + middle, rest)
  {
    if rest.Ok? {
      assert prefix + (middle + rest.value) == (prefix + middle) + rest.value;
    }
  }

  /** Converting a list element by element in order, stopping at the first
      failure: the shape shared by every list conversion of the converter. */
  function MapResult<A, B>(f: A -> Result<B>, xs: seq<A>): (r: Result<seq<B>>)
    ensures r.Ok? ==> |r.value| == |xs|
  {
    if |xs| == 0 then Ok([])
    else
      var y :- f(xs[0]);
      var rest :- MapResult(f, xs[1..]);
      Ok([y] + rest)
  }

  /** A mapped list converts exactly when every element does, each result at
      its element's position. */
  lemma {:induction false} MapPointwise<A, B>(f: A -> Result<B>, xs: seq<A>)
    ensures MapResult(f, xs).Ok? <==> forall i | 0 <= i < |xs| :: f(xs[i]).Ok?
    ensures MapResult(f, xs).Ok? ==> forall i | 0 <= i < |xs| :: f(xs[i]) == Ok(MapResult(f, xs).value[i])
  {
    if |xs| > 0 {
      MapPointwise(f, xs[1..]);
      assert forall i | 1 <= i < |xs| :: xs[1..][i - 1] == xs[i];
    }
  }

  /** A mapped list that fails carries the status of its first failing element,
      every element before it converting. */
  lemma {:induction false} MapFirstFailure<A, B>(f: A -> Result<B>, xs: seq<A>)
    ensures MapResult(f, xs).Err? ==>
      exists i | 0 <= i < |xs| ::
        (forall j | 0 <= j < i :: f(xs[j]).Ok?) && f(xs[i]) == Err(MapResult(f, xs).code)
  {
    if |xs| > 0 && MapResult(f, xs).Err? && f(xs[0]).Ok? {
      MapFirstFailure(f, xs[1..]);
      var k :| 0 <= k < |xs[1..]|
        && (forall j | 0 <= j < k :: f(xs[1..][j]).Ok?)
        && f(xs[1..][k]) == Err(MapResult(f, xs[1..]).code);
      forall j | 0 <= j < k + 1
        ensures f(xs[j]).Ok?
      {
        if j > 0 {
          assert xs[j] == xs[1..][j - 1];
        }
      }
      assert xs[k + 1] == xs[1..][k];
    }
  }
}
