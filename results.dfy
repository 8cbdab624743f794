/** Outcomes of the decoder's operations. The Python code signals failure by raising; each
    kind of exception it can raise on the modelled paths is one constructor of Error. */
module Results {

  datatype Option<+T> = None | Some(value: T)

  datatype Error =
    | Raised(message: string)        // an explicit `raise Exception(message)`
    | AssertionFailed(what: string)  // a Python `assert` that does not hold
    | NegativeSeek(offset: int)      // ValueError from `fp.seek` with a negative position
    | ZeroStep                       // ValueError: `range()` with step 0
    | ZeroDivision                   // ZeroDivisionError
    | NegativeShift                  // ValueError: negative shift count
    | IndexOutOfRange                // IndexError
    | UnboundLocal(name: string)     // UnboundLocalError
    | NotSubscriptable               // TypeError: an object indexed with `[]` that has no `__getitem__`
    | NotLocated(name: string)       // a chunk offset or attribute used before the step that sets it
    | Diverges(loop: string)         // the source loop never terminates on this input

  datatype Result<+T> = Ok(value: T) | Err(error: Error)

  datatype Outcome = Pass | Fail(error: Error)

  /** The results of a run of steps taken in order, stopping at the first that raises: all
      the values when none raises, else the first error. */
  function Collect<T>(rs: seq<Result<T>>): (r: Result<seq<T>>)
    ensures r.Ok? ==> |r.value| == |rs|
  {
    if |rs| == 0 then Ok([])
    else match Collect(rs[..|rs| - 1])
      case Err(e) => Err(e)
      case Ok(front) =>
        match rs[|rs| - 1]
        case Err(e) => Err(e)
        case Ok(v) => Ok(front + [v])
  }

  /** One step more: the run so far, then the new step. */
  lemma CollectAppend<T>(rs: seq<Result<T>>, x: Result<T>)
    ensures Collect(rs + [x]) == match Collect(rs)
                                 case Err(e) => Err(e)
                                 case Ok(front) => (match x
                                                    case Err(e) => Err(e)
                                                    case Ok(v) => Ok(front + [v]))
  {
    assert (rs + [x])[..|rs|] == rs;
  }

  /** The run succeeds exactly when every step does, and then holds each step's value. */
  lemma {:induction false} CollectMeaning<T>(rs: seq<Result<T>>)
    ensures Collect(rs).Ok? <==> forall k :: 0 <= k < |rs| ==> rs[k].Ok?
    ensures Collect(rs).Ok? ==> forall k :: 0 <= k < |rs| ==> rs[k] == Ok(Collect(rs).value[k])
  {
    if |rs| > 0 {
      var front := rs[..|rs| - 1];
      CollectMeaning(front);
      assert forall k :: 0 <= k < |front| ==> front[k] == rs[k];
    }
  }

  /** A run whose first n steps raise raises the same error. */
  lemma {:induction false} CollectKeepsError<T>(rs: seq<Result<T>>, n: nat)
    requires n <= |rs| && Collect(rs[..n]).Err?
    ensures Collect(rs) == Collect(rs[..n])
    decreases |rs| - n
  {
    if n < |rs| {
      assert rs[..n + 1][..n] == rs[..n];
      CollectKeepsError(rs, n + 1);
    } else {
      assert rs[..n] == rs;
    }
  }
}
