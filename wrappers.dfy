/** Option and Result values, and the Python exceptions the modelled code can raise. */
module Wrappers {

  datatype Option<+T> = None | Some(value: T)

  /** The exceptions the modelled Python code raises (uncaught: they end the run). */
  datatype Error =
    | ZeroDivisionError
    | AssertionError
    | IndexError
    | ValueError
    | TypeError
    | AttributeError
    | FileNotFoundError

  datatype Result<+T> = Ok(value: T) | Err(error: Error)

  /**
    A run over results that stops at the first error: the values before it, and the error.
    A generator that raises part-way has yielded exactly those values.
   */
  function Collect<T>(rs: seq<Result<T>>, i: nat): (seq<T>, Option<Error>)
    decreases |rs| - i
  {
    if i >= |rs| then ([], None)
    else match rs[i]
      case Err(e) => ([], Some(e))
      case Ok(p) =>
        var rest := Collect(rs, i + 1);
        ([p] + rest.0, rest.1)
  }

  /** One step of `Collect`, seen from a prefix that has already been yielded. */
  lemma CollectStep<T>(rs: seq<Result<T>>, i: nat, done: seq<T>)
    requires i <= |rs|
    ensures i == |rs| ==> (done + Collect(rs, i).0, Collect(rs, i).1) == (done, None)
    ensures i < |rs| && rs[i].Err? ==> (done + Collect(rs, i).0, Collect(rs, i).1) == (done, Some(rs[i].error))
    ensures i < |rs| && rs[i].Ok? ==>
            (done + Collect(rs, i).0, Collect(rs, i).1) == (done + [rs[i].value] + Collect(rs, i + 1).0, Collect(rs, i + 1).1)
  {
    if i < |rs| && rs[i].Ok? {
      assert done + ([rs[i].value] + Collect(rs, i + 1).0) == done + [rs[i].value] + Collect(rs, i + 1).0;
    } else {
      assert done + [] == done;
    }
  }

  /** At most one value is yielded per result, and an error cuts the output short. */
  lemma {:induction false} CollectCount<T>(rs: seq<Result<T>>, i: nat)
    requires i <= |rs|
    ensures var out := Collect(rs, i);
            && |out.0| <= |rs| - i
            && (out.1.None? <==> |out.0| == |rs| - i)
            && (out.1.None? <==> forall k :: i <= k < |rs| ==> rs[k].Ok?)
            && (forall k :: 0 <= k < |out.0| ==> rs[i + k] == Ok(out.0[k]))
            && (out.1.Some? ==> rs[i + |out.0|] == Err(out.1.value))
    decreases |rs| - i
  {
    if i < |rs| {
      CollectCount(rs, i + 1);
    }
  }

  /** Collecting past a prefix is collecting the rest on its own. */
  lemma {:induction false} CollectShift<T>(a: seq<Result<T>>, b: seq<Result<T>>, j: nat)
    requires j <= |b|
    ensures Collect(a + b, |a| + j) == Collect(b, j)
    decreases |b| - j
  {
    if j < |b| {
      assert (a + b)[|a| + j] == b[j];
      CollectShift(a, b, j + 1);
    }
  }

  /** Collecting a concatenation: the first part, and the second unless the first raised. */
  lemma {:induction false} CollectConcat<T>(a: seq<Result<T>>, b: seq<Result<T>>, i: nat)
    requires i <= |a|
    ensures var first := Collect(a, i);
            Collect(a + b, i) == if first.1.Some? then first else (first.0 + Collect(b, 0).0, Collect(b, 0).1)
    decreases |a| - i
  {
    if i == |a| {
      CollectShift(a, b, 0);
      assert [] + Collect(b, 0).0 == Collect(b, 0).0;
    } else {
      assert (a + b)[i] == a[i];
      CollectConcat(a, b, i + 1);
      if a[i].Ok? {
        var rest := Collect(a, i + 1);
        if rest.1.None? {
          assert [a[i].value] + (rest.0 + Collect(b, 0).0) == [a[i].value] + rest.0 + Collect(b, 0).0;
        }
      }
    }
  }

  /** The same split with a prefix already yielded in front. */
  lemma CollectThen<T>(done: seq<T>, a: seq<Result<T>>, b: seq<Result<T>>)
    ensures var first := Collect(a, 0);
            var rest := Collect(b, 0);
            (done + Collect(a + b, 0).0, Collect(a + b, 0).1) ==
              if first.1.Some? then (done + first.0, first.1) else (done + first.0 + rest.0, rest.1)
  {
    CollectConcat(a, b, 0);
    var first := Collect(a, 0);
    var rest := Collect(b, 0);
    assert done + (first.0 + rest.0) == done + first.0 + rest.0;
  }
}
