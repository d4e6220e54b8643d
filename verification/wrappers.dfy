/** Failure-compatible wrappers used across the model. */
module Wrappers {

  datatype Option<+T> = None | Some(value: T)

  /** The outcome of a Python computation that either returns or raises. */
  datatype Result<+T, +E> = Ok(value: T) | Err(error: E) {
    predicate IsFailure() { Err? }

    function PropagateFailure<U>(): Result<U, E>
      requires Err?
    {
      Err(error)
    }

    function Extract(): T
      requires Ok?
    {
      value
    }
  }

  /**
   * A Python `for` loop that calls `f` on each element in turn and collects
   * the results: the first exception raised ends the loop and propagates.
   */
  function MapAll<T, U, E>(f: T -> Result<U, E>, xs: seq<T>): Result<seq<U>, E> {
    if xs == [] then Ok([])
    else
      var n := |xs| - 1;
      var us :- MapAll(f, xs[..n]);
      var u :- f(xs[n]);
      Ok(us + [u])
  }

  /** The loop completes exactly when no call raises, with one result per element. */
  lemma {:induction false} MapAllOk<T, U, E>(f: T -> Result<U, E>, xs: seq<T>)
    ensures MapAll(f, xs).Ok? <==> forall i :: 0 <= i < |xs| ==> f(xs[i]).Ok?
    ensures MapAll(f, xs).Ok? ==>
              |MapAll(f, xs).value| == |xs| &&
              forall i :: 0 <= i < |xs| ==> f(xs[i]) == Ok(MapAll(f, xs).value[i])
  {
    if xs != [] {
      var n := |xs| - 1;
      assert forall i :: 0 <= i < n ==> xs[..n][i] == xs[i];
      MapAllOk(f, xs[..n]);
    }
  }

  /** When the loop raises, it raises the exception of the first call that raises. */
  lemma {:induction false} MapAllFirstError<T, U, E>(f: T -> Result<U, E>, xs: seq<T>)
    requires MapAll(f, xs).Err?
    ensures exists i :: 0 <= i < |xs| && f(xs[i]) == Err(MapAll(f, xs).error) &&
                        forall j :: 0 <= j < i ==> f(xs[j]).Ok?
  {
    var n := |xs| - 1;
    assert forall i :: 0 <= i < n ==> xs[..n][i] == xs[i];
    MapAllOk(f, xs[..n]);
    if MapAll(f, xs[..n]).Err? {
      MapAllFirstError(f, xs[..n]);
      var i :| 0 <= i < n && f(xs[..n][i]) == Err(MapAll(f, xs[..n]).error) &&
               forall j :: 0 <= j < i ==> f(xs[..n][j]).Ok?;
      assert f(xs[i]) == Err(MapAll(f, xs).error);
    } else {
      assert f(xs[n]) == Err(MapAll(f, xs).error);
    }
  }

  /** One more iteration of the loop. */
  lemma MapAllStep<T, U, E>(f: T -> Result<U, E>, xs: seq<T>, j: nat)
    requires j < |xs|
    ensures MapAll(f, xs[..j + 1]) ==
              match MapAll(f, xs[..j])
              case Err(e) => Err(e)
              case Ok(us) => (match f(xs[j]) case Err(e) => Err(e) case Ok(u) => Ok(us + [u]))
  {
    assert xs[..j + 1][..j] == xs[..j];
  }

  /** One more step of the loop: it raises what `f` raises, or appends what `f` returns. */
  lemma MapAllNext<T, U, E>(f: T -> Result<U, E>, xs: seq<T>, j: nat, us: seq<U>)
    requires j < |xs| && MapAll(f, xs[..j]) == Ok(us)
    ensures f(xs[j]).Err? ==> MapAll(f, xs) == Err(f(xs[j]).error)
    ensures f(xs[j]).Ok? ==> MapAll(f, xs[..j + 1]) == Ok(us + [f(xs[j]).value])
  {
    MapAllStep(f, xs, j);
    if f(xs[j]).Err? {
      MapAllErrorSticks(f, xs, j + 1);
    }
  }

  /** Once a prefix of the loop has raised, the whole loop raises the same exception. */
  lemma {:induction false} MapAllErrorSticks<T, U, E>(f: T -> Result<U, E>, xs: seq<T>, j: nat)
    requires 0 < j <= |xs| && MapAll(f, xs[..j]).Err?
    ensures MapAll(f, xs) == MapAll(f, xs[..j])
    decreases |xs| - j
  {
    if j < |xs| {
      assert xs[..j + 1][..j] == xs[..j];
      MapAllErrorSticks(f, xs, j + 1);
    } else {
      assert xs[..j] == xs;
    }
  }

  /** Two iterations that both complete. */
  lemma MapAllOfTwo<T, U, E>(f: T -> Result<U, E>, x: T, y: T)
    requires f(x).Ok? && f(y).Ok?
    ensures MapAll(f, [x, y]) == Ok([f(x).value, f(y).value])
  {
    var xs := [x, y];
    MapAllStep(f, xs, 0);
    MapAllStep(f, xs, 1);
    assert xs[..0] == [] && xs[..2] == xs && xs[0] == x && xs[1] == y;
    assert MapAll(f, xs[..0]) == Ok([]);
    assert MapAll(f, xs[..1]) == Ok([] + [f(x).value]);
    assert ([] + [f(x).value]) + [f(y).value] == [f(x).value, f(y).value];
  }

  /** Regrouping a concatenation of three sequences. */
  lemma AppendAssoc<T>(a: seq<T>, b: seq<T>, c: seq<T>)
    ensures (a + b) + c == a + (b + c)
  {
  }
}
