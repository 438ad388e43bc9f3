/** Failure-compatible result types shared by every service of the model. */
module Wrappers {

  /** A value that may be absent: a Java reference that may be null, or an Optional. */
  datatype Option<+T> = None | Some(value: T)

  /** The HTTP statuses the services raise through ResponseStatusException.
      ServerError stands for an AssertionError thrown on a broken internal invariant. */
  datatype Status = BadRequest | NotFound | Conflict | UnprocessableEntity | ServerError

  /** Either the value an operation returns or the status of the exception it throws. */
  datatype Result<+T> = Ok(value: T) | Err(status: Status)
}

/** Order-preserving filtering of sequences, used for repository queries. */
module Seqs {

  /** The elements of `xs` that satisfy `keep`, in their original order. */
  function Filter<T(!new)>(xs: seq<T>, keep: T -> bool): (r: seq<T>)
    ensures |r| <= |xs|
    ensures forall x :: x in r <==> x in xs && keep(x)
    ensures forall i :: 0 <= i < |r| ==> keep(r[i])
  {
    if xs == [] then []
    else if keep(xs[0]) then [xs[0]] + Filter(xs[1..], keep)
    else Filter(xs[1..], keep)
  }
}
