/** Shared vocabulary of the aspect-polarity feature helpers: optional values,
    the Python exceptions the helpers can raise, the values stored in an
    example dictionary, and numpy.count_nonzero on an integer vector. */
module Common {

  datatype Option<T> = None | Some(value: T)

  /** The exceptions the modelled helpers can raise. */
  datatype Failure =
    | KeyError(key: string)   // a dictionary lookup of a missing key
    | IndexError              // indexing an empty example list
    | ZeroDivisionError       // an overlap ratio over an empty id list
    | TypeError               // list() of a value that is not a sequence

  datatype Result<T> = Ok(value: T) | Err(failure: Failure)

  /** A value held in an example dictionary: a Python int, an integer
      vector (token ids or a feature vector), or numpy's infinity, which is
      what a failed aspect distance is stored as. */
  datatype Value = IntValue(n: int) | IdsValue(ids: seq<int>) | InfValue

  function Min(a: int, b: int): int { if a <= b then a else b }

  function Max(a: int, b: int): int { if a >= b then a else b }

  function Abs(x: int): nat { if x < 0 then -x else x }

  /** numpy.count_nonzero: the number of entries of s that are not 0. */
  function CountNonzero(s: seq<int>): (n: nat)
    ensures n == |s| - multiset(s)[0]
    ensures n == 0 <==> forall i :: 0 <= i < |s| ==> s[i] == 0
  {
    if s == [] then 0
    else
      assert s == [s[0]] + s[1..];
      (if s[0] != 0 then 1 else 0) + CountNonzero(s[1..])
  }

  /** A non-empty set has an element. */
  lemma NonEmptyHasElement(s: set<int>)
    requires s != {}
    ensures exists x :: x in s
  {
    if !exists x :: x in s {
      assert false;
    }
  }
}
