/** Small helper datatypes shared by the modules of the model. */
module Wrappers {

  /** A value that may be absent: Python's `None` versus a present value. */
  datatype Option<+T> = None | Some(value: T) {
    function GetOr(default: T): T {
      match this
      case Some(v) => v
      case None => default
    }
  }

  /** The Python exceptions the model raises. */
  datatype PyError = TypeError | KeyError | AttributeError | ZeroDivisionError | IndexError | DecimalInvalidOperation

  /** The outcome of an operation that either returns a value or raises. */
  datatype Result<+T> = Ok(value: T) | Err(error: PyError)

  /** A decimal division: 0/0 is an invalid operation and any other division by zero raises. */
  function DecimalQuotient(a: real, b: real): (r: Result<real>)
    ensures r.Ok? <==> b != 0.0
    ensures r.Ok? ==> r.value * b == a
    ensures r.Err? ==> (r.error == DecimalInvalidOperation <==> a == 0.0) && (r.error != ZeroDivisionError <==> a == 0.0)
  {
    if b != 0.0 then Ok(a / b)
    else if a == 0.0 then Err(DecimalInvalidOperation)
    else Err(ZeroDivisionError)
  }

  function Min(a: real, b: real): (m: real)
    ensures m <= a && m <= b && (m == a || m == b)
  {
    if a <= b then a else b
  }

  function Max(a: real, b: real): (m: real)
    ensures m >= a && m >= b && (m == a || m == b)
  {
    if a >= b then a else b
  }

  function MinInt(a: int, b: int): (m: int)
    ensures m <= a && m <= b && (m == a || m == b)
  {
    if a <= b then a else b
  }

  function Abs(x: real): (r: real)
    ensures r >= 0.0 && (r == x || r == -x)
  {
    if x < 0.0 then -x else x
  }

  /** Python's slice `s[:d]`: a negative `d` counts from the end. */
  function PyTake<T>(s: seq<T>, d: int): (r: seq<T>)
    ensures |r| <= |s| && r == s[..|r|]
    ensures d >= 0 ==> |r| == if d < |s| then d else |s|
  {
    if d >= 0 then s[..if d < |s| then d else |s|]
    else s[..if |s| + d > 0 then |s| + d else 0]
  }

  /** Python's slice `s[-n:]` for n > 0: the last `n` elements, or all of them. */
  function PyLast<T>(s: seq<T>, n: nat): (r: seq<T>)
    requires n > 0
    ensures |r| == if n < |s| then n else |s|
    ensures r == s[|s| - |r|..]
  {
    if n < |s| then s[|s| - n..] else s
  }

  /** Python's slice `s[k:]`: a negative `k` counts from the end. */
  function PyFrom<T>(s: seq<T>, k: int): (r: seq<T>)
    ensures |r| <= |s| && r == s[|s| - |r|..]
    ensures k >= 0 ==> |r| == if k < |s| then |s| - k else 0
    ensures k < 0 ==> |r| == if -k < |s| then -k else |s|
  {
    if k >= 0 then s[if k < |s| then k else |s|..]
    else s[if |s| + k > 0 then |s| + k else 0..]
  }

  predicate Distinct<T(==)>(s: seq<T>) {
    forall i, j :: 0 <= i < j < |s| ==> s[i] != s[j]
  }
}
