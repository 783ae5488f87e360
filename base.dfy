/** Types shared by every part of the data-manager model: optional values, results
    carrying the Python exception that the code raises, bytes, identifiers and a
    few sequence helpers. */
module Base {

  datatype Option<+T> = None | Some(value: T) {
    function GetOr(default: T): T {
      match this
      case Some(v) => v
      case None => default
    }
  }

  /** The exceptions the modelled code raises, named after the Python classes. */
  datatype Error =
    | ValueError(message: string)
    | LookupError(message: string)
    | KeyError(key: string)
    | IndexError
    | TypeError(message: string)
    | AttributeError(name: string)
    | OSError(message: string)
    | AccessError(message: string)
    | Failure(message: string)

  datatype Result<+T> = Ok(value: T) | Err(error: Error)

  newtype byte = x: int | 0 <= x < 256

  /** Seconds since the epoch; the epoch itself is the smallest timestamp. */
  type Timestamp = nat
  const Epoch: Timestamp := 0

  type ItemId = string
  type UserId = string
  type SessionId = string
  type Path = string
  /** Lock and transfer ids are ObjectIds generated by the server; the model
      draws them from a counter, which makes them unique by construction. */
  type LockId = nat
  type TransferId = nat

  /** Concatenation of a list of chunks. */
  function Flatten<T>(chunks: seq<seq<T>>): (r: seq<T>)
    decreases |chunks|
  {
    if chunks == [] then [] else Flatten(chunks[..|chunks| - 1]) + chunks[|chunks| - 1]
  }

  lemma {:induction false} FlattenAppend<T>(a: seq<seq<T>>, b: seq<seq<T>>)
    ensures Flatten(a + b) == Flatten(a) + Flatten(b)
    decreases |b|
  {
    if b == [] {
      assert a + b == a;
    } else {
      var b' := b[..|b| - 1];
      assert (a + b)[..|a + b| - 1] == a + b';
      FlattenAppend(a, b');
    }
  }

  /** The elements of `s` that satisfy `p`, in their original order. */
  function Filter<T(!new)>(s: seq<T>, p: T -> bool): (r: seq<T>)
    ensures |r| <= |s|
    ensures forall x :: x in r <==> x in s && p(x)
    decreases |s|
  {
    if s == [] then []
    else (if p(s[0]) then [s[0]] else []) + Filter(s[1..], p)
  }

  /** The decimal digits of `n`, as Python's `str` writes them. */
  function NatToString(n: nat): (r: string)
    ensures |r| >= 1
    ensures forall k :: 0 <= k < |r| ==> '0' <= r[k] <= '9'
    decreases n
  {
    var digit := ['0' + (n % 10) as char];
    if n < 10 then digit else NatToString(n / 10) + digit
  }
}
