/** Value kinds shared by every part of the combat model: Python's `None`,
    a raised exception, the integer-or-None values held in modifier stores,
    and a mutable list object that several owners may share. */
module Base {

  datatype Option<+T> = None | Some(value: T) {
    function GetOr(default: T): T {
      match this
      case Some(v) => v
      case None => default
    }
  }

  /** Err carries the message of the exception the source raises. */
  datatype Result<+T> = Ok(value: T) | Err(msg: string)

  /** Completion of an operation that returns nothing or raises. */
  datatype Outcome = Pass | Fail(msg: string)

  /** A stored modifier value: an integer stack count, or None meaning
      "active without a duration". */
  datatype Val = Int(n: int) | Null

  /** A Python list object: callers that hold the same reference see each
      other's in-place changes. */
  class PyList<T> {
    var items: seq<T>

    constructor (xs: seq<T>)
      ensures items == xs
    {
      items := xs;
    }
  }

  /** Index of the first occurrence of x in s (Python's list.index), or
      None where list.index raises. */
  function IndexOf<T(==)>(s: seq<T>, x: T): (r: Option<nat>)
    ensures r.Some? ==>
              && r.value < |s| && s[r.value] == x
              && forall j :: 0 <= j < r.value ==> s[j] != x
    ensures r.None? <==> x !in s
  {
    if |s| == 0 then None
    else if s[0] == x then Some(0)
    else match IndexOf(s[1..], x)
      case None => None
      case Some(k) => Some(k + 1)
  }

  /** s with its element at position i removed (list.pop(i)). */
  function RemoveAt<T>(s: seq<T>, i: nat): (r: seq<T>)
    requires i < |s|
    ensures |r| == |s| - 1
    ensures forall j :: 0 <= j < i ==> r[j] == s[j]
    ensures forall j :: i <= j < |r| ==> r[j] == s[j + 1]
  {
    s[..i] + s[i + 1..]
  }
}
