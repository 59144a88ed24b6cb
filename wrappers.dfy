/** Optional values, results, and the Python exceptions the ROI code can raise. */
module Wrappers {

  datatype Option<T> = None | Some(value: T)

  /** The exceptions that the modelled Python code lets escape to its caller. */
  datatype PyError =
    | ZeroDivisionError   // a float divided by zero
    | TypeError           // an operand of the wrong type (None, or a bool used as a point)
    | IndexError          // a list index out of range
    | KeyError            // a dictionary key that is not present
    | NameError           // a local variable read before any assignment
    | AttributeError      // an attribute read before it was ever set
    | RaisedException(message: string)  // an explicit `raise Exception(...)`

  datatype Result<T> = Success(value: T) | Failure(error: PyError) {
    predicate IsFailure() { Failure? }
    function PropagateFailure<U>(): Result<U>
      requires Failure?
    {
      Failure(error)
    }
    function Extract(): T
      requires Success?
    {
      value
    }
  }

  /** Python's `lst[i]` index resolution: negative indices count from the end. */
  function PyIndex(i: int, n: nat): (k: Option<nat>)
    ensures k.Some? <==> -(n as int) <= i < n
    ensures k.Some? ==> k.value < n && (if i < 0 then k.value == i + n else k.value == i)
  {
    if 0 <= i < n then Some(i) else if -(n as int) <= i < 0 then Some(i + n) else None
  }

  /** Python's `lst.insert(i, x)` for `i >= 0`: an index past the end appends. */
  function PyInsert<T>(s: seq<T>, i: nat, x: T): (r: seq<T>)
    ensures |r| == |s| + 1
    ensures i <= |s| ==> r[i] == x && r[..i] == s[..i] && r[i + 1..] == s[i..]
    ensures i > |s| ==> r == s + [x]
    ensures multiset(r) == multiset(s) + multiset{x}
  {
    if i <= |s| then assert s == s[..i] + s[i..]; s[..i] + [x] + s[i..] else s + [x]
  }

  /** Python's `lst.pop(i)` for a valid index: the element at `i` is gone, the rest keep order. */
  function RemoveAt<T>(s: seq<T>, i: nat): (r: seq<T>)
    requires i < |s|
    ensures |r| == |s| - 1
    ensures forall k :: 0 <= k < i ==> r[k] == s[k]
    ensures forall k :: i <= k < |r| ==> r[k] == s[k + 1]
    ensures multiset(r) == multiset(s) - multiset{s[i]}
  {
    assert s == s[..i] + [s[i]] + s[i + 1..];
    s[..i] + s[i + 1..]
  }

  /** Index of the first element equal to `x`, as Python's `for i, s in enumerate(lst): if s == x: ... break` finds it. */
  function FirstIndex<T(==)>(s: seq<T>, x: T): (r: Option<nat>)
    ensures r.Some? <==> x in s
    ensures r.Some? ==> r.value < |s| && s[r.value] == x && x !in s[..r.value]
  {
    if |s| == 0 then None
    else if s[0] == x then Some(0)
    else
      match FirstIndex(s[1..], x)
      case None => None
      case Some(k) =>
        assert s[1..][..k] == s[1..k + 1];
        assert s[..k + 1] == [s[0]] + s[1..k + 1];
        Some(k + 1)
  }
}
