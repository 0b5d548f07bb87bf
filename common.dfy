/** Small value types and Python semantics shared by the other modules. */
module Common {

  /** Python's `None` or a value. */
  datatype Option<+T> = None | Some(value: T)

  /** A value, or the exception the Python code would raise instead. */
  datatype Result<+T, +E> = Ok(value: T) | Err(error: E)

  function Min(a: int, b: int): (m: int)
  {
    if a <= b then a else b
  }

  /** Python's `s[i]` on a list: a negative `i` counts from the end. */
  predicate ValidPyIndex<T>(s: seq<T>, i: int)
  {
    -|s| <= i < |s|
  }

  function PyIndex<T>(s: seq<T>, i: int): (x: T)
    requires ValidPyIndex(s, i)
    ensures 0 <= i ==> x == s[i]
    ensures i < 0 ==> x == s[|s| + i]
  {
    if i < 0 then s[|s| + i] else s[i]
  }

  /** Python's `s[start:]`: a negative start counts from the end, and both ends clamp. */
  function PySliceFrom<T>(s: seq<T>, start: int): (r: seq<T>)
    ensures |r| <= |s|
    ensures r == s[|s| - |r|..]
  {
    if start < 0 then
      (if -start >= |s| then s else s[|s| + start..])
    else
      (if start >= |s| then [] else s[start..])
  }
}
