/** Small helpers shared by the game modules: optional values and the
    three-way comparison that C#'s numeric CompareTo performs. */
module Common {
  /** A reference or value that may be absent (C# null). */
  datatype Option<+T> = None | Some(value: T)

  /** Int32.CompareTo / Single.CompareTo: the sign of x - y. */
  function CompareTo(x: real, y: real): (r: int)
    ensures r == -1 || r == 0 || r == 1
    ensures r < 0 <==> x < y
    ensures r == 0 <==> x == y
  {
    if x < y then -1 else if x > y then 1 else 0
  }

  /** Mathf.Max over ints. */
  function MaxInt(a: int, b: int): (r: int)
    ensures r >= a && r >= b && (r == a || r == b)
  {
    if a >= b then a else b
  }

  /** Mathf.Min over ints. */
  function MinInt(a: int, b: int): (r: int)
    ensures r <= a && r <= b && (r == a || r == b)
  {
    if a <= b then a else b
  }

  /** Mathf.Min / Mathf.Max over floats. */
  function MinReal(a: real, b: real): (r: real)
    ensures r <= a && r <= b && (r == a || r == b)
  {
    if a <= b then a else b
  }

  function MaxReal(a: real, b: real): (r: real)
    ensures r >= a && r >= b && (r == a || r == b)
  {
    if a >= b then a else b
  }
}
