/** Small shared vocabulary: an optional value (C#'s nullable references
    and `out`-parameter/bool pairs), the real-valued helpers `Abs` and `Max`
    that stand for Unity's `Mathf.Abs` and `Mathf.Max`, and the integer
    minimum `MinInt` that the leaderboard and direction-buffer bounds use. */
module Common {

  /** A value that may be missing (a C# `null` or a `Try...` that returned false). */
  datatype Option<+T> = None | Some(value: T)

  function Abs(x: real): (r: real)
    ensures r >= 0.0
    ensures r == x || r == -x
  {
    if x < 0.0 then -x else x
  }

  function Max(a: real, b: real): (r: real)
    ensures r >= a && r >= b
    ensures r == a || r == b
  {
    if a >= b then a else b
  }

  function MinInt(a: int, b: int): (r: int)
    ensures r <= a && r <= b
    ensures r == a || r == b
  {
    if a <= b then a else b
  }
}
