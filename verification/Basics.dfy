/** Small vocabulary shared by the models: optional values and extrema of finite sets. */
module Basics {

  datatype Option<+T> = None | Some(value: T) {
    function GetOr(default: T): T {
      if Some? then value else default
    }
  }

  /** The greatest element of a non-empty set, as `SELECT MAX(id)` returns it. */
  ghost function MaxOf(s: set<nat>): (m: nat)
    requires s != {}
    ensures m in s && forall x | x in s :: x <= m
  {
    var x :| x in s;
    if s == {x} then x
    else
      var rest := MaxOf(s - {x});
      assert forall y | y in s :: y == x || y in s - {x};
      if rest < x then x else rest
  }

  /** The least element of a non-empty set. */
  ghost function MinOf(s: set<nat>): (m: nat)
    requires s != {}
    ensures m in s && forall x | x in s :: m <= x
  {
    var x :| x in s;
    if s == {x} then x
    else
      var rest := MinOf(s - {x});
      assert forall y | y in s :: y == x || y in s - {x};
      if x < rest then x else rest
  }
}
