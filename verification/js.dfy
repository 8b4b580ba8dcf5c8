/**
 * The few JavaScript value semantics the rest of the model relies on:
 * a value that may be `undefined`/`null`, string truthiness, and the
 * `x || fallback` defaulting idiom the constructors use.
 */
module Js {

  /** A value that may be absent (`undefined` or `null` in the source). */
  datatype Option<+T> = None | Some(value: T) {

    /** The carried value, or `fallback` when absent. */
    function GetOr(fallback: T): T {
      match this
      case Some(v) => v
      case None => fallback
    }
  }

  /**
   * The settled outcome of a call that may throw: its value, or the message
   * of the error it threw.
   */
  datatype Result<+T> = Ok(value: T) | Err(message: string)

  /** JavaScript truthiness of a possibly absent string: absent and `''` are falsy. */
  predicate Truthy(s: Option<string>) {
    s.Some? && s.value != ""
  }

  /**
   * `s || fallback` for a possibly absent string: the string itself when it
   * is truthy, otherwise the fallback.
   */
  function OrElse(s: Option<string>, fallback: string): (r: string)
    ensures Truthy(s) ==> r == s.value
    ensures !Truthy(s) ==> r == fallback
  {
    if s.Some? && s.value != "" then s.value else fallback
  }

  /**
   * `xs.find(p)`: the first element satisfying `p`, or `undefined` when
   * none does.
   */
  function Find<T>(xs: seq<T>, p: T -> bool): (r: Option<T>)
    ensures r.None? <==> forall k :: 0 <= k < |xs| ==> !p(xs[k])
    ensures r.Some? ==> p(r.value) && exists i :: 0 <= i < |xs| && xs[i] == r.value && forall k :: 0 <= k < i ==> !p(xs[k])
    decreases |xs|
  {
    if |xs| == 0 then None
    else if p(xs[0]) then (assert xs[0] == xs[0]; Some(xs[0]))
    else
      var r := Find(xs[1..], p);
      assert forall k :: 1 <= k < |xs| ==> xs[k] == xs[1..][k - 1];
      r
  }
}
