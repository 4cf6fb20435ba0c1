/**
 * The optional-value wrapper used for the attributes a shape may or may not
 * carry, and the `Array.prototype.find` lookup by id that answers one.
 */
module Wrappers {

  datatype Option<T> = None | Some(value: T) {

    /** The wrapped value, or `default` when there is none. */
    function GetOr(default: T): T {
      match this
      case Some(v) => v
      case None => default
    }
  }

  /** `xs.find(x => key(x) === id)`: the first element, in order, whose key is `id`. */
  function FindFirst<T(==)>(xs: seq<T>, key: T -> string, id: string): (r: Option<T>)
    ensures r.None? <==> forall k :: 0 <= k < |xs| ==> key(xs[k]) != id
    ensures r.Some? ==> key(r.value) == id && r.value in xs
    ensures r.Some? ==> exists k :: 0 <= k < |xs| && xs[k] == r.value && forall j :: 0 <= j < k ==> key(xs[j]) != id
  {
    if |xs| == 0 then None
    else if key(xs[0]) == id then Some(xs[0])
    else
      var rest := FindFirst(xs[1..], key, id);
      assert forall k :: 1 <= k < |xs| ==> xs[k] == xs[1..][k - 1];
      if rest.Some? then
        var k :| 0 <= k < |xs[1..]| && xs[1..][k] == rest.value && forall j :: 0 <= j < k ==> key(xs[1..][j]) != id;
        assert xs[k + 1] == rest.value;
        rest
      else
        rest
  }
}
