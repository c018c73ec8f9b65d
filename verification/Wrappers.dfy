/** Optional values and results, concatenation and unused names, for all components. */
module Wrappers {
  datatype Option<+T> = None | Some(value: T) {
    function UnwrapOr(default: T): T {
      if Some? then value else default
    }
  }

  datatype Result<+T, +E> = Ok(value: T) | Err(error: E)

  lemma Assoc<T>(a: seq<T>, b: seq<T>, c: seq<T>)
    ensures a + (b + c) == a + b + c && a + [] == a && [] + a == a
  {
  }

  lemma {:induction false} FreshId(ids: set<nat>) returns (x: nat)
    ensures x !in ids && forall y <- ids :: y < x
  {
    if ids == {} {
      x := 0;
    } else {
      var y :| y in ids;
      var z := FreshId(ids - {y});
      x := if z <= y then y + 1 else z;
      forall v | v in ids ensures v < x {
        assert v == y || v in ids - {y};
      }
    }
  }
}
