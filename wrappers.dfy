/** Option, the model's stand-in for Python's `None`-or-value results. */
module Wrappers {

  datatype Option<+T> = None | Some(value: T)

  /** Prepends `prefix` to a present sequence; an absent one stays absent. */
  function PrependAll<T>(prefix: seq<T>, rest: Option<seq<T>>): (r: Option<seq<T>>)
    ensures r.Some? <==> rest.Some?
    ensures r.Some? ==> |r.value| == |prefix| + |rest.value|
    ensures r.Some? ==> r.value[..|prefix|] == prefix && r.value[|prefix|..] == rest.value
  {
    match rest
    case None => None
    case Some(s) => Some(prefix + s)
  }

  lemma PrependAllTwice<T>(a: seq<T>, b: seq<T>, rest: Option<seq<T>>)
    ensures PrependAll(a, PrependAll(b, rest)) == PrependAll(a + b, rest)
  {
    if rest.Some? {
      assert a + (b + rest.value) == (a + b) + rest.value;
    }
  }
}
