/** Optional values and error returns shared by every component. */
module Wrappers {

  datatype Option<+T> = None | Some(value: T)

  function Or<T>(a: Option<T>, b: T): T { if a.Some? then a.value else b }

  datatype Result<+T, +E> = Ok(value: T) | Err(error: E)

  lemma TailOfConcat<T>(a: seq<T>, b: seq<T>)
    requires a != []
    ensures (a + b)[0] == a[0] && (a + b)[1..] == a[1..] + b
  {
  }

  lemma InitOfSnoc<T>(a: seq<T>, x: T)
    ensures (a + [x])[..|a + [x]| - 1] == a && (a + [x])[|a + [x]| - 1] == x
  {
  }
}
