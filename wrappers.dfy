/** Rust's `Option` and `Result`, and the one `Result` combinator the library
    builds everything from: `map_err`. */
module Wrappers {

  datatype Option<T> = None | Some(value: T)

  datatype Result<O, E> = Ok(value: O) | Err(error: E)

  /** `Result::map_err`: the success side passes through untouched, the
      error side is replaced by `f` of it. */
  function MapErr<O, E, F>(r: Result<O, E>, f: E -> F): (m: Result<O, F>)
    ensures m.Ok? <==> r.Ok?
    ensures r.Ok? ==> m.value == r.value
    ensures r.Err? ==> m.error == f(r.error)
  {
    match r
    case Ok(v) => Ok(v)
    case Err(e) => Err(f(e))
  }
}
