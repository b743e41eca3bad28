/** Optional values and results, for the service's `Option` and `Result`. */
module Options {
  datatype Option<+T> = None | Some(value: T)
  {
    function GetOr(default: T): T { if this.Some? then value else default }

    /** SQL's COALESCE(this, other) */
    function OrElse(other: Option<T>): Option<T> { if this.Some? then this else other }
  }

  datatype Result<+T> = Ok(value: T) | Err
  {
    predicate IsFailure() { Err? }

    function PropagateFailure<U>(): Result<U>
      requires Err?
    {
      Err
    }

    function Extract(): T
      requires Ok?
    {
      value
    }
  }
}
