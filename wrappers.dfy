/** Small value wrappers shared by every module of the model. */
module Wrappers {

  /** A value that may be absent (JavaScript `null` where only one kind of absence matters). */
  datatype Option<+T> = None | Some(value: T) {
    function GetOr(default: T): T {
      match this
      case Some(v) => v
      case None => default
    }
  }

  /** Either a value or an error. */
  datatype Result<+T, +E> = Ok(value: T) | Err(error: E)

  /**
   * A property of a JSON object as JavaScript code sees it: the key is absent
   * (`undefined`), it holds `null`, or it holds a value.
   */
  datatype Field<+T> = Missing | Null | Val(value: T) {

    predicate IsNullish() {
      Missing? || Null?
    }

    /** `x ?? null`: both kinds of absence become an explicit `null`. */
    function OrNull(): (r: Field<T>)
      ensures !r.Missing?
      ensures r.Val? <==> Val?
      ensures r.Val? ==> r.value == value
    {
      if Val? then this else Null
    }

    /** `x ?? d` */
    function Or(default: T): T {
      if Val? then value else default
    }
  }

  /** The field a JSON round trip produces for an optional value: `null` or the value. */
  function FieldOf<T>(o: Option<T>): (f: Field<T>)
    ensures !f.Missing?
    ensures f.Val? <==> o.Some?
    ensures f.Val? ==> f.value == o.value
  {
    match o
    case Some(v) => Val(v)
    case None => Null
  }
}
