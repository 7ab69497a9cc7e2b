/** An optional value: `None` stands for Python's `None`, an absent JSON key,
    or a fetch that came back empty-handed. */
module Wrappers {

  datatype Option<+T> = None | Some(value: T) {

    /** The value, or `default` when absent (Python's `x if x is not None else default`). */
    function GetOr(default: T): T {
      match this
      case Some(v) => v
      case None => default
    }
  }

  /** A JSON object whose relevant fields are strings. */
  type Obj = map<string, string>

  /** `obj.get(key, default)`. */
  function Get(obj: Obj, key: string, default: string): string {
    if key in obj then obj[key] else default
  }

  /** `obj.get(key, obj.get(alt, default))`. */
  function FieldOr(obj: Obj, key: string, alt: string, default: string): (r: string)
    ensures key in obj ==> r == obj[key]
    ensures key !in obj && alt in obj ==> r == obj[alt]
    ensures key !in obj && alt !in obj ==> r == default
  {
    Get(obj, key, Get(obj, alt, default))
  }

  /** Python truthiness of a fetched list: `if not xs` holds for `None` and for `[]`. */
  predicate NonEmpty<T>(xs: Option<seq<T>>) {
    xs.Some? && |xs.value| > 0
  }
}
