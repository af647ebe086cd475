/** Values shared by every handler: optional values, JSON body fields and HTTP replies. */
module Common {

  datatype Option<T> = None | Some(value: T)

  /** A field of a parsed JSON body: absent (`undefined`), explicitly `null`, or a value. */
  datatype Field<T> = Absent | Null | Present(value: T)

  /** The status code, the `success` flag and the `message` of a JSON reply. */
  datatype Reply = Reply(status: int, success: bool, message: string)

  /** JavaScript truthiness of a nullable string: present and not empty. */
  predicate Truthy(s: Option<string>)
  {
    s.Some? && s.value != ""
  }

  /** JavaScript truthiness of a string field of a request body. */
  predicate FieldTruthy(f: Field<string>)
  {
    f.Present? && f.value != ""
  }

  /** `a || b` on a nullable string. */
  function OrElse(s: Option<string>, default: string): string
  {
    if Truthy(s) then s.value else default
  }

  /** `a || b` on a string field. */
  function FieldOrElse(f: Field<string>, default: string): string
  {
    if FieldTruthy(f) then f.value else default
  }

  /** A nullable column after an ORM update with a JSON value: `undefined` leaves the
      column as it is, `null` clears it and a value replaces it. */
  function Merge<T>(column: Option<T>, f: Field<T>): Option<T>
  {
    match f
    case Absent => column
    case Null => None
    case Present(v) => Some(v)
  }
}
