/**
 Shared vocabulary of the two controllers: nullable values, the identifier and
 timestamp types, the HTTP outcomes the controllers return, and .NET's
 `string.IsNullOrEmpty`.
 */
module Common {

  /** A C# nullable (`string?`, `int?`, `bool?`): `None` is `null`. */
  datatype Option<T> = None | Some(value: T)

  /** A `System.Guid`; only equality matters, so it is a number here. */
  type Guid = nat

  /** A `DateTime` stamp (`DateTime.UtcNow`), taken as an opaque tick count. */
  type Timestamp = int

  /** The outcome of a controller action, in place of ASP.NET's `IActionResult`. */
  datatype Response<T> =
    | Ok(body: T)                      // 200
    | Created(location: Guid, body: T) // 201, `CreatedAtAction` with the new id
    | NoContent                        // 204
    | NotFound                         // 404
    | BadRequest(message: string)      // 400

  /** `string.IsNullOrEmpty` on a nullable string. */
  predicate IsNullOrEmpty(s: Option<string>) {
    s.None? || s.value == []
  }
}
