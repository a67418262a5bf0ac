/** Identifiers, request outcomes and request-field conventions shared by every controller. */
module Common {

  datatype Option<T> = None | Some(value: T)

  /** A document identifier as it arrives in a request or a token: text. */
  type Id = string

  /** The status code carried by an `ApiError`; the message text is presentation only. */
  datatype ApiError = ApiError(code: nat)

  const BadRequest := ApiError(400)
  const Forbidden := ApiError(403)
  const NotFound := ApiError(404)
  /** An error thrown by the database driver (a failed cast to ObjectId), which carries no code. */
  const ServerError := ApiError(500)

  /** What a handler produces: the payload of a success response, or the error it throws. */
  datatype Result<T> = Ok(value: T) | Fail(error: ApiError)

  predicate IsHexDigit(c: char) {
    '0' <= c <= '9' || 'a' <= c <= 'f' || 'A' <= c <= 'F'
  }

  /**
   * Mongoose's `isValidObjectId` on a string: a raw 12-character id or 24 hexadecimal digits.
   * The length is counted in code points, where JavaScript counts UTF-16 code units.
   */
  predicate IsValidObjectId(s: string) {
    |s| == 12 || (|s| == 24 && forall i :: 0 <= i < |s| ==> IsHexDigit(s[i]))
  }

  /** JavaScript truthiness of an optional request string (`if (x)`, `x || y`): present and non-empty. */
  predicate Truthy(s: Option<string>) {
    s.Some? && s.value != ""
  }

  /** `given || fallback` for a request string and the value it would replace. */
  function OrElse(given: Option<string>, fallback: string): string
  {
    if Truthy(given) then given.value else fallback
  }

  /** A user document, as the comment listing joins it. */
  datatype User = User(id: Id, username: string, email: string)
}
