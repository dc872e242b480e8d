/** Values shared by every part of the task tracker's server model: ids,
    timestamps, optional request fields, validation results and the failures
    a controller hands to Express's `next`. */
module Common {

  /** An optional value; `None` stands for a JavaScript `undefined`. */
  datatype Option<+T> = None | Some(value: T)

  /** A document id (a MongoDB ObjectId in the system; opaque here). */
  type Id = string

  /** A timestamp in milliseconds since the epoch. */
  type Time = int

  /** A string field that is present and non-empty. This is JavaScript's
      truthiness test on a string, and also what Mongoose's `required`
      rule checks on a `String` path. */
  predicate Present(v: Option<string>)
  {
    v.Some? && v.value != ""
  }

  /** One failed path of a Mongoose validation, with the message the schema
      attaches to the rule that failed. */
  datatype FieldError = FieldError(path: string, message: string)

  /** The result of running a schema's validators: the validated value, or
      the failed paths in schema order. */
  datatype Validated<+T> = Accepted(value: T) | Rejected(errors: seq<FieldError>)

  /** What a controller or middleware passes to `next(err)`. */
  datatype Failure =
    /** `new AppError(message, statusCode)` */
    | AppFailure(message: string, statusCode: int)
    /** `new AppError(message)`: an AppError built without a status code */
    | UncodedAppFailure(message: string)
    /** a Mongoose `ValidationError` made of validator errors */
    | Invalid(errors: seq<FieldError>)
    /** a MongoDB unique-index violation (error code 11000) on `field` */
    | DuplicateKey(field: string, value: string)
    /** jsonwebtoken's `JsonWebTokenError` (bad signature, malformed token) */
    | TokenInvalid
    /** jsonwebtoken's `TokenExpiredError` */
    | TokenExpired

  /** JavaScript's `Array.prototype.join(sep)` on strings: the pieces with
      `sep` between each neighbouring pair; the empty array joins to "". */
  function JoinWith(pieces: seq<string>, sep: string): string
  {
    if |pieces| == 0 then ""
    else if |pieces| == 1 then pieces[0]
    else pieces[0] + sep + JoinWith(pieces[1..], sep)
  }
}
