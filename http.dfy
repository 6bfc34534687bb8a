/** What a route handler answers: a JSON body, or an HTTP status with an error. */
module Http {

  datatype Error =
    | Message(text: string)          // `{ message: '...' }` written by the handler
    | ValidationFailed(paths: seq<string>)  // a Mongoose ValidationError, naming the failing paths
    | DuplicateKey                   // MongoDB error code 11000 from a unique index
    | NegativeSkip                   // MongoDB refuses a negative `skip`
    | NullDereference                // a TypeError from reading a field of `null`

  datatype Reply<+T> = Sent(body: T) | Fail(status: int, error: Error)
}
