/** What a handler sends back, in place of `res.status(code).json(body)`. */
module Http {

  const OK: nat := 200
  const CREATED: nat := 201

  /** `Success(status, payload)` is `{ success: true, ...payload }` with that status;
      `BadRequest` is status 400 with `{ success: false, message: "Required field(s)
      missing or invalid" }`, the one error every handler sends. */
  datatype Reply<+T> = Success(status: nat, payload: T) | BadRequest
}
