/** Failure-carrying datatypes shared by every module of the model. */
module Wrappers {

  /** An optional value: a missing key, a `null` from storage, an `undefined` property. */
  datatype Option<+T> = None | Some(value: T)

  /** What one awaited network round trip delivers to the client code:
      `Ok` when `response.ok` holds and the body decoded to `payload`,
      `NotOk` when the server answered with an error status, and
      `Threw` when `fetch` or `response.json()` raised an exception. */
  datatype Outcome<+T> = Ok(payload: T) | NotOk | Threw
}
