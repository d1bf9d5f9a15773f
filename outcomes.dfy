/** Results of the route handlers. */
module Outcomes {

  datatype Option<+T> = None | Some(value: T)

  /** What a handler hands back to the client.
      - `Ok(v)`: the success response, carrying what it reports;
      - `Fail(status, message)`: an `AppError` passed to `next`, serialised by the
        error handler with that status and message;
      - `Crash`: an exception nobody catches (a property read on a missing
        document, a token that does not verify), which the error handler turns
        into a 500 response. */
  datatype Outcome<+T> = Ok(value: T) | Fail(status: nat, message: string) | Crash
}
