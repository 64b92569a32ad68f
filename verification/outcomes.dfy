/** Value shapes shared by the service and the page: optional values, the
    values a JavaScript `throw` can carry, and the completion of a call. */
module Outcomes {

  /** An optional value: `undefined`/`null` versus a present value. */
  datatype Option<+T> = None | Some(value: T)

  /** What a `throw` carries. `catch` blocks of the core only ask
      `instanceof Error`, so every other thrown value is one case. */
  datatype Thrown = Error(message: string) | NonError

  /** How an (awaited) call ends: it returns a value or it throws. */
  datatype Completion<+T> = Returned(value: T) | Threw(thrown: Thrown)
}
