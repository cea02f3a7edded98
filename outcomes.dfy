/** The exceptions the cleaning code can raise, and a result type that carries
    either a value or the exception that aborted the computation. */
module Outcomes {

  /** `KeyError(k)`: a dictionary lookup of the missing key `k`;
      `IndexError`: `split()[0]` on a name with no tokens. */
  datatype Error = KeyError(key: string) | IndexError

  datatype Outcome<+T> = Ok(value: T) | Raised(error: Error)

  datatype Option<+T> = None | Some(value: T)
}
