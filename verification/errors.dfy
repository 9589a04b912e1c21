/** Error values and result wrappers shared by the whole model.

    The Go code returns `error` values built with `fmt.Errorf` or handed back
    by the cluster API client. The model keeps one constructor per kind of
    error the core produces itself and wraps everything that comes from the
    remote API in `Remote`.
 */
module Errors {

  datatype Error =
    | ServiceNotFound(name: string)                      // getServiceUuid found no match
    | EnvNotFound(env: string, container: string)        // getEnvFromContainer found no match
    | BadHttpCheck(container: string, definition: string) // HTTP_CHECK is not `GET <path>`
    | CheckTimeout(container: string, url: string)        // the health gate ran out of time
    | Remote(message: string)                             // any error from the remote API or event feed

  /** A value or the error that prevented computing it. */
  datatype Result<+T> = Ok(value: T) | Err(error: Error)

  /** A Go `error` return: nil or an error. */
  datatype Outcome = Pass | Fail(error: Error)

  /** How a blocking piece of the rollout ended. `Stalled` means that the
      inputs ran out while the Go code would still be blocking or polling. */
  datatype Progress = Done | Aborted(error: Error) | Stalled
}
