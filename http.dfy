/** The remote API as the admin screens see it: every call either resolves with a
    payload or throws, and the screens build requests against paths relative to the
    configured back-end base URL. */
module Http {

  datatype Option<+T> = None | Some(value: T)

  /** How one awaited `axios` call ends: resolved with `response.data`, or thrown. */
  datatype Outcome<+T> = Ok(data: T) | Err

  /** A request a handler sends; `path` is relative to the back-end base URL. */
  datatype Request<+B> =
    | Get(path: string)
    | Post(path: string, body: B)
    | Put(path: string, body: B)
    | Delete(path: string)
}
