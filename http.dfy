/** The JSON reply every handler sends: `res.status(code).json({ success, message })`. */
module Http {
  import opened Wrappers

  /** `message` is None for the replies that carry no message field. */
  datatype Response = Response(status: nat, success: bool, message: Option<string>)

  function Fail(status: nat, msg: string): Response {
    Response(status, false, Some(msg))
  }

  function Succeed(msg: string): Response {
    Response(200, true, Some(msg))
  }

  /** The reply of every session-gated route when the session holds no user. */
  const Unauthorized: Response := Fail(401, "Unauthorized")
}
