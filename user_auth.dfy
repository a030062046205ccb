/** The `userAuth` middleware (userAuth.js): a request goes on to its handler
    only when its session names a user, and then with that user's id written
    over whatever `userId` the client put in the body. */
module UserAuth {
  import opened Wrappers
  import opened Http
  import opened UserModel
  import opened TodoModel

  /** `req.body`: every field any handler reads. A string field is "" when
      the client left it out; `completed` is None when it is absent. */
  datatype RequestBody = RequestBody(
    userId: Option<UserId>,
    fullName: string,
    email: string,
    password: string,
    secretKey: string,
    key: string,
    newPassword: string,
    newbio: string,
    imageUrl: string,
    title: string,
    todoId: TodoId,
    completed: Option<bool>)

  datatype GateOutcome = Next(body: RequestBody) | Reject(response: Response)

  /** What the gate decides for a session and a body. */
  function Authorize(session: Option<UserId>, body: RequestBody): (g: GateOutcome)
    ensures g.Next? <==> session.Some?
    ensures g.Next? ==> g.body.userId == session && g.body.(userId := body.userId) == body
    ensures g.Reject? ==> g.response == Unauthorized
  {
    match session
    case Some(id) => Next(body.(userId := Some(id)))
    case None => Reject(Unauthorized)
  }

  /** The request as the middleware sees it: the body is updated in place. */
  class Request {
    var body: RequestBody

    constructor (body: RequestBody)
      ensures this.body == body
    {
      this.body := body;
    }
  }

  /** `userAuth(req, res, next)`: None stands for calling `next()`. The
      session is a value here, so the gate cannot change it. */
  method Gate(req: Request, session: Option<UserId>) returns (rejected: Option<Response>)
    modifies req
    ensures match Authorize(session, old(req.body))
      case Next(b) => rejected.None? && req.body == b
      case Reject(resp) => rejected == Some(resp) && req.body == old(req.body)
  {
    if session.Some? {
      req.body := req.body.(userId := session);
      rejected := None;
    } else {
      rejected := Some(Unauthorized);
    }
  }
}
