/** Responses as the route handlers send them: `res.status(code).json(...)`,
    `res.json(...)` (status 200) and `res.sendStatus(code)`. */
module Http {
  import opened JobModel

  /** The error object a `catch` block reports as `{ message: err.message }`. */
  datatype Error =
    | StoreError(message: string)        // the document store raised
    | ValidationFailed(errors: seq<FieldError>)
    | CastFailedOn(errors: seq<FieldError>)
    | DuplicateKey(id: string)           // E11000 on the primary key

  datatype ResponseBody =
    | Message(text: string)              // { message: "<literal>" }
    | ErrorMessage(error: Error)          // { message: err.message }
    | TokenJson(token: string)           // { token }
    | JobJson(job: Job)
    | JobsJson(jobs: map<string, Job>)
    | StatusText(text: string)           // the body `sendStatus` writes

  datatype Response = Response(status: nat, body: ResponseBody)

  /** `res.sendStatus(code)` for the codes the middleware uses (sections
      15.5.2 and 15.5.4 of RFC 9110). */
  function SendStatus(code: nat): (r: Response)
    requires code == 401 || code == 403
    ensures r.status == code && r.body.StatusText?
  {
    Response(code, StatusText(if code == 401 then "Unauthorized" else "Forbidden"))
  }
}
