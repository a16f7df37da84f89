/** The `/api/jobs` routes over the jobs collection. Listing and creating go
    through `authenticateToken`; reading, updating and deleting one job by
    id do not look at the request's credentials at all. Faults of the
    document store are a parameter: `Some(message)` when the store raises,
    `None` when it answers. */
module JobsRoutes {
  import opened Text
  import opened JobModel
  import opened UserModel
  import opened Http
  import opened AuthMiddleware

  const NotFound := "Job not found"
  const Deleted := "Job deleted"

  // ----------------------------------------------- what each handler answers

  /** `GET /`: every stored job, with no filtering; 500 when the store
      raises. */
  predicate ListAnswers(jobs: map<string, Job>, fault: Option<string>, res: Response) {
    && (fault.None? ==> res == Response(200, JobsJson(jobs)))
    && (fault.Some? ==> res == Response(500, ErrorMessage(StoreError(fault.value))))
  }

  /** `GET /:id`: the stored job, or 404 when no job has that id; 500 when
      the store raises. */
  predicate GetAnswers(jobs: map<string, Job>, id: string, fault: Option<string>, res: Response) {
    && (res.status == 200 <==> fault.None? && id in jobs)
    && (res.status == 200 ==> id in jobs && res.body == JobJson(jobs[id]))
    && (res.status == 404 <==> fault.None? && id !in jobs)
    && (res.status == 404 ==> res.body == Message(NotFound))
    && (fault.Some? ==> res == Response(500, ErrorMessage(StoreError(fault.value))))
  }

  /** `POST /`: 201 with the new record, which is then the one job added,
      iff the body validates, the store answers and `newId` is fresh;
      otherwise 400 and nothing is saved. */
  predicate CreateAnswers(before: map<string, Job>, after: map<string, Job>, body: Body,
                          newId: string, now: nat, fault: Option<string>, res: Response) {
    && (res.status == 201 || res.status == 400)
    && (res.status == 201 <==> NewJob(body, newId, now).Ok? && fault.None? && newId !in before)
    && (res.status == 201 ==>
          && NewJob(body, newId, now).Ok?
          && after == before[newId := NewJob(body, newId, now).value]
          && res.body == JobJson(NewJob(body, newId, now).value))
    && (res.status == 400 ==> after == before)
    && (NewJob(body, newId, now).Err? ==>
          res == Response(400, ErrorMessage(ValidationFailed(NewJob(body, newId, now).error))))
  }

  /** `PUT /:id`: 400 when a value cannot be cast or the store raises, 404
      when no job has that id, and otherwise 200 with the updated record,
      which replaces that job only. */
  predicate UpdateAnswers(before: map<string, Job>, after: map<string, Job>, id: string,
                          body: Body, now: nat, fault: Option<string>, res: Response) {
    && (res.status == 200 || res.status == 400 || res.status == 404)
    && (res.status == 400 <==> UpdateChanges(body).Err? || fault.Some?)
    && (res.status == 404 <==> UpdateChanges(body).Ok? && fault.None? && id !in before)
    && (res.status == 404 ==> res.body == Message(NotFound))
    && (res.status == 200 ==>
          && id in before && UpdateChanges(body).Ok?
          && after == before[id := Updated(before[id], UpdateChanges(body).value, now)]
          && res.body == JobJson(after[id]))
    && (res.status != 200 ==> after == before)
  }

  /** `DELETE /:id`: removes exactly that job and confirms; 404 when no job
      has that id; 500 when the store raises. When the store answers, no
      job has that id afterwards. */
  predicate DeleteAnswers(before: map<string, Job>, after: map<string, Job>, id: string,
                          fault: Option<string>, res: Response) {
    && (res.status == 200 <==> fault.None? && id in before)
    && (res.status == 200 ==> after == before - {id} && res.body == Message(Deleted))
    && (res.status == 404 <==> fault.None? && id !in before)
    && (res.status == 404 ==> res.body == Message(NotFound))
    && (fault.Some? ==> res == Response(500, ErrorMessage(StoreError(fault.value))))
    && (res.status != 200 ==> after == before)
    && (fault.None? ==> id !in after)
  }

  /** The jobs collection, keyed by `_id`. */
  class JobStore {
    var jobs: map<string, Job>

    ghost predicate Valid()
      reads this
    {
      forall id :: id in jobs ==> jobs[id].id == id
    }

    constructor()
      ensures Valid() && jobs == map[]
    {
      jobs := map[];
    }

    /** `GET /` once the middleware has passed. */
    method List(fault: Option<string>) returns (res: Response)
      ensures ListAnswers(jobs, fault, res)
    {
      if fault.Some? {
        return Response(500, ErrorMessage(StoreError(fault.value)));
      }
      res := Response(200, JobsJson(jobs));
    }

    /** `GET /:id`; the job returned is the one with the requested id. */
    method Get(id: string, fault: Option<string>) returns (res: Response)
      requires Valid()
      ensures GetAnswers(jobs, id, fault, res)
      ensures res.status == 200 ==> res.body.job.id == id
    {
      if fault.Some? {
        return Response(500, ErrorMessage(StoreError(fault.value)));
      }
      if id !in jobs {
        return Response(404, Message(NotFound));
      }
      res := Response(200, JobJson(jobs[id]));
    }

    /** `POST /` once the middleware has passed: the job is built from the
        five schema keys of the body, validated, stamped with `now` and saved
        under the fresh `_id` `newId`. A validation error, a store fault or a
        clash of `_id` gives 400. */
    method Create(body: Body, newId: string, now: nat, fault: Option<string>) returns (res: Response)
      requires Valid()
      modifies this
      ensures Valid()
      ensures CreateAnswers(old(jobs), jobs, body, newId, now, fault, res)
    {
      var job := NewJob(body, newId, now);
      if job.Err? {
        return Response(400, ErrorMessage(ValidationFailed(job.error)));
      }
      if fault.Some? {
        return Response(400, ErrorMessage(StoreError(fault.value)));
      }
      if newId in jobs {
        return Response(400, ErrorMessage(DuplicateKey(newId)));
      }
      jobs := jobs[newId := job.value];
      res := Response(201, JobJson(job.value));
    }

    /** `PUT /:id` (`findByIdAndUpdate` with `new: true`): the schema keys of
        the body are cast and set, `updatedAt` becomes `now`, and the
        updated document is returned; no validator runs. */
    method Update(id: string, body: Body, now: nat, fault: Option<string>) returns (res: Response)
      requires Valid()
      modifies this
      ensures Valid()
      ensures UpdateAnswers(old(jobs), jobs, id, body, now, fault, res)
      ensures res.status == 200 ==> res.body.job.id == id
    {
      var changes := UpdateChanges(body);
      if changes.Err? {
        return Response(400, ErrorMessage(CastFailedOn(changes.error)));
      }
      if fault.Some? {
        return Response(400, ErrorMessage(StoreError(fault.value)));
      }
      if id !in jobs {
        return Response(404, Message(NotFound));
      }
      var job := Updated(jobs[id], changes.value, now);
      jobs := jobs[id := job];
      res := Response(200, JobJson(job));
    }

    /** `DELETE /:id` (`findByIdAndDelete`); deleting twice gives 404 the
        second time. */
    method Delete(id: string, fault: Option<string>) returns (res: Response)
      requires Valid()
      modifies this
      ensures Valid()
      ensures DeleteAnswers(old(jobs), jobs, id, fault, res)
    {
      if fault.Some? {
        return Response(500, ErrorMessage(StoreError(fault.value)));
      }
      if id !in jobs {
        return Response(404, Message(NotFound));
      }
      jobs := jobs - {id};
      res := Response(200, Message(Deleted));
    }

    /** `router.get("/", authenticateToken, ...)`. */
    method ListRoute(req: Request, users: seq<User>, secret: string, now: nat,
                     lookupFault: bool, fault: Option<string>) returns (res: Response)
      modifies req`user
      ensures match Decide(req.authorization, users, secret, now, lookupFault)
        case Reject(code) => res == SendStatus(code) && req.user == old(req.user)
        case Continue(u) => req.user == Some(u) && ListAnswers(jobs, fault, res)
    {
      var outcome := AuthenticateToken(req, users, secret, now, lookupFault);
      if outcome.Sent? {
        return outcome.response;
      }
      res := List(fault);
    }

    /** `router.post("/", authenticateToken, ...)`. */
    method CreateRoute(req: Request, users: seq<User>, secret: string, now: nat,
                       lookupFault: bool, body: Body, newId: string, fault: Option<string>)
      returns (res: Response)
      requires Valid()
      modifies this, req`user
      ensures Valid()
      ensures match Decide(req.authorization, users, secret, now, lookupFault)
        case Reject(code) => res == SendStatus(code) && jobs == old(jobs) && req.user == old(req.user)
        case Continue(u) =>
          req.user == Some(u) && CreateAnswers(old(jobs), jobs, body, newId, now, fault, res)
    {
      var outcome := AuthenticateToken(req, users, secret, now, lookupFault);
      if outcome.Sent? {
        return outcome.response;
      }
      res := Create(body, newId, now, fault);
    }

    /** The router: a request to one of the five routes. Listing and
        creating answer as the middleware decides and, once it lets the
        request through, as their handler does. Reading, updating and
        deleting answer as their handler does whatever credentials the
        request carries, and never with 401 or 403. */
    method Handle(route: JobRoute, req: Request, users: seq<User>, secret: string, now: nat,
                  lookupFault: bool, newId: string, fault: Option<string>) returns (res: Response)
      requires Valid()
      modifies this, req`user
      ensures Valid()
      ensures Guarded(route) && req.authorization.None? ==> res == SendStatus(401) && jobs == old(jobs)
      ensures Guarded(route) ==>
        match Decide(req.authorization, users, secret, now, lookupFault)
        case Reject(code) => res == SendStatus(code) && jobs == old(jobs) && req.user == old(req.user)
        case Continue(u) =>
          && req.user == Some(u)
          && (route.ListJobs? ==> jobs == old(jobs) && ListAnswers(jobs, fault, res))
          && (route.CreateJob? ==> CreateAnswers(old(jobs), jobs, route.body, newId, now, fault, res))
      ensures !Guarded(route) ==> res.status != 401 && res.status != 403 && req.user == old(req.user)
      ensures route.GetJob? ==> jobs == old(jobs) && GetAnswers(jobs, route.id, fault, res)
      ensures route.UpdateJob? ==> UpdateAnswers(old(jobs), jobs, route.id, route.body, now, fault, res)
      ensures route.DeleteJob? ==> DeleteAnswers(old(jobs), jobs, route.id, fault, res)
      ensures (route.GetJob? || route.UpdateJob?) && res.status == 200 ==> res.body.job.id == route.id
    {
      match route
      case ListJobs => res := ListRoute(req, users, secret, now, lookupFault, fault);
      case CreateJob(body) => res := CreateRoute(req, users, secret, now, lookupFault, body, newId, fault);
      case GetJob(id) => res := Get(id, fault);
      case UpdateJob(id, body) => res := Update(id, body, now, fault);
      case DeleteJob(id) => res := Delete(id, fault);
    }
  }

  /** The outcome of reading, updating or deleting is fixed by the route and
      the store: two outcomes of the same unguarded route over the same
      store have the same status and leave the same store, and are the same
      answer when it is 200 or 404. Since `Handle` gives these routes their
      handler's outcome whatever the `Authorization` header holds, two
      requests that differ only in their credentials are answered alike. */
  lemma UnguardedIgnoresCredentials(route: JobRoute, jobs: map<string, Job>, now: nat,
                                    fault: Option<string>, res1: Response, res2: Response,
                                    after1: map<string, Job>, after2: map<string, Job>)
    requires !Guarded(route)
    requires route.GetJob? ==> after1 == jobs && GetAnswers(jobs, route.id, fault, res1)
    requires route.GetJob? ==> after2 == jobs && GetAnswers(jobs, route.id, fault, res2)
    requires route.UpdateJob? ==> UpdateAnswers(jobs, after1, route.id, route.body, now, fault, res1)
    requires route.UpdateJob? ==> UpdateAnswers(jobs, after2, route.id, route.body, now, fault, res2)
    requires route.DeleteJob? ==> DeleteAnswers(jobs, after1, route.id, fault, res1)
    requires route.DeleteJob? ==> DeleteAnswers(jobs, after2, route.id, fault, res2)
    ensures res1.status == res2.status && after1 == after2
    ensures res1.status == 200 || res1.status == 404 ==> res1 == res2
  {
  }

  /** The five job routes, with their path parameter and body. */
  datatype JobRoute =
    | ListJobs                        // GET    /api/jobs
    | GetJob(id: string)              // GET    /api/jobs/:id
    | CreateJob(body: Body)           // POST   /api/jobs
    | UpdateJob(id: string, body: Body)  // PUT    /api/jobs/:id
    | DeleteJob(id: string)           // DELETE /api/jobs/:id

  /** The routes mounted with `authenticateToken` in front of the handler. */
  predicate Guarded(route: JobRoute) {
    route.ListJobs? || route.CreateJob?
  }
}
