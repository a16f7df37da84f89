/** A client of the server model: the register, login, list, create, read
    and delete sequence of a new user, stated as what the contracts above
    guarantee at each step. */
module Scenario {
  import opened Text
  import opened Jwt
  import opened JobModel
  import opened UserModel
  import opened Http
  import opened AuthRoutes
  import opened AuthMiddleware
  import opened JobsRoutes

  /** Registering twice with one email: the second attempt is refused. */
  method RegisterTwice(userId: ObjectId, otherId: ObjectId, salt: string)
  {
    var accounts := new UserStore();
    var registered := accounts.Register("A", "a@x.com", "secret", userId, salt, None);
    assert registered.status == 201;
    var again := accounts.Register("B", "a@x.com", "other", otherId, salt, None);
    assert again == Response(400, Message(EmailTaken));
    assert |accounts.users| == 1;
  }

  /** Logging in after registering gives a token for the new user. */
  method LoginAfterRegister(secret: string, now: nat, userId: ObjectId, salt: string)
  {
    var user := User(userId, "A", "a@x.com", Bcrypt.Hash("secret", salt));
    RegisterThenLogin([], "A", "a@x.com", "secret", userId, salt, secret, now);
    assert [] + [user] == [user];
    var login := Login([user], "a@x.com", "secret", secret, now, None);
    assert login.body == TokenJson(Sign(userId, secret, now));
  }

  /** Listing without a header is refused; listing with the issued token, in
      the hour it was issued, is answered. */
  method ListWithAndWithoutToken(secret: string, now: nat, user: User)
  {
    var users := [user];
    var board := new JobStore();
    var anonymous := new Request(None);
    var refused := board.ListRoute(anonymous, users, secret, now, false, None);
    assert refused.status == 401;

    IssuedTokenAdmits(users, user, "Bearer", secret, now, now);
    var req := new Request(Some("Bearer" + " " + Sign(user.id, secret, now)));
    assert Decide(req.authorization, users, secret, now, false) == Continue(user);
    var listed := board.ListRoute(req, users, secret, now, false, None);
    assert listed == Response(200, JobsJson(map[]));
  }

  /** Creating a job, reading it back without credentials, and deleting it
      twice. */
  method CreateReadDelete(jobId: string, now: nat)
  {
    var board := new JobStore();
    var body: JobModel.Body := map[
      "title" := JStr("Eng"), "company" := JStr("Acme"), "location" := JStr("Remote"),
      "jobType" := JStr("Full-time"), "description" := JStr("...")];
    assert forall f :: Supplied(body, f);
    var created := board.Create(body, jobId, now, None);
    assert created.status == 201;

    var fetched := board.Get(jobId, None);
    assert fetched.status == 200 && fetched.body.job.title == Some("Eng");

    var removed := board.Delete(jobId, None);
    assert removed.status == 200;
    var removedAgain := board.Delete(jobId, None);
    assert removedAgain.status == 404;
  }
}
