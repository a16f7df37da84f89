/** The `/api/auth` routes: `POST /register` writes a new user with a hashed
    password; `POST /login` checks the password and issues a one-hour token.
    Faults of the document store are a parameter: `Some(message)` when the
    store raises, `None` when it answers. */
module AuthRoutes {
  import opened Text
  import opened Bcrypt
  import opened Jwt
  import opened UserModel
  import opened Http

  const EmailTaken := "This Email already exist"
  const Registered := "user registration successfull."
  const BadCredentials := "Invalid email or password"

  /** The users collection. */
  class UserStore {
    var users: seq<User>

    ghost predicate Valid()
      reads this
    {
      EmailsUnique(users) && IdsUnique(users)
    }

    constructor()
      ensures Valid() && users == []
    {
      users := [];
    }

    /** `POST /register` with body `{ name, email, password }`. `newId` is the
        `_id` the new document receives and `salt` the salt bcrypt draws. A
        registered email is refused; otherwise the user is stored with the
        hash of the password (never the password itself). Every fault is
        reported with 400. No token is issued. */
    method Register(name: string, email: string, password: string, newId: ObjectId,
                    salt: string, fault: Option<string>) returns (res: Response)
      requires Valid()
      modifies this
      ensures Valid()
      ensures res.status == 201 || res.status == 400
      ensures res.status == 201 <==>
        && fault.None?
        && (forall i :: 0 <= i < |old(users)| ==> old(users)[i].email != email)
        && (forall i :: 0 <= i < |old(users)| ==> old(users)[i].id != newId)
      ensures res.status == 201 ==>
        && users == old(users) + [User(newId, name, email, Hash(password, salt))]
        && res.body == Message(Registered)
        && FindByEmail(users, email) == Some(User(newId, name, email, Hash(password, salt)))
      ensures res.status == 400 ==> users == old(users)
      ensures fault.Some? ==> res == Response(400, ErrorMessage(StoreError(fault.value)))
      ensures fault.None? && (exists i :: 0 <= i < |old(users)| && old(users)[i].email == email) ==>
        res == Response(400, Message(EmailTaken))
    {
      if fault.Some? {
        return Response(400, ErrorMessage(StoreError(fault.value)));
      }
      var emailExist := FindByEmail(users, email);
      if emailExist.Some? {
        return Response(400, Message(EmailTaken));
      }
      var hashedPassword := Hash(password, salt);
      var user := User(newId, name, email, hashedPassword);
      if FindById(users, newId).Some? {
        // `save` fails on the unique `_id` index.
        return Response(400, ErrorMessage(DuplicateKey(newId)));
      }
      users := users + [user];
      FindByOwnEmail(users, user);
      res := Response(201, Message(Registered));
    }
  }

  /** `POST /login` with body `{ email, password }` at time `now`: a token for
      the user's `_id`, valid for one hour, when a user has that email and
      the password matches its hash; one and the same 401 answer whether the
      email is unknown or the password wrong; 500 when the store raises. */
  function Login(users: seq<User>, email: string, password: string, secret: string,
                 now: nat, fault: Option<string>): (res: Response)
    ensures res.status == 200 || res.status == 401 || res.status == 500
    ensures res.status == 200 ==> exists u ::
      (u in users && u.email == email && Compare(password, u.password) &&
       res.body == TokenJson(Sign(u.id, secret, now)))
    ensures res.status == 500 <==> fault.Some?
    ensures res.status == 401 ==> res == Response(401, Message(BadCredentials))
  {
    if fault.Some? then Response(500, ErrorMessage(StoreError(fault.value)))
    else match FindByEmail(users, email)
      case Some(user) =>
        if Compare(password, user.password) then Response(200, TokenJson(Sign(user.id, secret, now)))
        else Response(401, Message(BadCredentials))
      case None => Response(401, Message(BadCredentials))
  }

  /** With unique emails, login succeeds exactly when some user has that
      email and the password matches that user's hash. */
  lemma LoginSucceedsIff(users: seq<User>, email: string, password: string, secret: string,
                         now: nat, fault: Option<string>)
    requires EmailsUnique(users)
    ensures Login(users, email, password, secret, now, fault).status == 200 <==>
      fault.None? && exists u :: u in users && u.email == email && Compare(password, u.password)
  {
    if fault.None? && exists u :: u in users && u.email == email && Compare(password, u.password) {
      var u :| u in users && u.email == email && Compare(password, u.password);
      FindByOwnEmail(users, u);
    }
  }

  /** The token login issues verifies to the user's `_id` throughout the
      hour after issue, and as expired from then on. */
  lemma LoginTokenVerifies(users: seq<User>, email: string, password: string, secret: string,
                           now: nat, later: nat)
    requires Login(users, email, password, secret, now, None).status == 200
    ensures var res := Login(users, email, password, secret, now, None);
      && res.body.TokenJson?
      && exists u :: u in users && u.email == email && Compare(password, u.password) &&
           Verify(res.body.token, secret, later)
             == if later < now + ExpiresIn then Verified(u.id) else ExpiredToken
  {
    var res := Login(users, email, password, secret, now, None);
    var u :| u in users && u.email == email && Compare(password, u.password) &&
      res.body == TokenJson(Sign(u.id, secret, now));
    SignThenVerify(u.id, secret, now, later);
  }

  /** After a registration, logging in with the same email and password
      yields a token for the new user's `_id`. */
  lemma RegisterThenLogin(users: seq<User>, name: string, email: string, password: string,
                          id: ObjectId, salt: string, secret: string, now: nat)
    requires EmailsUnique(users)
    requires forall i :: 0 <= i < |users| ==> users[i].email != email
    ensures Login(users + [User(id, name, email, Hash(password, salt))], email, password, secret, now, None)
      == Response(200, TokenJson(Sign(id, secret, now)))
  {
    var u := User(id, name, email, Hash(password, salt));
    var after := users + [u];
    assert EmailsUnique(after);
    assert u == after[|users|];
    FindByOwnEmail(after, u);
  }
}
