/** `authenticateToken`, the middleware that stands in front of the guarded
    job routes. It takes the second space-separated word of the
    `Authorization` header as the token (the first word, nominally `Bearer`
    after section 2.1 of RFC 6750, is never looked at); no token gives 401;
    a token that does not verify, or whose subject has no user, gives 403;
    otherwise the user is attached to the request and the next handler
    runs. It reads the users collection and writes nothing to it. */
module AuthMiddleware {
  import opened Text
  import opened Jwt
  import opened UserModel
  import opened Http

  /** `authHeader && authHeader.split(' ')[1]`, with `undefined` as None.
      An empty header is falsy and is itself the result, so it yields the
      empty token rather than none. */
  function ExtractToken(header: Option<string>): (token: Option<string>)
    ensures header.None? ==> token.None?
    ensures header.Some? ==> (token.Some? <==> header.value == "" || ' ' in header.value)
    ensures token.Some? ==> ' ' !in token.value
  {
    match header
    case None => None
    case Some(h) =>
      if h == "" then Some("")
      else
        var words := Split(h, ' ');
        assert |words| >= 2 <==> ' ' in h by {
          JoinSplit(h, ' ');
          if |words| == 1 {
            assert h == words[0];
          } else {
            assert h == words[0] + [' '] + Join(words[1..], ' ');
            assert h[|words[0]|] == ' ';
          }
        }
        if |words| >= 2 then Some(words[1]) else None
  }

  /** The token is the text between the first space and the next one (or the
      end), whatever the first word is. */
  lemma SecondWord(scheme: string, token: string, rest: string)
    requires ' ' !in scheme && ' ' !in token
    requires rest == [] || rest[0] == ' '
    ensures ExtractToken(Some(scheme + " " + token + rest)) == Some(token)
  {
    var h := scheme + " " + token + rest;
    assert h == scheme + [' '] + (token + rest);
    SplitAtFirst(scheme, ' ', token + rest);
    if rest == [] {
      assert token + rest == token;
      SplitNoSeparator(token, ' ');
    } else {
      assert token + rest == token + [' '] + rest[1..];
      SplitAtFirst(token, ' ', rest[1..]);
    }
  }

  /** What the middleware decides for a request. */
  datatype Decision = Reject(status: nat) | Continue(user: User)

  /** The decision for header `header` at time `now`, against the users
      collection `users`; `lookupFault` holds when `findById` raises. */
  function Decide(header: Option<string>, users: seq<User>, secret: string, now: nat,
                  lookupFault: bool): (d: Decision)
    ensures d.Reject? ==> d.status == 401 || d.status == 403
    ensures d == Reject(401) <==> ExtractToken(header).None?
    ensures d.Continue? <==>
      && ExtractToken(header).Some?
      && Verify(ExtractToken(header).value, secret, now).Verified?
      && !lookupFault
      && exists i :: 0 <= i < |users| && users[i].id == Verify(ExtractToken(header).value, secret, now).sub
    ensures d.Continue? ==>
      d.user in users && Verify(ExtractToken(header).value, secret, now) == Verified(d.user.id)
  {
    match ExtractToken(header)
    case None => Reject(401)
    case Some(token) =>
      match Verify(token, secret, now)
      case Verified(sub) =>
        if lookupFault then Reject(403)
        else (match FindById(users, sub)
          case None => Reject(403)
          case Some(user) => Continue(user))
      case _ => Reject(403)
  }

  /** A token issued for a stored user, sent as `Bearer <token>` (or behind
      any other first word), admits that user for the hour after issue and
      is refused with 403 from then on. */
  lemma IssuedTokenAdmits(users: seq<User>, u: User, scheme: string, secret: string,
                          iat: nat, now: nat)
    requires IdsUnique(users) && u in users
    requires ' ' !in scheme
    ensures Decide(Some(scheme + " " + Sign(u.id, secret, iat)), users, secret, now, false)
      == if now < iat + ExpiresIn then Continue(u) else Reject(403)
  {
    var token := Sign(u.id, secret, iat);
    SecondWord(scheme, token, "");
    assert scheme + " " + token + "" == scheme + " " + token;
    SignThenVerify(u.id, secret, iat, now);
    FindByOwnId(users, u);
  }

  /** The three edge cases of the extraction: a lone scheme word has no
      token (401); a trailing space gives the empty token, and so does an
      empty header; the empty token fails verification (403). */
  lemma HeaderEdgeCases(users: seq<User>, secret: string, now: nat, lookupFault: bool)
    ensures Decide(Some("Bearer"), users, secret, now, lookupFault) == Reject(401)
    ensures Decide(Some("Bearer "), users, secret, now, lookupFault) == Reject(403)
    ensures Decide(Some(""), users, secret, now, lookupFault) == Reject(403)
  {
    SecondWord("Bearer", "", "");
    assert "Bearer" + " " + "" + "" == "Bearer ";
    assert Split("", '.') == [""];
  }

  /** The request object: its `authorization` header and the `user` the
      middleware attaches. */
  class Request {
    var authorization: Option<string>
    var user: Option<User>

    constructor(authorization: Option<string>)
      ensures this.authorization == authorization && user.None?
    {
      this.authorization := authorization;
      user := None;
    }
  }

  /** The middleware either calls `next()` once or sends a status. */
  datatype Outcome = Next | Sent(response: Response)

  /** `authenticateToken(req, res, next)`. */
  method AuthenticateToken(req: Request, users: seq<User>, secret: string, now: nat,
                           lookupFault: bool) returns (outcome: Outcome)
    modifies req`user
    ensures match Decide(req.authorization, users, secret, now, lookupFault)
      case Continue(u) => outcome == Next && req.user == Some(u)
      case Reject(code) => outcome == Sent(SendStatus(code)) && req.user == old(req.user)
  {
    var token := ExtractToken(req.authorization);
    if token.None? {
      return Sent(SendStatus(401));
    }
    var decoded := Verify(token.value, secret, now);
    if !decoded.Verified? || lookupFault {
      return Sent(SendStatus(403));
    }
    var user := FindById(users, decoded.sub);
    if user.None? {
      return Sent(SendStatus(403));
    }
    req.user := user;
    outcome := Next;
  }
}
