/**
 * The `authenticate` middleware of server/middleware/authenticate.js: read
 * the `x-auth` header, resolve it with `findByToken`, then either annotate
 * the request and call `next`, or answer 401.
 */
module Middleware {
  import opened Wrappers
  import opened Json
  import opened Users

  /** The guard's verdict. */
  datatype Decision = Next(user: UserRecord, token: string) | Unauthorized

  /** `req.header('x-auth')`; Node hands header names over in lower case. */
  function AuthHeader(headers: map<string, string>): (r: Option<string>)
    ensures r.Some? <==> "x-auth" in headers
    ensures r.Some? ==> r.value == headers["x-auth"]
  {
    if "x-auth" in headers then Some(headers["x-auth"]) else None
  }

  /**
   * The guard as a decision: pass on the user `findByToken` resolves to,
   * with the presented token; a rejection and a missing user both give 401.
   */
  function Guard(users: map<Id, UserRecord>, headers: map<string, string>, secret: string,
                 crypto: Crypto, isValidId: string -> bool): (d: Decision)
    ensures d.Next? <==>
              var l := FindByToken(users, AuthHeader(headers), secret, crypto, isValidId);
              l.Resolved? && l.user.Some?
    ensures d.Next? ==>
              && AuthHeader(headers) == Some(d.token)
              && crypto.verify(d.token, secret).Some?
              && var claims := crypto.verify(d.token, secret).value;
                 claims.id in users && d.user == users[claims.id]
                 && MatchesQuery(d.user, claims.id, d.token)
  {
    var token := AuthHeader(headers);
    match FindByToken(users, token, secret, crypto, isValidId)
    case Resolved(Some(user)) => Next(user, token.value)
    case _ => Unauthorized
  }

  /** No `x-auth` header, or a token that does not verify, is answered 401. */
  lemma UnverifiedIsUnauthorized(users: map<Id, UserRecord>, headers: map<string, string>, secret: string,
                                 crypto: Crypto, isValidId: string -> bool)
    requires "x-auth" !in headers || crypto.verify(headers["x-auth"], secret).None?
    ensures Guard(users, headers, secret, crypto, isValidId) == Unauthorized
  {
  }

  /**
   * A token issued to a stored user and still in one of its `tokens` entries
   * (any of them, not only the latest) passes the guard, carrying that user.
   */
  lemma IssuedTokenPasses(users: map<Id, UserRecord>, u: UserRecord, secret: string, iat: int,
                          crypto: Crypto, isValidId: string -> bool)
    requires RoundTrips(crypto) && isValidId(u.id)
    requires u.id in users && users[u.id] == u
    requires HoldsToken(u, crypto.sign(Claims(u.id, "auth", iat), secret)) && HoldsAccess(u, "auth")
    ensures var t := crypto.sign(Claims(u.id, "auth", iat), secret);
            Guard(users, map["x-auth" := t], secret, crypto, isValidId) == Next(u, t)
  {
    var t := crypto.sign(Claims(u.id, "auth", iat), secret);
    assert AuthHeader(map["x-auth" := t]) == Some(t);
    IssuedTokenFindsUser(users, u, secret, iat, crypto, isValidId);
  }

  /** A verified token that no stored user holds is answered 401. */
  lemma UnheldTokenIsUnauthorized(users: map<Id, UserRecord>, t: string, secret: string,
                                  crypto: Crypto, isValidId: string -> bool)
    requires Keyed(users)
    requires forall k :: k in users ==> !HoldsToken(users[k], t)
    ensures Guard(users, map["x-auth" := t], secret, crypto, isValidId) == Unauthorized
  {
    assert AuthHeader(map["x-auth" := t]) == Some(t);
  }

  /** The parts of the request the guard reads and writes. */
  class Request {
    const headers: map<string, string>
    var user: Option<UserRecord>
    var token: Option<string>

    constructor (headers: map<string, string>)
      ensures this.headers == headers && user == None && token == None
    {
      this.headers := headers;
      user := None;
      token := None;
    }
  }

  /** The part of the response the guard writes. */
  class Response {
    var status: int

    constructor ()
      ensures status == 200
    {
      status := 200;
    }
  }

  /**
   * `authenticate(req, res, next)`. The result counts the calls to `next`:
   * one on success, none on a 401.
   */
  method Authenticate(req: Request, res: Response, users: map<Id, UserRecord>, secret: string,
                      crypto: Crypto, isValidId: string -> bool)
    returns (nextCalls: nat)
    modifies req, res
    ensures match Guard(users, req.headers, secret, crypto, isValidId)
            case Next(u, t) =>
              req.user == Some(u) && req.token == Some(t) && nextCalls == 1
              && res.status == old(res.status)
            case Unauthorized =>
              res.status == 401 && nextCalls == 0
              && req.user == old(req.user) && req.token == old(req.token)
  {
    var token := AuthHeader(req.headers);
    var found := FindByToken(users, token, secret, crypto, isValidId);
    nextCalls := 0;
    if found.Resolved? && found.user.Some? {
      req.user := found.user;
      req.token := token;
      nextCalls := nextCalls + 1;
    } else {
      res.status := 401;
    }
  }
}
