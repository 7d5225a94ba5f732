/**
 * Session gating in cmd/server/main.go: the `verifyToken` middleware, which
 * admits a request only when its `token` cookie validates and then records the
 * identity in the request context, and `getSession`, which reads it back.
 */
module Session {
  import opened Wrappers
  import opened Http

  /** What `validateToken` answers for a token: the identity it encodes, or an error. */
  datatype TokenCheck = TokenValid(id: nat, username: string) | TokenInvalid

  /** A value stored in the context with `c.Set`: a `uint` or a `string`. */
  datatype Value = UintValue(n: nat) | StringValue(s: string)

  /** `getSession`'s answer `(id, username, ok)`, or the panic of its type assertions. */
  datatype SessionResult = Session(id: nat, username: string, ok: bool) | AssertionPanic

  /** The part of a gin request context the middleware reads and writes. */
  class Context {
    /** The request's cookies, by name. */
    const cookies: map<string, string>
    /** The per-request key/value store (`c.Keys`). */
    var keys: map<string, Value>
    /** Whether the handler chain was aborted. */
    var aborted: bool
    /** The JSON answer written so far, if any. */
    var reply: Option<JsonReply>
    /** Whether control was passed on to the next handler (`c.Next()`). */
    var proceeded: bool

    constructor (cookies: map<string, string>)
      ensures this.cookies == cookies && keys == map[] && !aborted && reply == None && !proceeded
    {
      this.cookies := cookies;
      keys := map[];
      aborted := false;
      reply := None;
      proceeded := false;
    }

    /** `c.Set(key, value)`. */
    method Set(key: string, value: Value)
      modifies this
      ensures keys == old(keys)[key := value]
      ensures aborted == old(aborted) && reply == old(reply) && proceeded == old(proceeded)
    {
      keys := keys[key := value];
    }

    /** `c.AbortWithStatusJSON(status, gin.H{})`: stop the chain and answer with an empty object. */
    method AbortWithStatusJSON(status: int)
      modifies this
      ensures aborted && reply == Some(JsonReply(status, EmptyObject))
      ensures keys == old(keys) && proceeded == old(proceeded)
    {
      aborted := true;
      reply := Some(JsonReply(status, EmptyObject));
    }

    /** `c.Next()`: hand the request on to the rest of the chain. */
    method Next()
      modifies this
      ensures proceeded
      ensures keys == old(keys) && aborted == old(aborted) && reply == old(reply)
    {
      proceeded := true;
    }
  }

  /** The request's `token` cookie checked by `validate`; a missing cookie is invalid. */
  function CookieCheck(c: Context, validate: string -> TokenCheck): (t: TokenCheck)
    ensures "token" !in c.cookies ==> t == TokenInvalid
    ensures "token" in c.cookies ==> t == validate(c.cookies["token"])
  {
    if "token" in c.cookies then validate(c.cookies["token"]) else TokenInvalid
  }

  method VerifyToken(c: Context, validate: string -> TokenCheck)
    modifies c
    // No cookie, or a cookie that does not validate: 401, aborted, nothing stored.
    ensures CookieCheck(c, validate).TokenInvalid? ==>
              c.aborted && c.reply == Some(JsonReply(StatusUnauthorized, EmptyObject)) &&
              c.keys == old(c.keys) && c.proceeded == old(c.proceeded)
    // A valid token: its identity is stored under "id" and "username" and the chain goes on.
    ensures CookieCheck(c, validate).TokenValid? ==>
              c.keys == old(c.keys)["id" := UintValue(CookieCheck(c, validate).id)]
                                   ["username" := StringValue(CookieCheck(c, validate).username)] &&
              c.proceeded && c.aborted == old(c.aborted) && c.reply == old(c.reply)
    // What the next handler then reads back with getSession is that identity.
    ensures CookieCheck(c, validate).TokenValid? ==>
              GetSession(c) == Session(CookieCheck(c, validate).id, CookieCheck(c, validate).username, true)
  {
    if "token" !in c.cookies {
      c.AbortWithStatusJSON(StatusUnauthorized);
      return;
    }
    var token := c.cookies["token"];
    match validate(token)
    case TokenInvalid =>
      c.AbortWithStatusJSON(StatusUnauthorized);
    case TokenValid(id, username) =>
      c.Set("id", UintValue(id));
      c.Set("username", StringValue(username));
      c.Next();
  }

  function GetSession(c: Context): (r: SessionResult)
    reads c
    // Either key missing: the zero identity, not ok.
    ensures "id" !in c.keys || "username" !in c.keys ==> r == Session(0, "", false)
    // Ok exactly when both keys hold values of the asserted types, and then it returns them.
    ensures r.Session? && r.ok <==>
              "id" in c.keys && "username" in c.keys && c.keys["id"].UintValue? && c.keys["username"].StringValue?
    ensures r.Session? && r.ok ==> r.id == c.keys["id"].n && r.username == c.keys["username"].s
    // Both present but of another type: the type assertion panics.
    ensures r.AssertionPanic? <==>
              "id" in c.keys && "username" in c.keys && !(c.keys["id"].UintValue? && c.keys["username"].StringValue?)
  {
    if "id" !in c.keys then Session(0, "", false)
    else if "username" !in c.keys then Session(0, "", false)
    else
      match (c.keys["id"], c.keys["username"])
      case (UintValue(id), StringValue(username)) => Session(id, username, true)
      case _ => AssertionPanic
  }
}
