/**
 * The handlers of cmd/server/handler.go: `login`, which checks a username and
 * password and on success sets the session cookie, and `getUserInfo`, which
 * answers with the record of the signed-in user.
 */
module Handler {
  import opened Wrappers
  import opened Http
  import Session

  /** Lifetime of the session cookie, in seconds. */
  const TokenMaxAge: int := 3600

  /**
   * The account collaborators: `findUserByUsername`, `findUserByID`, the bcrypt
   * comparison `passwordMatches(hash, password)` (true when it returns no error)
   * and `generateToken` (None when it fails).
   */
  datatype Accounts = Accounts(
    findUserByUsername: string -> Option<User>,
    findUserByID: nat -> Option<User>,
    passwordMatches: (string, string) -> bool,
    generateToken: User -> Option<string>)

  /** A call made on the account collaborators, recorded to state the order of the steps. */
  datatype AuthCall =
    | FindUserByUsername(username: string)
    | CompareHashAndPassword(hash: string, password: string)
    | GenerateToken(user: User)

  /** The arguments of gin's `SetCookie`. */
  datatype Cookie = Cookie(name: string, value: string, maxAge: int, path: string, domain: string, secure: bool, httpOnly: bool)

  /** What `login` answers: an HTML page, or a cookie together with a redirect. */
  datatype LoginResponse =
    | HtmlPage(status: int, template: string, message: string)
    | CookieRedirect(cookie: Cookie, status: int, location: string)

  datatype LoginRun = LoginRun(calls: seq<AuthCall>, response: LoginResponse)

  /** The one answer of every failed login. */
  const AuthenticationFailed: LoginResponse := HtmlPage(StatusOK, "login.html", "Authentication failed")

  /** What `getUserInfo` answers: a JSON reply, or the panic raised inside `getSession`. */
  datatype UserInfoResponse = Replied(reply: JsonReply) | Panicked

  /** gin's `PostForm`: the form value, or the empty string when the field is absent. */
  function PostForm(form: map<string, string>, key: string): (v: string)
    ensures key in form ==> v == form[key]
    ensures key !in form ==> v == ""
  {
    if key in form then form[key] else ""
  }

  function Login(form: map<string, string>, accounts: Accounts): (run: LoginRun)
    // The user is always looked up first.
    ensures |run.calls| >= 1 && run.calls[0] == FindUserByUsername(PostForm(form, "username"))
    // Unknown user: the failure page, nothing else asked.
    ensures accounts.findUserByUsername(PostForm(form, "username")).None? ==>
              run == LoginRun([FindUserByUsername(PostForm(form, "username"))], AuthenticationFailed)
    // Wrong password: the same failure page, no token asked for.
    ensures var user := accounts.findUserByUsername(PostForm(form, "username"));
            user.Some? && !accounts.passwordMatches(user.value.password, PostForm(form, "password")) ==>
              run == LoginRun([FindUserByUsername(PostForm(form, "username")),
                               CompareHashAndPassword(user.value.password, PostForm(form, "password"))],
                              AuthenticationFailed)
    // Token generation fails: the same failure page again.
    ensures var user := accounts.findUserByUsername(PostForm(form, "username"));
            user.Some? && accounts.passwordMatches(user.value.password, PostForm(form, "password")) &&
            accounts.generateToken(user.value).None? ==>
              run.calls == [FindUserByUsername(PostForm(form, "username")),
                            CompareHashAndPassword(user.value.password, PostForm(form, "password")),
                            GenerateToken(user.value)] &&
              run.response == AuthenticationFailed
    // The three failures look the same to the caller.
    ensures !run.response.CookieRedirect? ==> run.response == AuthenticationFailed
    // A cookie is set exactly when the user exists, the password matches and a token was issued.
    ensures var user := accounts.findUserByUsername(PostForm(form, "username"));
            run.response.CookieRedirect? <==>
              user.Some? && accounts.passwordMatches(user.value.password, PostForm(form, "password")) &&
              accounts.generateToken(user.value).Some?
    // On success: cookie `token` for an hour on path / of localhost, secure, readable by scripts; then 303 to /.
    ensures run.response.CookieRedirect? ==>
              var token := accounts.generateToken(accounts.findUserByUsername(PostForm(form, "username")).value).value;
              run.response == CookieRedirect(Cookie("token", token, TokenMaxAge, "/", "localhost", true, false), StatusSeeOther, "/")
    // On success the three steps were taken in order, each exactly once.
    ensures run.response.CookieRedirect? ==>
              var user := accounts.findUserByUsername(PostForm(form, "username")).value;
              run.calls == [FindUserByUsername(PostForm(form, "username")),
                            CompareHashAndPassword(user.password, PostForm(form, "password")),
                            GenerateToken(user)]
    // Order: the password is checked only for a found user, a token made only after a match.
    ensures forall i | 0 <= i < |run.calls| :: run.calls[i].CompareHashAndPassword? ==>
              i == 1 && accounts.findUserByUsername(PostForm(form, "username")).Some?
    ensures forall i | 0 <= i < |run.calls| :: run.calls[i].GenerateToken? ==>
              var user := accounts.findUserByUsername(PostForm(form, "username"));
              i == 2 && user.Some? && accounts.passwordMatches(user.value.password, PostForm(form, "password"))
  {
    var formUser := PostForm(form, "username");
    var formPass := PostForm(form, "password");
    var find := FindUserByUsername(formUser);
    match accounts.findUserByUsername(formUser)
    case None => LoginRun([find], AuthenticationFailed)
    case Some(user) =>
      var compare := CompareHashAndPassword(user.password, formPass);
      if !accounts.passwordMatches(user.password, formPass) then
        LoginRun([find, compare], AuthenticationFailed)
      else
        var generate := GenerateToken(user);
        match accounts.generateToken(user)
        case None => LoginRun([find, compare, generate], AuthenticationFailed)
        case Some(token) =>
          LoginRun([find, compare, generate],
                   CookieRedirect(Cookie("token", token, TokenMaxAge, "/", "localhost", true, false), StatusSeeOther, "/"))
  }

  function GetUserInfo(c: Session.Context, accounts: Accounts): (r: UserInfoResponse)
    reads c
    // No session: 401 with an empty object.
    ensures Session.GetSession(c).Session? && !Session.GetSession(c).ok ==>
              r == Replied(JsonReply(StatusUnauthorized, EmptyObject))
    // The session read panicked: so does the handler.
    ensures Session.GetSession(c).AssertionPanic? <==> r.Panicked?
    // A session whose user cannot be found: 500 with an empty object.
    ensures Session.GetSession(c).Session? && Session.GetSession(c).ok &&
            accounts.findUserByID(Session.GetSession(c).id).None? ==>
              r == Replied(JsonReply(StatusInternalServerError, EmptyObject))
    // 200 exactly for a session whose user is found, and then with that user's record.
    ensures r.Replied? && r.reply.status == StatusOK <==>
              Session.GetSession(c).Session? && Session.GetSession(c).ok &&
              accounts.findUserByID(Session.GetSession(c).id).Some?
    ensures r.Replied? && r.reply.status == StatusOK ==>
              r.reply.body == UserObject(accounts.findUserByID(Session.GetSession(c).id).value)
  {
    match Session.GetSession(c)
    case AssertionPanic => Panicked
    case Session(id, _, ok) =>
      if !ok then Replied(JsonReply(StatusUnauthorized, EmptyObject))
      else
        match accounts.findUserByID(id)
        case None => Replied(JsonReply(StatusInternalServerError, EmptyObject))
        case Some(user) => Replied(JsonReply(StatusOK, UserObject(user)))
  }
}
