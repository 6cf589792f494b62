/** The login endpoint: a presence check on the body, then the service, with
    every service error answered 401. */
module AuthController {
  import opened Wrappers
  import opened AuthService

  /** The request body; a property that is missing is `None`. */
  datatype LoginBody = LoginBody(email: Option<string>, password: Option<string>)

  datatype Body = MessageBody(message: string) | TokenBody(token: string)
  datatype Response = Response(status: int, body: Body)

  predicate Falsy(v: Option<string>) { v.None? || v.value == "" }

  const MissingCredentials := "Email and password required"

  /** POST /auth/login. */
  function Login(db: UserDb, queryFault: Option<string>, body: LoginBody,
                 passwordMatches: (string, string) -> bool, sign: Claims -> Result<string, string>): (r: Response)
    ensures r.status in {200, 400, 401}
    ensures r.status == 400 <==> Falsy(body.email) || Falsy(body.password)
    ensures r.status == 400 ==> r.body == MessageBody(MissingCredentials)
    ensures r.status == 200 ==>
      r.body.TokenBody? &&
      AuthService.Login(db, queryFault, body.email.value, body.password.value, passwordMatches, sign)
        == Ok(LoginResult(r.body.token))
    ensures r.status == 401 ==>
      r.body.MessageBody? &&
      AuthService.Login(db, queryFault, body.email.value, body.password.value, passwordMatches, sign)
        == Err(r.body.message)
  {
    if Falsy(body.email) || Falsy(body.password) then Response(400, MessageBody(MissingCredentials))
    else
      match AuthService.Login(db, queryFault, body.email.value, body.password.value, passwordMatches, sign)
      case Ok(result) => Response(200, TokenBody(result.token))
      case Err(message) => Response(401, MessageBody(message))
  }

  /** The presence check answers before the database is consulted: the
      response does not depend on the user tables. */
  lemma PresenceCheckComesFirst(db1: UserDb, db2: UserDb, fault1: Option<string>, fault2: Option<string>,
                                body: LoginBody,
                                passwordMatches: (string, string) -> bool, sign: Claims -> Result<string, string>)
    requires Falsy(body.email) || Falsy(body.password)
    ensures Login(db1, fault1, body, passwordMatches, sign) == Login(db2, fault2, body, passwordMatches, sign)
  {
  }

  /** A failed query is answered 401 too, carrying the driver's message. */
  lemma QueryFailureIs401(db: UserDb, message: string, email: string, password: string,
                          passwordMatches: (string, string) -> bool, sign: Claims -> Result<string, string>)
    requires email != "" && password != ""
    ensures Login(db, Some(message), LoginBody(Some(email), Some(password)), passwordMatches, sign)
      == Response(401, MessageBody(message))
  {
  }

  /** A wrong password is answered 401 with the service's message. */
  lemma WrongPasswordIs401(db: UserDb, email: string, password: string,
                           passwordMatches: (string, string) -> bool, sign: Claims -> Result<string, string>)
    requires email != "" && password != ""
    requires var rows := UserWithRolesByEmail(db, email);
      rows != [] && !passwordMatches(password, rows[0].passwordHash)
    ensures Login(db, None, LoginBody(Some(email), Some(password)), passwordMatches, sign)
      == Response(401, MessageBody("Invalid email or password"))
  {
  }
}
