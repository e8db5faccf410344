/** SessionHandler: POST /sessions logs a user in and returns a token. */
module SessionRoutes {
  import opened Common
  import opened Text
  import opened Accounts
  import opened Http

  const Prefix: string := "/sessions"
  const InvalidEndpoint: string := "Invalid session endpoint."
  const BadCredentials: string := "Invalid username or password."

  /** The user name and password fields, each "" when null; the user name
      is read first. */
  function Credentials(content: Content): (r: Result<(string, string)>)
    ensures r.Ok? <==> StringField(content, "username").Ok? && StringField(content, "password").Ok?
    ensures r.Err? ==> r.message == ConversionFailed
    ensures r.Ok? ==> Ok(r.value.0) == StringOr(content, "username", "") && Ok(r.value.1) == StringOr(content, "password", "")
  {
    match StringOr(content, "username", "")
    case Err(m) => Err(m)
    case Ok(name) =>
      match StringOr(content, "password", "")
      case Err(m) => Err(m)
      case Ok(password) => Ok((name, password))
  }

  /** The try block of the login route. */
  method Login(content: Content, sessions: SessionStore, users: UserStore, draws: seq<int>, now: int)
    returns (r: Result<Response>)
    requires sessions.Valid() && ValidDraws(draws)
    modifies sessions
    ensures sessions.Valid()
    ensures Credentials(content).Err? ==> r == Err(ConversionFailed) && sessions.sessions == old(sessions.sessions)
    ensures Credentials(content).Ok? ==>
              var (name, password) := Credentials(content).value;
              if name == AdminName || users.Accepts(name, password) then
                r == Ok(Response(OK, Some(TokenIssued(TokenFrom(draws)))))
                && sessions.sessions == old(sessions.sessions)[TokenFrom(draws) := NewSession(name, TokenFrom(draws), now)]
              else
                r == Ok(Response(Unauthorized, Some(Failure(BadCredentials))))
                && sessions.sessions == old(sessions.sessions)
  {
    var name := StringOr(content, "username", "");
    if name.Err? {
      return Err(name.message);
    }
    var password := StringOr(content, "password", "");
    if password.Err? {
      return Err(password.message);
    }
    var session := sessions.Create(name.value, password.value, draws, now, users);
    if session.None? {
      return Ok(Response(Unauthorized, Some(Failure(BadCredentials))));
    }
    return Ok(Response(OK, Some(TokenIssued(session.value.token))));
  }

  /** SessionHandler.Handle */
  method Handle(e: HttpRestEventArgs, sessions: SessionStore, users: UserStore, draws: seq<int>, now: int)
    requires sessions.Valid() && ValidDraws(draws)
    modifies e, sessions
    ensures sessions.Valid()
    ensures !StartsWith(e.path, Prefix) ==> unchanged(e, sessions)
    ensures StartsWith(e.path, Prefix) ==> e.responded && |e.responses| == |old(e.responses)| + 1
                                           && e.responses[..|old(e.responses)|] == old(e.responses)
    ensures StartsWith(e.path, Prefix) && !(e.path == Prefix && e.verb == Post) ==>
              e.responses[|old(e.responses)|] == Response(BadRequest, Some(Failure(InvalidEndpoint)))
              && sessions.sessions == old(sessions.sessions)
    ensures e.path == Prefix && e.verb == Post && Credentials(e.content).Err? ==>
              e.responses[|old(e.responses)|] == ErrorResponse(ConversionFailed)
              && sessions.sessions == old(sessions.sessions)
    ensures e.path == Prefix && e.verb == Post && Credentials(e.content).Ok? ==>
              var (name, password) := Credentials(e.content).value;
              if name == AdminName || users.Accepts(name, password) then
                e.responses[|old(e.responses)|] == Response(OK, Some(TokenIssued(TokenFrom(draws))))
                && sessions.sessions == old(sessions.sessions)[TokenFrom(draws) := NewSession(name, TokenFrom(draws), now)]
              else
                e.responses[|old(e.responses)|] == Response(Unauthorized, Some(Failure(BadCredentials)))
                && sessions.sessions == old(sessions.sessions)
  {
    if !StartsWith(e.path, Prefix) {
      return;
    }
    if e.path == Prefix && e.verb == Post {
      var r := Login(e.content, sessions, users, draws, now);
      e.Respond(Settle(r).status, Settle(r).reply);
    } else {
      e.Respond(BadRequest, Some(Failure(InvalidEndpoint)));
    }
    e.responded := true;
  }
}
