/** UserHandler: POST /users registers a user. */
module UserRoutes {
  import opened Common
  import opened Text
  import opened Passwords
  import opened Accounts
  import opened Http

  const Prefix: string := "/users"
  const InvalidEndpoint: string := "Invalid user endpoint."
  const UserCreated: string := "User created."

  /** The fields of a registration, each "" when null. */
  datatype Registration = Registration(userName: string, fullName: string, eMail: string, password: string)

  /** The registration the request body describes, read in the order the
      object initializer and SetPassword read it; the user name setter
      rejects a blank name before the later fields are read. */
  function ReadRegistration(content: Content): (r: Result<Registration>)
    ensures r.Ok? ==> !IsBlank(r.value.userName)
    ensures r.Ok? ==> Ok(r.value.userName) == StringOr(content, "username", "")
                      && Ok(r.value.fullName) == StringOr(content, "fullname", "")
                      && Ok(r.value.eMail) == StringOr(content, "email", "")
                      && Ok(r.value.password) == StringOr(content, "password", "")
    ensures StringOr(content, "username", "").Ok? && IsBlank(StringOr(content, "username", "").value)
            ==> r == Err(NameRequired)
    ensures r.Err? ==> r.message in {ConversionFailed, NameRequired}
  {
    match StringOr(content, "username", "")
    case Err(m) => Err(m)
    case Ok(name) =>
      if IsBlank(name) then Err(NameRequired)
      else
        match StringOr(content, "fullname", "")
        case Err(m) => Err(m)
        case Ok(full) =>
          match StringOr(content, "email", "")
          case Err(m) => Err(m)
          case Ok(mail) =>
            match StringOr(content, "password", "")
            case Err(m) => Err(m)
            case Ok(password) => Ok(Registration(name, full, mail, password))
  }

  /** The try block of the registration route: build a new user through its
      setters, set its password, save it. A new user's save has no guard
      and no duplicate check, so an existing user of that name is replaced. */
  method Register(content: Content, users: UserStore, sessions: SessionStore)
    returns (r: Result<Response>, ghost user: User?)
    requires users.Valid()
    modifies users
    ensures users.Valid()
    ensures ReadRegistration(content).Err? ==>
              r == Err(ReadRegistration(content).message) && users.users == old(users.users)
    ensures ReadRegistration(content).Ok? ==>
              var reg := ReadRegistration(content).value;
              r == Ok(Response(OK, Some(Message(UserCreated))))
              && user != null && fresh(user) && users.users == old(users.users)[reg.userName := user]
              && user.userName == Some(reg.userName) && user.fullName == Some(reg.fullName)
              && user.eMail == Some(reg.eMail) && !user.isNew
              && user.passwordHash == Some(PasswordHash(users.digest, reg.userName, reg.password))
  {
    var u := new User(None);
    user := u;
    var name := StringOr(content, "username", "");
    if name.Err? {
      return Err(name.message), null;
    }
    var named := u.SetUserName(name.value);
    if named.Fail? {
      return Err(named.message), null;
    }
    var full := StringOr(content, "fullname", "");
    if full.Err? {
      return Err(full.message), null;
    }
    u.fullName := Some(full.value);
    var mail := StringOr(content, "email", "");
    if mail.Err? {
      return Err(mail.message), null;
    }
    u.eMail := Some(mail.value);
    var password := StringOr(content, "password", "");
    if password.Err? {
      return Err(password.message), null;
    }
    u.SetPassword(password.value, users.digest);
    var saved := u.Save(users, sessions);
    assert saved.Pass?;
    return Ok(Response(OK, Some(Message(UserCreated)))), u;
  }

  /** UserHandler.Handle */
  method Handle(e: HttpRestEventArgs, users: UserStore, sessions: SessionStore)
    requires users.Valid()
    modifies e, users
    ensures users.Valid()
    ensures !StartsWith(e.path, Prefix) ==> unchanged(e, users)
    ensures StartsWith(e.path, Prefix) ==> e.responded && |e.responses| == |old(e.responses)| + 1
                                           && e.responses[..|old(e.responses)|] == old(e.responses)
    ensures StartsWith(e.path, Prefix) && !(e.path == Prefix && e.verb == Post) ==>
              e.responses[|old(e.responses)|] == Response(BadRequest, Some(Failure(InvalidEndpoint)))
              && users.users == old(users.users)
    ensures e.path == Prefix && e.verb == Post && ReadRegistration(e.content).Err? ==>
              e.responses[|old(e.responses)|] == ErrorResponse(ReadRegistration(e.content).message)
              && users.users == old(users.users)
    ensures e.path == Prefix && e.verb == Post && ReadRegistration(e.content).Ok? ==>
              var reg := ReadRegistration(e.content).value;
              e.responses[|old(e.responses)|] == Response(OK, Some(Message(UserCreated)))
              && reg.userName in users.users && users.users.Keys == old(users.users.Keys) + {reg.userName}
              && fresh(users.users[reg.userName]) && !users.users[reg.userName].isNew
              && users.users[reg.userName].userName == Some(reg.userName)
              && users.users[reg.userName].fullName == Some(reg.fullName)
              && users.users[reg.userName].eMail == Some(reg.eMail)
              && users.users[reg.userName].passwordHash == Some(PasswordHash(users.digest, reg.userName, reg.password))
              && (forall k :: k in old(users.users) && k != reg.userName ==> users.users[k] == old(users.users[k]))
  {
    if !StartsWith(e.path, Prefix) {
      return;
    }
    if e.path == Prefix && e.verb == Post {
      var r, user := Register(e.content, users, sessions);
      e.Respond(Settle(r).status, Settle(r).reply);
    } else {
      e.Respond(BadRequest, Some(Failure(InvalidEndpoint)));
    }
    e.responded := true;
  }

  /** A user registered with a password can log in with it: the store then
      accepts exactly the passwords whose digest matches. */
  lemma RegisteredUserAccepts(users: UserStore, reg: Registration, password: string)
    requires reg.userName in users.users
    requires users.users[reg.userName].passwordHash == Some(PasswordHash(users.digest, reg.userName, reg.password))
    ensures users.Accepts(reg.userName, password)
            <==> users.digest(reg.userName + password) == users.digest(reg.userName + reg.password)
  {
    HashesMatchIffDigestsMatch(users.digest, reg.userName, password, reg.password);
  }
}
