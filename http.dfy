/** The request envelope handed to every route handler: method, path, the
    Authorization header, the body and its JSON object, the Responded flag,
    and the responses sent so far. JSON is modelled as the few shapes the
    handlers distinguish, and a JSON object as a map from key to optional
    value (an absent key and an explicit null read the same). */
module Http {
  import opened Common
  import opened Text
  import opened Accounts
  import opened Media

  datatype HttpMethod = Get | Post | Put | Delete | Other(name: string)

  /** A JSON value: a string, an integral number, an array (whose elements
      may be null), or anything else (booleans, objects, fractions). */
  datatype Json = JString(text: string) | JNumber(number: int) | JArray(items: seq<Option<Json>>) | JOther

  type Content = map<string, Option<Json>>

  /** The message of the exception GetValue<T> throws when a JSON value is
      not of the requested type. */
  const ConversionFailed: string := "The JSON value could not be converted."

  /** content[key]: null when the key is absent or maps to null. */
  function Node(content: Content, key: string): (r: Option<Json>)
    ensures r.Some? ==> key in content && content[key] == r
  {
    if key in content then content[key] else None
  }

  /** content[key]?.GetValue<string>(): null for a null node, the text of a
      string node, and an exception for any other node. */
  function StringField(content: Content, key: string): (r: Result<Option<string>>)
    ensures r.Err? <==> Node(content, key).Some? && !Node(content, key).value.JString?
    ensures r == Ok(None) <==> Node(content, key).None?
    ensures r.Ok? && r.value.Some? ==> Node(content, key) == Some(JString(r.value.value))
  {
    match Node(content, key)
    case None => Ok(None)
    case Some(JString(s)) => Ok(Some(s))
    case Some(_) => Err(ConversionFailed)
  }

  /** content[key]?.GetValue<int>(): null for a null node, the value of an
      integral number within the 32-bit range, and an exception otherwise. */
  function IntField(content: Content, key: string): (r: Result<Option<int>>)
    ensures r.Err? <==> Node(content, key).Some?
                        && !(Node(content, key).value.JNumber? && IsInt32(Node(content, key).value.number))
    ensures r == Ok(None) <==> Node(content, key).None?
    ensures r.Ok? && r.value.Some? ==> Node(content, key) == Some(JNumber(r.value.value)) && IsInt32(r.value.value)
  {
    match Node(content, key)
    case None => Ok(None)
    case Some(JNumber(n)) => if IsInt32(n) then Ok(Some(n)) else Err(ConversionFailed)
    case Some(_) => Err(ConversionFailed)
  }

  /** content[key]?.GetValue<string>() ?? fallback */
  function StringOr(content: Content, key: string, fallback: string): (r: Result<string>)
    ensures r.Err? <==> StringField(content, key).Err?
    ensures Node(content, key).None? ==> r == Ok(fallback)
    ensures Node(content, key) == Some(JString(fallback)) || Node(content, key).None? ==> r == Ok(fallback)
  {
    match StringField(content, key)
    case Err(m) => Err(m)
    case Ok(v) => Ok(v.GetOr(fallback))
  }

  /** content[key]?.GetValue<int>() ?? fallback */
  function IntOr(content: Content, key: string, fallback: int): (r: Result<int>)
    ensures r.Err? <==> IntField(content, key).Err?
    ensures Node(content, key).None? ==> r == Ok(fallback)
    ensures r.Ok? && Node(content, key).Some? ==> Node(content, key) == Some(JNumber(r.value))
  {
    match IntField(content, key)
    case Err(m) => Err(m)
    case Ok(v) => Ok(v.GetOr(fallback))
  }

  /** The token in an Authorization header: present when the header starts
      with "bearer " in any letter case, and then the rest of the header
      with surrounding white space removed. */
  function BearerToken(authorization: Option<string>): (r: Option<string>)
    ensures r.Some? <==> authorization.Some? && |authorization.value| >= 7
                         && Lower(authorization.value[..7]) == "bearer "
    ensures r.Some? ==> r.value == Trim(authorization.value[7..])
  {
    var header := authorization.GetOr("");
    if StartsWith(Lower(header), "bearer ") then Some(Trim(header[7..])) else None
  }

  /** A header "Bearer <token>" carries the token of any issued session
      back unchanged, whatever the letter case of the scheme. */
  lemma BearerTokenRoundTrip(scheme: string, token: string)
    requires |scheme| == 7 && Lower(scheme) == "bearer " && IsToken(token)
    ensures BearerToken(Some(scheme + token)) == Some(token)
  {
    var header := scheme + token;
    assert header[..7] == scheme;
    assert header[7..] == token;
    TokenHasNoWhiteSpace(token, 0);
    TokenHasNoWhiteSpace(token, |token| - 1);
    TrimKeeps(token);
  }

  /** The session the Session property finds at `now` when the store holds
      `m`: none without a bearer token, otherwise the lookup of the token. */
  function SessionOf(m: map<string, Session>, authorization: Option<string>, now: int): (r: Option<Session>)
    ensures BearerToken(authorization).None? ==> r.None?
    ensures r.Some? ==> var t := BearerToken(authorization).value;
                          t in m && !Expired(m[t], now) && r.value == m[t].(timestamp := now)
  {
    match BearerToken(authorization)
    case None => None
    case Some(token) =>
      LookupMeaning(m, token, now);
      Lookup(m, token, now)
  }

  /** The session store after the Session property is read at `now`. */
  function StoreAfterSessionOf(m: map<string, Session>, authorization: Option<string>, now: int): (r: map<string, Session>)
    ensures BearerToken(authorization).None? ==> r == m
  {
    match BearerToken(authorization)
    case None => m
    case Some(token) => AfterLookup(m, token, now)
  }

  /** The user name of a session, if there is one: session?.UserName. */
  function UserOf(s: Option<Session>): Option<string> {
    if s.Some? then Some(s.value.userName) else None
  }

  /** The JSON objects the handlers send back. */
  datatype Reply =
    | Failure(reason: string)                  // { success: false, reason }
    | Succeeded                                // { success: true }
    | Message(message: string)                 // { success: true, message }
    | MediaData(entries: seq<MediaEntry>)      // { success: true, data: [ ... ] }
    | MediaItem(entry: MediaEntry)             // { success: true, data: { ... } }
    | RatingCreated(id: int)                   // { success: true, message: "Rating created.", id }
    | RatingData(id: int, userName: string, mediaId: int, value: int, comment: string)
    | TokenIssued(token: string)               // { success: true, token }
    | VersionInfo(version: string)             // { success: true, version }

  /** A status code and an optional JSON body (none: an empty body). */
  datatype Response = Response(status: int, reply: Option<Reply>)

  const OK: int := 200
  const Created: int := 201
  const BadRequest: int := 400
  const Unauthorized: int := 401
  const NotFound: int := 404
  const MethodNotAllowed: int := 405
  const InternalServerError: int := 500

  /** The response a handler's catch block sends for an exception. */
  function ErrorResponse(message: string): (r: Response)
    ensures r.status == InternalServerError && r.reply == Some(Failure(message))
  {
    Response(InternalServerError, Some(Failure(message)))
  }

  /** The response for the result of a handler's try block. */
  function Settle(r: Result<Response>): (resp: Response)
    ensures r.Ok? ==> resp == r.value
    ensures r.Err? ==> resp == ErrorResponse(r.message)
  {
    match r
    case Ok(v) => v
    case Err(m) => ErrorResponse(m)
  }

  /** A request body: its text and the JSON object parsed from it. */
  datatype Entity = Entity(text: string, content: Content)

  /** What the listener context supplies for a request. */
  datatype Request = Request(verb: HttpMethod, path: string, authorization: Option<string>, entity: Option<Entity>)

  class HttpRestEventArgs {
    const verb: HttpMethod
    const path: string
    const authorization: Option<string>
    const body: string
    const content: Content
    var responded: bool
    var responses: seq<Response>

    /** A request without an entity body gets an empty body and an empty
        JSON object; nothing has been responded yet. */
    constructor(request: Request)
      ensures verb == request.verb && path == request.path && authorization == request.authorization
      ensures request.entity.Some? ==> body == request.entity.value.text && content == request.entity.value.content
      ensures request.entity.None? ==> body == "" && content == map[]
      ensures !responded && responses == []
    {
      verb, path, authorization := request.verb, request.path, request.authorization;
      if request.entity.Some? {
        body, content := request.entity.value.text, request.entity.value.content;
      } else {
        body, content := "", map[];
      }
      responded, responses := false, [];
    }

    /** Respond: send a status and body and set Responded. Nothing prevents
        a second call, which sends a second response. */
    method Respond(status: int, reply: Option<Reply>)
      modifies this
      ensures responses == old(responses) + [Response(status, reply)]
      ensures responded
    {
      responses := responses + [Response(status, reply)];
      responded := true;
    }

    /** The Session property: every read extracts the bearer token afresh
        and runs Session.Get, with its sweep and refresh. */
    method GetSession(store: SessionStore, now: int) returns (s: Option<Session>)
      requires store.Valid()
      modifies store
      ensures store.Valid()
      ensures s == SessionOf(old(store.sessions), authorization, now)
      ensures store.sessions == StoreAfterSessionOf(old(store.sessions), authorization, now)
    {
      var token := BearerToken(authorization);
      if token.None? {
        return None;
      }
      s := store.Get(token.value, now);
    }
  }
}
