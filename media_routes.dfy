/** MediaHandler: the media collection /api/media and its resources
    /api/media/{id}. No route needs a session; when there is one, its user
    name is recorded as the acting user. */
module MediaRoutes {
  import opened Common
  import opened Text
  import opened Accounts
  import opened Media
  import opened Http

  const Prefix: string := "/api/media"
  const Anonymous: string := "anonymous"
  const InvalidEndpoint: string := "Invalid media endpoint."
  const InvalidId: string := "Invalid id."
  const NotFoundReason: string := "Not found."
  const TitleMissing: string := "Title is required."
  const CollectionMethod: string := "Method not allowed on collection."
  const ResourceMethod: string := "Method not allowed on resource."

  // ---------------------------------------------------------------------
  // Routing

  /** path.TrimEnd('/').Split('/', RemoveEmptyEntries) */
  function PathSegments(path: string): seq<string> {
    NonEmpty(Split(TrimEndChar(path, '/'), '/'))
  }

  datatype Route = Collection | Resource(idText: string) | Unrouted

  /** [api, media] is the collection, [api, media, x] a resource, anything
      else is not a media endpoint. */
  function RouteOf(path: string): (r: Route)
    ensures r.Collection? <==> PathSegments(path) == ["api", "media"]
    ensures r.Resource? <==> |PathSegments(path)| == 3 && PathSegments(path)[..2] == ["api", "media"]
    ensures r.Resource? ==> r.idText == PathSegments(path)[2] && r.idText != [] && '/' !in r.idText
  {
    var parts := PathSegments(path);
    if |parts| == 2 && parts[0] == "api" && parts[1] == "media" then Collection
    else if |parts| == 3 && parts[0] == "api" && parts[1] == "media" then
      assert parts[2] in Split(TrimEndChar(path, '/'), '/');
      Resource(parts[2])
    else Unrouted
  }

  /** Trimming the trailing slashes first changes nothing: the empty
      segments would be dropped anyway. */
  lemma SegmentsIgnoreTrailingSlashes(path: string)
    ensures PathSegments(path) == NonEmpty(Split(path, '/'))
  {
    TrimEndCharBeforeSplit(path, '/');
  }

  /** An absolute path built from non-empty segments splits back into those
      segments, with or without a trailing slash. */
  lemma AbsolutePathSegments(segments: seq<string>)
    requires |segments| >= 1
    requires forall i :: 0 <= i < |segments| ==> segments[i] != [] && '/' !in segments[i]
    ensures PathSegments(['/'] + Join(segments, '/')) == segments
    ensures PathSegments(['/'] + Join(segments, '/') + ['/']) == segments
  {
    var parts := [""] + segments;
    var path := ['/'] + Join(segments, '/');
    assert parts[1..] == segments;
    assert Join(parts, '/') == path;
    SplitJoin(parts, '/');
    NonEmptyKeeps(segments);
    assert NonEmpty(parts) == segments;
    SegmentsIgnoreTrailingSlashes(path);
    SegmentsIgnoreTrailingSlashes(path + ['/']);
    SplitSnoc(path, '/');
    NonEmptySnoc(parts);
  }

  /** /api/media and /api/media/ name the collection. */
  lemma CollectionPaths()
    ensures RouteOf("/api/media") == Collection && RouteOf("/api/media/") == Collection
  {
    var segments := ["api", "media"];
    assert Join(segments[1..], '/') == "media";
    assert Join(segments, '/') == "api/media";
    AbsolutePathSegments(segments);
    assert ['/'] + Join(segments, '/') == "/api/media";
    assert ['/'] + Join(segments, '/') + ['/'] == "/api/media/";
  }

  /** /api/media/x and /api/media/x/ name resource x, for every non-empty
      segment x without a slash. */
  lemma ResourcePaths(x: string)
    requires x != [] && '/' !in x
    ensures RouteOf("/api/media/" + x) == Resource(x)
    ensures RouteOf("/api/media/" + x + "/") == Resource(x)
  {
    var segments := ["api", "media", x];
    assert segments[..2] == ["api", "media"];
    assert Join(segments, '/') == "api/media/" + x by {
      assert Join(segments[2..], '/') == x;
      assert Join(segments[1..], '/') == "media/" + x;
    }
    AbsolutePathSegments(segments);
    var path := "/api/media/" + x;
    assert path == ['/'] + Join(segments, '/');
    assert PathSegments(path) == segments;
    assert PathSegments(path + "/") == segments;
  }

  /** Paths that only share the prefix, such as /api/mediathek, are owned
      by the handler but are not media endpoints. */
  lemma SharedPrefixIsUnrouted()
    ensures StartsWith("/api/mediathek", Prefix)
    ensures RouteOf("/api/mediathek") == Unrouted
  {
    var path := "/api/mediathek";
    assert path[..|Prefix|] == Prefix;
    var segments := ["api", "mediathek"];
    assert Join(segments[1..], '/') == "mediathek";
    assert Join(segments, '/') == "api/mediathek";
    AbsolutePathSegments(segments);
    assert ['/'] + Join(segments, '/') == path;
    var parts := PathSegments(path);
    assert parts == segments;
    assert parts[1] != "media" by {
      assert |parts[1]| == 9;
    }
  }

  // ---------------------------------------------------------------------
  // Media type

  function TypeName(t: MediaType): string {
    match t
    case Movie => "Movie"
    case Series => "Series"
    case Game => "Game"
  }

  /** ParseMediaType: a type name in any letter case; anything else is a
      movie. */
  function ParseMediaType(s: string): (t: MediaType)
    ensures t == Series ==> Lower(s) == "series"
    ensures t == Game ==> Lower(s) == "game"
  {
    var name := Lower(s);
    if name == "movie" then Movie
    else if name == "series" then Series
    else if name == "game" then Game
    else Movie
  }

  /** Every type name parses back to its type, in whatever letter case. */
  lemma ParseMediaTypeRoundTrip(t: MediaType, s: string)
    requires Lower(s) == Lower(TypeName(t))
    ensures ParseMediaType(s) == t
  {
    assert Lower("Movie") == "movie" by {
      assert |Lower("Movie")| == 5;
    }
    assert Lower("Series") == "series" by {
      assert |Lower("Series")| == 6;
    }
    assert Lower("Game") == "game" by {
      assert |Lower("Game")| == 4;
    }
  }

  // ---------------------------------------------------------------------
  // Genres

  /** The genres of a JSON array: its non-null elements in order; an element
      that is not a string throws. */
  function ArrayGenres(items: seq<Option<Json>>): (r: Result<seq<string>>)
    ensures r.Err? ==> r.message == ConversionFailed
    ensures r.Ok? ==> |r.value| <= |items|
  {
    if items == [] then Ok([])
    else
      match ArrayGenres(items[..|items| - 1])
      case Err(m) => Err(m)
      case Ok(genres) =>
        match items[|items| - 1]
        case None => Ok(genres)
        case Some(JString(g)) => Ok(genres + [g])
        case Some(_) => Err(ConversionFailed)
  }

  /** The genres field: an array as above, a string split at commas with the
      parts trimmed and empty parts dropped, nothing for null; any other
      value throws. */
  function GenresOf(node: Option<Json>): (r: Result<seq<string>>)
    ensures r.Err? ==> r.message == ConversionFailed
  {
    match node
    case None => Ok([])
    case Some(JArray(items)) => ArrayGenres(items)
    case Some(JString(g)) => if IsBlank(g) then Ok([]) else Ok(SplitTrimmed(g, ','))
    case Some(_) => Err(ConversionFailed)
  }

  /** Once an element has thrown, the rest of the array does not matter. */
  lemma {:induction false} ArrayGenresStaysFailed(items: seq<Option<Json>>, k: nat)
    requires k <= |items| && ArrayGenres(items[..k]).Err?
    ensures ArrayGenres(items) == Err(ConversionFailed)
    decreases |items| - k
  {
    if k < |items| {
      assert items[..k + 1][..k] == items[..k];
      ArrayGenresStaysFailed(items, k + 1);
    } else {
      assert items[..k] == items;
    }
  }

  /** An array of strings yields exactly those strings, in order. */
  lemma {:induction false} StringArrayGenres(genres: seq<string>)
    ensures ArrayGenres(seq(|genres|, i requires 0 <= i < |genres| => Some(JString(genres[i])))) == Ok(genres)
  {
    var items := seq(|genres|, i requires 0 <= i < |genres| => Some(JString(genres[i])));
    if genres != [] {
      var n := |genres| - 1;
      StringArrayGenres(genres[..n]);
      assert items[..n] == seq(n, i requires 0 <= i < n => Some(JString(genres[..n][i])));
      assert genres[..n] + [genres[n]] == genres;
    }
  }

  /** Null elements of an array are skipped. */
  lemma {:induction false} NullGenresSkipped(items: seq<Option<Json>>, k: nat)
    requires k <= |items|
    ensures ArrayGenres(items[..k] + [None] + items[k..]) == ArrayGenres(items)
    decreases |items| - k
  {
    var longer := items[..k] + [None] + items[k..];
    if k == |items| {
      assert longer[..|longer| - 1] == items;
      assert items[..k] == items;
    } else {
      var n := |items| - 1;
      NullGenresSkipped(items[..n], k);
      assert items[..n][..k] == items[..k];
      assert items[..n][k..] == items[k..n];
      assert longer[..|longer| - 1] == items[..k] + [None] + items[k..n];
      assert longer[|longer| - 1] == items[n];
    }
  }

  /** The blank test before splitting is redundant: a blank string splits
      into no genres anyway. */
  lemma GenresFromText(g: string)
    ensures GenresOf(Some(JString(g))) == Ok(SplitTrimmed(g, ','))
  {
    if IsBlank(g) {
      BlankSplitsToNothing(g, ',');
    }
  }

  /** Genres written as one comma-separated string come back as the list
      they were joined from, when each is non-empty, comma-free and
      trimmed. */
  lemma GenresTextRoundTrip(genres: seq<string>)
    requires |genres| >= 1
    requires forall i :: 0 <= i < |genres| ==> genres[i] != [] && ',' !in genres[i] && Trim(genres[i]) == genres[i]
    ensures GenresOf(Some(JString(Join(genres, ',')))) == Ok(genres)
  {
    GenresFromText(Join(genres, ','));
    SplitTrimmedJoin(genres, ',');
  }

  /** The genre-reading loop of the create and update routes. */
  method ReadGenres(node: Option<Json>) returns (r: Result<seq<string>>)
    ensures r == GenresOf(node)
  {
    if node.None? {
      return Ok([]);
    }
    match node.value
    case JArray(items) =>
      var genres: seq<string> := [];
      for i := 0 to |items|
        invariant ArrayGenres(items[..i]) == Ok(genres)
      {
        assert items[..i + 1][..i] == items[..i];
        if items[i].Some? {
          if !items[i].value.JString? {
            ArrayGenresStaysFailed(items, i + 1);
            return Err(ConversionFailed);
          }
          genres := genres + [items[i].value.text];
        }
      }
      assert items[..|items|] == items;
      return Ok(genres);
    case JString(g) =>
      if IsBlank(g) {
        return Ok([]);
      }
      return Ok(SplitTrimmed(g, ','));
    case _ =>
      return Err(ConversionFailed);
  }

  // ---------------------------------------------------------------------
  // Request fields

  /** The fields of a create or update request, with their defaults. */
  datatype MediaForm = MediaForm(
    title: string,
    description: string,
    typeText: string,
    releaseYear: int,
    genres: seq<string>,
    ageRestriction: int)

  /** The fields read in the handler's order; a value of the wrong JSON
      type throws. */
  function ReadForm(c: Content): (r: Result<MediaForm>)
    ensures r.Err? ==> r.message == ConversionFailed
    ensures r.Ok? && Node(c, "title").None? ==> r.value.title == ""
    ensures r.Ok? && Node(c, "type").None? ==> r.value.typeText == "Movie"
    ensures r.Ok? && Node(c, "releaseYear").None? ==> r.value.releaseYear == 0
    ensures r.Ok? && Node(c, "ageRestriction").None? ==> r.value.ageRestriction == 0
    ensures r.Ok? ==> Ok(r.value.genres) == GenresOf(Node(c, "genres"))
  {
    match StringOr(c, "title", "")
    case Err(m) => Err(m)
    case Ok(title) =>
      match StringOr(c, "description", "")
      case Err(m) => Err(m)
      case Ok(description) =>
        match StringOr(c, "type", "Movie")
        case Err(m) => Err(m)
        case Ok(typeText) =>
          match IntOr(c, "releaseYear", 0)
          case Err(m) => Err(m)
          case Ok(year) =>
            match GenresOf(Node(c, "genres"))
            case Err(m) => Err(m)
            case Ok(genres) =>
              match IntOr(c, "ageRestriction", 0)
              case Err(m) => Err(m)
              case Ok(age) => Ok(MediaForm(title, description, typeText, year, genres, age))
  }

  /** The field reads of the create and update routes. */
  method ReadFormFields(c: Content) returns (r: Result<MediaForm>)
    ensures r == ReadForm(c)
  {
    var title := StringOr(c, "title", "");
    if title.Err? { return Err(title.message); }
    var description := StringOr(c, "description", "");
    if description.Err? { return Err(description.message); }
    var typeText := StringOr(c, "type", "Movie");
    if typeText.Err? { return Err(typeText.message); }
    var year := IntOr(c, "releaseYear", 0);
    if year.Err? { return Err(year.message); }
    var genres := ReadGenres(Node(c, "genres"));
    if genres.Err? { return Err(genres.message); }
    var age := IntOr(c, "ageRestriction", 0);
    if age.Err? { return Err(age.message); }
    return Ok(MediaForm(title.value, description.value, typeText.value, year.value, genres.value, age.value));
  }

  /** The acting user: the session's user name, else the body field, else
      "anonymous". The field is not read when there is a session. */
  function Actor(user: Option<string>, c: Content, key: string): (r: Result<string>)
    ensures user.Some? ==> r == Ok(user.value)
    ensures user.None? && Node(c, key).None? ==> r == Ok(Anonymous)
    ensures user.None? && Node(c, key).Some? && Node(c, key).value.JString? ==> r == Ok(Node(c, key).value.text)
    ensures r.Err? ==> user.None? && r.message == ConversionFailed
  {
    if user.Some? then Ok(user.value) else StringOr(c, key, Anonymous)
  }

  // ---------------------------------------------------------------------
  // Decision table

  /** The outcome of a media request: what the try block yields, and the
      media store afterwards. */
  datatype Effect = Effect(result: Result<Response>, entries: map<int, MediaEntry>, nextId: int)

  function Reject(status: int, reason: string, entries: map<int, MediaEntry>, nextId: int): Effect {
    Effect(Ok(Response(status, Some(Failure(reason)))), entries, nextId)
  }

  /** Requests on /api/media. */
  function CollectionEffect(verb: HttpMethod, user: Option<string>, c: Content,
                            entries: map<int, MediaEntry>, nextId: int): Effect
  {
    match verb
    case Get => Effect(Ok(Response(OK, Some(MediaData(Listing(entries, nextId))))), entries, nextId)
    case Post =>
      var who := Actor(user, c, "createdBy");
      var form := ReadForm(c);
      if who.Err? then Effect(Err(who.message), entries, nextId)
      else if form.Err? then Effect(Err(form.message), entries, nextId)
      else if IsBlank(form.value.title) then Reject(BadRequest, TitleMissing, entries, nextId)
      else if IsBlank(who.value) then Effect(Err(CreatorRequired), entries, nextId)
      else
        var f := form.value;
        var entry := MediaEntry(nextId, f.title, f.description, ParseMediaType(f.typeText),
                                f.releaseYear, f.genres, f.ageRestriction, who.value);
        Effect(Ok(Response(Created, Some(MediaItem(entry)))), entries[nextId := entry], nextId + 1)
    case _ => Reject(MethodNotAllowed, CollectionMethod, entries, nextId)
  }

  /** PUT /api/media/{id}: the acting user and the fields are read before
      the entry is looked up; the acting user is not checked against the
      creator. */
  function UpdateEffect(id: int, user: Option<string>, c: Content,
                        entries: map<int, MediaEntry>, nextId: int): Effect
  {
    var who := Actor(user, c, "updatedBy");
    var form := ReadForm(c);
    if who.Err? then Effect(Err(who.message), entries, nextId)
    else if form.Err? then Effect(Err(form.message), entries, nextId)
    else if id !in entries then Reject(NotFound, NotFoundReason, entries, nextId)
    else
      var f := form.value;
      var entry := Updated(entries[id], f.title, f.description, ParseMediaType(f.typeText),
                           f.releaseYear, Some(f.genres), f.ageRestriction);
      Effect(Ok(Response(OK, Some(MediaItem(entry)))), entries[id := entry], nextId)
  }

  /** DELETE /api/media/{id}: the acting user is read, and not checked. */
  function DeleteEffect(id: int, user: Option<string>, c: Content,
                        entries: map<int, MediaEntry>, nextId: int): Effect
  {
    var who := Actor(user, c, "deletedBy");
    if who.Err? then Effect(Err(who.message), entries, nextId)
    else if id in entries then Effect(Ok(Response(OK, Some(Succeeded))), entries - {id}, nextId)
    else Reject(NotFound, NotFoundReason, entries, nextId)
  }

  /** Requests on /api/media/{idText}: the id is parsed before the method is
      looked at. */
  function ResourceEffect(verb: HttpMethod, idText: string, user: Option<string>, c: Content,
                          entries: map<int, MediaEntry>, nextId: int): Effect
  {
    match ParseInt(idText)
    case None => Reject(BadRequest, InvalidId, entries, nextId)
    case Some(id) =>
      match verb
      case Get =>
        if id in entries then Effect(Ok(Response(OK, Some(MediaItem(entries[id])))), entries, nextId)
        else Reject(NotFound, NotFoundReason, entries, nextId)
      case Put => UpdateEffect(id, user, c, entries, nextId)
      case Delete => DeleteEffect(id, user, c, entries, nextId)
      case _ => Reject(MethodNotAllowed, ResourceMethod, entries, nextId)
  }

  /** The whole try block of MediaHandler.Handle. `user` is the user name of
      the request's session, consulted only where the handler reads the
      session. */
  function MediaEffect(verb: HttpMethod, path: string, user: Option<string>, c: Content,
                       entries: map<int, MediaEntry>, nextId: int): Effect
  {
    match RouteOf(path)
    case Collection => CollectionEffect(verb, user, c, entries, nextId)
    case Resource(idText) => ResourceEffect(verb, idText, user, c, entries, nextId)
    case Unrouted => Reject(BadRequest, InvalidEndpoint, entries, nextId)
  }

  /** The routes that read the Session property (and so sweep and refresh
      the session store). */
  predicate UsesSession(verb: HttpMethod, path: string) {
    match RouteOf(path)
    case Collection => verb == Post
    case Resource(idText) => ParseInt(idText).Some? && (verb == Put || verb == Delete)
    case Unrouted => false
  }

  /** The store invariant of MediaStore, on values. */
  predicate WellNumbered(entries: map<int, MediaEntry>, nextId: int) {
    1 <= nextId && forall k :: k in entries ==> 1 <= k < nextId && entries[k].id == k
  }

  /** The collection routes keep the store well numbered; only a successful
      POST changes it, adding one entry under the old, unused counter and
      incrementing the counter. */
  lemma CollectionKeepsNumbering(verb: HttpMethod, user: Option<string>, c: Content,
                                 entries: map<int, MediaEntry>, nextId: int)
    requires WellNumbered(entries, nextId)
    ensures var eff := CollectionEffect(verb, user, c, entries, nextId);
            WellNumbered(eff.entries, eff.nextId)
            && ((eff.entries == entries && eff.nextId == nextId)
                || (verb == Post && nextId !in entries && eff.nextId == nextId + 1
                    && eff.entries.Keys == entries.Keys + {nextId}
                    && (forall k :: k in entries ==> eff.entries[k] == entries[k])
                    && eff.result == Ok(Response(Created, Some(MediaItem(eff.entries[nextId]))))))
  {
    var eff := CollectionEffect(verb, user, c, entries, nextId);
    if verb == Post && eff.nextId != nextId {
      var entry := eff.entries[nextId];
      assert eff.entries == entries[nextId := entry];
      assert entry.id == nextId;
    }
  }

  /** PUT replaces at most the one stored entry, under its own id. */
  lemma UpdateKeepsNumbering(id: int, user: Option<string>, c: Content,
                             entries: map<int, MediaEntry>, nextId: int)
    requires WellNumbered(entries, nextId)
    ensures var eff := UpdateEffect(id, user, c, entries, nextId);
            WellNumbered(eff.entries, eff.nextId) && eff.nextId == nextId
            && eff.entries.Keys == entries.Keys
            && (forall k :: k in entries && k != id ==> eff.entries[k] == entries[k])
  {
    var eff := UpdateEffect(id, user, c, entries, nextId);
    if eff.entries != entries {
      var entry := eff.entries[id];
      assert eff.entries == entries[id := entry];
      assert entry.id == entries[id].id;
    }
  }

  /** DELETE removes at most the one entry named. */
  lemma DeleteKeepsNumbering(id: int, user: Option<string>, c: Content,
                             entries: map<int, MediaEntry>, nextId: int)
    requires WellNumbered(entries, nextId)
    ensures var eff := DeleteEffect(id, user, c, entries, nextId);
            WellNumbered(eff.entries, eff.nextId) && eff.nextId == nextId
            && (eff.entries == entries || (id in entries && eff.entries == entries - {id}))
  {
  }

  /** The resource routes keep the store well numbered and never move the
      counter; only PUT and DELETE change the entries. */
  lemma ResourceKeepsNumbering(verb: HttpMethod, idText: string, user: Option<string>, c: Content,
                               entries: map<int, MediaEntry>, nextId: int)
    requires WellNumbered(entries, nextId)
    ensures var eff := ResourceEffect(verb, idText, user, c, entries, nextId);
            WellNumbered(eff.entries, eff.nextId) && eff.nextId == nextId
            && (verb != Put && verb != Delete ==> eff.entries == entries)
  {
    if ParseInt(idText).Some? {
      var id := ParseInt(idText).value;
      if verb == Put {
        UpdateKeepsNumbering(id, user, c, entries, nextId);
      } else if verb == Delete {
        DeleteKeepsNumbering(id, user, c, entries, nextId);
      }
    }
  }

  /** Every media request keeps the store well numbered and never lowers
      the counter; only POST on the collection moves the counter. */
  lemma EffectKeepsNumbering(verb: HttpMethod, path: string, user: Option<string>, c: Content,
                             entries: map<int, MediaEntry>, nextId: int)
    requires WellNumbered(entries, nextId)
    ensures var eff := MediaEffect(verb, path, user, c, entries, nextId);
            WellNumbered(eff.entries, eff.nextId) && eff.nextId >= nextId
            && (eff.nextId != nextId ==> verb == Post && RouteOf(path).Collection?)
            && (eff.entries != entries ==> verb == Post || verb == Put || verb == Delete)
  {
    match RouteOf(path)
    case Collection => CollectionKeepsNumbering(verb, user, c, entries, nextId);
    case Resource(idText) => ResourceKeepsNumbering(verb, idText, user, c, entries, nextId);
    case Unrouted =>
  }

  /** POST with a blank title is a bad request and changes nothing, unless a
      field could not be read. */
  lemma BlankTitleRejected(user: Option<string>, c: Content, entries: map<int, MediaEntry>, nextId: int)
    requires Actor(user, c, "createdBy").Ok? && ReadForm(c).Ok? && IsBlank(ReadForm(c).value.title)
    ensures CollectionEffect(Post, user, c, entries, nextId) == Reject(BadRequest, TitleMissing, entries, nextId)
  {
  }

  /** Without a session, an explicit blank createdBy passes the handler but
      fails in MediaEntry.Create, which surfaces as a 500. */
  lemma BlankCreatorFails(c: Content, entries: map<int, MediaEntry>, nextId: int)
    requires Node(c, "createdBy").Some? && Node(c, "createdBy").value.JString?
    requires IsBlank(Node(c, "createdBy").value.text)
    requires ReadForm(c).Ok? && !IsBlank(ReadForm(c).value.title)
    ensures var eff := CollectionEffect(Post, None, c, entries, nextId);
            Settle(eff.result) == ErrorResponse(CreatorRequired) && eff.entries == entries && eff.nextId == nextId
  {
  }

  /** A resource id that is not a 32-bit integer is a bad request whatever
      the method, and changes nothing. */
  lemma InvalidIdRejected(verb: HttpMethod, idText: string, user: Option<string>, c: Content,
                          entries: map<int, MediaEntry>, nextId: int)
    requires ParseInt(idText).None?
    ensures ResourceEffect(verb, idText, user, c, entries, nextId) == Reject(BadRequest, InvalidId, entries, nextId)
  {
  }

  /** GET, PUT and DELETE of an id that is not stored answer 404 and change
      nothing, once the request's fields could be read. */
  lemma MissingIdNotFound(verb: HttpMethod, idText: string, user: Option<string>, c: Content,
                          entries: map<int, MediaEntry>, nextId: int)
    requires ParseInt(idText).Some? && ParseInt(idText).value !in entries
    requires verb == Get
             || (verb == Put && Actor(user, c, "updatedBy").Ok? && ReadForm(c).Ok?)
             || (verb == Delete && Actor(user, c, "deletedBy").Ok?)
    ensures ResourceEffect(verb, idText, user, c, entries, nextId) == Reject(NotFound, NotFoundReason, entries, nextId)
  {
  }

  /** A PUT on a stored id keeps the id and the creator, whoever asks. */
  lemma UpdateKeepsIdentity(idText: string, user: Option<string>, c: Content,
                            entries: map<int, MediaEntry>, nextId: int)
    requires ParseInt(idText).Some? && ParseInt(idText).value in entries
    requires Actor(user, c, "updatedBy").Ok? && ReadForm(c).Ok?
    ensures var id := ParseInt(idText).value;
            var eff := ResourceEffect(Put, idText, user, c, entries, nextId);
            id in eff.entries && eff.entries[id].id == entries[id].id
            && eff.entries[id].createdBy == entries[id].createdBy
            && eff.entries[id].title == ReadForm(c).value.title
            && eff.entries.Keys == entries.Keys && eff.result.Ok? && eff.result.value.status == OK
  {
  }

  // ---------------------------------------------------------------------
  // Handler

  /** GET and POST on the collection, and the 405 for other methods. */
  method CollectionRoute(e: HttpRestEventArgs, sessions: SessionStore, media: MediaStore, now: int)
    returns (r: Result<Response>)
    requires sessions.Valid() && media.Valid()
    modifies sessions, media
    ensures sessions.Valid() && media.Valid()
    ensures sessions.sessions == if e.verb == Post then StoreAfterSessionOf(old(sessions.sessions), e.authorization, now)
                                 else old(sessions.sessions)
    ensures Effect(r, media.entries, media.nextId)
            == CollectionEffect(e.verb, UserOf(SessionOf(old(sessions.sessions), e.authorization, now)), e.content,
                                old(media.entries), old(media.nextId))
  {
    if e.verb == Get {
      var all := media.GetAll();
      return Ok(Response(OK, Some(MediaData(all))));
    } else if e.verb == Post {
      var session := e.GetSession(sessions, now);
      var who := Actor(UserOf(session), e.content, "createdBy");
      if who.Err? {
        return Err(who.message);
      }
      var form := ReadFormFields(e.content);
      if form.Err? {
        return Err(form.message);
      }
      var f := form.value;
      if IsBlank(f.title) {
        return Ok(Response(BadRequest, Some(Failure(TitleMissing))));
      }
      var created := media.Create(who.value, f.title, f.description, ParseMediaType(f.typeText),
                                  f.releaseYear, Some(f.genres), f.ageRestriction);
      if created.Err? {
        return Err(created.message);
      }
      return Ok(Response(Created, Some(MediaItem(created.value))));
    } else {
      return Ok(Response(MethodNotAllowed, Some(Failure(CollectionMethod))));
    }
  }

  /** PUT /api/media/{id}, once the id has parsed. */
  method UpdateRoute(e: HttpRestEventArgs, id: int, sessions: SessionStore, media: MediaStore, now: int)
    returns (r: Result<Response>)
    requires sessions.Valid() && media.Valid()
    modifies sessions, media
    ensures sessions.Valid() && media.Valid()
    ensures sessions.sessions == StoreAfterSessionOf(old(sessions.sessions), e.authorization, now)
    ensures Effect(r, media.entries, media.nextId)
            == UpdateEffect(id, UserOf(SessionOf(old(sessions.sessions), e.authorization, now)),
                            e.content, old(media.entries), old(media.nextId))
  {
    var session := e.GetSession(sessions, now);
    var who := Actor(UserOf(session), e.content, "updatedBy");
    if who.Err? {
      return Err(who.message);
    }
    var form := ReadFormFields(e.content);
    if form.Err? {
      return Err(form.message);
    }
    var f := form.value;
    var updated := media.Update(id, who.value, f.title, f.description, ParseMediaType(f.typeText),
                                f.releaseYear, Some(f.genres), f.ageRestriction);
    if updated.None? {
      return Ok(Response(NotFound, Some(Failure(NotFoundReason))));
    }
    return Ok(Response(OK, Some(MediaItem(updated.value))));
  }

  /** DELETE /api/media/{id}, once the id has parsed. */
  method DeleteRoute(e: HttpRestEventArgs, id: int, sessions: SessionStore, media: MediaStore, now: int)
    returns (r: Result<Response>)
    requires sessions.Valid() && media.Valid()
    modifies sessions, media
    ensures sessions.Valid() && media.Valid()
    ensures sessions.sessions == StoreAfterSessionOf(old(sessions.sessions), e.authorization, now)
    ensures Effect(r, media.entries, media.nextId)
            == DeleteEffect(id, UserOf(SessionOf(old(sessions.sessions), e.authorization, now)),
                            e.content, old(media.entries), old(media.nextId))
  {
    var session := e.GetSession(sessions, now);
    var who := Actor(UserOf(session), e.content, "deletedBy");
    if who.Err? {
      return Err(who.message);
    }
    var deleted := media.Delete(id, who.value);
    if !deleted {
      return Ok(Response(NotFound, Some(Failure(NotFoundReason))));
    }
    return Ok(Response(OK, Some(Succeeded)));
  }

  /** GET, PUT and DELETE on one entry, and the 405 for other methods. */
  method ResourceRoute(e: HttpRestEventArgs, idText: string, sessions: SessionStore, media: MediaStore, now: int)
    returns (r: Result<Response>)
    requires sessions.Valid() && media.Valid()
    modifies sessions, media
    ensures sessions.Valid() && media.Valid()
    ensures sessions.sessions == if ParseInt(idText).Some? && (e.verb == Put || e.verb == Delete)
                                 then StoreAfterSessionOf(old(sessions.sessions), e.authorization, now)
                                 else old(sessions.sessions)
    ensures Effect(r, media.entries, media.nextId)
            == ResourceEffect(e.verb, idText, UserOf(SessionOf(old(sessions.sessions), e.authorization, now)),
                              e.content, old(media.entries), old(media.nextId))
  {
    var parsed := ParseInt(idText);
    if parsed.None? {
      return Ok(Response(BadRequest, Some(Failure(InvalidId))));
    }
    var id := parsed.value;
    if e.verb == Get {
      var entry := media.Get(id);
      if entry.None? {
        return Ok(Response(NotFound, Some(Failure(NotFoundReason))));
      }
      return Ok(Response(OK, Some(MediaItem(entry.value))));
    } else if e.verb == Put {
      r := UpdateRoute(e, id, sessions, media, now);
    } else if e.verb == Delete {
      r := DeleteRoute(e, id, sessions, media, now);
    } else {
      return Ok(Response(MethodNotAllowed, Some(Failure(ResourceMethod))));
    }
  }

  /** MediaHandler.Handle: paths outside /api/media are left alone; every
      other request gets exactly one response, the catch turning an
      exception into a 500. */
  method Handle(e: HttpRestEventArgs, sessions: SessionStore, media: MediaStore, now: int)
    requires sessions.Valid() && media.Valid()
    modifies e, sessions, media
    ensures sessions.Valid() && media.Valid()
    ensures !StartsWith(e.path, Prefix) ==> unchanged(e, sessions, media)
    ensures StartsWith(e.path, Prefix) ==>
              var eff := MediaEffect(e.verb, e.path, UserOf(SessionOf(old(sessions.sessions), e.authorization, now)),
                                     e.content, old(media.entries), old(media.nextId));
              e.responded && e.responses == old(e.responses) + [Settle(eff.result)]
              && media.entries == eff.entries && media.nextId == eff.nextId
    ensures sessions.sessions == if StartsWith(e.path, Prefix) && UsesSession(e.verb, e.path)
                                 then StoreAfterSessionOf(old(sessions.sessions), e.authorization, now)
                                 else old(sessions.sessions)
  {
    if !StartsWith(e.path, Prefix) {
      return;
    }
    var r: Result<Response>;
    match RouteOf(e.path) {
      case Collection =>
        r := CollectionRoute(e, sessions, media, now);
      case Resource(idText) =>
        r := ResourceRoute(e, idText, sessions, media, now);
      case Unrouted =>
        r := Ok(Response(BadRequest, Some(Failure(InvalidEndpoint))));
    }
    e.Respond(Settle(r).status, Settle(r).reply);
    e.responded := true;
  }
}
