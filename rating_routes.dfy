/** RatingHandler: POST /ratings creates a rating, GET, PUT and DELETE
    /ratings/{id} read, change and remove one. None of the routes reads the
    session. */
module RatingRoutes {
  import opened Common
  import opened Text
  import opened Http
  import opened Ratings

  const Prefix: string := "/ratings"
  const ResourcePrefix: string := "/ratings/"
  const InvalidEndpoint: string := "Invalid ratings endpoint."
  const InvalidId: string := "Invalid rating id."
  const NotFoundReason: string := "Rating not found."
  const RatingUpdated: string := "Rating updated."
  const RatingDeleted: string := "Rating deleted."

  /** What the properties of a rating read: user name, media id, value and
      comment, the texts "" while unset. */
  datatype RatingView = RatingView(userName: string, mediaId: int, value: int, comment: string)

  ghost function Snapshot(r: Rating): RatingView
    reads r
  {
    RatingView(r.UserName(), r.mediaId, r.value, r.Comment())
  }

  /** The ratings store as the properties of its ratings read it. */
  ghost function View(store: RatingStore): map<int, RatingView>
    reads store, store.ratings.Values
  {
    map k | k in store.ratings :: Snapshot(store.ratings[k])
  }

  /** The outcome of a rating request: what the try block yields, and the
      store afterwards. */
  datatype Effect = Effect(result: Result<Response>, ratings: map<int, RatingView>, nextId: int)

  function Reject(status: int, reason: string, ratings: map<int, RatingView>, nextId: int): Effect {
    Effect(Ok(Response(status, Some(Failure(reason)))), ratings, nextId)
  }

  // ---------------------------------------------------------------------
  // Decision table

  /** HandleCreate: the fields are read in order, each with its default;
      when one throws the new rating is dropped unsaved. Otherwise it is
      saved under the counter. */
  function CreateEffect(c: Content, ratings: map<int, RatingView>, nextId: int): Effect {
    match StringOr(c, "username", "")
    case Err(m) => Effect(Err(m), ratings, nextId)
    case Ok(name) =>
      match IntOr(c, "mediaId", 0)
      case Err(m) => Effect(Err(m), ratings, nextId)
      case Ok(mediaId) =>
        match IntOr(c, "value", 0)
        case Err(m) => Effect(Err(m), ratings, nextId)
        case Ok(value) =>
          match StringOr(c, "comment", "")
          case Err(m) => Effect(Err(m), ratings, nextId)
          case Ok(comment) =>
            Effect(Ok(Response(OK, Some(RatingCreated(nextId)))),
                   ratings[nextId := RatingView(name, mediaId, value, comment)], nextId + 1)
  }

  /** What an update does to a stored rating: the fields are assigned one by
      one, each keeping its value when the request has none for it; when a
      field throws, the fields before it have been assigned already. */
  datatype Revision = Revision(error: Option<string>, rating: RatingView)

  function Revise(r: RatingView, c: Content): (rev: Revision)
    ensures rev.error.Some? ==> rev.error.value == ConversionFailed
  {
    match StringOr(c, "username", r.userName)
    case Err(m) => Revision(Some(m), r)
    case Ok(name) =>
      var r1 := r.(userName := name);
      match IntOr(c, "mediaId", r.mediaId)
      case Err(m) => Revision(Some(m), r1)
      case Ok(mediaId) =>
        var r2 := r1.(mediaId := mediaId);
        match IntOr(c, "value", r.value)
        case Err(m) => Revision(Some(m), r2)
        case Ok(value) =>
          var r3 := r2.(value := value);
          match StringOr(c, "comment", r.comment)
          case Err(m) => Revision(Some(m), r3)
          case Ok(comment) => Revision(None, r3.(comment := comment))
  }

  /** HandleGet */
  function GetEffect(idText: string, ratings: map<int, RatingView>, nextId: int): Effect {
    match ParseInt(idText)
    case None => Reject(BadRequest, InvalidId, ratings, nextId)
    case Some(id) =>
      if id !in ratings then Reject(NotFound, NotFoundReason, ratings, nextId)
      else
        var r := ratings[id];
        Effect(Ok(Response(OK, Some(RatingData(id, r.userName, r.mediaId, r.value, r.comment)))), ratings, nextId)
  }

  /** HandleUpdate: the stored rating itself is changed, so the fields
      assigned before a failing one stay changed in the store. */
  function UpdateEffect(idText: string, c: Content, ratings: map<int, RatingView>, nextId: int): Effect {
    match ParseInt(idText)
    case None => Reject(BadRequest, InvalidId, ratings, nextId)
    case Some(id) =>
      if id !in ratings then Reject(NotFound, NotFoundReason, ratings, nextId)
      else
        var rev := Revise(ratings[id], c);
        if rev.error.Some? then Effect(Err(rev.error.value), ratings[id := rev.rating], nextId)
        else Effect(Ok(Response(OK, Some(Message(RatingUpdated)))), ratings[id := rev.rating], nextId)
  }

  /** HandleDelete */
  function DeleteEffect(idText: string, ratings: map<int, RatingView>, nextId: int): Effect {
    match ParseInt(idText)
    case None => Reject(BadRequest, InvalidId, ratings, nextId)
    case Some(id) =>
      if id !in ratings then Reject(NotFound, NotFoundReason, ratings, nextId)
      else Effect(Ok(Response(OK, Some(Message(RatingDeleted)))), ratings - {id}, nextId)
  }

  /** The id text of a resource path: what follows "/ratings/". */
  function IdText(path: string): (t: string)
    requires StartsWith(path, ResourcePrefix)
    ensures path == ResourcePrefix + t
  {
    path[|ResourcePrefix|..]
  }

  /** The try block of RatingHandler.Handle. */
  function RatingEffect(verb: HttpMethod, path: string, c: Content, ratings: map<int, RatingView>, nextId: int): Effect {
    if path == Prefix && verb == Post then CreateEffect(c, ratings, nextId)
    else if verb == Get && StartsWith(path, ResourcePrefix) then GetEffect(IdText(path), ratings, nextId)
    else if verb == Put && StartsWith(path, ResourcePrefix) then UpdateEffect(IdText(path), c, ratings, nextId)
    else if verb == Delete && StartsWith(path, ResourcePrefix) then DeleteEffect(IdText(path), ratings, nextId)
    else Reject(BadRequest, InvalidEndpoint, ratings, nextId)
  }

  // ---------------------------------------------------------------------
  // Properties

  /** The store invariant of the ratings store, on values. */
  predicate WellNumbered(ratings: map<int, RatingView>, nextId: int) {
    1 <= nextId && forall k :: k in ratings ==> 1 <= k < nextId
  }

  /** Every rating request keeps the ids below the counter; only a
      successful create moves the counter, by one, handing out an unused id
      and answering with it. */
  lemma EffectKeepsNumbering(verb: HttpMethod, path: string, c: Content, ratings: map<int, RatingView>, nextId: int)
    requires WellNumbered(ratings, nextId)
    ensures var eff := RatingEffect(verb, path, c, ratings, nextId);
            WellNumbered(eff.ratings, eff.nextId)
            && (eff.nextId == nextId
                || (eff.nextId == nextId + 1 && verb == Post && path == Prefix && nextId !in ratings
                    && eff.ratings.Keys == ratings.Keys + {nextId}
                    && eff.result == Ok(Response(OK, Some(RatingCreated(nextId))))))
  {
  }

  /** Without any of the four fields an update leaves the rating as it was
      (and answers success). */
  lemma EmptyUpdateKeeps(r: RatingView)
    ensures Revise(r, map[]) == Revision(None, r)
  {
  }

  /** A successful update sets each field the request supplies and keeps
      each one it leaves out. */
  lemma ReviseMeaning(r: RatingView, c: Content)
    requires Revise(r, c).error.None?
    ensures var n := Revise(r, c).rating;
            Ok(n.userName) == StringOr(c, "username", r.userName)
            && Ok(n.mediaId) == IntOr(c, "mediaId", r.mediaId)
            && Ok(n.value) == IntOr(c, "value", r.value)
            && Ok(n.comment) == StringOr(c, "comment", r.comment)
  {
  }

  /** An update whose comment cannot be read still changes the other fields
      it supplies, although it answers with an error. */
  lemma FailedUpdateKeepsEarlierFields(r: RatingView, c: Content)
    requires StringOr(c, "username", r.userName).Ok? && IntOr(c, "mediaId", r.mediaId).Ok?
    requires IntOr(c, "value", r.value).Ok? && StringOr(c, "comment", r.comment).Err?
    ensures var rev := Revise(r, c);
            rev.error == Some(ConversionFailed)
            && rev.rating == RatingView(StringOr(c, "username", r.userName).value, IntOr(c, "mediaId", r.mediaId).value,
                                        IntOr(c, "value", r.value).value, r.comment)
  {
  }

  /** An update or delete touches only the rating it names. */
  lemma OthersUntouched(verb: HttpMethod, path: string, c: Content, ratings: map<int, RatingView>, nextId: int, k: int)
    requires k in ratings
    requires !(verb == Post && path == Prefix)
    requires !(StartsWith(path, ResourcePrefix) && ParseInt(IdText(path)) == Some(k))
    ensures var eff := RatingEffect(verb, path, c, ratings, nextId);
            k in eff.ratings && eff.ratings[k] == ratings[k]
  {
  }

  /** A created rating reads back: GET on its id returns the fields it was
      created with. */
  lemma {:induction false} CreateThenGet(c: Content, ratings: map<int, RatingView>, nextId: int)
    requires IsInt32(nextId)
    requires CreateEffect(c, ratings, nextId).result.Ok?
    ensures var created := CreateEffect(c, ratings, nextId);
            var got := GetEffect(IntToString(nextId), created.ratings, created.nextId);
            got.result == Ok(Response(OK, Some(RatingData(nextId, StringOr(c, "username", "").value,
                                                          IntOr(c, "mediaId", 0).value, IntOr(c, "value", 0).value,
                                                          StringOr(c, "comment", "").value))))
            && got.ratings == created.ratings
  {
    ParseIntRoundTrip(nextId);
  }

  /** A deleted rating is gone: GET on its id answers 404. */
  lemma {:induction false} DeleteThenGet(id: int, ratings: map<int, RatingView>, nextId: int)
    requires IsInt32(id) && id in ratings
    ensures var deleted := DeleteEffect(IntToString(id), ratings, nextId);
            deleted.result == Ok(Response(OK, Some(Message(RatingDeleted))))
            && GetEffect(IntToString(id), deleted.ratings, deleted.nextId) == Reject(NotFound, NotFoundReason, deleted.ratings, nextId)
  {
    ParseIntRoundTrip(id);
  }

  // ---------------------------------------------------------------------
  // Handler

  /** The tail of HandleCreate: a new rating with the fields read is saved,
      taking the counter as its id. */
  method SaveNew(fields: RatingView, store: RatingStore) returns (id: int)
    requires store.Valid()
    modifies store
    ensures store.Valid()
    ensures forall x :: x in store.ratings.Values ==> x in old(store.ratings.Values) || (fresh(x) && fresh(x.atom))
    ensures id == old(store.nextId) && store.nextId == old(store.nextId) + 1
    ensures View(store) == old(View(store))[id := fields]
  {
    ghost var before := View(store);
    var rating := new Rating(None);
    rating.userName, rating.mediaId, rating.value, rating.comment :=
      Some(fields.userName), fields.mediaId, fields.value, Some(fields.comment);
    rating.Save(store);
    forall k | k in store.ratings && k != rating.id
      ensures View(store)[k] == before[k]
    {
      assert store.ratings[k] in old(store.ratings.Values);
    }
    assert View(store) == before[rating.id := Snapshot(rating)];
    id := rating.id;
  }

  /** HandleCreate, up to the response. The initializer's field reads come
      first; a read that throws leaves the new rating unreachable. */
  method HandleCreate(c: Content, store: RatingStore) returns (r: Result<Response>)
    requires store.Valid()
    modifies store
    ensures store.Valid()
    ensures forall x :: x in store.ratings.Values ==> x in old(store.ratings.Values) || (fresh(x) && fresh(x.atom))
    ensures Effect(r, View(store), store.nextId) == CreateEffect(c, old(View(store)), old(store.nextId))
  {
    var name := StringOr(c, "username", "");
    if name.Err? {
      return Err(name.message);
    }
    var mediaId := IntOr(c, "mediaId", 0);
    if mediaId.Err? {
      return Err(mediaId.message);
    }
    var value := IntOr(c, "value", 0);
    if value.Err? {
      return Err(value.message);
    }
    var comment := StringOr(c, "comment", "");
    if comment.Err? {
      return Err(comment.message);
    }
    var id := SaveNew(RatingView(name.value, mediaId.value, value.value, comment.value), store);
    return Ok(Response(OK, Some(RatingCreated(id))));
  }

  /** HandleGet, up to the response. */
  method HandleGet(idText: string, store: RatingStore) returns (r: Result<Response>)
    requires store.Valid()
    ensures r == GetEffect(idText, View(store), store.nextId).result
  {
    var parsed := ParseInt(idText);
    if parsed.None? {
      return Ok(Response(BadRequest, Some(Failure(InvalidId))));
    }
    var rating := store.Get(parsed.value);
    if rating == null {
      return Ok(Response(NotFound, Some(Failure(NotFoundReason))));
    }
    return Ok(Response(OK, Some(RatingData(rating.id, rating.UserName(), rating.mediaId, rating.value, rating.Comment()))));
  }

  /** The four property assignments of HandleUpdate on a stored rating,
      each keeping the old value when the request has none; the first one
      that throws ends the sequence, with the earlier ones done. */
  method AssignFields(rating: Rating, c: Content) returns (error: Option<string>)
    modifies rating
    ensures Revision(error, Snapshot(rating)) == Revise(old(Snapshot(rating)), c)
    ensures rating.id == old(rating.id) && rating.isNew == old(rating.isNew)
  {
    var name := StringOr(c, "username", rating.UserName());
    if name.Err? {
      return Some(name.message);
    }
    rating.userName := Some(name.value);
    var mediaId := IntOr(c, "mediaId", rating.mediaId);
    if mediaId.Err? {
      return Some(mediaId.message);
    }
    rating.mediaId := mediaId.value;
    var value := IntOr(c, "value", rating.value);
    if value.Err? {
      return Some(value.message);
    }
    rating.value := value.value;
    var comment := StringOr(c, "comment", rating.Comment());
    if comment.Err? {
      return Some(comment.message);
    }
    rating.comment := Some(comment.value);
    return None;
  }

  /** The tail of HandleUpdate: the fields are assigned on the stored rating
      itself, which is saved again when no assignment threw. */
  method ReviseStored(id: int, rating: Rating, c: Content, store: RatingStore) returns (error: Option<string>)
    requires store.Valid() && id in store.ratings && rating == store.ratings[id]
    modifies store, rating, rating.atom
    ensures store.Valid() && store.ratings == old(store.ratings) && store.nextId == old(store.nextId)
    ensures var rev := Revise(old(View(store))[id], c);
            error == rev.error && View(store) == old(View(store))[id := rev.rating]
  {
    var error' := AssignFields(rating, c);
    // The other stored ratings are other objects: they carry other ids.
    forall k | k in store.ratings && k != id
      ensures store.ratings[k] != rating && View(store)[k] == old(View(store))[k]
    {
      assert old(store.ratings[k].id) == k;
    }
    assert View(store) == old(View(store))[id := Snapshot(rating)];
    if error'.None? {
      rating.Save(store);
      assert store.ratings == old(store.ratings);
    }
    error := error';
  }

  /** HandleUpdate, up to the response. */
  method HandleUpdate(idText: string, c: Content, store: RatingStore) returns (r: Result<Response>)
    requires store.Valid()
    modifies store, store.ratings.Values, set x | x in store.ratings.Values :: x.atom
    ensures store.Valid()
    ensures forall x :: x in store.ratings.Values ==> x in old(store.ratings.Values) || (fresh(x) && fresh(x.atom))
    ensures Effect(r, View(store), store.nextId) == UpdateEffect(idText, c, old(View(store)), old(store.nextId))
  {
    var parsed := ParseInt(idText);
    if parsed.None? {
      return Ok(Response(BadRequest, Some(Failure(InvalidId))));
    }
    var id := parsed.value;
    var rating := store.Get(id);
    if rating == null {
      return Ok(Response(NotFound, Some(Failure(NotFoundReason))));
    }
    var error := ReviseStored(id, rating, c, store);
    if error.Some? {
      return Err(error.value);
    }
    return Ok(Response(OK, Some(Message(RatingUpdated))));
  }

  /** HandleDelete, up to the response. */
  method HandleDelete(idText: string, store: RatingStore) returns (r: Result<Response>)
    requires store.Valid()
    modifies store, set x | x in store.ratings.Values :: x.atom
    ensures store.Valid()
    ensures forall x :: x in store.ratings.Values ==> x in old(store.ratings.Values) || (fresh(x) && fresh(x.atom))
    ensures Effect(r, View(store), store.nextId) == DeleteEffect(idText, old(View(store)), old(store.nextId))
  {
    var parsed := ParseInt(idText);
    if parsed.None? {
      return Ok(Response(BadRequest, Some(Failure(InvalidId))));
    }
    var rating := store.Get(parsed.value);
    if rating == null {
      return Ok(Response(NotFound, Some(Failure(NotFoundReason))));
    }
    rating.Delete(store);
    assert View(store) == old(View(store)) - {parsed.value};
    return Ok(Response(OK, Some(Message(RatingDeleted))));
  }

  /** The try block of RatingHandler.Handle, up to the response. */
  method Dispatch(verb: HttpMethod, path: string, c: Content, store: RatingStore) returns (r: Result<Response>)
    requires store.Valid()
    modifies store, store.ratings.Values, set x | x in store.ratings.Values :: x.atom
    ensures store.Valid()
    ensures forall x :: x in store.ratings.Values ==> x in old(store.ratings.Values) || (fresh(x) && fresh(x.atom))
    ensures Effect(r, View(store), store.nextId) == RatingEffect(verb, path, c, old(View(store)), old(store.nextId))
  {
    if path == Prefix && verb == Post {
      r := HandleCreate(c, store);
    } else if verb == Get && StartsWith(path, ResourcePrefix) {
      r := HandleGet(IdText(path), store);
    } else if verb == Put && StartsWith(path, ResourcePrefix) {
      r := HandleUpdate(IdText(path), c, store);
    } else if verb == Delete && StartsWith(path, ResourcePrefix) {
      r := HandleDelete(IdText(path), store);
    } else {
      r := Ok(Response(BadRequest, Some(Failure(InvalidEndpoint))));
    }
  }

  /** RatingHandler.Handle: paths outside /ratings are left alone; every
      other request gets exactly one response, the catch turning an
      exception into a 500. */
  method Handle(e: HttpRestEventArgs, store: RatingStore)
    requires store.Valid()
    modifies e, store, store.ratings.Values, set x | x in store.ratings.Values :: x.atom
    ensures store.Valid()
    ensures forall x :: x in store.ratings.Values ==> x in old(store.ratings.Values) || (fresh(x) && fresh(x.atom))
    ensures !StartsWith(e.path, Prefix) ==> unchanged(e, store) && unchanged(store.ratings.Values)
    ensures StartsWith(e.path, Prefix) ==>
              var eff := RatingEffect(e.verb, e.path, e.content, old(View(store)), old(store.nextId));
              e.responded && e.responses == old(e.responses) + [Settle(eff.result)]
              && View(store) == eff.ratings && store.nextId == eff.nextId
  {
    if !StartsWith(e.path, Prefix) {
      return;
    }
    var r := Dispatch(e.verb, e.path, e.content, store);
    ghost var after := View(store);
    e.Respond(Settle(r).status, Settle(r).reply);
    e.responded := true;
    assert View(store) == after;
  }
}
