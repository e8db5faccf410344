/** The handler chain: every request is offered to the handlers in list
    order until one has responded; the server answers 404 when none did.
    Each handler owns the paths under its prefix, and the five prefixes
    exclude one another. */
module Handlers {
  import opened Common
  import opened Text
  import opened Accounts
  import opened Media
  import opened Ratings
  import opened Http
  import MediaRoutes
  import RatingRoutes
  import SessionRoutes
  import UserRoutes
  import VersionRoutes

  /** The concrete handlers reflection finds. */
  datatype HandlerKind = MediaHandler | RatingHandler | SessionHandler | UserHandler | VersionHandler

  function PrefixOf(k: HandlerKind): (p: string)
    ensures |p| >= 2 && p[0] == '/'
  {
    match k
    case MediaHandler => MediaRoutes.Prefix
    case RatingHandler => RatingRoutes.Prefix
    case SessionHandler => SessionRoutes.Prefix
    case UserHandler => UserRoutes.Prefix
    case VersionHandler => VersionRoutes.Prefix
  }

  /** A handler acts on exactly the paths that start with its prefix. */
  predicate Owns(k: HandlerKind, path: string) {
    StartsWith(path, PrefixOf(k))
  }

  /** No path is owned by two handlers: the prefixes already differ in their
      second character. */
  lemma PrefixesExclusive(k1: HandlerKind, k2: HandlerKind, path: string)
    requires Owns(k1, path) && Owns(k2, path)
    ensures k1 == k2
  {
    assert path[1] == PrefixOf(k1)[1] == PrefixOf(k2)[1];
  }

  /** Every path a handler owns is owned by that handler alone. */
  lemma OwnerIsUnique(k: HandlerKind, path: string)
    requires Owns(k, path)
    ensures forall j :: Owns(j, path) ==> j == k
  {
    forall j | Owns(j, path)
      ensures j == k
    {
      PrefixesExclusive(j, k, path);
    }
  }

  /** The first handler in `hs` that owns the path. */
  function Owner(hs: seq<HandlerKind>, path: string): (r: Option<HandlerKind>)
    ensures r.Some? ==> r.value in hs && Owns(r.value, path)
    ensures r.None? ==> forall i :: 0 <= i < |hs| ==> !Owns(hs[i], path)
  {
    if hs == [] then None
    else if Owns(hs[0], path) then Some(hs[0])
    else Owner(hs[1..], path)
  }

  /** The owner depends only on which handlers the list holds, not on their
      order or repetition. */
  lemma ResponderIndependentOfOrder(hs1: seq<HandlerKind>, hs2: seq<HandlerKind>, path: string)
    requires forall k :: k in hs1 <==> k in hs2
    ensures Owner(hs1, path) == Owner(hs2, path)
  {
    var o1, o2 := Owner(hs1, path), Owner(hs2, path);
    if o1.Some? {
      OwnerIsUnique(o1.value, path);
      assert o1.value in hs2;
      var i :| 0 <= i < |hs2| && hs2[i] == o1.value;
    }
    if o2.Some? {
      OwnerIsUnique(o2.value, path);
      assert o2.value in hs1;
      var i :| 0 <= i < |hs1| && hs1[i] == o2.value;
    }
  }

  /** The handlers HandleEvent calls: in list order, stopping after the first
      call that leaves Responded set. Since the flag is tested after the
      call, the first handler is called even when it is already set. */
  function Invoked(hs: seq<HandlerKind>, path: string, responded: bool): (r: seq<HandlerKind>)
    ensures |r| <= |hs|
    ensures hs != [] ==> r != [] && r[0] == hs[0]
  {
    if hs == [] then []
    else if responded || Owns(hs[0], path) then [hs[0]]
    else [hs[0]] + Invoked(hs[1..], path, false)
  }

  /** On a fresh request the chain calls every handler up to and including
      the owner, and all of them when there is none; every handler called
      before the last one declined the path. */
  lemma InvokedUpToOwner(hs: seq<HandlerKind>, path: string)
    ensures var r := Invoked(hs, path, false);
            (forall i :: 0 <= i < |r| - 1 ==> !Owns(r[i], path))
            && (Owner(hs, path).None? ==> r == hs)
            && (Owner(hs, path).Some? ==> r != [] && r[|r| - 1] == Owner(hs, path).value)
  {
    InvokedDeclineBeforeLast(hs, path);
    if Owner(hs, path).None? {
      InvokedAllWithoutOwner(hs, path);
    } else {
      InvokedEndsAtOwner(hs, path);
    }
  }

  /** Every handler called before the last one declined the path. */
  lemma {:induction false} InvokedDeclineBeforeLast(hs: seq<HandlerKind>, path: string)
    ensures forall i :: 0 <= i < |Invoked(hs, path, false)| - 1 ==> !Owns(Invoked(hs, path, false)[i], path)
  {
    if hs != [] && !Owns(hs[0], path) {
      InvokedDeclineBeforeLast(hs[1..], path);
      var rest := Invoked(hs[1..], path, false);
      var r := Invoked(hs, path, false);
      assert r == [hs[0]] + rest;
      forall i | 0 <= i < |r| - 1
        ensures !Owns(r[i], path)
      {
        if i > 0 {
          assert r[i] == rest[i - 1];
        } else {
          assert r[i] == hs[0];
        }
      }
    }
  }

  /** Without an owner every handler is called. */
  lemma {:induction false} InvokedAllWithoutOwner(hs: seq<HandlerKind>, path: string)
    requires Owner(hs, path).None?
    ensures Invoked(hs, path, false) == hs
  {
    if hs != [] {
      assert !Owns(hs[0], path);
      assert Owner(hs[1..], path).None?;
      InvokedAllWithoutOwner(hs[1..], path);
      assert hs == [hs[0]] + hs[1..];
    }
  }

  /** With an owner the owner is the last handler called. */
  lemma {:induction false} InvokedEndsAtOwner(hs: seq<HandlerKind>, path: string)
    requires Owner(hs, path).Some?
    ensures var r := Invoked(hs, path, false);
            r != [] && r[|r| - 1] == Owner(hs, path).value
  {
    if !Owns(hs[0], path) {
      assert Owner(hs, path) == Owner(hs[1..], path);
      InvokedEndsAtOwner(hs[1..], path);
      var rest := Invoked(hs[1..], path, false);
      var r := Invoked(hs, path, false);
      assert r == [hs[0]] + rest;
      assert r[|r| - 1] == rest[|rest| - 1];
    }
  }

  /** Whatever the list order, the same handler answers a request. */
  lemma SameAnswerInAnyOrder(hs1: seq<HandlerKind>, hs2: seq<HandlerKind>, path: string)
    requires forall k :: k in hs1 <==> k in hs2
    requires Owner(hs1, path).Some?
    ensures var r1, r2 := Invoked(hs1, path, false), Invoked(hs2, path, false);
            r1 != [] && r2 != [] && r1[|r1| - 1] == r2[|r2| - 1]
  {
    ResponderIndependentOfOrder(hs1, hs2, path);
    InvokedUpToOwner(hs1, path);
    InvokedUpToOwner(hs2, path);
  }

  /** With all five handlers in the list, each path under one of the five
      prefixes is answered by its handler. */
  lemma PrefixRoutesToItsHandler(hs: seq<HandlerKind>, k: HandlerKind, path: string)
    requires k in hs && Owns(k, path)
    ensures Owner(hs, path) == Some(k)
  {
    OwnerIsUnique(k, path);
    var i :| 0 <= i < |hs| && hs[i] == k;
  }

  // ---------------------------------------------------------------------
  // Calling the handlers

  /** The in-memory stores and the inputs the handlers take from outside:
      the clock, the token characters drawn, the program version. */
  method Invoke(k: HandlerKind, e: HttpRestEventArgs, sessions: SessionStore, users: UserStore,
                media: MediaStore, ratings: RatingStore, now: int, draws: seq<int>, version: Option<string>)
    returns (ghost owned: bool)
    requires sessions.Valid() && users.Valid() && media.Valid() && ratings.Valid() && ValidDraws(draws)
    modifies e, sessions, users, media, ratings, ratings.ratings.Values,
             set x | x in ratings.ratings.Values :: x.atom
    ensures owned == Owns(k, e.path)
    ensures sessions.Valid() && users.Valid() && media.Valid() && ratings.Valid()
    ensures !owned ==> unchanged(e, sessions, users, media, ratings) && unchanged(ratings.ratings.Values)
    ensures owned ==>
              e.responded && |e.responses| == |old(e.responses)| + 1 && e.responses[..|old(e.responses)|] == old(e.responses)
  {
    owned := Owns(k, e.path);
    if k.RatingHandler? {
      RatingRoutes.Handle(e, ratings);
    } else {
      InvokeOnSessions(k, e, sessions, users, media, now, draws, version);
    }
  }

  /** Invoke for the handlers that leave the rating store alone. */
  method InvokeOnSessions(k: HandlerKind, e: HttpRestEventArgs, sessions: SessionStore, users: UserStore,
                          media: MediaStore, now: int, draws: seq<int>, version: Option<string>)
    requires !k.RatingHandler?
    requires sessions.Valid() && users.Valid() && media.Valid() && ValidDraws(draws)
    modifies e, sessions, users, media
    ensures sessions.Valid() && users.Valid() && media.Valid()
    ensures !Owns(k, e.path) ==> unchanged(e, sessions, users, media)
    ensures Owns(k, e.path) ==>
              e.responded && |e.responses| == |old(e.responses)| + 1 && e.responses[..|old(e.responses)|] == old(e.responses)
  {
    match k {
      case MediaHandler =>
        MediaRoutes.Handle(e, sessions, media, now);
      case SessionHandler =>
        SessionRoutes.Handle(e, sessions, users, draws, now);
      case UserHandler =>
        UserRoutes.Handle(e, users, sessions);
      case VersionHandler =>
        VersionRoutes.Handle(e, version);
    }
  }

  /** Handler.HandleEvent with its cached handler list. */
  class HandlerChain {
    /** _Handlers: none until the first event. */
    var handlers: Option<seq<HandlerKind>>

    constructor()
      ensures handlers == None
    {
      handlers := None;
    }

    /** Handler.HandleEvent: the list is `discovered` on the first call and
        the cached one afterwards; `invoked` are the handlers called, in
        order. */
    method HandleEvent(e: HttpRestEventArgs, discovered: seq<HandlerKind>, sessions: SessionStore, users: UserStore,
                       media: MediaStore, ratings: RatingStore, now: int, draws: seq<int>, version: Option<string>)
      returns (ghost invoked: seq<HandlerKind>)
      requires sessions.Valid() && users.Valid() && media.Valid() && ratings.Valid() && ValidDraws(draws)
      modifies this, e, sessions, users, media, ratings, ratings.ratings.Values,
               set x | x in ratings.ratings.Values :: x.atom
      ensures sessions.Valid() && users.Valid() && media.Valid() && ratings.Valid()
      ensures handlers == if old(handlers).Some? then old(handlers) else Some(discovered)
      ensures invoked == Invoked(handlers.value, e.path, old(e.responded))
      ensures e.responded <==> old(e.responded) || Owner(handlers.value, e.path).Some?
      ensures |e.responses| == |old(e.responses)| + (if Owner(invoked, e.path).Some? then 1 else 0)
      ensures e.responses[..|old(e.responses)|] == old(e.responses)
      ensures Owner(handlers.value, e.path).None? ==>
                unchanged(e, sessions, users, media, ratings) && unchanged(old(ratings.ratings.Values))
    {
      if handlers.None? {
        handlers := Some(discovered);
      }
      invoked := Offer(handlers.value, e, sessions, users, media, ratings, now, draws, version);
    }
  }

  /** The loop of HandleEvent: call the handlers of `hs` in order and stop
      right after the first call that leaves Responded set. */
  method Offer(hs: seq<HandlerKind>, e: HttpRestEventArgs, sessions: SessionStore, users: UserStore,
               media: MediaStore, ratings: RatingStore, now: int, draws: seq<int>, version: Option<string>)
    returns (ghost invoked: seq<HandlerKind>)
    requires sessions.Valid() && users.Valid() && media.Valid() && ratings.Valid() && ValidDraws(draws)
    modifies e, sessions, users, media, ratings, ratings.ratings.Values,
             set x | x in ratings.ratings.Values :: x.atom
    ensures sessions.Valid() && users.Valid() && media.Valid() && ratings.Valid()
    ensures invoked == Invoked(hs, e.path, old(e.responded))
    ensures e.responded <==> old(e.responded) || Owner(hs, e.path).Some?
    ensures |e.responses| == |old(e.responses)| + (if Owner(invoked, e.path).Some? then 1 else 0)
    ensures e.responses[..|old(e.responses)|] == old(e.responses)
    ensures Owner(hs, e.path).None? ==>
              unchanged(e, sessions, users, media, ratings) && unchanged(old(ratings.ratings.Values))
  {
    invoked := [];
    ghost var wasResponded := e.responded;
    var i := 0;
    while i < |hs|
      invariant 0 <= i <= |hs| && invoked == hs[..i]
      invariant i > 0 ==> !wasResponded
      invariant sessions.Valid() && users.Valid() && media.Valid() && ratings.Valid()
      invariant forall j :: 0 <= j < i ==> !Owns(hs[j], e.path)
      invariant unchanged(e, sessions, users, media, ratings) && unchanged(old(ratings.ratings.Values))
      decreases |hs| - i
    {
      ghost var owned := Invoke(hs[i], e, sessions, users, media, ratings, now, draws, version);
      if e.responded {
        invoked := hs[..i+1];
        break;
      }
      i := i + 1;
      invoked := hs[..i];
    }
    InvokedPrefix(hs, e.path, wasResponded, i);
  }

  /** The loop of HandleEvent meets its specification: after i declining
      calls on a request not yet answered, the handlers called are the
      first i, plus the one whose call set the flag. */
  lemma {:induction false} InvokedPrefix(hs: seq<HandlerKind>, path: string, responded: bool, i: nat)
    requires i <= |hs|
    requires i > 0 ==> !responded
    requires forall j :: 0 <= j < i ==> !Owns(hs[j], path)
    ensures i == |hs| ==> Invoked(hs, path, responded) == hs && Owner(hs, path).None?
    ensures i < |hs| && (responded || Owns(hs[i], path)) ==> Invoked(hs, path, responded) == hs[..i + 1]
    ensures i < |hs| && Owns(hs[i], path) ==> Owner(hs, path) == Some(hs[i])
    ensures i < |hs| ==> Owner(hs[..i + 1], path) == if Owns(hs[i], path) then Some(hs[i]) else None
    decreases i
  {
    if i > 0 {
      InvokedPrefix(hs[1..], path, false, i - 1);
      if i < |hs| {
        assert hs[1..][..i] == hs[1..i + 1];
        assert hs[..i + 1] == [hs[0]] + hs[1..i + 1];
      }
    }
  }

  const NotFoundReason: string := "Not found."

  /** One request through the server: the request object is built, the
      chain runs, and a request nobody answered gets a 404. Every request
      gets at least one response, and exactly one when the chain found an
      owner or nobody had answered. */
  method Serve(request: Request, chain: HandlerChain, discovered: seq<HandlerKind>, sessions: SessionStore, users: UserStore,
               media: MediaStore, ratings: RatingStore, now: int, draws: seq<int>, version: Option<string>)
    returns (e: HttpRestEventArgs)
    requires sessions.Valid() && users.Valid() && media.Valid() && ratings.Valid() && ValidDraws(draws)
    modifies chain, sessions, users, media, ratings, ratings.ratings.Values,
             set x | x in ratings.ratings.Values :: x.atom
    ensures sessions.Valid() && users.Valid() && media.Valid() && ratings.Valid()
    ensures e.path == request.path && e.responded && |e.responses| == 1
    ensures chain.handlers.Some?
    ensures Owner(chain.handlers.value, request.path).None? ==>
              e.responses == [Response(NotFound, Some(Failure(NotFoundReason)))]
              && unchanged(sessions, users, media, ratings) && unchanged(old(ratings.ratings.Values))
  {
    e := new HttpRestEventArgs(request);
    ghost var invoked := chain.HandleEvent(e, discovered, sessions, users, media, ratings, now, draws, version);
    InvokedUpToOwner(chain.handlers.value, e.path);
    if !e.responded {
      e.Respond(NotFound, Some(Failure(NotFoundReason)));
    }
  }
}
