/** VersionHandler: GET /version reports the program version. */
module VersionRoutes {
  import opened Common
  import opened Text
  import opened Http

  const Prefix: string := "/version"
  const InvalidEndpoint: string := "Invalid version endpoint."

  /** The response to a request under /version. `version` is the assembly
      version, if one is available. */
  function Answer(verb: HttpMethod, path: string, version: Option<string>): (r: Response)
    ensures r.status == OK <==> verb == Get && path == Prefix
    ensures r.status == OK ==> r.reply == Some(VersionInfo(if version.Some? then version.value else "unknown"))
    ensures r.status != OK ==> r == Response(BadRequest, Some(Failure(InvalidEndpoint)))
  {
    if path == Prefix && verb == Get then Response(OK, Some(VersionInfo(version.GetOr("unknown"))))
    else Response(BadRequest, Some(Failure(InvalidEndpoint)))
  }

  /** VersionHandler.Handle */
  method Handle(e: HttpRestEventArgs, version: Option<string>)
    modifies e
    ensures !StartsWith(e.path, Prefix) ==> unchanged(e)
    ensures StartsWith(e.path, Prefix) ==> e.responded && e.responses == old(e.responses) + [Answer(e.verb, e.path, version)]
  {
    if !StartsWith(e.path, Prefix) {
      return;
    }
    if e.path == Prefix && e.verb == Get {
      e.Respond(OK, Some(VersionInfo(version.GetOr("unknown"))));
    } else {
      e.Respond(BadRequest, Some(Failure(InvalidEndpoint)));
    }
    e.responded := true;
  }
}
