# MyMediaList back end — a Dafny model

MyMediaList is a small REST back end written in C#. An `HttpListener` turns every request into an
`HttpRestEventArgs`. The request is offered to a chain of handlers, one per route family:
`/version`, `/sessions`, `/users`, `/api/media` and `/ratings`. The first handler whose prefix
matches the path answers, and a request nobody answers gets 404. All state lives in memory, in
static dictionaries:

- sessions keyed by a random 24-character token, which expire after 30 idle minutes;
- users keyed by name, with a SHA-256 password hash;
- media entries and ratings keyed by consecutive integer ids.

The model follows the program's structure, one module per source area:

| module | file | models |
|---|---|---|
| `Common` | common.dfy | `Option`, `Result` and `Outcome` (an exception becomes an error value) |
| `Text` | text.dfy | the .NET string operations the handlers use: `Trim`, `TrimEnd(char)`, `Split` with and without empty entries, `int.TryParse`, `IsNullOrWhiteSpace` |
| `Passwords` | passwords.dfy | `User._HashPassword`: lower-case hex of a digest of user name plus password |
| `Accounts` | accounts.dfy | `Session` (token, expiry sweep, lookup), `Atom` (the editing-session checks) and `User` with its store |
| `Media` | media.dfy | `MediaEntry` and its static store |
| `Ratings` | ratings.dfy | `Rating` objects and their static store |
| `Http` | http.dfy | `HttpRestEventArgs`: request fields, JSON field reads, the bearer token, `Respond` |
| `VersionRoutes`, `SessionRoutes`, `UserRoutes`, `MediaRoutes`, `RatingRoutes` | *_routes.dfy | the five handlers |
| `Handlers` | handlers.dfy | `Handler.HandleEvent` and the 404 fallback of `HttpRestServer` |

State that the C# code updates in place is modelled as classes. Examples are the session, user,
media and rating stores, each `User` and `Rating`, and the event arguments. Their methods are
proved against specification functions. Media entries and sessions are values (datatypes) inside
their stores' maps. Each route handler is specified by a pure decision function, an "effect". The
effect gives the response together with the new store contents. Lemmas about these effects carry
the route-level properties:

- ids are handed out consecutively and never reused;
- requests that fail leave the store as it was;
- a created rating reads back as written, and a deleted one no longer reads back;
- the bearer token and the genre list round-trip;
- at most one handler owns any path, so the handler order does not change the answer.

The inputs the code takes from its environment become parameters:

- the clock is `now`, an integer count of .NET ticks;
- the random draws for a token are `draws`, the results of `Random.Next(0, 62)`;
- the SHA-256-over-UTF-8 digest is the function `digest`;
- the assembly version is `version`;
- the handlers found by reflection are `discovered`.

## Model

| member | source | states |
|---|---|---|
| Text.LeadingBlanks | SWEN_MRP_Anderseka/SWEN_MRP_Anderseka/Server/HttpRestEventArgs.cs:80 | the leading count covers only white space and stops at the first other character |
| Text.TrailingBlanks | SWEN_MRP_Anderseka/SWEN_MRP_Anderseka/Server/HttpRestEventArgs.cs:80 | the trailing run starts after the last character that is not white space and covers only white space |
| Text.Trim | SWEN_MRP_Anderseka/SWEN_MRP_Anderseka/Server/HttpRestEventArgs.cs:80 | the result is an infix with only white space removed on both sides; it is empty exactly when the input is blank |
| Text.TrimKeeps | SWEN_MRP_Anderseka/SWEN_MRP_Anderseka/Server/HttpRestEventArgs.cs:80 | trimming a string without white space at either end returns it unchanged |
| Text.TrimIsInfix | SWEN_MRP_Anderseka/SWEN_MRP_Anderseka/System/MediaHandler.cs:61 | trimming never introduces a character that was not in the input |
| Text.TrimEndChar | SWEN_MRP_Anderseka/SWEN_MRP_Anderseka/System/MediaHandler.cs:22 | `TrimEnd('/')` removes exactly the trailing run of the character, and the result does not end with it |
| Text.Split | SWEN_MRP_Anderseka/SWEN_MRP_Anderseka/System/MediaHandler.cs:22 | splitting yields at least one piece, and no piece contains the separator |
| Text.NonEmpty | SWEN_MRP_Anderseka/SWEN_MRP_Anderseka/System/MediaHandler.cs:22 | `RemoveEmptyEntries` keeps only non-empty pieces taken from the input, and never more pieces than there were |
| Text.NonEmptyKeepsEvery | SWEN_MRP_Anderseka/SWEN_MRP_Anderseka/System/MediaHandler.cs:22 | every non-empty piece of the input is kept |
| Text.NonEmptyAppend | SWEN_MRP_Anderseka/SWEN_MRP_Anderseka/System/MediaHandler.cs:22 | `RemoveEmptyEntries` keeps the order of the pieces: it distributes over concatenation |
| Text.TrimAll | SWEN_MRP_Anderseka/SWEN_MRP_Anderseka/System/MediaHandler.cs:61 | `TrimEntries` keeps the number of pieces, and each entry is the trim of the piece at its position |
| Text.SplitTrimmed | SWEN_MRP_Anderseka/SWEN_MRP_Anderseka/System/MediaHandler.cs:61 | the genre pieces are non-empty, separator-free and trimmed |
| Text.JoinSplit | SWEN_MRP_Anderseka/SWEN_MRP_Anderseka/System/MediaHandler.cs:22 | joining the pieces of a split gives back the string |
| Text.SplitWithoutSeparator | SWEN_MRP_Anderseka/SWEN_MRP_Anderseka/System/MediaHandler.cs:22 | a string without the separator splits into itself |
| Text.SplitAfterPiece | SWEN_MRP_Anderseka/SWEN_MRP_Anderseka/System/MediaHandler.cs:22 | splitting distributes over a piece followed by the separator |
| Text.SplitJoin | SWEN_MRP_Anderseka/SWEN_MRP_Anderseka/System/MediaHandler.cs:22 | separator-free pieces joined and split again are the same pieces |
| Text.NonEmptyKeeps | SWEN_MRP_Anderseka/SWEN_MRP_Anderseka/System/MediaHandler.cs:22 | removing empty entries from pieces that are all non-empty changes nothing |
| Text.SplitTrimmedJoin | SWEN_MRP_Anderseka/SWEN_MRP_Anderseka/System/MediaHandler.cs:61 | trimmed, non-empty, comma-free genres joined with commas split back into the same list |
| Text.BlankSplitsToNothing | SWEN_MRP_Anderseka/SWEN_MRP_Anderseka/System/MediaHandler.cs:61 | a blank genre string yields no genres |
| Text.SplitSnoc | SWEN_MRP_Anderseka/SWEN_MRP_Anderseka/System/MediaHandler.cs:22 | a trailing separator adds exactly one empty piece |
| Text.NonEmptySnoc | SWEN_MRP_Anderseka/SWEN_MRP_Anderseka/System/MediaHandler.cs:22 | an appended empty piece is removed again |
| Text.TrimEndCharBeforeSplit | SWEN_MRP_Anderseka/SWEN_MRP_Anderseka/System/MediaHandler.cs:22 | `TrimEnd('/')` before a split that drops empty entries does not change the segments |
| Text.NatToString | SWEN_MRP_Anderseka/SWEN_MRP_Anderseka/System/RatingHandler.cs:85 | decimal rendering is a non-empty digit string |
| Text.ParseInt | SWEN_MRP_Anderseka/SWEN_MRP_Anderseka/System/RatingHandler.cs:85 | `int.TryParse` succeeds only on a sign or digit start and only with a 32-bit result |
| Text.DigitsRoundTrip | SWEN_MRP_Anderseka/SWEN_MRP_Anderseka/System/RatingHandler.cs:85 | reading back the decimal rendering of a natural gives the number |
| Text.ParseIntRoundTrip | SWEN_MRP_Anderseka/SWEN_MRP_Anderseka/System/RatingHandler.cs:85 | every 32-bit integer parses back from its decimal rendering |
| Passwords.Hex | SWEN_MRP_Anderseka/SWEN_MRP_Anderseka/System/User.cs:72-76 | the `x2` rendering has two characters per byte |
| Passwords.HexEncode | SWEN_MRP_Anderseka/SWEN_MRP_Anderseka/System/User.cs:71-76 | the append loop computes the hex rendering of the digest bytes |
| Passwords.HashPassword | SWEN_MRP_Anderseka/SWEN_MRP_Anderseka/System/User.cs:69-77 | the hash is the hex of the digest of user name followed by password |
| Passwords.HexByteInjective | SWEN_MRP_Anderseka/SWEN_MRP_Anderseka/System/User.cs:74 | two bytes with the same `x2` rendering are equal |
| Passwords.HexInjective | SWEN_MRP_Anderseka/SWEN_MRP_Anderseka/System/User.cs:72-76 | two digests with the same hex rendering are equal |
| Passwords.HashesMatchIffDigestsMatch | SWEN_MRP_Anderseka/SWEN_MRP_Anderseka/System/Session.cs:104-105 | stored and expected hashes agree exactly when the digests agree |
| Accounts.AlphabetIsPrintable | SWEN_MRP_Anderseka/SWEN_MRP_Anderseka/System/Session.cs:11 | every alphabet letter lies between '0' and 'z' |
| Accounts.TokenHasNoWhiteSpace | SWEN_MRP_Anderseka/SWEN_MRP_Anderseka/System/Session.cs:11 | a token contains no white space, so trimming the header keeps it |
| Accounts.TokenFrom | SWEN_MRP_Anderseka/SWEN_MRP_Anderseka/System/Session.cs:40-42 | the token built from 24 draws in 0..61 is a well-formed token |
| Accounts.MakeToken | SWEN_MRP_Anderseka/SWEN_MRP_Anderseka/System/Session.cs:40-42 | the loop builds the token whose i-th letter is the alphabet letter of the i-th draw |
| Accounts.LookupMeaning | SWEN_MRP_Anderseka/SWEN_MRP_Anderseka/System/Session.cs:123-160 | a lookup finds the token exactly when it is stored and not older than 30 minutes, and then refreshes its timestamp; the sweep removes exactly the expired sessions and touches nothing else |
| Accounts.LookupKeepsAlive | SWEN_MRP_Anderseka/SWEN_MRP_Anderseka/System/Session.cs:123-139 | a session found now is still found by a lookup within the next 30 minutes |
| Accounts.ExpiredNeverFound | SWEN_MRP_Anderseka/SWEN_MRP_Anderseka/System/Session.cs:148-160 | an expired session is neither returned nor kept |
| Accounts.SessionStore.constructor | SWEN_MRP_Anderseka/SWEN_MRP_Anderseka/System/Session.cs:23 | the session table starts empty |
| Accounts.SessionStore.Create | SWEN_MRP_Anderseka/SWEN_MRP_Anderseka/System/Session.cs:86-117 | a session is created exactly for "admin" or for a stored user whose hash matches; it is stored under its fresh token; otherwise nothing changes |
| Accounts.SessionStore.Get | SWEN_MRP_Anderseka/SWEN_MRP_Anderseka/System/Session.cs:123-139 | the lookup result and the table after the sweep and the refresh |
| Accounts.SessionStore.Cleanup | SWEN_MRP_Anderseka/SWEN_MRP_Anderseka/System/Session.cs:148-160 | the table afterwards is the old one minus the expired sessions |
| Accounts.SessionStore.Close | SWEN_MRP_Anderseka/SWEN_MRP_Anderseka/System/Session.cs:168-174 | the token is removed and the session is no longer valid |
| Accounts.Atom.constructor | SWEN_MRP_Anderseka/SWEN_MRP_Anderseka/System/Atom.cs:6 | the editing session is the one given |
| Accounts.Atom.VerifySession | SWEN_MRP_Anderseka/SWEN_MRP_Anderseka/System/Atom.cs:16-20 | it passes exactly when the remembered session is still valid, and fails with "Invalid session." |
| Accounts.Atom.BeginEdit | SWEN_MRP_Anderseka/SWEN_MRP_Anderseka/System/Atom.cs:58-61 | it records the session and passes exactly when that session is valid |
| Accounts.Atom.EndEdit | SWEN_MRP_Anderseka/SWEN_MRP_Anderseka/System/Atom.cs:24-27 | it forgets the editing session, so no later check passes |
| Accounts.Atom.EnsureAdmin | SWEN_MRP_Anderseka/SWEN_MRP_Anderseka/System/Atom.cs:32-36 | it passes exactly for a valid admin session, with the source's two failure messages |
| Accounts.Atom.EnsureAdminOrOwner | SWEN_MRP_Anderseka/SWEN_MRP_Anderseka/System/Atom.cs:41-48 | it passes exactly for a valid session of an admin or the owner, with the source's two failure messages |
| Accounts.User.constructor | SWEN_MRP_Anderseka/SWEN_MRP_Anderseka/System/User.cs:25-29 | a new user is marked new, has no fields yet and remembers the session |
| Accounts.User.SetUserName | SWEN_MRP_Anderseka/SWEN_MRP_Anderseka/System/User.cs:56-66 | the name is set exactly when the user is new and the name is not blank; otherwise the user is unchanged and the matching message is returned |
| Accounts.User.SetPassword | SWEN_MRP_Anderseka/SWEN_MRP_Anderseka/System/User.cs:100-103 | the stored hash is the password hash for the current name; nothing else changes |
| Accounts.User.Save | SWEN_MRP_Anderseka/SWEN_MRP_Anderseka/System/User.cs:106-117 | a new user is always stored, and an existing one only under an admin or owner session; it is stored under its name and is no longer new |
| Accounts.User.Delete | SWEN_MRP_Anderseka/SWEN_MRP_Anderseka/System/User.cs:120-131 | under an admin or owner session the name is removed from the store; otherwise nothing changes |
| Accounts.User.Refresh | SWEN_MRP_Anderseka/SWEN_MRP_Anderseka/System/User.cs:134-148 | the full name, e-mail and hash are copied from the stored user when there is one; the name is kept and editing ends |
| Accounts.UserStore.constructor | SWEN_MRP_Anderseka/SWEN_MRP_Anderseka/System/User.cs:15 | the user table starts empty |
| Accounts.UserStore.Get | SWEN_MRP_Anderseka/SWEN_MRP_Anderseka/System/User.cs:32-53 | a stored user is returned without a session, or to an admin or the owner, who then becomes its editing session |
| Media.Updated | SWEN_MRP_Anderseka/SWEN_MRP_Anderseka/System/MediaEntry.cs:157-177 | an update keeps id and creator and stores the given genres, or none |
| Media.ListingMeaning | SWEN_MRP_Anderseka/SWEN_MRP_Anderseka/System/MediaEntry.cs:137-144 | the listing holds exactly the stored entries, in increasing id order |
| Media.MediaStore.constructor | SWEN_MRP_Anderseka/SWEN_MRP_Anderseka/System/MediaEntry.cs:25-28 | the store starts empty with the next id 1 |
| Media.MediaStore.NewEntry | SWEN_MRP_Anderseka/SWEN_MRP_Anderseka/System/MediaEntry.cs:71-76 | a new entry takes the next id, which then moves on by one |
| Media.MediaStore.Create | SWEN_MRP_Anderseka/SWEN_MRP_Anderseka/System/MediaEntry.cs:93-115 | a blank creator or title fails with the source's messages and changes nothing; otherwise the entry is stored under a fresh id and the next id moves on |
| Media.MediaStore.Get | SWEN_MRP_Anderseka/SWEN_MRP_Anderseka/System/MediaEntry.cs:121-132 | the entry is found exactly when its id is stored, and carries that id |
| Media.MediaStore.GetAll | SWEN_MRP_Anderseka/SWEN_MRP_Anderseka/System/MediaEntry.cs:137-144 | the loop returns every stored entry once, in increasing id order |
| Media.MediaStore.Update | SWEN_MRP_Anderseka/SWEN_MRP_Anderseka/System/MediaEntry.cs:157-177 | a missing id changes nothing; otherwise exactly that entry is replaced by the updated one |
| Media.MediaStore.Delete | SWEN_MRP_Anderseka/SWEN_MRP_Anderseka/System/MediaEntry.cs:184-198 | the result says whether the id was stored, and the id is gone afterwards |
| Ratings.Rating.constructor | SWEN_MRP_Anderseka/SWEN_MRP_Anderseka/System/Rating.cs:29-33 | a new rating is new, with id 0 and empty fields |
| Ratings.Rating.UserName | SWEN_MRP_Anderseka/SWEN_MRP_Anderseka/System/Rating.cs:57-61 | a missing user name reads as the empty string |
| Ratings.Rating.Comment | SWEN_MRP_Anderseka/SWEN_MRP_Anderseka/System/Rating.cs:75-79 | a missing comment reads as the empty string |
| Ratings.Rating.Save | SWEN_MRP_Anderseka/SWEN_MRP_Anderseka/System/Rating.cs:85-102 | a new rating takes the next id; the rating is stored under its id; no field changes |
| Ratings.Rating.Delete | SWEN_MRP_Anderseka/SWEN_MRP_Anderseka/System/Rating.cs:104-115 | the id is removed from the store and editing ends |
| Ratings.Rating.Refresh | SWEN_MRP_Anderseka/SWEN_MRP_Anderseka/System/Rating.cs:117-132 | the fields are copied from the stored rating when there is one |
| Ratings.RatingStore.constructor | SWEN_MRP_Anderseka/SWEN_MRP_Anderseka/System/Rating.cs:11-12 | the store starts empty with the next id 1 |
| Ratings.RatingStore.Get | SWEN_MRP_Anderseka/SWEN_MRP_Anderseka/System/Rating.cs:39-49 | a rating is found exactly when its id is stored; it is saved and its id is below the next id |
| Http.Node | SWEN_MRP_Anderseka/SWEN_MRP_Anderseka/System/SessionHandler.cs:28 | a JSON field is present only when the object holds it |
| Http.StringField | SWEN_MRP_Anderseka/SWEN_MRP_Anderseka/System/SessionHandler.cs:28 | `GetValue<string>` fails exactly on a present non-string node; it is absent exactly when the node is absent |
| Http.IntField | SWEN_MRP_Anderseka/SWEN_MRP_Anderseka/System/MediaHandler.cs:47 | `GetValue<int>` fails exactly on a present node that is not a 32-bit number |
| Http.StringOr | SWEN_MRP_Anderseka/SWEN_MRP_Anderseka/System/SessionHandler.cs:28 | the `?? fallback` read gives the fallback for an absent field and fails exactly when the read fails |
| Http.IntOr | SWEN_MRP_Anderseka/SWEN_MRP_Anderseka/System/RatingHandler.cs:126-127 | the `?? fallback` read gives the fallback for an absent field and fails exactly when the read fails |
| Http.BearerToken | SWEN_MRP_Anderseka/SWEN_MRP_Anderseka/Server/HttpRestEventArgs.cs:77-82 | a token is taken exactly when the header starts with "bearer " in any case; it is the trimmed rest |
| Http.BearerTokenRoundTrip | SWEN_MRP_Anderseka/SWEN_MRP_Anderseka/Server/HttpRestEventArgs.cs:77-82 | "Bearer " followed by an issued token yields that token |
| Http.SessionOf | SWEN_MRP_Anderseka/SWEN_MRP_Anderseka/Server/HttpRestEventArgs.cs:73-86 | no bearer header gives no session; a session found is the stored, unexpired one with a refreshed timestamp |
| Http.StoreAfterSessionOf | SWEN_MRP_Anderseka/SWEN_MRP_Anderseka/Server/HttpRestEventArgs.cs:73-86 | without a bearer header the session table is not swept |
| Http.ErrorResponse | SWEN_MRP_Anderseka/SWEN_MRP_Anderseka/System/MediaHandler.cs:164-167 | a caught exception becomes a 500 carrying its message |
| Http.Settle | SWEN_MRP_Anderseka/SWEN_MRP_Anderseka/System/MediaHandler.cs:19-167 | a normal outcome is answered as computed, and an exception as a 500 |
| Http.HttpRestEventArgs.constructor | SWEN_MRP_Anderseka/SWEN_MRP_Anderseka/Server/HttpRestEventArgs.cs:20-45 | the event carries the request's method, path and body, and an empty object without a body; it is not yet responded |
| Http.HttpRestEventArgs.Respond | SWEN_MRP_Anderseka/SWEN_MRP_Anderseka/Server/HttpRestEventArgs.cs:103-121 | one response is sent and the event is marked responded |
| Http.HttpRestEventArgs.GetSession | SWEN_MRP_Anderseka/SWEN_MRP_Anderseka/Server/HttpRestEventArgs.cs:73-86 | the session and the session table afterwards are the lookup on the bearer token |
| VersionRoutes.Answer | SWEN_MRP_Anderseka/SWEN_MRP_Anderseka/System/VersionHandler.cs:26-40 | 200 with the version, or "unknown", exactly for GET /version; otherwise 400 "Invalid version endpoint." |
| VersionRoutes.Handle | SWEN_MRP_Anderseka/SWEN_MRP_Anderseka/System/VersionHandler.cs:22-44 | paths outside /version are left alone; owned paths get exactly one answer |
| SessionRoutes.Credentials | SWEN_MRP_Anderseka/SWEN_MRP_Anderseka/System/SessionHandler.cs:28 | user name and password are read with the empty default; a non-string value fails |
| SessionRoutes.Login | SWEN_MRP_Anderseka/SWEN_MRP_Anderseka/System/SessionHandler.cs:26-48 | 200 with the new token exactly when the credentials are accepted, and the session is stored; otherwise 401 and no change |
| SessionRoutes.Handle | SWEN_MRP_Anderseka/SWEN_MRP_Anderseka/System/SessionHandler.cs:20-60 | paths outside /sessions are left alone; only POST /sessions logs in, every other owned request gets 400; one response each |
| UserRoutes.ReadRegistration | SWEN_MRP_Anderseka/SWEN_MRP_Anderseka/System/UserHandler.cs:28-34 | the four fields are read with the empty default; a blank name fails with the setter's message |
| UserRoutes.Register | SWEN_MRP_Anderseka/SWEN_MRP_Anderseka/System/UserHandler.cs:26-47 | a registered user is stored under its name with the hashed password and is no longer new; a failure changes nothing |
| UserRoutes.Handle | SWEN_MRP_Anderseka/SWEN_MRP_Anderseka/System/UserHandler.cs:20-59 | paths outside /users are left alone; POST /users registers and replaces only that name's entry with a fresh, saved user carrying the given name, full name, e-mail and password hash; every other owned request gets 400 |
| UserRoutes.RegisteredUserAccepts | SWEN_MRP_Anderseka/SWEN_MRP_Anderseka/System/Session.cs:101-105 | a registered user later logs in with exactly the passwords whose digest matches the registered one |
| MediaRoutes.RouteOf | SWEN_MRP_Anderseka/SWEN_MRP_Anderseka/System/MediaHandler.cs:22-25 | the collection route is exactly the segments api/media; the resource route is exactly three segments starting with them |
| MediaRoutes.SegmentsIgnoreTrailingSlashes | SWEN_MRP_Anderseka/SWEN_MRP_Anderseka/System/MediaHandler.cs:22 | trailing slashes do not change the segments |
| MediaRoutes.AbsolutePathSegments | SWEN_MRP_Anderseka/SWEN_MRP_Anderseka/System/MediaHandler.cs:22 | an absolute path built from segments, with or without a trailing slash, yields those segments |
| MediaRoutes.CollectionPaths | SWEN_MRP_Anderseka/SWEN_MRP_Anderseka/System/MediaHandler.cs:25 | /api/media and /api/media/ reach the collection |
| MediaRoutes.ResourcePaths | SWEN_MRP_Anderseka/SWEN_MRP_Anderseka/System/MediaHandler.cs:82 | /api/media/x, with or without a trailing slash, reaches resource x |
| MediaRoutes.SharedPrefixIsUnrouted | SWEN_MRP_Anderseka/SWEN_MRP_Anderseka/System/MediaHandler.cs:17-25 | /api/mediathek passes the prefix test but matches neither route |
| MediaRoutes.ParseMediaType | SWEN_MRP_Anderseka/SWEN_MRP_Anderseka/System/MediaHandler.cs:172-176 | Series or Game only for their names in any case |
| MediaRoutes.ParseMediaTypeRoundTrip | SWEN_MRP_Anderseka/SWEN_MRP_Anderseka/System/MediaHandler.cs:172-176 | every type name in any case parses back to its type |
| MediaRoutes.ArrayGenres | SWEN_MRP_Anderseka/SWEN_MRP_Anderseka/System/MediaHandler.cs:50-56 | at most one genre per array item; the only failure is a conversion failure |
| MediaRoutes.GenresOf | SWEN_MRP_Anderseka/SWEN_MRP_Anderseka/System/MediaHandler.cs:48-62 | reading genres fails only with a conversion failure |
| MediaRoutes.ArrayGenresStaysFailed | SWEN_MRP_Anderseka/SWEN_MRP_Anderseka/System/MediaHandler.cs:52-55 | once an item fails to convert, the whole read fails |
| MediaRoutes.StringArrayGenres | SWEN_MRP_Anderseka/SWEN_MRP_Anderseka/System/MediaHandler.cs:50-55 | an array of strings reads as exactly those strings |
| MediaRoutes.NullGenresSkipped | SWEN_MRP_Anderseka/SWEN_MRP_Anderseka/System/MediaHandler.cs:54 | null items are skipped |
| MediaRoutes.GenresFromText | SWEN_MRP_Anderseka/SWEN_MRP_Anderseka/System/MediaHandler.cs:57-61 | a string value is split on commas, trimmed and empty pieces dropped |
| MediaRoutes.GenresTextRoundTrip | SWEN_MRP_Anderseka/SWEN_MRP_Anderseka/System/MediaHandler.cs:57-61 | clean genres joined with commas read back as the same list |
| MediaRoutes.ReadGenres | SWEN_MRP_Anderseka/SWEN_MRP_Anderseka/System/MediaHandler.cs:48-62 | the loop computes the genre read |
| MediaRoutes.ReadForm | SWEN_MRP_Anderseka/SWEN_MRP_Anderseka/System/MediaHandler.cs:44-63 | the form fields with the source's defaults: empty title, type "Movie", year 0, age 0 |
| MediaRoutes.ReadFormFields | SWEN_MRP_Anderseka/SWEN_MRP_Anderseka/System/MediaHandler.cs:107-125 | the field reads compute the form |
| MediaRoutes.Actor | SWEN_MRP_Anderseka/SWEN_MRP_Anderseka/System/MediaHandler.cs:41 | the session user, else the given field, else "anonymous" |
| MediaRoutes.CollectionKeepsNumbering | SWEN_MRP_Anderseka/SWEN_MRP_Anderseka/System/MediaHandler.cs:27-80 | a collection request either changes nothing or creates exactly one entry under the next id, answered 201 |
| MediaRoutes.UpdateKeepsNumbering | SWEN_MRP_Anderseka/SWEN_MRP_Anderseka/System/MediaHandler.cs:101-137 | an update keeps the set of ids and touches no other entry |
| MediaRoutes.DeleteKeepsNumbering | SWEN_MRP_Anderseka/SWEN_MRP_Anderseka/System/MediaHandler.cs:138-153 | a delete removes at most the addressed id |
| MediaRoutes.ResourceKeepsNumbering | SWEN_MRP_Anderseka/SWEN_MRP_Anderseka/System/MediaHandler.cs:82-158 | a resource request never moves the next id, and only PUT and DELETE change entries |
| MediaRoutes.EffectKeepsNumbering | SWEN_MRP_Anderseka/SWEN_MRP_Anderseka/System/MediaHandler.cs:15-170 | ids stay below the next id and key their entries; only a POST to the collection moves the next id |
| MediaRoutes.BlankTitleRejected | SWEN_MRP_Anderseka/SWEN_MRP_Anderseka/System/MediaHandler.cs:65-68 | a blank title gets 400 "Title is required." and nothing is stored |
| MediaRoutes.BlankCreatorFails | SWEN_MRP_Anderseka/SWEN_MRP_Anderseka/System/MediaEntry.cs:95 | a blank anonymous creator ends in a 500 with the creator message and nothing is stored |
| MediaRoutes.InvalidIdRejected | SWEN_MRP_Anderseka/SWEN_MRP_Anderseka/System/MediaHandler.cs:85-88 | a non-numeric id gets 400 "Invalid id." whatever the method |
| MediaRoutes.MissingIdNotFound | SWEN_MRP_Anderseka/SWEN_MRP_Anderseka/System/MediaHandler.cs:89-153 | GET, PUT or DELETE of a missing id gets 404 "Not found." and changes nothing |
| MediaRoutes.UpdateKeepsIdentity | SWEN_MRP_Anderseka/SWEN_MRP_Anderseka/System/MediaHandler.cs:101-137 | a successful update keeps the entry's id and creator, stores the new title and answers 200 |
| MediaRoutes.CollectionRoute | SWEN_MRP_Anderseka/SWEN_MRP_Anderseka/System/MediaHandler.cs:27-80 | the media store and the answer follow the collection effect; only POST reads the session |
| MediaRoutes.ResourceRoute | SWEN_MRP_Anderseka/SWEN_MRP_Anderseka/System/MediaHandler.cs:82-158 | the media store and the answer follow the resource effect; only PUT and DELETE with a valid id read the session |
| MediaRoutes.UpdateRoute | SWEN_MRP_Anderseka/SWEN_MRP_Anderseka/System/MediaHandler.cs:101-137 | the media store and the answer follow the update effect for the session user, the `updatedBy` field or "anonymous"; the session store is as after one read of the Session property |
| MediaRoutes.DeleteRoute | SWEN_MRP_Anderseka/SWEN_MRP_Anderseka/System/MediaHandler.cs:138-153 | the media store and the answer follow the delete effect for the session user, the `deletedBy` field or "anonymous"; the session store is as after one read of the Session property |
| MediaRoutes.Handle | SWEN_MRP_Anderseka/SWEN_MRP_Anderseka/System/MediaHandler.cs:15-170 | paths outside /api/media are left alone; an owned request gets exactly the effect's answer and the store becomes the effect's |
| RatingRoutes.Revise | SWEN_MRP_Anderseka/SWEN_MRP_Anderseka/System/RatingHandler.cs:123-128 | an update field that fails to convert fails with the conversion message |
| RatingRoutes.IdText | SWEN_MRP_Anderseka/SWEN_MRP_Anderseka/System/RatingHandler.cs:84 | the id text is the path after "/ratings/" |
| RatingRoutes.EffectKeepsNumbering | SWEN_MRP_Anderseka/SWEN_MRP_Anderseka/System/RatingHandler.cs:9-57 | ids stay below the next id; only POST /ratings moves it, creating exactly the next id |
| RatingRoutes.EmptyUpdateKeeps | SWEN_MRP_Anderseka/SWEN_MRP_Anderseka/System/RatingHandler.cs:125-128 | an update with no fields changes nothing |
| RatingRoutes.ReviseMeaning | SWEN_MRP_Anderseka/SWEN_MRP_Anderseka/System/RatingHandler.cs:125-128 | each field takes the given value or keeps the old one |
| RatingRoutes.FailedUpdateKeepsEarlierFields | SWEN_MRP_Anderseka/SWEN_MRP_Anderseka/System/RatingHandler.cs:125-128 | a failing comment leaves the fields assigned before it written |
| RatingRoutes.OthersUntouched | SWEN_MRP_Anderseka/SWEN_MRP_Anderseka/System/RatingHandler.cs:9-57 | a request leaves every rating it does not address unchanged |
| RatingRoutes.CreateThenGet | SWEN_MRP_Anderseka/SWEN_MRP_Anderseka/System/RatingHandler.cs:59-106 | a created rating reads back by its id with the fields given |
| RatingRoutes.DeleteThenGet | SWEN_MRP_Anderseka/SWEN_MRP_Anderseka/System/RatingHandler.cs:81-155 | a deleted rating answers "Rating deleted." and then reads as not found |
| RatingRoutes.HandleCreate | SWEN_MRP_Anderseka/SWEN_MRP_Anderseka/System/RatingHandler.cs:59-79 | the store after creation follows the create effect |
| RatingRoutes.SaveNew | SWEN_MRP_Anderseka/SWEN_MRP_Anderseka/System/RatingHandler.cs:61-69 | a fresh rating with the given fields is stored under the next id, and the counter moves on by one |
| RatingRoutes.HandleGet | SWEN_MRP_Anderseka/SWEN_MRP_Anderseka/System/RatingHandler.cs:81-106 | the answer is the get effect's answer |
| RatingRoutes.AssignFields | SWEN_MRP_Anderseka/SWEN_MRP_Anderseka/System/RatingHandler.cs:125-128 | the four assignments change the rating as the revision says, keeping its id |
| RatingRoutes.HandleUpdate | SWEN_MRP_Anderseka/SWEN_MRP_Anderseka/System/RatingHandler.cs:108-133 | the stored ratings after an update follow the update effect, including partial writes |
| RatingRoutes.ReviseStored | SWEN_MRP_Anderseka/SWEN_MRP_Anderseka/System/RatingHandler.cs:125-130 | the stored rating takes the revised fields, including those assigned before a conversion error, since the object is the one the store holds; the error is the revision's; no other rating and not the id counter changes |
| RatingRoutes.HandleDelete | SWEN_MRP_Anderseka/SWEN_MRP_Anderseka/System/RatingHandler.cs:135-155 | the stored ratings after a delete follow the delete effect |
| RatingRoutes.Dispatch | SWEN_MRP_Anderseka/SWEN_MRP_Anderseka/System/RatingHandler.cs:18-43 | the routing by method and path follows the rating effect |
| RatingRoutes.Handle | SWEN_MRP_Anderseka/SWEN_MRP_Anderseka/System/RatingHandler.cs:9-57 | paths outside /ratings are left alone; an owned request gets exactly the effect's answer and the store becomes the effect's |
| Handlers.PrefixOf | SWEN_MRP_Anderseka/SWEN_MRP_Anderseka/Handler/Handler.cs:51-55 | every handler prefix is an absolute path of at least two characters |
| Handlers.PrefixesExclusive | SWEN_MRP_Anderseka/SWEN_MRP_Anderseka/Handler/Handler.cs:51-55 | no path is owned by two handlers |
| Handlers.OwnerIsUnique | SWEN_MRP_Anderseka/SWEN_MRP_Anderseka/Handler/Handler.cs:51-55 | a path's owner is the only handler that owns it |
| Handlers.Owner | SWEN_MRP_Anderseka/SWEN_MRP_Anderseka/Handler/Handler.cs:51-55 | the owner found is in the chain and owns the path; when none is found, no handler in the chain owns it |
| Handlers.ResponderIndependentOfOrder | SWEN_MRP_Anderseka/SWEN_MRP_Anderseka/Handler/Handler.cs:31-35 | the owner does not depend on the order in which the handlers were discovered |
| Handlers.Invoked | SWEN_MRP_Anderseka/SWEN_MRP_Anderseka/Handler/Handler.cs:51-55 | at most every handler is called, and the first one always is |
| Handlers.InvokedUpToOwner | SWEN_MRP_Anderseka/SWEN_MRP_Anderseka/Handler/Handler.cs:51-55 | the handlers called before the owner all decline; the owner is the last one called, or all are called when there is none |
| Handlers.InvokedDeclineBeforeLast | SWEN_MRP_Anderseka/SWEN_MRP_Anderseka/Handler/Handler.cs:51-55 | every handler called before the last one declined the path |
| Handlers.InvokedAllWithoutOwner | SWEN_MRP_Anderseka/SWEN_MRP_Anderseka/Handler/Handler.cs:51-55 | when no handler owns the path, every handler is called, in list order |
| Handlers.InvokedEndsAtOwner | SWEN_MRP_Anderseka/SWEN_MRP_Anderseka/Handler/Handler.cs:51-55 | when a handler owns the path, it is the last one called |
| Handlers.SameAnswerInAnyOrder | SWEN_MRP_Anderseka/SWEN_MRP_Anderseka/Handler/Handler.cs:31-55 | in any discovery order the same handler answers |
| Handlers.PrefixRoutesToItsHandler | SWEN_MRP_Anderseka/SWEN_MRP_Anderseka/Handler/Handler.cs:51-55 | a path with a handler's prefix is answered by that handler |
| Handlers.InvokedPrefix | SWEN_MRP_Anderseka/SWEN_MRP_Anderseka/Handler/Handler.cs:51-55 | after i declines the calls so far are the first i handlers, and the next one that owns the path ends the loop |
| Handlers.Invoke | SWEN_MRP_Anderseka/SWEN_MRP_Anderseka/Handler/Handler.cs:53 | a handler that owns the path sends exactly one response; any other handler leaves everything unchanged |
| Handlers.InvokeOnSessions | SWEN_MRP_Anderseka/SWEN_MRP_Anderseka/Handler/Handler.cs:53 | a non-rating handler that owns the path sends exactly one response; one that does not leaves the event and the stores unchanged |
| Handlers.Offer | SWEN_MRP_Anderseka/SWEN_MRP_Anderseka/Handler/Handler.cs:51-55 | the loop calls exactly the handlers up to the owner; the event is responded exactly when there is an owner; nothing changes without one |
| Handlers.HandlerChain.constructor | SWEN_MRP_Anderseka/SWEN_MRP_Anderseka/Handler/Handler.cs:18 | no handler list has been discovered yet |
| Handlers.HandlerChain.HandleEvent | SWEN_MRP_Anderseka/SWEN_MRP_Anderseka/Handler/Handler.cs:49-56 | the handler list is discovered once and cached; the calls and responses are those of the loop |
| Handlers.Serve | SWEN_MRP_Anderseka/SWEN_MRP_Anderseka/Server/HttpRestServer.cs:74-80 | every request gets exactly one response; an unowned path gets 404 "Not found." and no store changes |

## Left out

- Concurrency: the `lock` blocks, the listener loop and `Task.Run` are not modelled. Each request is handled alone, from start to finish.
- Sockets and response encoding: the `HttpListener` context, the UTF-8 encoding of the response body, its content length and content type, and console logging are left out. A response is its status and a structured reply.
- JSON: parsing and serialisation are left out. The request body is a map from field names to JSON values. A body that `JsonNode.Parse` rejects (the exception escapes the constructor) is not modelled.
- Exception messages: the exact .NET messages of JSON conversion failures are one constant. A number with a fraction, a boolean or an object is one opaque JSON value, and reading it as an int or a string is a conversion failure.
- SHA-256 and UTF-8: the digest is the parameter `digest`. The hex rendering, and what matching hashes mean, are modelled.
- Randomness: `Random.Next(0, 62)` is a sequence of draws given as input.
- Clock: `DateTime.UtcNow` is `now`, in ticks. `CreatedAt` of a media entry is not kept.
- Culture: the bearer check's `ToLower` and the routes' `StartsWith(string)` use the current culture in .NET. Here `Text.LowerChar` folds ASCII letters only, and a prefix test compares characters one by one.
- Text.ParseInt: it rejects the leading and trailing white space (tab to carriage return, and space) that `int.TryParse`'s default number style allows, and it takes the sign as ASCII `-` or `+` rather than the current culture's sign symbols.
- MediaRoutes.ParseMediaType: it folds ASCII letters only, where `Enum.TryParse` ignores case for every letter. It does not trim white space around the name, which `Enum.TryParse` does, so `" series "` is Series in .NET but Movie here. It does not accept the numeric forms (`"1"` names Series, and any other integer is an unnamed value of the enum) or the comma-separated forms that `Enum.TryParse` also accepts; these read as Movie here.
- Reflection: handler discovery by reflection is the parameter `discovered`. The assembly version is the parameter `version`.
- Subscription: Program.cs never subscribes `Handler.HandleEvent` to `RequestReceived`, so as the program stands every request gets 404. `Handlers.Serve` models the server with the chain subscribed. Program.cs itself is not part of this model.
- Integer width: `_NextId` of media entries and ratings is unbounded here. Int32 overflow after 2^31 creations is not modelled.
- Value semantics: `MediaEntry` and `Session` objects are values in the model. A handler holding a `MediaEntry` reference that another request changes is not modelled.
- `Media.MediaStore.GetAll`: it returns entries in increasing id order. The source's `Dictionary` enumeration order is unspecified.
- `RatingRoutes.View`: it reads a rating's user name and comment through their getters. A `null` and an empty string are therefore the same here.
- Code over description: where the code and the repository's written description disagree, the model follows the code:
  - session creation does not sweep expired sessions; only a lookup does, as in `Session.Get`;
  - `Respond` is not idempotent, and every call appends a response;
  - a rating update that fails part-way leaves the fields assigned before the failure written;
  - `MediaEntry.Update` and `MediaEntry.Delete` are documented as creator-only (MediaEntry.cs:146-156, 179-183), but the code checks no creator, so any caller may update or delete any entry here too.
- `Handlers.HandlerChain.HandleEvent`, `Handlers.Offer`, `Handlers.Serve`: they state the stores unchanged only when no handler owns the path. For an owned path, the store changes are stated per handler by the `Handle` member of its route module, not again at the chain level.
- Handlers.Invoke: for an owned path it states only that exactly one response is appended, not which response or what store change; those are stated by the `Handle` member of the handler's route module.
- Handlers.InvokeOnSessions: the same as `Handlers.Invoke`, for the four handlers other than the rating handler.
- Media JSON: the rendering of a media entry (`MediaToJson`, MediaHandler.cs:178-193) is abstracted to the entry value inside the reply.
