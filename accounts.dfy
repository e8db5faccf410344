/** Sessions, the editing guard shared by the mutable entities, and users.
    The three depend on each other (a login looks the user up, a user's
    guard asks the session store whether its session is still present), so
    they form one module.

    The static dictionaries of the source are fields of store objects; the
    wall clock is an integer `now` in .NET ticks (100 ns), and the random
    token characters are given as the draws of rnd.Next(0, 62). */
module Accounts {
  import opened Common
  import opened Text
  import opened Passwords

  /** _ALPHABET: the 62 token characters. The value is the source's single
      literal, written as five runs of digits and letters so that
      AlphabetIsPrintable can bound each run on its own; the verifier does
      not bound every index of one 62-character literal. */
  const Alphabet: string := "1234567890" + "abcdefghijklm" + "nopqrstuvwxyz" + "ABCDEFGHIJKLM" + "NOPQRSTUVWXYZ"
  const TokenLength: nat := 24
  const AdminName: string := "admin"

  /** TIMEOUT_MINUTES, and a minute in ticks. */
  const TimeoutMinutes: int := 30
  const TicksPerMinute: int := 600_000_000

  const InvalidSession: string := "Invalid session."
  const AdminRequired: string := "Admin privileges required."
  const AdminOrOwnerRequired: string := "Admin or owner privileges required."
  const NameFrozen: string := "User name cannot be changed."
  const NameRequired: string := "User name must not be empty."

  /** The shape of every token the store hands out. */
  predicate IsToken(t: string) {
    |t| == TokenLength && forall i :: 0 <= i < |t| ==> t[i] in Alphabet
  }

  /** Token characters are letters and digits, never white space. */
  lemma AlphabetIsPrintable(i: int)
    requires 0 <= i < |Alphabet|
    ensures '0' <= Alphabet[i] <= 'z'
  {
    var d, a, b, u, v := "1234567890", "abcdefghijklm", "nopqrstuvwxyz", "ABCDEFGHIJKLM", "NOPQRSTUVWXYZ";
    assert forall j | 0 <= j < |d| :: '0' <= d[j] <= '9';
    assert forall j | 0 <= j < |a| :: 'a' <= a[j] <= 'z';
    assert forall j | 0 <= j < |b| :: 'a' <= b[j] <= 'z';
    assert forall j | 0 <= j < |u| :: 'A' <= u[j] <= 'Z';
    assert forall j | 0 <= j < |v| :: 'A' <= v[j] <= 'Z';
  }

  /** No token character is white space. */
  lemma TokenHasNoWhiteSpace(token: string, i: int)
    requires IsToken(token) && 0 <= i < |token|
    ensures !IsWhiteSpace(token[i])
  {
    var k :| 0 <= k < |Alphabet| && Alphabet[k] == token[i];
    AlphabetIsPrintable(k);
  }

  /** Results of rnd.Next(0, 62), one per token character. */
  predicate ValidDraws(draws: seq<int>) {
    |draws| == TokenLength && forall i :: 0 <= i < |draws| ==> 0 <= draws[i] < |Alphabet|
  }

  /** The token a session receives for these draws: character i is the
      alphabet character the i-th draw selects. */
  function TokenFrom(draws: seq<int>): (token: string)
    requires ValidDraws(draws)
    ensures IsToken(token)
  {
    seq(TokenLength, i requires 0 <= i < TokenLength => Alphabet[draws[i]])
  }

  /** The token loop of the Session constructor. */
  method MakeToken(draws: seq<int>) returns (token: string)
    requires ValidDraws(draws)
    ensures IsToken(token) && token == TokenFrom(draws)
    ensures forall i :: 0 <= i < TokenLength ==> token[i] == Alphabet[draws[i]]
  {
    token := "";
    for i := 0 to TokenLength
      invariant |token| == i
      invariant forall j :: 0 <= j < i ==> token[j] == Alphabet[draws[j]]
    {
      token := token + [Alphabet[draws[i]]];
    }
  }

  // ---------------------------------------------------------------------
  // Session

  /** A session: its token, its owner, the admin flag fixed when it was
      created, and the time it was last looked up. */
  datatype Session = Session(token: string, userName: string, isAdmin: bool, timestamp: int)

  /** new Session(userName, password), created at `now` with `token`. */
  function NewSession(userName: string, token: string, now: int): Session {
    Session(token, userName, userName == AdminName, now)
  }

  /** Idle for strictly more than TIMEOUT_MINUTES. */
  predicate Expired(s: Session, now: int) {
    now - s.timestamp > TimeoutMinutes * TicksPerMinute
  }

  /** The sessions _Cleanup keeps at time `now`. */
  function Swept(m: map<string, Session>, now: int): map<string, Session> {
    map t | t in m && !Expired(m[t], now) :: m[t]
  }

  /** What Session.Get(token) returns at `now` when the store holds `m`. */
  function Lookup(m: map<string, Session>, token: string, now: int): Option<Session> {
    var live := Swept(m, now);
    if token in live then Some(live[token].(timestamp := now)) else None
  }

  /** The store after Session.Get(token) at `now`. */
  function AfterLookup(m: map<string, Session>, token: string, now: int): map<string, Session> {
    var live := Swept(m, now);
    if token in live then live[token := live[token].(timestamp := now)] else live
  }

  /** A lookup finds exactly the sessions that are stored and not expired,
      hands them back refreshed, and afterwards the store holds exactly the
      unexpired sessions, the found one refreshed and all others as they
      were. */
  lemma LookupMeaning(m: map<string, Session>, token: string, now: int)
    ensures Lookup(m, token, now).Some? <==> token in m && !Expired(m[token], now)
    ensures Lookup(m, token, now).Some? ==> Lookup(m, token, now).value == m[token].(timestamp := now)
    ensures forall t :: t in AfterLookup(m, token, now) <==> t in m && !Expired(m[t], now)
    ensures forall t :: t in AfterLookup(m, token, now) && t != token ==> AfterLookup(m, token, now)[t] == m[t]
    ensures Lookup(m, token, now).Some? ==> AfterLookup(m, token, now)[token] == Lookup(m, token, now).value
  {
  }

  /** A session that was just looked up survives, and is found again, by
      every lookup within the next TIMEOUT_MINUTES. */
  lemma LookupKeepsAlive(m: map<string, Session>, token: string, now: int, later: int)
    requires Lookup(m, token, now).Some?
    requires now <= later <= now + TimeoutMinutes * TicksPerMinute
    ensures Lookup(AfterLookup(m, token, now), token, later)
            == Some(Lookup(m, token, now).value.(timestamp := later))
  {
  }

  /** A session idle for more than TIMEOUT_MINUTES is never found again. */
  lemma ExpiredNeverFound(m: map<string, Session>, token: string, now: int)
    requires token in m && Expired(m[token], now)
    ensures Lookup(m, token, now) == None && token !in AfterLookup(m, token, now)
  {
  }

  /** The session store: Session._Sessions. */
  class SessionStore {
    var sessions: map<string, Session>

    /** Every session is stored under its own token. */
    ghost predicate Valid()
      reads this
    {
      forall t :: t in sessions ==> sessions[t].token == t
    }

    constructor()
      ensures Valid() && sessions == map[]
    {
      sessions := map[];
    }

    /** Session.Valid: the session's token is present in the store. */
    predicate IsValid(s: Session)
      reads this
    {
      s.token in sessions
    }

    /** Session.Create: "admin" logs in with any password; anyone else
        needs a stored user whose hash matches. On success the new session
        is stored under its token, replacing any session stored there. */
    method Create(userName: string, password: string, draws: seq<int>, now: int, users: UserStore)
      returns (s: Option<Session>)
      requires Valid() && ValidDraws(draws)
      modifies this
      ensures Valid()
      ensures s.Some? <==> userName == AdminName || users.Accepts(userName, password)
      ensures s.Some? ==> IsToken(s.value.token) && s.value == NewSession(userName, TokenFrom(draws), now)
      ensures s.Some? ==> sessions == old(sessions)[s.value.token := s.value] && IsValid(s.value)
      ensures s.None? ==> sessions == old(sessions)
    {
      if userName == AdminName {
        var token := MakeToken(draws);
        var session := NewSession(userName, token, now);
        sessions := sessions[token := session];
        return Some(session);
      }

      var user := users.Get(userName, None);
      if user != null {
        var expected := HashPassword(users.digest, userName, password);
        if user.passwordHash == Some(expected) {
          var token := MakeToken(draws);
          var session := NewSession(userName, token, now);
          sessions := sessions[token := session];
          return Some(session);
        }
      }
      return None;
    }

    /** Session.Get: sweep out the expired sessions, then find the token's
        session and refresh its timestamp. */
    method Get(token: string, now: int) returns (s: Option<Session>)
      requires Valid()
      modifies this
      ensures Valid()
      ensures s == Lookup(old(sessions), token, now)
      ensures sessions == AfterLookup(old(sessions), token, now)
    {
      Cleanup(now);
      if token in sessions {
        var found := sessions[token].(timestamp := now);
        sessions := sessions[token := found];
        s := Some(found);
      } else {
        s := None;
      }
    }

    /** Session._Cleanup: collect the expired tokens, then remove them. */
    method Cleanup(now: int)
      modifies this
      ensures sessions == Swept(old(sessions), now)
    {
      var toRemove: seq<string> := [];
      var pending := sessions.Keys;
      while pending != {}
        invariant pending <= sessions.Keys
        invariant sessions == old(sessions)
        invariant forall t :: t in toRemove <==> t in sessions && t !in pending && Expired(sessions[t], now)
        decreases |pending|
      {
        var t :| t in pending;
        if Expired(sessions[t], now) {
          toRemove := toRemove + [t];
        }
        pending := pending - {t};
      }

      var i := 0;
      while i < |toRemove|
        invariant 0 <= i <= |toRemove|
        invariant forall t :: t in sessions <==> t in old(sessions) && t !in toRemove[..i]
        invariant forall t :: t in sessions ==> sessions[t] == old(sessions)[t]
      {
        assert toRemove[..i + 1] == toRemove[..i] + [toRemove[i]];
        sessions := sessions - {toRemove[i]};
        i := i + 1;
      }
      assert toRemove[..i] == toRemove;
    }

    /** Session.Close: remove the session's token, if present. */
    method Close(s: Session)
      requires Valid()
      modifies this
      ensures Valid()
      ensures sessions == old(sessions) - {s.token}
      ensures !IsValid(s)
    {
      if s.token in sessions {
        sessions := sessions - {s.token};
      }
    }
  }

  // ---------------------------------------------------------------------
  // Atom

  /** The editing state every mutable entity carries (Atom), with its
      guards. An entity holds its own Atom object. */
  class Atom {
    var editing: Option<Session>

    constructor(session: Option<Session>)
      ensures editing == session
    {
      editing := session;
    }

    /** The editing session is set and still present in the store. */
    predicate HasValidSession(store: SessionStore)
      reads this, store
    {
      editing.Some? && store.IsValid(editing.value)
    }

    /** What _EnsureAdminOrOwner(owner) lets through. */
    predicate AdminOrOwner(owner: string, store: SessionStore)
      reads this, store
    {
      HasValidSession(store) && (editing.value.isAdmin || editing.value.userName == owner)
    }

    /** _VerifySession(session): adopt a given session as the editing
        session first, then require the editing session to be valid. */
    method VerifySession(session: Option<Session>, store: SessionStore) returns (r: Outcome)
      modifies this
      ensures editing == (if session.Some? then session else old(editing))
      ensures r.Pass? <==> editing.Some? && store.IsValid(editing.value)
      ensures r.Fail? ==> r.message == InvalidSession
    {
      if session.Some? {
        editing := session;
      }
      if editing.None? || !store.IsValid(editing.value) {
        return Fail(InvalidSession);
      }
      return Pass;
    }

    /** BeginEdit(session) */
    method BeginEdit(session: Session, store: SessionStore) returns (r: Outcome)
      modifies this
      ensures editing == Some(session)
      ensures r.Pass? <==> store.IsValid(session)
      ensures r.Fail? ==> r.message == InvalidSession
    {
      r := VerifySession(Some(session), store);
    }

    /** _EndEdit() */
    method EndEdit()
      modifies this
      ensures editing == None
      ensures forall store: SessionStore :: !HasValidSession(store)
    {
      editing := None;
    }

    /** _EnsureAdmin(): a read-only check of the editing session. */
    method EnsureAdmin(store: SessionStore) returns (r: Outcome)
      ensures r.Pass? <==> editing.Some? && store.IsValid(editing.value) && editing.value.isAdmin
      ensures r.Fail? ==> r.message == (if HasValidSession(store) then AdminRequired else InvalidSession)
    {
      if !HasValidSession(store) {
        return Fail(InvalidSession);
      }
      if !editing.value.isAdmin {
        return Fail(AdminRequired);
      }
      return Pass;
    }

    /** _EnsureAdminOrOwner(owner): a read-only check of the editing session. */
    method EnsureAdminOrOwner(owner: string, store: SessionStore) returns (r: Outcome)
      ensures r.Pass? <==> editing.Some? && store.IsValid(editing.value)
                           && (editing.value.isAdmin || editing.value.userName == owner)
      ensures r.Fail? ==> r.message == (if HasValidSession(store) then AdminOrOwnerRequired else InvalidSession)
    {
      if !HasValidSession(store) {
        return Fail(InvalidSession);
      }
      if !(editing.value.isAdmin || editing.value.userName == owner) {
        return Fail(AdminOrOwnerRequired);
      }
      return Pass;
    }
  }

  // ---------------------------------------------------------------------
  // User

  /** A user. The nullable backing fields are kept as options; the
      properties read them with "" for null. */
  class User {
    var userName: Option<string>
    var fullName: Option<string>
    var eMail: Option<string>
    var isNew: bool
    var passwordHash: Option<string>
    const atom: Atom

    constructor(session: Option<Session>)
      ensures isNew && userName == None && fullName == None && eMail == None && passwordHash == None
      ensures fresh(atom) && atom.editing == session
    {
      userName, fullName, eMail, passwordHash := None, None, None, None;
      isNew := true;
      atom := new Atom(session);
    }

    function UserName(): string
      reads this
    {
      userName.GetOr("")
    }

    function FullName(): string
      reads this
    {
      fullName.GetOr("")
    }

    function EMail(): string
      reads this
    {
      eMail.GetOr("")
    }

    /** The UserName setter: only a new user may be named, and only with a
        name that is not blank. */
    method SetUserName(value: string) returns (r: Outcome)
      modifies this
      ensures r.Pass? <==> old(isNew) && !IsBlank(value)
      ensures r.Fail? ==> r.message == (if old(isNew) then NameRequired else NameFrozen) && unchanged(this)
      ensures r.Pass? ==> userName == Some(value)
      ensures fullName == old(fullName) && eMail == old(eMail) && isNew == old(isNew)
      ensures passwordHash == old(passwordHash)
    {
      if !isNew {
        return Fail(NameFrozen);
      }
      if IsBlank(value) {
        return Fail(NameRequired);
      }
      userName := Some(value);
      return Pass;
    }

    /** SetPassword(password): store the hash of the current name and the
        password. */
    method SetPassword(password: string, digest: string -> seq<byte>)
      modifies this
      ensures passwordHash == Some(PasswordHash(digest, UserName(), password))
      ensures userName == old(userName) && fullName == old(fullName) && eMail == old(eMail)
      ensures isNew == old(isNew)
    {
      var hash := HashPassword(digest, UserName(), password);
      passwordHash := Some(hash);
    }

    /** Save(): a new user is stored under its name without any check,
        replacing whoever was stored there; saving a stored user needs an
        admin-or-owner editing session. */
    method Save(store: UserStore, sessions: SessionStore) returns (r: Outcome)
      requires store.Valid()
      modifies this, atom, store
      ensures store.Valid()
      ensures r.Pass? <==> old(isNew) || old(atom.AdminOrOwner(UserName(), sessions))
      ensures r.Fail? ==> unchanged(this, atom, store)
      ensures r.Pass? ==> store.users == old(store.users)[UserName() := this]
      ensures r.Pass? ==> !isNew && atom.editing == None
      ensures userName == old(userName) && fullName == old(fullName) && eMail == old(eMail)
      ensures passwordHash == old(passwordHash)
    {
      if !isNew {
        r := atom.EnsureAdminOrOwner(UserName(), sessions);
        if r.Fail? {
          return;
        }
      }
      store.users := store.users[UserName() := this];
      isNew := false;
      atom.EndEdit();
      r := Pass;
    }

    /** Delete(): always needs an admin-or-owner editing session; then the
        name is removed from the store. */
    method Delete(store: UserStore, sessions: SessionStore) returns (r: Outcome)
      requires store.Valid()
      modifies atom, store
      ensures store.Valid()
      ensures r.Pass? <==> old(atom.AdminOrOwner(UserName(), sessions))
      ensures r.Fail? ==> unchanged(atom, store)
      ensures r.Pass? ==> store.users == old(store.users) - {UserName()} && atom.editing == None
    {
      r := atom.EnsureAdminOrOwner(UserName(), sessions);
      if r.Fail? {
        return;
      }
      if UserName() in store.users {
        store.users := store.users - {UserName()};
      }
      atom.EndEdit();
    }

    /** Refresh(): copy name, mail and hash back from the stored user of the
        same name, if there is one. */
    method Refresh(store: UserStore)
      requires store.Valid()
      modifies this, atom
      ensures store.Valid()
      ensures old(UserName() in store.users) ==>
                var stored := old(store.users[UserName()]);
                fullName == old(stored.fullName) && eMail == old(stored.eMail)
                && passwordHash == old(stored.passwordHash)
      ensures old(UserName() !in store.users) ==>
                fullName == old(fullName) && eMail == old(eMail) && passwordHash == old(passwordHash)
      ensures userName == old(userName) && isNew == old(isNew) && atom.editing == None
    {
      if UserName() in store.users {
        var stored := store.users[UserName()];
        fullName, eMail, passwordHash := stored.fullName, stored.eMail, stored.passwordHash;
      }
      atom.EndEdit();
    }
  }

  /** The user store: User._Users, and the digest _HashPassword applies. */
  class UserStore {
    const digest: string -> seq<byte>
    var users: map<string, User>

    /** Stored users are keyed by their name and are no longer new, so their
        names can no longer change. */
    ghost predicate Valid()
      reads this, users.Values
    {
      forall k :: k in users ==> users[k].UserName() == k && !users[k].isNew
    }

    constructor(digest: string -> seq<byte>)
      ensures Valid() && users == map[] && this.digest == digest
    {
      this.digest := digest;
      users := map[];
    }

    /** The credential check Session.Create applies to a non-admin name. */
    predicate Accepts(userName: string, password: string)
      reads this, users.Values
    {
      userName in users && users[userName].passwordHash == Some(PasswordHash(digest, userName, password))
    }

    /** User.Get(userName, session): without a session any stored user is
        returned; with one, only to an admin or to the user itself, and the
        session becomes the user's editing session. */
    method Get(userName: string, session: Option<Session>) returns (u: User?)
      modifies if session.Some? && userName in users && (session.value.isAdmin || session.value.userName == userName)
               then {users[userName].atom} else {}
      ensures u != null <==> userName in users && (session.None? || session.value.isAdmin || session.value.userName == userName)
      ensures u != null ==> u == users[userName]
      ensures u != null && session.Some? ==> u.atom.editing == session
    {
      if userName in users {
        var user := users[userName];
        if session.Some? && (session.value.isAdmin || session.value.userName == userName) {
          user.atom.editing := session;
          return user;
        } else if session.None? {
          return user;
        }
      }
      return null;
    }
  }
}
