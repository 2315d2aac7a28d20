/** `POST /api/auth/login` of src/app/api/auth/login/route.ts: normalise the
    email, reject an empty email or password with 400, answer both an unknown
    email and a wrong password with the same 401, and otherwise create one
    session and set its cookie. The password check (bcrypt `compare`) is a
    parameter. */
module Login {
  import opened Js
  import opened Schema
  import opened Auth

  /** The JSON body; None stands for an absent or null field. */
  datatype LoginBody = LoginBody(email: Option<string>, password: Option<string>)

  /** The user fields of a successful reply; the password hash is not among them. */
  datatype PublicUser = PublicUser(id: string, email: string, fullName: Option<string>, isSuperadmin: bool)

  /** The `Set-Cookie` of a successful login or signup. */
  datatype SessionCookie = SessionCookie(name: string, value: string, httpOnly: bool,
                                         sameSite: string, path: string, expires: int)

  datatype AuthSuccess = AuthSuccess(user: PublicUser, cookie: SessionCookie)

  const CredentialsRequired: string := "Email and password are required."
  const InvalidCredentials: string := "Invalid email or password."

  /** `normalizeEmail`: `value.trim().toLowerCase()`. */
  function NormalizeEmail(value: string): (r: string)
    ensures |r| <= |value|
    ensures Unpadded(r)
    ensures forall i :: 0 <= i < |r| ==> !('A' <= r[i] <= 'Z')
  {
    var t := Trim(value);
    var r := ToLowerCase(t);
    assert r != [] ==> r[0] == LowerChar(t[0]) && r[|r| - 1] == LowerChar(t[|t| - 1]);
    r
  }

  /** Emails differing only in letter case or surrounding whitespace normalise alike,
      so they look up the same profile. */
  lemma NormalizeEmailIgnoresCaseAndPadding(ws1: string, s: string, ws2: string)
    requires AllSpace(ws1) && AllSpace(ws2)
    ensures NormalizeEmail(ws1 + s + ws2) == NormalizeEmail(s)
    ensures NormalizeEmail(ToLowerCase(s)) == NormalizeEmail(s)
  {
    TrimIgnoresPadding(ws1, s, ws2);
    TrimLower(s);
    ToLowerCaseIdempotent(Trim(s));
  }

  /** Normalising twice is normalising once. */
  lemma NormalizeEmailIdempotent(s: string)
    ensures NormalizeEmail(NormalizeEmail(s)) == NormalizeEmail(s)
  {
    var t := Trim(s);
    TrimIdempotent(s);
    TrimLower(t);
    ToLowerCaseIdempotent(t);
  }

  /** `body?.email ? normalizeEmail(body.email) : ""`. */
  function BodyEmail(email: Option<string>): string {
    if Truthy(email) then NormalizeEmail(email.value) else ""
  }

  /** `body?.password ?? ""`. */
  function BodyPassword(password: Option<string>): string {
    if password.Some? then password.value else ""
  }

  /** `rows[0]` of `select … from profiles where email = $1`. */
  function FindByEmail(profiles: seq<Profile>, email: string): (r: Option<Profile>)
    ensures r.Some? <==> exists p :: p in profiles && p.email == email
    ensures r.Some? ==> r.value in profiles && r.value.email == email
  {
    if profiles == [] then None
    else if profiles[0].email == email then Some(profiles[0])
    else FindByEmail(profiles[1..], email)
  }

  /** The decision chain before the session insert: 400 for a missing credential,
      401 with one message for an unknown email and for a wrong password, and
      otherwise the matching profile. */
  function Authenticate(body: LoginBody, profiles: seq<Profile>,
                        matches: (string, string) -> bool): (r: Reply<Profile>)
    ensures r.Fail? ==> r.status == 400 || r == Fail(401, InvalidCredentials)
    ensures r == Fail(400, CredentialsRequired)
            <==> BodyEmail(body.email) == "" || BodyPassword(body.password) == ""
    ensures r.Ok? ==> r.body in profiles && r.body.email == BodyEmail(body.email)
                      && matches(BodyPassword(body.password), r.body.passwordHash)
    ensures BodyEmail(body.email) != "" && BodyPassword(body.password) != ""
            && (forall p :: p in profiles ==> p.email != BodyEmail(body.email))
            ==> r == Fail(401, InvalidCredentials)
    ensures BodyEmail(body.email) != "" && BodyPassword(body.password) != ""
            && (exists p :: p in profiles && p.email == BodyEmail(body.email))
            && !matches(BodyPassword(body.password), FindByEmail(profiles, BodyEmail(body.email)).value.passwordHash)
            ==> r == Fail(401, InvalidCredentials)
    ensures BodyEmail(body.email) != "" && BodyPassword(body.password) != ""
            && FindByEmail(profiles, BodyEmail(body.email)).Some?
            && matches(BodyPassword(body.password), FindByEmail(profiles, BodyEmail(body.email)).value.passwordHash)
            ==> r == Ok(FindByEmail(profiles, BodyEmail(body.email)).value)
  {
    var email := BodyEmail(body.email);
    var password := BodyPassword(body.password);
    if email == "" || password == "" then Fail(400, CredentialsRequired)
    else
      var user := FindByEmail(profiles, email);
      if user.None? then Fail(401, InvalidCredentials)
      else if !matches(password, user.value.passwordHash) then Fail(401, InvalidCredentials)
      else Ok(user.value)
  }

  /** An unknown email and a wrong password for a known one produce the very same
      reply, so a client cannot tell which of the two failed. */
  lemma FailuresIndistinguishable(b1: LoginBody, b2: LoginBody, profiles: seq<Profile>,
                                  matches: (string, string) -> bool)
    requires BodyEmail(b1.email) != "" && BodyPassword(b1.password) != ""
    requires forall p :: p in profiles ==> p.email != BodyEmail(b1.email)
    requires BodyEmail(b2.email) != "" && BodyPassword(b2.password) != ""
    requires exists p :: p in profiles && p.email == BodyEmail(b2.email)
    requires !matches(BodyPassword(b2.password), FindByEmail(profiles, BodyEmail(b2.email)).value.passwordHash)
    ensures Authenticate(b1, profiles, matches) == Authenticate(b2, profiles, matches)
  {
  }

  /** The cookie both login and signup set: httpOnly, SameSite lax, path "/",
      expiring with the session. */
  function CookieFor(sessionId: string, expiresAt: int): (c: SessionCookie)
    ensures c.name == SESSION_COOKIE && c.value == sessionId && c.expires == expiresAt
    ensures c.httpOnly && c.sameSite == "lax" && c.path == "/"
  {
    SessionCookie(SESSION_COOKIE, sessionId, true, "lax", "/", expiresAt)
  }

  function ToPublic(p: Profile): PublicUser {
    PublicUser(p.id, p.email, p.fullName, p.isSuperadmin)
  }

  /** `POST`: on failure the session table is untouched; on success exactly one
      session row is added for the authenticated profile and its cookie is set. */
  method Post(db: Database, body: LoginBody, matches: (string, string) -> bool,
              freshSessionId: string, now: int)
    returns (reply: Reply<AuthSuccess>)
    requires forall s :: s in db.userSessions ==> s.id != freshSessionId
    modifies db`userSessions
    ensures var a := Authenticate(body, old(db.profiles), matches);
            && (a.Fail? ==> reply == Fail(a.status, a.error) && db.userSessions == old(db.userSessions))
            && (a.Ok? ==> && db.userSessions == old(db.userSessions) + [SessionRow(freshSessionId, a.body.id, now + SessionTtlMs)]
                          && reply == Ok(AuthSuccess(ToPublic(a.body), CookieFor(freshSessionId, now + SessionTtlMs))))
  {
    var a := Authenticate(body, db.profiles, matches);
    if a.Fail? {
      return Fail(a.status, a.error);
    }
    var user := a.body;
    var sessionId, expiresAt := CreateSession(db, user.id, freshSessionId, now);
    reply := Ok(AuthSuccess(ToPublic(user), CookieFor(sessionId, expiresAt)));
  }
}
