/**
 * The credential registry of the authentication server and its three
 * request handlers, as functions of the registry's state. Register may change
 * the state; Login and Validate only read it.
 */
module Handlers {
  import opened Outcomes
  import opened Collaborators

  /** The value every registration stores as the id for the next one. */
  const Placeholder: string := "new UUID"

  /**
   * The server's mutable state: username to password hash, username to user
   * id, and the id the next registration will hand out.
   */
  datatype Registry = Registry(users: map<string, string>, userIds: map<string, string>, nextUserId: string)
  {
    /** Both maps are written together, so they always share one key set. */
    predicate Aligned() {
      users.Keys == userIds.Keys
    }
  }

  /** A fresh server: no users yet, and `firstId` as the id of the first registration. */
  function Init(firstId: string): Registry {
    Registry(map[], map[], firstId)
  }

  /** A Go map read: a missing key reads as the zero value, the empty string. */
  function Lookup(m: map<string, string>, key: string): string {
    if key in m then m[key] else ""
  }

  /** `s` and `t` hold the same entries, if any, for username `u`. */
  ghost predicate AgreeOn(s: Registry, t: Registry, u: string) {
    && (u in s.users <==> u in t.users)
    && (u in s.users ==> s.users[u] == t.users[u])
    && (u in s.userIds <==> u in t.userIds)
    && (u in s.userIds ==> s.userIds[u] == t.userIds[u])
  }

  // ---------------------------------------------------------------------------
  // Register

  datatype RegisterError =
    | UserExists   // "user with this email already exist"
    | HashFailed   // "failed to hash password: ..."

  /** The state after a call together with the call's reply. */
  datatype Step = Step(next: Registry, reply: Result<string, RegisterError>)

  /**
   * Register(username, password): a known username is refused; otherwise the
   * password is hashed (which may fail); on success the hash and the current
   * `nextUserId` are stored for the username, that id is returned, and
   * `nextUserId` becomes the placeholder. A failure changes nothing.
   */
  function Register(s: Registry, username: string, password: string, salt: Bytes, bcrypt: Bcrypt): (r: Step)
    ensures username in s.users ==> r == Step(s, Failure(UserExists))
    ensures username !in s.users && bcrypt.generate(password, salt).None? ==> r == Step(s, Failure(HashFailed))
    ensures r.reply.Failure? ==> r.next == s
    ensures r.reply.Success? <==> username !in s.users && bcrypt.generate(password, salt).Some?
    ensures r.reply.Success? ==>
      && r.reply.value == s.nextUserId
      && username in r.next.users && r.next.users[username] == bcrypt.generate(password, salt).value
      && username in r.next.userIds && r.next.userIds[username] == s.nextUserId
      && r.next.nextUserId == Placeholder
    ensures r.reply.Success? ==> r.next.users.Keys == s.users.Keys + {username}
    ensures forall u :: u != username ==> AgreeOn(s, r.next, u)
    ensures s.Aligned() ==> r.next.Aligned()
  {
    if username in s.users then
      Step(s, Failure(UserExists))
    else
      match bcrypt.generate(password, salt)
      case None => Step(s, Failure(HashFailed))
      case Some(hashed) =>
        var userId := s.nextUserId;
        Step(Registry(s.users[username := hashed], s.userIds[username := userId], Placeholder), Success(userId))
  }

  // ---------------------------------------------------------------------------
  // Login

  datatype LoginError =
    | UserNotFound          // "user not found"
    | InvalidPassword       // "invalid password"
    | TokenCreationFailed   // "failed to create token: ..."

  /**
   * The claims Login signs for `username` at instant `now`: the subject is the
   * user's stored id as fmt renders it under %d, and the token expires five
   * minutes after `now`, truncated to whole seconds.
   */
  function LoginClaims(s: Registry, username: string, now: int): (c: Claims)
    ensures c.subject == SprintfD(Lookup(s.userIds, username))
    ensures now + TokenLifetime - Second < c.expiresAt <= now + TokenLifetime
  {
    Claims(SprintfD(Lookup(s.userIds, username)), NumericDate(now + TokenLifetime))
  }

  /**
   * Login(username, password): an unknown username and a password the stored
   * hash rejects fail with two distinct errors; otherwise the login claims are
   * signed with `key` and the signed token is returned, unless signing fails.
   */
  function Login(s: Registry, key: Bytes, username: string, password: string, now: int, bcrypt: Bcrypt, jwt: Jwt)
    : (r: Result<string, LoginError>)
    ensures username !in s.users ==> r == Failure(UserNotFound)
    ensures username in s.users && !bcrypt.compare(s.users[username], password) ==> r == Failure(InvalidPassword)
    ensures r.Success? <==>
      && username in s.users
      && bcrypt.compare(s.users[username], password)
      && jwt.sign(LoginClaims(s, username, now), key).Some?
    ensures r.Success? ==> jwt.sign(LoginClaims(s, username, now), key) == Some(r.value)
    ensures
      && username in s.users
      && bcrypt.compare(s.users[username], password)
      && jwt.sign(LoginClaims(s, username, now), key).None?
      ==> r == Failure(TokenCreationFailed)
    ensures r.Failure? && r.error == TokenCreationFailed ==> jwt.sign(LoginClaims(s, username, now), key).None?
  {
    if username !in s.users then
      Failure(UserNotFound)
    else if !bcrypt.compare(s.users[username], password) then
      Failure(InvalidPassword)
    else
      match jwt.sign(LoginClaims(s, username, now), key)
      case None => Failure(TokenCreationFailed)
      case Some(token) => Success(token)
  }

  // ---------------------------------------------------------------------------
  // Validate

  /** The reply of Validate; it never carries an error. */
  datatype ValidateResponse = ValidateResponse(isValid: bool, userUuid: string)

  /**
   * Validate(token): parse the token with `key` at instant `now`. A parse error
   * or a token not flagged valid gives the zero response (not valid, empty id).
   * Otherwise the reply is valid and its id is `scanned`, whatever fmt.Scanf
   * left in the output variable: Scanf reads standard input, using the
   * token's subject as its format, so the id is not derived from the claims.
   */
  function Validate(key: Bytes, token: string, now: int, scanned: string, jwt: Jwt): (r: ValidateResponse)
    ensures r.isValid <==> Accepted(jwt.parse(token, key, now))
    ensures !r.isValid ==> r.userUuid == ""
    ensures r.isValid ==> r.userUuid == scanned
  {
    match jwt.parse(token, key, now)
    case ParseError => ValidateResponse(false, "")
    case Token(_, valid) =>
      if !valid then ValidateResponse(false, "") else ValidateResponse(true, scanned)
  }

  // ---------------------------------------------------------------------------
  // Properties relating the handlers

  /**
   * A user just registered can log in with the same password: Login fails
   * neither with UserNotFound nor with InvalidPassword, and the token it signs
   * names the id Register returned (in its %d rendering).
   */
  lemma LoginAfterRegister(s: Registry, key: Bytes, username: string, password: string, salt: Bytes, now: int,
                           bcrypt: Bcrypt, jwt: Jwt)
    requires AcceptsOwnHashes(bcrypt)
    requires Register(s, username, password, salt, bcrypt).reply.Success?
    ensures var step := Register(s, username, password, salt, bcrypt);
      && Login(step.next, key, username, password, now, bcrypt, jwt) !in {Failure(UserNotFound), Failure(InvalidPassword)}
      && LoginClaims(step.next, username, now).subject == SprintfD(step.reply.value)
  {
  }

  /**
   * A token Login issued at `now` passes Validate at instant `later` exactly
   * while `later` is before its expiry: at least until one second short of five
   * minutes after issue, and never from five minutes after issue on. The
   * premise is the JWT library's own expiry promise.
   */
  lemma LoginTokenExpiry(s: Registry, key: Bytes, username: string, password: string, now: int, later: int,
                         scanned: string, bcrypt: Bcrypt, jwt: Jwt)
    requires HonoursExpiry(jwt)
    requires Login(s, key, username, password, now, bcrypt, jwt).Success?
    ensures var token := Login(s, key, username, password, now, bcrypt, jwt).value;
      && (Validate(key, token, later, scanned, jwt).isValid <==> later < LoginClaims(s, username, now).expiresAt)
      && (later <= now + TokenLifetime - Second ==> Validate(key, token, later, scanned, jwt) == ValidateResponse(true, scanned))
      && (later >= now + TokenLifetime ==> Validate(key, token, later, scanned, jwt) == ValidateResponse(false, ""))
  {
  }
}
