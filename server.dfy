/**
 * The server object: its two maps and the next-id field are updated in place
 * by Register; Login and Validate read them. Each handler is proved equal to
 * its specification in module Handlers.
 */
module AuthServer {
  import opened Outcomes
  import opened Collaborators
  import opened Handlers

  class Server {
    var users: map<string, string>     // username to password hash
    var userIds: map<string, string>   // username to user id
    var nextUserId: string
    const jwtSecret: Bytes

    /** The abstract value of the server's registry. */
    function State(): Registry
      reads this
    {
      Registry(users, userIds, nextUserId)
    }

    /** A server with empty maps, `firstId` for the first registration and the built-in key. */
    constructor (firstId: string)
      ensures State() == Init(firstId) && State().Aligned() && jwtSecret == JwtKey
    {
      users := map[];
      userIds := map[];
      nextUserId := firstId;
      jwtSecret := JwtKey;
    }

    method Register(username: string, password: string, salt: Bytes, bcrypt: Bcrypt)
      returns (r: Result<string, RegisterError>)
      modifies this
      ensures Step(State(), r) == Handlers.Register(old(State()), username, password, salt, bcrypt)
      ensures old(State().Aligned()) ==> State().Aligned()
    {
      if username in users {
        return Failure(UserExists);
      }
      var hashedPassword := bcrypt.generate(password, salt);
      if hashedPassword.None? {
        return Failure(HashFailed);
      }
      var userId := nextUserId;
      users := users[username := hashedPassword.value];
      userIds := userIds[username := userId];
      nextUserId := Placeholder;
      return Success(userId);
    }

    method Login(username: string, password: string, now: int, bcrypt: Bcrypt, jwt: Jwt)
      returns (r: Result<string, LoginError>)
      ensures r == Handlers.Login(State(), jwtSecret, username, password, now, bcrypt, jwt)
    {
      if username !in users {
        return Failure(UserNotFound);
      }
      var hashedPassword := users[username];
      if !bcrypt.compare(hashedPassword, password) {
        return Failure(InvalidPassword);
      }
      var expirationTime := now + TokenLifetime;
      var claims := Claims(SprintfD(Lookup(userIds, username)), NumericDate(expirationTime));
      var tokenString := jwt.sign(claims, jwtSecret);
      if tokenString.None? {
        return Failure(TokenCreationFailed);
      }
      return Success(tokenString.value);
    }

    method Validate(token: string, now: int, scanned: string, jwt: Jwt) returns (r: ValidateResponse)
      ensures r == Handlers.Validate(jwtSecret, token, now, scanned, jwt)
    {
      var parsed := jwt.parse(token, jwtSecret, now);
      if parsed.ParseError? {
        return ValidateResponse(false, "");
      }
      if !parsed.valid {
        return ValidateResponse(false, "");
      }
      var userUuid := scanned;
      return ValidateResponse(true, userUuid);
    }
  }
}
