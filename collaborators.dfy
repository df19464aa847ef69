/**
 * Stand-ins for the library code the server delegates to: bcrypt hashing,
 * JWT signing and parsing, Go's clock arithmetic and Go's fmt rendering of a
 * string under the %d verb. The foreign calls are oracles (function-valued
 * fields) that may succeed or fail; only what the server itself decides is
 * modelled exactly.
 */
module Collaborators {
  import opened Outcomes

  /** Byte strings: the signing key and the random bcrypt salt. */
  type Bytes = seq<bv8>

  /** The signing key the server is built with: the bytes of the literal "my_key". */
  const JwtKey: Bytes := [0x6d, 0x79, 0x5f, 0x6b, 0x65, 0x79]

  // ---------------------------------------------------------------------------
  // bcrypt

  /**
   * bcrypt at its default cost, as two oracles. `generate(password, salt)` is
   * GenerateFromPassword with the salt it would draw at random made a
   * parameter; None stands for its error. `compare(hash, password)` is true
   * exactly when CompareHashAndPassword returns no error.
   */
  datatype Bcrypt = Bcrypt(generate: (string, Bytes) -> Option<string>, compare: (string, string) -> bool)

  /** The library's own promise: a password matches every hash generated from it. */
  ghost predicate AcceptsOwnHashes(bcrypt: Bcrypt) {
    forall password, salt :: bcrypt.generate(password, salt).Some? ==>
      bcrypt.compare(bcrypt.generate(password, salt).value, password)
  }

  // ---------------------------------------------------------------------------
  // Go time

  /** Durations and instants are counted in nanoseconds, as Go's time package does. */
  const Second: int := 1_000_000_000
  const Minute: int := 60 * Second

  /** How long a token issued by Login stays valid. */
  const TokenLifetime: int := 5 * Minute

  /** jwt.NewNumericDate: the instant truncated to whole seconds (the library's time precision). */
  function NumericDate(t: int): (d: int)
    ensures d % Second == 0
    ensures d <= t < d + Second
  {
    (t / Second) * Second
  }

  // ---------------------------------------------------------------------------
  // JWT

  /** The registered claims the server fills in: `sub` and `exp` (an instant in nanoseconds, whole seconds). */
  datatype Claims = Claims(subject: string, expiresAt: int)

  /** What ParseWithClaims hands back: an error, or the token's claims together with its Valid flag. */
  datatype Parsed = ParseError | Token(claims: Claims, valid: bool)

  /** Accepted without error and flagged valid. */
  predicate Accepted(p: Parsed) {
    p.Token? && p.valid
  }

  /**
   * The JWT library as two oracles, for the signing method the server uses.
   * `sign(claims, key)` is SignedString (None stands for its error);
   * `parse(token, key, now)` is ParseWithClaims, whose own expiry check reads
   * the clock, here the parameter `now`.
   */
  datatype Jwt = Jwt(sign: (Claims, Bytes) -> Option<string>, parse: (string, Bytes, int) -> Parsed)

  /**
   * The library's own promise for a token it signed: parsing it with the same
   * key accepts it exactly while the current instant is before `exp`.
   */
  ghost predicate HonoursExpiry(jwt: Jwt) {
    forall claims, key, now :: jwt.sign(claims, key).Some? ==>
      (Accepted(jwt.parse(jwt.sign(claims, key).value, key, now)) <==> now < claims.expiresAt)
  }

  // ---------------------------------------------------------------------------
  // fmt

  /** The text Go's fmt prints in front of a string operand given to the %d verb. */
  const BadVerbPrefix: string := "%!d(string="

  /**
   * fmt.Sprintf("%d", s) for a string s: %d does not apply to strings, so Go
   * renders the operand as %!d(string=s). The operand survives intact
   * between the fixed prefix and the closing parenthesis, but the result is
   * never s itself.
   */
  function SprintfD(s: string): (r: string)
    ensures |r| == |BadVerbPrefix| + |s| + 1
    ensures r[..|BadVerbPrefix|] == BadVerbPrefix && r[|r| - 1] == ')'
    ensures r[|BadVerbPrefix|..|r| - 1] == s
  {
    BadVerbPrefix + s + ")"
  }

  /** Different operands give different renderings, so the rendered subject still identifies the id. */
  lemma SprintfDInjective(a: string, b: string)
    requires SprintfD(a) == SprintfD(b)
    ensures a == b
  {
  }

  /** The rendering is never the operand itself: the subject of a token is not the user id. */
  lemma SprintfDIsNotOperand(s: string)
    ensures SprintfD(s) != s
  {
  }
}
