/** Issuing an access token. The claim set holds the user id, an expiry
    (`exp`, section 4.1.4 of RFC 7519) fifteen minutes after a first clock
    reading, an issue time (`iat`, section 4.1.6 of RFC 7519) from a second
    clock reading, and the type "access". The two clock readings are
    parameters, in nanoseconds since the Unix epoch, and the HS256 signer
    (section 3.2 of RFC 7518) is an oracle. */
module Jwt {
  import opened Common

  const NanosPerSecond := 1_000_000_000

  /** The token lifetime, fifteen minutes, in seconds. */
  const AccessTokenLifetime := 15 * 60

  /** The signing algorithm named in the token header. */
  const SigningMethod := "HS256"

  datatype Claims = Claims(userId: string, exp: int, iat: int, tokenType: string)

  /** `t.Unix()`: whole seconds, rounded down (also before the epoch). */
  function Unix(nanos: int): int
  {
    nanos / NanosPerSecond
  }

  /** The claims of a fresh access token: the subject is the argument
      unchanged, the type is "access", `exp` is the first reading's second
      plus the lifetime and `iat` is the second reading's second. */
  function AccessClaims(userId: string, firstNow: int, secondNow: int): (c: Claims)
    ensures c.userId == userId && c.tokenType == "access"
    ensures c.exp == Unix(firstNow) + AccessTokenLifetime
    ensures c.iat == Unix(secondNow)
  {
    var expiry := firstNow + AccessTokenLifetime * NanosPerSecond;
    assert expiry / NanosPerSecond == firstNow / NanosPerSecond + AccessTokenLifetime;
    Claims(userId, Unix(expiry), Unix(secondNow), "access")
  }

  /** With a clock that does not run backwards, the validity window
      `exp - iat` is at most the lifetime, and equals it exactly when both
      readings fall in the same second. */
  lemma ValidityWindow(userId: string, firstNow: int, secondNow: int)
    requires firstNow <= secondNow
    ensures var c := AccessClaims(userId, firstNow, secondNow);
      && c.exp - c.iat <= AccessTokenLifetime
      && (c.exp - c.iat == AccessTokenLifetime <==> Unix(firstNow) == Unix(secondNow))
  {
  }

  /** `CreateAccessToken`: the access claims signed with HS256 under the
      configured secret; whatever the signer returns, token or error, is
      returned unchanged. */
  function CreateAccessToken(
    userId: string, firstNow: int, secondNow: int, secret: string,
    sign: (string, Claims, string) -> Result<string>): (r: Result<string>)
    ensures r == sign(SigningMethod, AccessClaims(userId, firstNow, secondNow), secret)
  {
    sign(SigningMethod, AccessClaims(userId, firstNow, secondNow), secret)
  }
}
